/** `src/tools/problem.py`: `problem_get`, a read whose `recent` switch is left
    out when false. */
module Problem {
  import opened Wrappers
  import opened Values
  import opened Registry

  /** The optional entries of `problem_get`, keyed by their API names. */
  function Filters(eventids: Value, groupids: Value, hostids: Value, objectids: Value, timeFrom: Value,
                   timeTill: Value, recent: bool, severities: Value, limit: Value): (m: Params)
    ensures m.Keys == {"eventids", "groupids", "hostids", "objectids", "time_from", "time_till", "recent", "severities", "limit"}
    ensures m["eventids"] == eventids && m["groupids"] == groupids && m["hostids"] == hostids
    ensures m["objectids"] == objectids && m["time_from"] == timeFrom && m["time_till"] == timeTill
    ensures m["recent"] == FlagValue(recent) && m["severities"] == severities && m["limit"] == limit
  {
    map["eventids" := eventids, "groupids" := groupids, "hostids" := hostids,
        "objectids" := objectids, "time_from" := timeFrom, "time_till" := timeTill,
        "recent" := FlagValue(recent), "severities" := severities, "limit" := limit]
  }

  /** `problem_get`: a read; `output` is always sent, `recent` only when on, every other filter only when given. */
  function Get(eventids: Value := VNull, groupids: Value := VNull, hostids: Value := VNull,
               objectids: Value := VNull, output: Value := VStr("extend"), timeFrom: Value := VNull,
               timeTill: Value := VNull, recent: bool := false, severities: Value := VNull,
               limit: Value := VNull, extraParams: Option<Params> := None): (r: Request)
    ensures r.ViaGet? && r.apiObject == "problem" && r.apiMethod == "get"
    ensures SendsIfGiven(r.params, extraParams, "eventids", eventids)
    ensures SendsIfGiven(r.params, extraParams, "groupids", groupids)
    ensures SendsIfGiven(r.params, extraParams, "hostids", hostids)
    ensures SendsIfGiven(r.params, extraParams, "objectids", objectids)
    ensures SendsAlways(r.params, extraParams, "output", output)
    ensures SendsIfGiven(r.params, extraParams, "time_from", timeFrom)
    ensures SendsIfGiven(r.params, extraParams, "time_till", timeTill)
    ensures SendsFlag(r.params, extraParams, "recent", recent)
    ensures SendsIfGiven(r.params, extraParams, "severities", severities)
    ensures SendsIfGiven(r.params, extraParams, "limit", limit)
    ensures ExtraWins(r.params, extraParams)
    ensures OnlyKeys(r.params, {"eventids", "groupids", "hostids", "objectids", "output", "time_from", "time_till", "recent", "severities", "limit"}, extraParams)
  {
    var required := map["output" := output];
    var optional := Filters(eventids, groupids, hostids, objectids, timeFrom, timeTill, recent, severities, limit);
    RequiredKeySent(required, optional, extraParams, "output");
    OptionalKeySent(required, optional, extraParams, "eventids");
    OptionalKeySent(required, optional, extraParams, "groupids");
    OptionalKeySent(required, optional, extraParams, "hostids");
    OptionalKeySent(required, optional, extraParams, "objectids");
    OptionalKeySent(required, optional, extraParams, "time_from");
    OptionalKeySent(required, optional, extraParams, "time_till");
    OptionalKeySent(required, optional, extraParams, "recent");
    OptionalKeySent(required, optional, extraParams, "severities");
    OptionalKeySent(required, optional, extraParams, "limit");
    ExtraAppliedLast(required, optional, extraParams);
    ViaGet("problem", "get", BuildParams(required, optional, extraParams))
  }
}
