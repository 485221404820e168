/** `src/tools/usermacro.py`: the user macro tools. All but one are rows of the
    tool table; `usermacro_deleteglobal` guards and calls the client itself. */
module Usermacro {
  import opened Wrappers
  import opened Values
  import opened Core
  import opened Registry

  /** `usermacro_get`: a read; `output` is always sent, every filter only when given. */
  function Get(globalmacroids: Value := VNull, hostids: Value := VNull, output: Value := VStr("extend"),
               search: Value := VNull, filter: Value := VNull,
               extraParams: Option<Params> := None): (r: Request)
    ensures r.ViaGet? && r.apiObject == "usermacro" && r.apiMethod == "get"
    ensures SendsIfGiven(r.params, extraParams, "globalmacroids", globalmacroids)
    ensures SendsIfGiven(r.params, extraParams, "hostids", hostids)
    ensures SendsAlways(r.params, extraParams, "output", output)
    ensures SendsIfGiven(r.params, extraParams, "search", search)
    ensures SendsIfGiven(r.params, extraParams, "filter", filter)
    ensures ExtraWins(r.params, extraParams)
    ensures OnlyKeys(r.params, {"globalmacroids", "hostids", "output", "search", "filter"}, extraParams)
  {
    var required := map["output" := output];
    var optional := map["globalmacroids" := globalmacroids, "hostids" := hostids, "search" := search,
                        "filter" := filter];
    RequiredKeySent(required, optional, extraParams, "output");
    OptionalKeySent(required, optional, extraParams, "globalmacroids");
    OptionalKeySent(required, optional, extraParams, "hostids");
    OptionalKeySent(required, optional, extraParams, "search");
    OptionalKeySent(required, optional, extraParams, "filter");
    ExtraAppliedLast(required, optional, extraParams);
    ViaGet("usermacro", "get", BuildParams(required, optional, extraParams))
  }

  /** `usermacro_create`: a write; the macro type defaults to 0 (text) and is always sent. */
  function Create(hostid: Value, macro: Value, value: Value, macroType: Value := VInt(0),
                  description: Value := VNull, extraParams: Option<Params> := None): (r: Request)
    ensures r.ViaWrite? && r.apiObject == "usermacro" && r.apiMethod == "create"
    ensures SendsAlways(r.params, extraParams, "hostid", hostid)
    ensures SendsAlways(r.params, extraParams, "macro", macro)
    ensures SendsAlways(r.params, extraParams, "value", value)
    ensures SendsAlways(r.params, extraParams, "type", macroType)
    ensures SendsIfGiven(r.params, extraParams, "description", description)
    ensures ExtraWins(r.params, extraParams)
    ensures OnlyKeys(r.params, {"hostid", "macro", "value", "type", "description"}, extraParams)
  {
    var required := map["hostid" := hostid, "macro" := macro, "value" := value, "type" := macroType];
    var optional := map["description" := description];
    RequiredKeySent(required, optional, extraParams, "hostid");
    RequiredKeySent(required, optional, extraParams, "macro");
    RequiredKeySent(required, optional, extraParams, "value");
    RequiredKeySent(required, optional, extraParams, "type");
    OptionalKeySent(required, optional, extraParams, "description");
    ExtraAppliedLast(required, optional, extraParams);
    ViaWrite("usermacro", "create", BuildParams(required, optional, extraParams))
  }

  /** `usermacro_createglobal`: as `Create` without a host, under the method `createglobal`. */
  function CreateGlobal(macro: Value, value: Value, macroType: Value := VInt(0), description: Value := VNull,
                        extraParams: Option<Params> := None): (r: Request)
    ensures r.ViaWrite? && r.apiObject == "usermacro" && r.apiMethod == "createglobal"
    ensures SendsAlways(r.params, extraParams, "macro", macro)
    ensures SendsAlways(r.params, extraParams, "value", value)
    ensures SendsAlways(r.params, extraParams, "type", macroType)
    ensures SendsIfGiven(r.params, extraParams, "description", description)
    ensures ExtraWins(r.params, extraParams)
    ensures OnlyKeys(r.params, {"macro", "value", "type", "description"}, extraParams)
  {
    var required := map["macro" := macro, "value" := value, "type" := macroType];
    var optional := map["description" := description];
    RequiredKeySent(required, optional, extraParams, "macro");
    RequiredKeySent(required, optional, extraParams, "value");
    RequiredKeySent(required, optional, extraParams, "type");
    OptionalKeySent(required, optional, extraParams, "description");
    ExtraAppliedLast(required, optional, extraParams);
    ViaWrite("usermacro", "createglobal", BuildParams(required, optional, extraParams))
  }

  /** `usermacro_update`: a write; only `hostmacroid` is always sent. */
  function Update(hostmacroid: Value, macro: Value := VNull, value: Value := VNull,
                  macroType: Value := VNull, description: Value := VNull,
                  extraParams: Option<Params> := None): (r: Request)
    ensures r.ViaWrite? && r.apiObject == "usermacro" && r.apiMethod == "update"
    ensures SendsAlways(r.params, extraParams, "hostmacroid", hostmacroid)
    ensures SendsIfGiven(r.params, extraParams, "macro", macro)
    ensures SendsIfGiven(r.params, extraParams, "value", value)
    ensures SendsIfGiven(r.params, extraParams, "type", macroType)
    ensures SendsIfGiven(r.params, extraParams, "description", description)
    ensures ExtraWins(r.params, extraParams)
    ensures OnlyKeys(r.params, {"hostmacroid", "macro", "value", "type", "description"}, extraParams)
  {
    var required := map["hostmacroid" := hostmacroid];
    var optional := map["macro" := macro, "value" := value, "type" := macroType,
                        "description" := description];
    RequiredKeySent(required, optional, extraParams, "hostmacroid");
    OptionalKeySent(required, optional, extraParams, "macro");
    OptionalKeySent(required, optional, extraParams, "value");
    OptionalKeySent(required, optional, extraParams, "type");
    OptionalKeySent(required, optional, extraParams, "description");
    ExtraAppliedLast(required, optional, extraParams);
    ViaWrite("usermacro", "update", BuildParams(required, optional, extraParams))
  }

  /** `usermacro_updateglobal`: a write; only `globalmacroid` is always sent. */
  function UpdateGlobal(globalmacroid: Value, macro: Value := VNull, value: Value := VNull,
                        macroType: Value := VNull, description: Value := VNull,
                        extraParams: Option<Params> := None): (r: Request)
    ensures r.ViaWrite? && r.apiObject == "usermacro" && r.apiMethod == "updateglobal"
    ensures SendsAlways(r.params, extraParams, "globalmacroid", globalmacroid)
    ensures SendsIfGiven(r.params, extraParams, "macro", macro)
    ensures SendsIfGiven(r.params, extraParams, "value", value)
    ensures SendsIfGiven(r.params, extraParams, "type", macroType)
    ensures SendsIfGiven(r.params, extraParams, "description", description)
    ensures ExtraWins(r.params, extraParams)
    ensures OnlyKeys(r.params, {"globalmacroid", "macro", "value", "type", "description"}, extraParams)
  {
    var required := map["globalmacroid" := globalmacroid];
    var optional := map["macro" := macro, "value" := value, "type" := macroType,
                        "description" := description];
    RequiredKeySent(required, optional, extraParams, "globalmacroid");
    OptionalKeySent(required, optional, extraParams, "macro");
    OptionalKeySent(required, optional, extraParams, "value");
    OptionalKeySent(required, optional, extraParams, "type");
    OptionalKeySent(required, optional, extraParams, "description");
    ExtraAppliedLast(required, optional, extraParams);
    ViaWrite("usermacro", "updateglobal", BuildParams(required, optional, extraParams))
  }

  /** `usermacro_delete`: the generic guarded delete of host macros. */
  function Delete(hostmacroids: seq<Value>): (r: Request)
    // refused in read-only mode, with nothing created and nothing called
    ensures forall st: State, remote: Remote | IsReadOnly(st.env) :: Run(st, remote, r) == Step(st, Failure(ReadOnlyMode))
    // otherwise, once a client is held, the ids are the positional arguments of `usermacro.delete`
    ensures forall st: State, remote: Remote | !IsReadOnly(st.env) && st.slot.Some? ::
      Run(st, remote, r).state.log == st.log + [Positional("usermacro", "delete", hostmacroids)]
  {
    ViaDelete("usermacro", hostmacroids)
  }

  /** `usermacro_deleteglobal`: the read-only guard written inline, then the
      client, then `usermacro.deleteglobal` with the ids as positional
      arguments — the same behaviour as a guarded delete under another method. */
  function DeleteGlobal(st: State, remote: Remote, globalmacroids: seq<Value>): (o: Step<Value>)
    ensures IsReadOnly(st.env) ==> o == Step(st, Failure(ReadOnlyMode))
    ensures !IsReadOnly(st.env) ==>
      ObtainsClientThenCalls(st, remote, Positional("usermacro", "deleteglobal", globalmacroids), o)
    ensures !IsReadOnly(st.env) && st.slot.Some? ==>
      && o.state == st.(log := st.log + [Positional("usermacro", "deleteglobal", globalmacroids)])
      && o.result == Reply(remote(Positional("usermacro", "deleteglobal", globalmacroids)))
    ensures o.state.env == st.env
    ensures SessionStep(st, o.state)
  {
    var guard := ValidateReadOnly(st.env);
    if guard.Fail? then Step(st, Failure(guard.error))
    else
      var c := GetClient(st, remote);
      if c.result.Failure? then Step(c.state, Failure(c.result.error))
      else
        SessionStepThenCall(st, c.state, Positional("usermacro", "deleteglobal", globalmacroids));
        Perform(c.state, remote, Positional("usermacro", "deleteglobal", globalmacroids))
  }
}
