/** `src/tools/templategroup.py`: the template group tools. Every one is a row of the tool
    table; `propagate` turns its two boolean switches into optional entries
    that are left out when false. */
module Templategroup {
  import opened Wrappers
  import opened Values
  import opened Core
  import opened Registry

  /** `templategroup_get`: a read; `output` is always sent, every filter only when given. */
  function Get(groupids: Value := VNull, output: Value := VStr("extend"), search: Value := VNull,
               filter: Value := VNull, extraParams: Option<Params> := None): (r: Request)
    ensures r.ViaGet? && r.apiObject == "templategroup" && r.apiMethod == "get"
    ensures SendsIfGiven(r.params, extraParams, "groupids", groupids)
    ensures SendsAlways(r.params, extraParams, "output", output)
    ensures SendsIfGiven(r.params, extraParams, "search", search)
    ensures SendsIfGiven(r.params, extraParams, "filter", filter)
    ensures ExtraWins(r.params, extraParams)
    ensures OnlyKeys(r.params, {"groupids", "output", "search", "filter"}, extraParams)
  {
    var required := map["output" := output];
    var optional := map["groupids" := groupids, "search" := search, "filter" := filter];
    RequiredKeySent(required, optional, extraParams, "output");
    OptionalKeySent(required, optional, extraParams, "groupids");
    OptionalKeySent(required, optional, extraParams, "search");
    OptionalKeySent(required, optional, extraParams, "filter");
    ExtraAppliedLast(required, optional, extraParams);
    ViaGet("templategroup", "get", BuildParams(required, optional, extraParams))
  }

  /** `templategroup_create`: a write sending `name` and nothing else of its own. */
  function Create(name: Value, extraParams: Option<Params> := None): (r: Request)
    ensures r.ViaWrite? && r.apiObject == "templategroup" && r.apiMethod == "create"
    ensures SendsAlways(r.params, extraParams, "name", name)
    ensures ExtraWins(r.params, extraParams)
    ensures OnlyKeys(r.params, {"name"}, extraParams)
  {
    var required := map["name" := name];
    var optional: Params := map[];
    RequiredKeySent(required, optional, extraParams, "name");
    ExtraAppliedLast(required, optional, extraParams);
    ViaWrite("templategroup", "create", BuildParams(required, optional, extraParams))
  }

  /** `templategroup_update`: a write sending `groupid` and `name`. */
  function Update(groupid: Value, name: Value, extraParams: Option<Params> := None): (r: Request)
    ensures r.ViaWrite? && r.apiObject == "templategroup" && r.apiMethod == "update"
    ensures SendsAlways(r.params, extraParams, "groupid", groupid)
    ensures SendsAlways(r.params, extraParams, "name", name)
    ensures ExtraWins(r.params, extraParams)
    ensures OnlyKeys(r.params, {"groupid", "name"}, extraParams)
  {
    var required := map["groupid" := groupid, "name" := name];
    var optional: Params := map[];
    RequiredKeySent(required, optional, extraParams, "groupid");
    RequiredKeySent(required, optional, extraParams, "name");
    ExtraAppliedLast(required, optional, extraParams);
    ViaWrite("templategroup", "update", BuildParams(required, optional, extraParams))
  }

  /** `templategroup_delete`: the generic guarded delete of `templategroup`. */
  function Delete(groupids: seq<Value>): (r: Request)
    // refused in read-only mode, with nothing created and nothing called
    ensures forall st: State, remote: Remote | IsReadOnly(st.env) :: Run(st, remote, r) == Step(st, Failure(ReadOnlyMode))
    // otherwise, once a client is held, the ids are the positional arguments of `templategroup.delete`
    ensures forall st: State, remote: Remote | !IsReadOnly(st.env) && st.slot.Some? ::
      Run(st, remote, r).state.log == st.log + [Positional("templategroup", "delete", groupids)]
  {
    ViaDelete("templategroup", groupids)
  }

  /** `templategroup_massadd`: a write; `groups` is always sent. */
  function MassAdd(groups: Value, templates: Value := VNull,
                   extraParams: Option<Params> := None): (r: Request)
    ensures r.ViaWrite? && r.apiObject == "templategroup" && r.apiMethod == "massadd"
    ensures SendsAlways(r.params, extraParams, "groups", groups)
    ensures SendsIfGiven(r.params, extraParams, "templates", templates)
    ensures ExtraWins(r.params, extraParams)
    ensures OnlyKeys(r.params, {"groups", "templates"}, extraParams)
  {
    var required := map["groups" := groups];
    var optional := map["templates" := templates];
    RequiredKeySent(required, optional, extraParams, "groups");
    OptionalKeySent(required, optional, extraParams, "templates");
    ExtraAppliedLast(required, optional, extraParams);
    ViaWrite("templategroup", "massadd", BuildParams(required, optional, extraParams))
  }

  /** `templategroup_massremove`: a write; `groupids` is always sent. */
  function MassRemove(groupids: Value, templateids: Value := VNull,
                      extraParams: Option<Params> := None): (r: Request)
    ensures r.ViaWrite? && r.apiObject == "templategroup" && r.apiMethod == "massremove"
    ensures SendsAlways(r.params, extraParams, "groupids", groupids)
    ensures SendsIfGiven(r.params, extraParams, "templateids", templateids)
    ensures ExtraWins(r.params, extraParams)
    ensures OnlyKeys(r.params, {"groupids", "templateids"}, extraParams)
  {
    var required := map["groupids" := groupids];
    var optional := map["templateids" := templateids];
    RequiredKeySent(required, optional, extraParams, "groupids");
    OptionalKeySent(required, optional, extraParams, "templateids");
    ExtraAppliedLast(required, optional, extraParams);
    ViaWrite("templategroup", "massremove", BuildParams(required, optional, extraParams))
  }

  /** `templategroup_massupdate`: a write; `groups` is always sent. */
  function MassUpdate(groups: Value, templates: Value := VNull,
                      extraParams: Option<Params> := None): (r: Request)
    ensures r.ViaWrite? && r.apiObject == "templategroup" && r.apiMethod == "massupdate"
    ensures SendsAlways(r.params, extraParams, "groups", groups)
    ensures SendsIfGiven(r.params, extraParams, "templates", templates)
    ensures ExtraWins(r.params, extraParams)
    ensures OnlyKeys(r.params, {"groups", "templates"}, extraParams)
  {
    var required := map["groups" := groups];
    var optional := map["templates" := templates];
    RequiredKeySent(required, optional, extraParams, "groups");
    OptionalKeySent(required, optional, extraParams, "templates");
    ExtraAppliedLast(required, optional, extraParams);
    ViaWrite("templategroup", "massupdate", BuildParams(required, optional, extraParams))
  }

  /** `templategroup_propagate`: a write; a switch that is off is not sent at all, one that is on is sent as `true`. */
  function Propagate(groups: Value, permissions: bool := false, tagFilters: bool := false,
                     extraParams: Option<Params> := None): (r: Request)
    ensures r.ViaWrite? && r.apiObject == "templategroup" && r.apiMethod == "propagate"
    ensures SendsAlways(r.params, extraParams, "groups", groups)
    ensures SendsFlag(r.params, extraParams, "permissions", permissions)
    ensures SendsFlag(r.params, extraParams, "tag_filters", tagFilters)
    ensures ExtraWins(r.params, extraParams)
    ensures OnlyKeys(r.params, {"groups", "permissions", "tag_filters"}, extraParams)
  {
    var required := map["groups" := groups];
    var optional := map["permissions" := FlagValue(permissions), "tag_filters" := FlagValue(tagFilters)];
    RequiredKeySent(required, optional, extraParams, "groups");
    OptionalKeySent(required, optional, extraParams, "permissions");
    OptionalKeySent(required, optional, extraParams, "tag_filters");
    ExtraAppliedLast(required, optional, extraParams);
    ViaWrite("templategroup", "propagate", BuildParams(required, optional, extraParams))
  }
}
