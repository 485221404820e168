/** `src/tools/hostgroup.py`: the host group tools. Every one is a row of the tool
    table; `propagate` turns its two boolean switches into optional entries
    that are left out when false. */
module Hostgroup {
  import opened Wrappers
  import opened Values
  import opened Core
  import opened Registry

  /** `hostgroup_get`: a read; `output` is always sent, every filter only when given. */
  function Get(groupids: Value := VNull, output: Value := VStr("extend"), search: Value := VNull,
               filter: Value := VNull, extraParams: Option<Params> := None): (r: Request)
    ensures r.ViaGet? && r.apiObject == "hostgroup" && r.apiMethod == "get"
    ensures SendsIfGiven(r.params, extraParams, "groupids", groupids)
    ensures SendsAlways(r.params, extraParams, "output", output)
    ensures SendsIfGiven(r.params, extraParams, "search", search)
    ensures SendsIfGiven(r.params, extraParams, "filter", filter)
    ensures ExtraWins(r.params, extraParams)
    ensures OnlyKeys(r.params, {"groupids", "output", "search", "filter"}, extraParams)
  {
    var required := map["output" := output];
    var optional := map["groupids" := groupids, "search" := search, "filter" := filter];
    RequiredKeySent(required, optional, extraParams, "output");
    OptionalKeySent(required, optional, extraParams, "groupids");
    OptionalKeySent(required, optional, extraParams, "search");
    OptionalKeySent(required, optional, extraParams, "filter");
    ExtraAppliedLast(required, optional, extraParams);
    ViaGet("hostgroup", "get", BuildParams(required, optional, extraParams))
  }

  /** `hostgroup_create`: a write sending `name` and nothing else of its own. */
  function Create(name: Value, extraParams: Option<Params> := None): (r: Request)
    ensures r.ViaWrite? && r.apiObject == "hostgroup" && r.apiMethod == "create"
    ensures SendsAlways(r.params, extraParams, "name", name)
    ensures ExtraWins(r.params, extraParams)
    ensures OnlyKeys(r.params, {"name"}, extraParams)
  {
    var required := map["name" := name];
    var optional: Params := map[];
    RequiredKeySent(required, optional, extraParams, "name");
    ExtraAppliedLast(required, optional, extraParams);
    ViaWrite("hostgroup", "create", BuildParams(required, optional, extraParams))
  }

  /** `hostgroup_update`: a write sending `groupid` and `name`. */
  function Update(groupid: Value, name: Value, extraParams: Option<Params> := None): (r: Request)
    ensures r.ViaWrite? && r.apiObject == "hostgroup" && r.apiMethod == "update"
    ensures SendsAlways(r.params, extraParams, "groupid", groupid)
    ensures SendsAlways(r.params, extraParams, "name", name)
    ensures ExtraWins(r.params, extraParams)
    ensures OnlyKeys(r.params, {"groupid", "name"}, extraParams)
  {
    var required := map["groupid" := groupid, "name" := name];
    var optional: Params := map[];
    RequiredKeySent(required, optional, extraParams, "groupid");
    RequiredKeySent(required, optional, extraParams, "name");
    ExtraAppliedLast(required, optional, extraParams);
    ViaWrite("hostgroup", "update", BuildParams(required, optional, extraParams))
  }

  /** `hostgroup_delete`: the generic guarded delete of `hostgroup`. */
  function Delete(groupids: seq<Value>): (r: Request)
    // refused in read-only mode, with nothing created and nothing called
    ensures forall st: State, remote: Remote | IsReadOnly(st.env) :: Run(st, remote, r) == Step(st, Failure(ReadOnlyMode))
    // otherwise, once a client is held, the ids are the positional arguments of `hostgroup.delete`
    ensures forall st: State, remote: Remote | !IsReadOnly(st.env) && st.slot.Some? ::
      Run(st, remote, r).state.log == st.log + [Positional("hostgroup", "delete", groupids)]
  {
    ViaDelete("hostgroup", groupids)
  }

  /** `hostgroup_massadd`: a write; `groups` is always sent. */
  function MassAdd(groups: Value, hosts: Value := VNull, templates: Value := VNull,
                   extraParams: Option<Params> := None): (r: Request)
    ensures r.ViaWrite? && r.apiObject == "hostgroup" && r.apiMethod == "massadd"
    ensures SendsAlways(r.params, extraParams, "groups", groups)
    ensures SendsIfGiven(r.params, extraParams, "hosts", hosts)
    ensures SendsIfGiven(r.params, extraParams, "templates", templates)
    ensures ExtraWins(r.params, extraParams)
    ensures OnlyKeys(r.params, {"groups", "hosts", "templates"}, extraParams)
  {
    var required := map["groups" := groups];
    var optional := map["hosts" := hosts, "templates" := templates];
    RequiredKeySent(required, optional, extraParams, "groups");
    OptionalKeySent(required, optional, extraParams, "hosts");
    OptionalKeySent(required, optional, extraParams, "templates");
    ExtraAppliedLast(required, optional, extraParams);
    ViaWrite("hostgroup", "massadd", BuildParams(required, optional, extraParams))
  }

  /** `hostgroup_massremove`: a write; `groupids` is always sent. */
  function MassRemove(groupids: Value, hostids: Value := VNull, templateids: Value := VNull,
                      extraParams: Option<Params> := None): (r: Request)
    ensures r.ViaWrite? && r.apiObject == "hostgroup" && r.apiMethod == "massremove"
    ensures SendsAlways(r.params, extraParams, "groupids", groupids)
    ensures SendsIfGiven(r.params, extraParams, "hostids", hostids)
    ensures SendsIfGiven(r.params, extraParams, "templateids", templateids)
    ensures ExtraWins(r.params, extraParams)
    ensures OnlyKeys(r.params, {"groupids", "hostids", "templateids"}, extraParams)
  {
    var required := map["groupids" := groupids];
    var optional := map["hostids" := hostids, "templateids" := templateids];
    RequiredKeySent(required, optional, extraParams, "groupids");
    OptionalKeySent(required, optional, extraParams, "hostids");
    OptionalKeySent(required, optional, extraParams, "templateids");
    ExtraAppliedLast(required, optional, extraParams);
    ViaWrite("hostgroup", "massremove", BuildParams(required, optional, extraParams))
  }

  /** `hostgroup_massupdate`: a write; `groups` is always sent. */
  function MassUpdate(groups: Value, hosts: Value := VNull, templates: Value := VNull,
                      extraParams: Option<Params> := None): (r: Request)
    ensures r.ViaWrite? && r.apiObject == "hostgroup" && r.apiMethod == "massupdate"
    ensures SendsAlways(r.params, extraParams, "groups", groups)
    ensures SendsIfGiven(r.params, extraParams, "hosts", hosts)
    ensures SendsIfGiven(r.params, extraParams, "templates", templates)
    ensures ExtraWins(r.params, extraParams)
    ensures OnlyKeys(r.params, {"groups", "hosts", "templates"}, extraParams)
  {
    var required := map["groups" := groups];
    var optional := map["hosts" := hosts, "templates" := templates];
    RequiredKeySent(required, optional, extraParams, "groups");
    OptionalKeySent(required, optional, extraParams, "hosts");
    OptionalKeySent(required, optional, extraParams, "templates");
    ExtraAppliedLast(required, optional, extraParams);
    ViaWrite("hostgroup", "massupdate", BuildParams(required, optional, extraParams))
  }

  /** `hostgroup_propagate`: a write; a switch that is off is not sent at all, one that is on is sent as `true`. */
  function Propagate(groups: Value, permissions: bool := false, tagFilters: bool := false,
                     extraParams: Option<Params> := None): (r: Request)
    ensures r.ViaWrite? && r.apiObject == "hostgroup" && r.apiMethod == "propagate"
    ensures SendsAlways(r.params, extraParams, "groups", groups)
    ensures SendsFlag(r.params, extraParams, "permissions", permissions)
    ensures SendsFlag(r.params, extraParams, "tag_filters", tagFilters)
    ensures ExtraWins(r.params, extraParams)
    ensures OnlyKeys(r.params, {"groups", "permissions", "tag_filters"}, extraParams)
  {
    var required := map["groups" := groups];
    var optional := map["permissions" := FlagValue(permissions), "tag_filters" := FlagValue(tagFilters)];
    RequiredKeySent(required, optional, extraParams, "groups");
    OptionalKeySent(required, optional, extraParams, "permissions");
    OptionalKeySent(required, optional, extraParams, "tag_filters");
    ExtraAppliedLast(required, optional, extraParams);
    ViaWrite("hostgroup", "propagate", BuildParams(required, optional, extraParams))
  }
}
