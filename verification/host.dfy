/** `src/tools/host.py`: the host tools, each one row of the tool table —
    which path it takes, which object and method it names, and which of its
    arguments it always sends and which only when they are not `None`. */
module Host {
  import opened Wrappers
  import opened Values
  import opened Core
  import opened Registry

  /** `host_get`: a read; `output` is always sent, every filter only when given. */
  function Get(hostids: Value := VNull, groupids: Value := VNull, templateids: Value := VNull,
               output: Value := VStr("extend"), search: Value := VNull, filter: Value := VNull,
               limit: Value := VNull, extraParams: Option<Params> := None): (r: Request)
    ensures r.ViaGet? && r.apiObject == "host" && r.apiMethod == "get"
    ensures SendsAlways(r.params, extraParams, "output", output)
    ensures SendsIfGiven(r.params, extraParams, "hostids", hostids)
    ensures SendsIfGiven(r.params, extraParams, "groupids", groupids)
    ensures SendsIfGiven(r.params, extraParams, "templateids", templateids)
    ensures SendsIfGiven(r.params, extraParams, "search", search)
    ensures SendsIfGiven(r.params, extraParams, "filter", filter)
    ensures SendsIfGiven(r.params, extraParams, "limit", limit)
    ensures ExtraWins(r.params, extraParams)
    ensures OnlyKeys(r.params, {"output", "hostids", "groupids", "templateids", "search", "filter", "limit"}, extraParams)
  {
    var required := map["output" := output];
    var optional := map["hostids" := hostids, "groupids" := groupids, "templateids" := templateids,
          "search" := search, "filter" := filter, "limit" := limit];
    RequiredKeySent(required, optional, extraParams, "output");
    OptionalKeySent(required, optional, extraParams, "hostids");
    OptionalKeySent(required, optional, extraParams, "groupids");
    OptionalKeySent(required, optional, extraParams, "templateids");
    OptionalKeySent(required, optional, extraParams, "search");
    OptionalKeySent(required, optional, extraParams, "filter");
    OptionalKeySent(required, optional, extraParams, "limit");
    ExtraAppliedLast(required, optional, extraParams);
    ViaGet("host", "get", BuildParams(required, optional, extraParams))
  }

  /** `host_create`: a write; `templates` is the only argument that may be left out. */
  function Create(host: Value, groups: Value, interfaces: Value, templates: Value := VNull,
                  inventoryMode: Value := VInt(-1), status: Value := VInt(0),
                  extraParams: Option<Params> := None): (r: Request)
    ensures r.ViaWrite? && r.apiObject == "host" && r.apiMethod == "create"
    ensures SendsAlways(r.params, extraParams, "host", host)
    ensures SendsAlways(r.params, extraParams, "groups", groups)
    ensures SendsAlways(r.params, extraParams, "interfaces", interfaces)
    ensures SendsAlways(r.params, extraParams, "inventory_mode", inventoryMode)
    ensures SendsAlways(r.params, extraParams, "status", status)
    ensures SendsIfGiven(r.params, extraParams, "templates", templates)
    ensures ExtraWins(r.params, extraParams)
    ensures OnlyKeys(r.params, {"host", "groups", "interfaces", "inventory_mode", "status", "templates"}, extraParams)
  {
    var required := map["host" := host, "groups" := groups, "interfaces" := interfaces,
          "inventory_mode" := inventoryMode, "status" := status];
    var optional := map["templates" := templates];
    RequiredKeySent(required, optional, extraParams, "host");
    RequiredKeySent(required, optional, extraParams, "groups");
    RequiredKeySent(required, optional, extraParams, "interfaces");
    RequiredKeySent(required, optional, extraParams, "inventory_mode");
    RequiredKeySent(required, optional, extraParams, "status");
    OptionalKeySent(required, optional, extraParams, "templates");
    ExtraAppliedLast(required, optional, extraParams);
    ViaWrite("host", "create", BuildParams(required, optional, extraParams))
  }

  /** `host_update`: a write; only `hostid` is always sent. */
  function Update(hostid: Value, host: Value := VNull, name: Value := VNull, status: Value := VNull,
                  extraParams: Option<Params> := None): (r: Request)
    ensures r.ViaWrite? && r.apiObject == "host" && r.apiMethod == "update"
    ensures SendsAlways(r.params, extraParams, "hostid", hostid)
    ensures SendsIfGiven(r.params, extraParams, "host", host)
    ensures SendsIfGiven(r.params, extraParams, "name", name)
    ensures SendsIfGiven(r.params, extraParams, "status", status)
    ensures ExtraWins(r.params, extraParams)
    ensures OnlyKeys(r.params, {"hostid", "host", "name", "status"}, extraParams)
  {
    var required := map["hostid" := hostid];
    var optional := map["host" := host, "name" := name, "status" := status];
    RequiredKeySent(required, optional, extraParams, "hostid");
    OptionalKeySent(required, optional, extraParams, "host");
    OptionalKeySent(required, optional, extraParams, "name");
    OptionalKeySent(required, optional, extraParams, "status");
    ExtraAppliedLast(required, optional, extraParams);
    ViaWrite("host", "update", BuildParams(required, optional, extraParams))
  }

  /** `host_delete`: the generic guarded delete of `host`. */
  function Delete(hostids: seq<Value>): (r: Request)
    // refused in read-only mode, with nothing created and nothing called
    ensures forall st: State, remote: Remote | IsReadOnly(st.env) :: Run(st, remote, r) == Step(st, Failure(ReadOnlyMode))
    // otherwise, once a client is held, the ids are the positional arguments of `host.delete`
    ensures forall st: State, remote: Remote | !IsReadOnly(st.env) && st.slot.Some? ::
      Run(st, remote, r).state.log == st.log + [Positional("host", "delete", hostids)]
  {
    ViaDelete("host", hostids)
  }

  /** `host_massadd`: a write; `hosts` is always sent. */
  function MassAdd(hosts: Value, groups: Value := VNull, interfaces: Value := VNull,
                   templates: Value := VNull, macros: Value := VNull,
                   extraParams: Option<Params> := None): (r: Request)
    ensures r.ViaWrite? && r.apiObject == "host" && r.apiMethod == "massadd"
    ensures SendsAlways(r.params, extraParams, "hosts", hosts)
    ensures SendsIfGiven(r.params, extraParams, "groups", groups)
    ensures SendsIfGiven(r.params, extraParams, "interfaces", interfaces)
    ensures SendsIfGiven(r.params, extraParams, "templates", templates)
    ensures SendsIfGiven(r.params, extraParams, "macros", macros)
    ensures ExtraWins(r.params, extraParams)
    ensures OnlyKeys(r.params, {"hosts", "groups", "interfaces", "templates", "macros"}, extraParams)
  {
    var required := map["hosts" := hosts];
    var optional := map["groups" := groups, "interfaces" := interfaces, "templates" := templates, "macros" := macros];
    RequiredKeySent(required, optional, extraParams, "hosts");
    OptionalKeySent(required, optional, extraParams, "groups");
    OptionalKeySent(required, optional, extraParams, "interfaces");
    OptionalKeySent(required, optional, extraParams, "templates");
    OptionalKeySent(required, optional, extraParams, "macros");
    ExtraAppliedLast(required, optional, extraParams);
    ViaWrite("host", "massadd", BuildParams(required, optional, extraParams))
  }

  /** `host_massremove`: a write; the host ids go as the `hostids` keyword. */
  function MassRemove(hostids: Value, groupids: Value := VNull, templateids: Value := VNull,
                      templateidsClear: Value := VNull, macros: Value := VNull,
                      extraParams: Option<Params> := None): (r: Request)
    ensures r.ViaWrite? && r.apiObject == "host" && r.apiMethod == "massremove"
    ensures SendsAlways(r.params, extraParams, "hostids", hostids)
    ensures SendsIfGiven(r.params, extraParams, "groupids", groupids)
    ensures SendsIfGiven(r.params, extraParams, "templateids", templateids)
    ensures SendsIfGiven(r.params, extraParams, "templateids_clear", templateidsClear)
    ensures SendsIfGiven(r.params, extraParams, "macros", macros)
    ensures ExtraWins(r.params, extraParams)
    ensures OnlyKeys(r.params, {"hostids", "groupids", "templateids", "templateids_clear", "macros"}, extraParams)
  {
    var required := map["hostids" := hostids];
    var optional := map["groupids" := groupids, "templateids" := templateids,
          "templateids_clear" := templateidsClear, "macros" := macros];
    RequiredKeySent(required, optional, extraParams, "hostids");
    OptionalKeySent(required, optional, extraParams, "groupids");
    OptionalKeySent(required, optional, extraParams, "templateids");
    OptionalKeySent(required, optional, extraParams, "templateids_clear");
    OptionalKeySent(required, optional, extraParams, "macros");
    ExtraAppliedLast(required, optional, extraParams);
    ViaWrite("host", "massremove", BuildParams(required, optional, extraParams))
  }

  /** `host_massupdate`: a write; `hosts` is always sent. */
  function MassUpdate(hosts: Value, groups: Value := VNull, templates: Value := VNull,
                      status: Value := VNull, inventoryMode: Value := VNull,
                      extraParams: Option<Params> := None): (r: Request)
    ensures r.ViaWrite? && r.apiObject == "host" && r.apiMethod == "massupdate"
    ensures SendsAlways(r.params, extraParams, "hosts", hosts)
    ensures SendsIfGiven(r.params, extraParams, "groups", groups)
    ensures SendsIfGiven(r.params, extraParams, "templates", templates)
    ensures SendsIfGiven(r.params, extraParams, "status", status)
    ensures SendsIfGiven(r.params, extraParams, "inventory_mode", inventoryMode)
    ensures ExtraWins(r.params, extraParams)
    ensures OnlyKeys(r.params, {"hosts", "groups", "templates", "status", "inventory_mode"}, extraParams)
  {
    var required := map["hosts" := hosts];
    var optional := map["groups" := groups, "templates" := templates, "status" := status, "inventory_mode" := inventoryMode];
    RequiredKeySent(required, optional, extraParams, "hosts");
    OptionalKeySent(required, optional, extraParams, "groups");
    OptionalKeySent(required, optional, extraParams, "templates");
    OptionalKeySent(required, optional, extraParams, "status");
    OptionalKeySent(required, optional, extraParams, "inventory_mode");
    ExtraAppliedLast(required, optional, extraParams);
    ViaWrite("host", "massupdate", BuildParams(required, optional, extraParams))
  }
}
