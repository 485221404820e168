/** Whole tool invocations, from the tool's arguments to the calls that reach
    the remote API, under the environment the repository's test fixtures set
    up: a URL, an API token, `READ_ONLY=false` and certificate checking on. */
module Scenarios {
  import opened Wrappers
  import opened Text
  import opened Values
  import opened Core
  import opened Registry
  import Host
  import Hostgroup
  import Usermacro
  import Problem

  const FixtureUrl: string := "http://zabbix.test/api_jsonrpc.php"
  const FixtureToken: string := "test-token-123"

  const FixtureEnv: Env :=
    map["ZABBIX_URL" := FixtureUrl, "ZABBIX_TOKEN" := FixtureToken, "READ_ONLY" := "false", "VERIFY_SSL" := "true"]

  /** The fixture environment allows writes. */
  lemma FixtureIsWritable()
    ensures !IsReadOnly(FixtureEnv)
  {
    WritableSpellings(FixtureEnv);
  }

  /** Turning `READ_ONLY` on in the fixture environment refuses writes. */
  lemma FixtureReadOnly()
    ensures IsReadOnly(FixtureEnv["READ_ONLY" := "true"])
  {
    ReadOnlyMeaning(FixtureEnv["READ_ONLY" := "true"]);
    assert EqualsIgnoringCase("true", "true");
  }

  // ---------------------------------------------------------------------------
  // The keyword arguments the tools build
  // ---------------------------------------------------------------------------

  /** `host_get(hostids=["1"])` asks for full output and those ids, nothing else. */
  lemma HostGetParams()
    ensures Host.Get(hostids := Strings(["1"])).params == map["output" := VStr("extend"), "hostids" := Strings(["1"])]
  {
    var p := Host.Get(hostids := Strings(["1"])).params;
    assert p.Keys == {"output", "hostids"};
  }

  /** `extra_params` entries such as `selectInterfaces` pass straight through,
      beside the output mode. */
  lemma HostGetExtraParams()
    ensures var p := Host.Get(extraParams := Some(map["selectInterfaces" := VStr("extend")])).params;
      && p["selectInterfaces"] == VStr("extend")
      && p["output"] == VStr("extend")
      && "hostids" !in p
  {
  }

  /** `host_create` without templates sends the five always-sent entries,
      with inventory mode -1 (disabled) and status 0 (monitored). */
  lemma HostCreateParams(host: Value, groups: Value, interfaces: Value)
    ensures Host.Create(host, groups, interfaces).params
      == map["host" := host, "groups" := groups, "interfaces" := interfaces,
             "inventory_mode" := VInt(-1), "status" := VInt(0)]
  {
    var p := Host.Create(host, groups, interfaces).params;
    assert p.Keys == {"host", "groups", "interfaces", "inventory_mode", "status"};
  }

  /** `usermacro_create` sends the macro type 0 (text) when none is given,
      and leaves the description out. */
  lemma UsermacroCreateParams()
    ensures Usermacro.Create(VStr("1"), VStr("{$TEST}"), VStr("123")).params
      == map["hostid" := VStr("1"), "macro" := VStr("{$TEST}"), "value" := VStr("123"), "type" := VInt(0)]
  {
    var p := Usermacro.Create(VStr("1"), VStr("{$TEST}"), VStr("123")).params;
    assert p.Keys == {"hostid", "macro", "value", "type"};
  }

  /** `hostgroup_propagate` with both switches off sends only the groups. */
  lemma PropagateSwitchesOff(groups: Value)
    ensures Hostgroup.Propagate(groups).params == map["groups" := groups]
  {
    var p := Hostgroup.Propagate(groups).params;
    assert p.Keys == {"groups"};
  }

  /** A switch that is on is sent as `true`; the one left off is not sent. */
  lemma PropagatePermissionsOnly(groups: Value)
    ensures Hostgroup.Propagate(groups, permissions := true).params
      == map["groups" := groups, "permissions" := VBool(true)]
  {
    var p := Hostgroup.Propagate(groups, permissions := true).params;
    assert p.Keys == {"groups", "permissions"};
  }

  /** `problem_get()` sends nothing but the output mode: `recent=False` is
      left out rather than sent as `false`. */
  lemma ProblemGetDefaults()
    ensures Problem.Get().params == map["output" := VStr("extend")]
  {
    var p := Problem.Get().params;
    assert p.Keys == {"output"};
  }

  /** `problem_get(recent=True)` sends `recent: true`. */
  lemma ProblemGetRecent()
    ensures Problem.Get(recent := true).params == map["output" := VStr("extend"), "recent" := VBool(true)]
  {
    var p := Problem.Get(recent := true).params;
    assert p.Keys == {"output", "recent"};
  }

  // ---------------------------------------------------------------------------
  // Whole invocations
  // ---------------------------------------------------------------------------

  /** In a fresh process, the first `host_create` logs in with the token and
      then calls `host.create` with the assembled entries; the answer is the
      remote side's, and the authenticated client stays in the slot. */
  lemma HostCreateInFreshProcess(remote: Remote, host: Value, groups: Value, interfaces: Value)
    requires remote(Login(Token(FixtureToken))).Success?
    ensures var call := Keyword("host", "create", map["host" := host, "groups" := groups, "interfaces" := interfaces,
                                                      "inventory_mode" := VInt(-1), "status" := VInt(0)]);
      var o := Run(State(FixtureEnv, None, []), remote, Host.Create(host, groups, interfaces));
      && o.state.log == [Login(Token(FixtureToken)), call]
      && o.result == Reply(remote(call))
      && o.state.slot == Some(Client(FixtureUrl, true, Some(Token(FixtureToken))))
  {
    FixtureIsWritable();
    HostCreateParams(host, groups, interfaces);
    EnvFlagSpelling(FixtureEnv, "VERIFY_SSL", "true");
    assert SpellsFlagWord("true") by {
      assert EqualsIgnoringCase("true", "true");
    }
  }

  /** In read-only mode `host_create` fails before anything else happens:
      no client is created and nothing is called. */
  lemma HostCreateReadOnly(remote: Remote, slot: Option<Client>, log: seq<Call>, host: Value, groups: Value, interfaces: Value)
    ensures var st := State(FixtureEnv["READ_ONLY" := "true"], slot, log);
      Run(st, remote, Host.Create(host, groups, interfaces)) == Step(st, Failure(ReadOnlyMode))
  {
    FixtureReadOnly();
  }

  /** `host_delete(["1"])` calls `host.delete("1")` with the id as a
      positional argument. */
  lemma HostDeleteCallsPositionally(remote: Remote, client: Client, log: seq<Call>)
    ensures var o := Run(State(FixtureEnv, Some(client), log), remote, Host.Delete([VStr("1")]));
      o.state.log == log + [Positional("host", "delete", [VStr("1")])]
  {
    FixtureIsWritable();
  }

  /** `host_get` reaches the remote side whatever `READ_ONLY` says. */
  lemma HostGetInReadOnly(remote: Remote, client: Client, log: seq<Call>)
    ensures var o := Run(State(FixtureEnv["READ_ONLY" := "true"], Some(client), log), remote, Host.Get(hostids := Strings(["1"])));
      o.state.log == log + [Keyword("host", "get", map["output" := VStr("extend"), "hostids" := Strings(["1"])])]
  {
    HostGetParams();
  }

  /** `usermacro_deleteglobal` is refused in read-only mode, and otherwise
      passes the ids positionally to `usermacro.deleteglobal`. */
  lemma DeleteGlobalGuarded(remote: Remote, client: Client, log: seq<Call>, ids: seq<Value>)
    ensures var st := State(FixtureEnv["READ_ONLY" := "true"], Some(client), log);
      Usermacro.DeleteGlobal(st, remote, ids) == Step(st, Failure(ReadOnlyMode))
    ensures Usermacro.DeleteGlobal(State(FixtureEnv, Some(client), log), remote, ids).state.log
      == log + [Positional("usermacro", "deleteglobal", ids)]
  {
    FixtureReadOnly();
    FixtureIsWritable();
  }
}
