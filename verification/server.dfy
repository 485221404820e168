/** The server as a whole: a sequence of tool invocations made against one
    process, between which the operator may change the environment. Tool
    calls are handled one at a time. */
module Server {
  import opened Wrappers
  import opened Values
  import opened Core
  import opened Registry
  import Usermacro

  /** Something that happens to the process. */
  datatype Event =
    | Tool(request: Request)
    | DeleteGlobalMacros(globalmacroids: seq<Value>)
    | SetEnv(name: string, value: string)

  /** One event against the process state. */
  function Handle(st: State, remote: Remote, e: Event): (o: Step<Value>)
    ensures e.SetEnv? ==> o.state == st.(env := st.env[e.name := e.value])
    ensures !e.SetEnv? ==> o.state.env == st.env
    ensures SessionStep(st, o.state)
  {
    match e
    case Tool(request) => Run(st, remote, request)
    case DeleteGlobalMacros(ids) => Usermacro.DeleteGlobal(st, remote, ids)
    case SetEnv(name, value) => Step(st.(env := st.env[name := value]), Success(VNull))
  }

  /** The state after every event in turn, and the answer to each. The whole
      run is one session step: calls are appended in order and none is lost,
      the process logs in at most once and never while a client is held, and
      a held client is never replaced. */
  function RunAll(st: State, remote: Remote, events: seq<Event>): (o: (State, seq<Result<Value, Error>>))
    ensures |o.1| == |events|
    ensures |events| > 0 ==> o.1[0] == Handle(st, remote, events[0]).result
    ensures SessionStep(st, o.0)
    decreases |events|
  {
    if |events| == 0 then (st, [])
    else
      var first := Handle(st, remote, events[0]);
      var rest := RunAll(first.state, remote, events[1..]);
      SessionStepTrans(st, first.state, rest.0);
      (rest.0, [first.result] + rest.1)
  }

  /** Neither a failed login nor a missing credential is ever retried: if the
      slot is still empty at the end, no login happened at all; otherwise at
      most one did. */
  lemma AtMostOneLogin(st: State, remote: Remote, events: seq<Event>)
    ensures var last := RunAll(st, remote, events).0;
      && Logins(last.log) <= Logins(st.log) + (if st.slot.None? then 1 else 0)
      && (last.slot.None? ==> Logins(last.log) == Logins(st.log))
      && (st.slot.Some? ==> last.slot == st.slot)
  {
    var last := RunAll(st, remote, events).0;
    LoginsOfPrefix(st.log, last.log);
  }

  /** In a fresh process configured with a URL and a token, a first tool call
      that is allowed to proceed logs in, and no later event logs in again:
      over the whole run exactly one login reaches the remote side, whether or
      not it was accepted. */
  lemma ExactlyOneLogin(st: State, remote: Remote, events: seq<Event>)
    requires st.slot.None?
    requires GetEnv(st.env, "ZABBIX_URL", "") != "" && GetEnv(st.env, "ZABBIX_TOKEN", "") != ""
    requires |events| > 0 && events[0].Tool? && (events[0].request.ViaGet? || !IsReadOnly(st.env))
    ensures Logins(RunAll(st, remote, events).0.log) == Logins(st.log) + 1
  {
    var login := Login(Token(st.env["ZABBIX_TOKEN"]));
    var c := GetClient(st, remote);
    var first := Handle(st, remote, events[0]).state;
    assert |c.state.log| <= |first.log| && first.log[..|c.state.log|] == c.state.log by {
      match events[0].request
      case ViaGet(o, m, params) =>
        assert ObtainsClientThenCalls(st, remote, Keyword(o, m, params), Handle(st, remote, events[0]));
      case ViaWrite(o, m, params) =>
        assert ObtainsClientThenCalls(st, remote, Keyword(o, m, params), Handle(st, remote, events[0]));
      case ViaDelete(o, ids) =>
        assert ObtainsClientThenCalls(st, remote, Positional(o, "delete", ids), Handle(st, remote, events[0]));
    }
    LoginsAppend(st.log, [login]);
    assert Logins([login]) == 1;
    LoginsOfPrefix(c.state.log, first.log);
    AtMostOneLogin(first, remote, events[1..]);
    LoginsOfPrefix(first.log, RunAll(first, remote, events[1..]).0.log);
  }

  /** `READ_ONLY` is read afresh on every call: after the operator turns it
      on, the very next write is refused and nothing is called. */
  lemma ReadOnlyTakesEffectImmediately(st: State, remote: Remote, value: string, request: Request)
    requires SpellsFlagWord(value) && !request.ViaGet?
    ensures var changed := Handle(st, remote, SetEnv("READ_ONLY", value)).state;
      Handle(changed, remote, Tool(request)) == Step(changed, Failure(ReadOnlyMode))
  {
    var changed := st.(env := st.env["READ_ONLY" := value]);
    ReadOnlyMeaning(changed.env);
  }

  /** And after the operator turns it off, a write reaches the remote side
      exactly as a read does. */
  lemma WritableTakesEffectImmediately(st: State, remote: Remote, value: string,
                                       apiObject: string, apiMethod: string, params: Params)
    requires !SpellsFlagWord(value)
    ensures var changed := Handle(st, remote, SetEnv("READ_ONLY", value)).state;
      Handle(changed, remote, Tool(ViaWrite(apiObject, apiMethod, params)))
        == Handle(changed, remote, Tool(ViaGet(apiObject, apiMethod, params)))
  {
    var changed := st.(env := st.env["READ_ONLY" := value]);
    ReadOnlyMeaning(changed.env);
  }
}
