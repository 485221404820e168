/** The process-wide configuration and session handling of `src/_core.py`:
    the read-only guard, the transport settings and the lazily created API client. */
module Core {
  import opened Wrappers
  import opened Text
  import opened Values

  /** The process environment. A name that is not in the map is unset. */
  type Env = map<string, string>

  /** `os.getenv(name, default)`. */
  function GetEnv(env: Env, name: string, default: string): (v: string)
    ensures name !in env ==> v == default
    ensures name in env ==> v == env[name]
  {
    if name in env then env[name] else default
  }

  /** The three spellings `_core.py` accepts as "on", after lower-casing. */
  const FlagWords: set<string> := {"true", "1", "yes"}

  /** `os.getenv(name, default).lower() in ("true", "1", "yes")`. */
  predicate EnvFlag(env: Env, name: string, default: string) {
    Lower(GetEnv(env, name, default)) in FlagWords
  }

  /** A configured string spells one of the flag words in any case. */
  predicate SpellsFlagWord(s: string) {
    EqualsIgnoringCase(s, "true") || EqualsIgnoringCase(s, "1") || EqualsIgnoringCase(s, "yes")
  }

  /** A flag read from the environment is on exactly when its value, or the
      default when it is unset, spells "true", "1" or "yes" ignoring case. */
  lemma EnvFlagSpelling(env: Env, name: string, default: string)
    ensures EnvFlag(env, name, default) <==> SpellsFlagWord(GetEnv(env, name, default))
  {
    var s := GetEnv(env, name, default);
    LowerMatchesIgnoringCase(s, "true");
    LowerMatchesIgnoringCase(s, "1");
    LowerMatchesIgnoringCase(s, "yes");
  }

  // ---------------------------------------------------------------------------
  // Read-only mode
  // ---------------------------------------------------------------------------

  /** `is_read_only()`: read afresh from the environment on every call; unset
      means read-only, so the server is safe by default. */
  predicate IsReadOnly(env: Env) {
    EnvFlag(env, "READ_ONLY", "true")
  }

  lemma ReadOnlyMeaning(env: Env)
    ensures "READ_ONLY" !in env ==> IsReadOnly(env)
    ensures "READ_ONLY" in env ==> (IsReadOnly(env) <==> SpellsFlagWord(env["READ_ONLY"]))
  {
    EnvFlagSpelling(env, "READ_ONLY", "true");
  }

  /** The usual spellings of "off" all leave the server writable. */
  lemma WritableSpellings(env: Env)
    requires "READ_ONLY" in env
    requires env["READ_ONLY"] in {"false", "False", "FALSE", "no", "No", "0", ""}
    ensures !IsReadOnly(env)
  {
    ReadOnlyMeaning(env);
    var value := env["READ_ONLY"];
    if value == "0" {
      assert !SameIgnoringCase(value[0], "1"[0]);
    }
  }

  /** The errors the model raises; each stands for one `ValueError` message of
      the source, or for an exception coming back from the remote API. */
  datatype Error =
    | MissingUrl
    | MissingCredentials
    | ReadOnlyMode
    | InvalidTransport(transport: string)
    | HttpNeedsNoAuth
    | InvalidPort(text: string)
    | RemoteFailure(message: string)

  /** `validate_read_only()`. */
  function ValidateReadOnly(env: Env): (r: Outcome<Error>)
    ensures r.Fail? <==> IsReadOnly(env)
    // refused exactly when READ_ONLY is unset or spells one of the "on" words
    ensures r.Fail? <==> ("READ_ONLY" !in env || SpellsFlagWord(env["READ_ONLY"]))
    ensures r.Fail? ==> r.error == ReadOnlyMode
  {
    ReadOnlyMeaning(env);
    if IsReadOnly(env) then Fail(ReadOnlyMode) else Pass
  }

  // ---------------------------------------------------------------------------
  // Transport configuration
  // ---------------------------------------------------------------------------

  /** The dictionary `get_transport_config()` returns for the HTTP transport. */
  function HttpDict(host: Value, port: Value, stateless: Value): (d: Params)
    ensures d.Keys == {"transport", "host", "port", "stateless_http"}
    ensures d["transport"] == VStr("streamable-http")
    ensures d["host"] == host && d["port"] == port && d["stateless_http"] == stateless
  {
    map["transport" := VStr("streamable-http"), "host" := host, "port" := port, "stateless_http" := stateless]
  }

  /** The listener settings `get_transport_config()` adds for the HTTP transport. */
  function HttpConfig(env: Env): (r: Result<Params, Error>)
    ensures r.Success? ==>
      && r.value.Keys == {"transport", "host", "port", "stateless_http"}
      && r.value["transport"] == VStr("streamable-http")
      && r.value["host"] == VStr(GetEnv(env, "ZABBIX_MCP_HOST", "127.0.0.1"))
      && r.value["port"].VInt?
      && ParseInt(GetEnv(env, "ZABBIX_MCP_PORT", "8000")) == Some(r.value["port"].i)
      && r.value["stateless_http"] == VBool(EnvFlag(env, "ZABBIX_MCP_STATELESS_HTTP", "false"))
    ensures r.Failure? <==> ParseInt(GetEnv(env, "ZABBIX_MCP_PORT", "8000")).None?
    ensures r.Failure? ==> r.error == InvalidPort(GetEnv(env, "ZABBIX_MCP_PORT", "8000"))
  {
    var portText := GetEnv(env, "ZABBIX_MCP_PORT", "8000");
    var parsed := ParseInt(portText);
    if parsed.None? then Failure(InvalidPort(portText))
    else
      var host := VStr(GetEnv(env, "ZABBIX_MCP_HOST", "127.0.0.1"));
      var stateless := VBool(EnvFlag(env, "ZABBIX_MCP_STATELESS_HTTP", "false"));
      Success(HttpDict(host, VInt(parsed.value), stateless))
  }

  /** `get_transport_config()`. The configuration is a string-keyed dictionary,
      modelled as `Params`. */
  function TransportConfig(env: Env): (r: Result<Params, Error>)
    ensures r.Success? ==> "transport" in r.value
    ensures r.Success? && r.value["transport"] != VStr("streamable-http") ==>
      r.value == map["transport" := VStr("stdio")]
    ensures r.Success? && r.value["transport"] == VStr("streamable-http") ==>
      r == HttpConfig(env)
  {
    var transport := Lower(GetEnv(env, "ZABBIX_MCP_TRANSPORT", "stdio"));
    if transport != "stdio" && transport != "streamable-http" then
      Failure(InvalidTransport(transport))
    else if transport == "stdio" then
      Success(map["transport" := VStr("stdio")])
    else if Lower(GetEnv(env, "AUTH_TYPE", "")) != "no-auth" then
      Failure(HttpNeedsNoAuth)
    else
      HttpConfig(env)
  }

  /** Which transport is chosen, and which error is raised, in terms of how the
      environment spells the settings (any mixture of upper and lower case). */
  lemma TransportSelection(env: Env)
    ensures var raw := GetEnv(env, "ZABBIX_MCP_TRANSPORT", "stdio");
      && (TransportConfig(env) == Success(map["transport" := VStr("stdio")]) <==> EqualsIgnoringCase(raw, "stdio"))
      && (TransportConfig(env).Failure? && TransportConfig(env).error.InvalidTransport?
          <==> !EqualsIgnoringCase(raw, "stdio") && !EqualsIgnoringCase(raw, "streamable-http"))
      && (TransportConfig(env) == Failure(HttpNeedsNoAuth)
          <==> EqualsIgnoringCase(raw, "streamable-http") && !EqualsIgnoringCase(GetEnv(env, "AUTH_TYPE", ""), "no-auth"))
      && (EqualsIgnoringCase(raw, "streamable-http") && EqualsIgnoringCase(GetEnv(env, "AUTH_TYPE", ""), "no-auth")
          ==> TransportConfig(env) == HttpConfig(env))
  {
    var raw := GetEnv(env, "ZABBIX_MCP_TRANSPORT", "stdio");
    LowerMatchesIgnoringCase(raw, "stdio");
    LowerMatchesIgnoringCase(raw, "streamable-http");
    LowerMatchesIgnoringCase(GetEnv(env, "AUTH_TYPE", ""), "no-auth");
  }

  /** With nothing configured the server talks over standard streams. */
  lemma DefaultTransportIsStdio(env: Env)
    requires "ZABBIX_MCP_TRANSPORT" !in env
    ensures TransportConfig(env) == Success(map["transport" := VStr("stdio")])
  {
    TransportSelection(env);
    assert EqualsIgnoringCase("stdio", "stdio");
  }

  /** The HTTP listener settings and their defaults: host 127.0.0.1, port 8000,
      stateless mode off. */
  lemma HttpDefaults(env: Env)
    requires "ZABBIX_MCP_TRANSPORT" in env && EqualsIgnoringCase(env["ZABBIX_MCP_TRANSPORT"], "streamable-http")
    requires "AUTH_TYPE" in env && EqualsIgnoringCase(env["AUTH_TYPE"], "no-auth")
    requires "ZABBIX_MCP_HOST" !in env && "ZABBIX_MCP_PORT" !in env && "ZABBIX_MCP_STATELESS_HTTP" !in env
    ensures TransportConfig(env) == Success(HttpDict(VStr("127.0.0.1"), VInt(8000), VBool(false)))
  {
    TransportSelection(env);
    DefaultPortParses();
    EnvFlagSpelling(env, "ZABBIX_MCP_STATELESS_HTTP", "false");
    assert !SpellsFlagWord("false");
  }

  lemma DefaultPortParses()
    ensures ParseInt("8000") == Some(8000)
  {
    ParseDecimal(8000);
    assert Decimal(8000) == "8000";
  }

  /** A port written as a decimal number is read back as that number. */
  lemma HttpPortRoundTrip(env: Env, port: int)
    requires EqualsIgnoringCase(GetEnv(env, "ZABBIX_MCP_TRANSPORT", "stdio"), "streamable-http")
    requires EqualsIgnoringCase(GetEnv(env, "AUTH_TYPE", ""), "no-auth")
    requires GetEnv(env, "ZABBIX_MCP_PORT", "8000") == Decimal(port)
    ensures TransportConfig(env).Success?
    ensures TransportConfig(env).value["port"] == VInt(port)
  {
    TransportSelection(env);
    ParseDecimal(port);
  }

  /** Asking for the HTTP transport without acknowledging `no-auth` fails. */
  lemma HttpWithoutNoAuthRejected(env: Env)
    requires "ZABBIX_MCP_TRANSPORT" in env && EqualsIgnoringCase(env["ZABBIX_MCP_TRANSPORT"], "streamable-http")
    requires "AUTH_TYPE" !in env
    ensures TransportConfig(env) == Failure(HttpNeedsNoAuth)
  {
    TransportSelection(env);
  }

  // ---------------------------------------------------------------------------
  // The remote side and the session slot
  // ---------------------------------------------------------------------------

  /** How the client authenticates. */
  datatype Credential = Token(token: string) | UserPassword(user: string, password: string)

  /** The `ZabbixAPI` object: where it points, whether it checks certificates,
      and the credential it has logged in with, if any. */
  datatype Client = Client(url: string, verifySsl: bool, login: Option<Credential>)

  /** One request that reached the remote API. `Keyword` is `client.obj.method(**kwargs)`,
      `Positional` is `client.obj.method(*args)`. */
  datatype Call =
    | Login(credential: Credential)
    | Keyword(apiObject: string, apiMethod: string, kwargs: Params)
    | Positional(apiObject: string, apiMethod: string, args: seq<Value>)

  /** The remote API: what it answers to each call, or the message of the
      exception it raises. */
  type Remote = Call -> Result<Value, string>

  /** The process state the core depends on: the environment, the global
      `zabbix_api` slot, and every call made to the remote API so far. */
  datatype State = State(env: Env, slot: Option<Client>, log: seq<Call>)

  /** The state after an operation, and what the operation returned or raised. */
  datatype Step<+T> = Step(state: State, result: Result<T, Error>)

  /** The number of logins in a call log. */
  function Logins(log: seq<Call>): nat {
    if |log| == 0 then 0
    else Logins(log[..|log| - 1]) + (if log[|log| - 1].Login? then 1 else 0)
  }

  lemma {:induction false} LoginsAppend(a: seq<Call>, b: seq<Call>)
    ensures Logins(a + b) == Logins(a) + Logins(b)
    decreases |b|
  {
    if |b| > 0 {
      assert (a + b)[..|a + b| - 1] == a + b[..|b| - 1];
      LoginsAppend(a, b[..|b| - 1]);
    } else {
      assert a + b == a;
    }
  }

  /** Logins are never lost from a log that only grows. */
  lemma LoginsOfPrefix(a: seq<Call>, b: seq<Call>)
    requires |a| <= |b| && b[..|a|] == a
    ensures Logins(a) <= Logins(b)
  {
    assert b == a + b[|a|..];
    LoginsAppend(a, b[|a|..]);
  }

  /** What one operation may do to the session: the log only grows, by at
      most one login and only when no client was held; a held client is kept;
      and a login always leaves a client in the slot. */
  predicate SessionStep(before: State, after: State) {
    && |before.log| <= |after.log| && after.log[..|before.log|] == before.log
    && Logins(after.log) <= Logins(before.log) + (if before.slot.None? then 1 else 0)
    && (before.slot.Some? ==> after.slot == before.slot)
    && (Logins(after.log) > Logins(before.log) ==> after.slot.Some?)
  }

  /** Two session steps in a row make one: still at most one login, and only
      if the first state held no client. */
  lemma SessionStepTrans(a: State, b: State, c: State)
    requires SessionStep(a, b) && SessionStep(b, c)
    ensures SessionStep(a, c)
  {
    assert c.log[..|a.log|] == c.log[..|b.log|][..|a.log|];
    LoginsOfPrefix(a.log, b.log);
    LoginsOfPrefix(b.log, c.log);
  }

  /** A call that is not a login, made after a session step, keeps it one. */
  lemma SessionStepThenCall(before: State, middle: State, call: Call)
    requires SessionStep(before, middle) && !call.Login?
    ensures SessionStep(before, middle.(log := middle.log + [call]))
  {
    LoginsAppend(middle.log, [call]);
    assert (middle.log + [call])[..|before.log|] == middle.log[..|before.log|];
  }

  /** `client.login(...)`: one call to the remote side; on success the client
      in the slot becomes the authenticated one. */
  function Authenticate(st: State, remote: Remote, client: Client, credential: Credential): (o: Step<Client>)
    requires st.slot == Some(client)
    ensures o.state.env == st.env && o.state.log == st.log + [Login(credential)]
    ensures o.state.slot.Some? && o.state.slot.value.url == client.url
    ensures o.result.Success? <==> remote(Login(credential)).Success?
    ensures o.result.Success? ==> o.state.slot == Some(o.result.value) && o.result.value.login == Some(credential)
    ensures o.result.Failure? ==> o.state.slot == st.slot && o.result.error == RemoteFailure(remote(Login(credential)).error)
  {
    var logged := st.(log := st.log + [Login(credential)]);
    match remote(Login(credential))
    case Failure(message) => Step(logged, Failure(RemoteFailure(message)))
    case Success(_) =>
      var authenticated := client.(login := Some(credential));
      Step(logged.(slot := Some(authenticated)), Success(authenticated))
  }

  /** What a login attempt with `credential` does: it is logged; the client is
      returned, authenticated with that credential, exactly when the remote
      side accepts it; otherwise the remote error is raised and the client in
      the slot stays unauthenticated. */
  predicate LoginOutcome(st: State, remote: Remote, credential: Credential, o: Step<Client>) {
    && o.state.log == st.log + [Login(credential)]
    && (o.result.Success? <==> remote(Login(credential)).Success?)
    && (o.result.Success? ==> o.result.value.login == Some(credential))
    && (o.result.Failure? ==>
          && o.result.error == RemoteFailure(remote(Login(credential)).error)
          && o.state.slot.Some? && o.state.slot.value.login.None?)
  }

  /** `get_zabbix_client()`. Note that the slot is filled before the
      credentials are checked, exactly as the source does. */
  function GetClient(st: State, remote: Remote): (o: Step<Client>)
    // the environment is only read
    ensures o.state.env == st.env
    // fast path: a filled slot is returned as it is, with no login
    ensures st.slot.Some? ==> o == Step(st, Success(st.slot.value))
    // no URL: nothing is created
    ensures st.slot.None? && GetEnv(st.env, "ZABBIX_URL", "") == "" ==>
      o == Step(st, Failure(MissingUrl))
    // a URL: the slot is filled whatever happens to the login
    ensures st.slot.None? && GetEnv(st.env, "ZABBIX_URL", "") != "" ==>
      && o.state.slot.Some?
      && o.state.slot.value.url == st.env["ZABBIX_URL"]
      && o.state.slot.value.verifySsl == EnvFlag(st.env, "VERIFY_SSL", "true")
    // a token wins over user and password
    ensures st.slot.None? && GetEnv(st.env, "ZABBIX_URL", "") != "" && GetEnv(st.env, "ZABBIX_TOKEN", "") != "" ==>
      LoginOutcome(st, remote, Token(st.env["ZABBIX_TOKEN"]), o)
    // otherwise both user and password are needed
    ensures st.slot.None? && GetEnv(st.env, "ZABBIX_URL", "") != "" && GetEnv(st.env, "ZABBIX_TOKEN", "") == "" ==>
      if GetEnv(st.env, "ZABBIX_USER", "") == "" || GetEnv(st.env, "ZABBIX_PASSWORD", "") == "" then
        && o.result == Failure(MissingCredentials)
        && o.state.log == st.log
        && o.state.slot.value.login.None?
      else
        LoginOutcome(st, remote, UserPassword(st.env["ZABBIX_USER"], st.env["ZABBIX_PASSWORD"]), o)
    // a returned client is the one now in the slot
    ensures o.result.Success? ==> o.state.slot == Some(o.result.value)
    // the log only grows, by at most one login and only when the slot was empty
    ensures SessionStep(st, o.state)
  {
    if st.slot.Some? then
      Step(st, Success(st.slot.value))
    else
      var url := GetEnv(st.env, "ZABBIX_URL", "");
      if url == "" then
        Step(st, Failure(MissingUrl))
      else
        var client := Client(url, EnvFlag(st.env, "VERIFY_SSL", "true"), None);
        var filled := st.(slot := Some(client));
        var token := GetEnv(st.env, "ZABBIX_TOKEN", "");
        if token != "" then
          LoginsAppend(st.log, [Login(Token(token))]);
          Authenticate(filled, remote, client, Token(token))
        else
          var user := GetEnv(st.env, "ZABBIX_USER", "");
          var password := GetEnv(st.env, "ZABBIX_PASSWORD", "");
          if user == "" || password == "" then
            Step(filled, Failure(MissingCredentials))
          else
            LoginsAppend(st.log, [Login(UserPassword(user, password))]);
            Authenticate(filled, remote, client, UserPassword(user, password))
  }

  /** Once the slot is filled, every later call returns that same client. */
  lemma ClientIsMemoised(st: State, remote: Remote)
    requires GetClient(st, remote).result.Success?
    ensures GetClient(GetClient(st, remote).state, remote)
      == Step(GetClient(st, remote).state, GetClient(st, remote).result)
  {
  }

  /** The source's quirk: a missing credential is reported once, but the slot
      already holds an unauthenticated client, so the next call hands that
      client out without complaint and without logging in. */
  lemma CredentialFailureThenFastPath(st: State, remote: Remote)
    requires st.slot.None?
    requires GetEnv(st.env, "ZABBIX_URL", "") != ""
    requires GetEnv(st.env, "ZABBIX_TOKEN", "") == "" && GetEnv(st.env, "ZABBIX_USER", "") == ""
    ensures GetClient(st, remote).result == Failure(MissingCredentials)
    ensures var again := GetClient(GetClient(st, remote).state, remote);
      && again.result.Success?
      && again.result.value.login.None?
      && again.state.log == st.log
  {
  }

  /** The source's second quirk: when the remote side rejects the login, the
      unauthenticated client stays in the slot, so the next call neither
      retries the login nor reports the failure again. */
  lemma LoginFailureNotRetried(st: State, remote: Remote)
    requires st.slot.None? && GetEnv(st.env, "ZABBIX_URL", "") != "" && GetEnv(st.env, "ZABBIX_TOKEN", "") != ""
    requires remote(Login(Token(st.env["ZABBIX_TOKEN"]))).Failure?
    ensures GetClient(st, remote).result.Failure?
    ensures var again := GetClient(GetClient(st, remote).state, remote);
      && again.result.Success?
      && again.result.value.login.None?
      && again.state.log == st.log + [Login(Token(st.env["ZABBIX_TOKEN"]))]
  {
  }

  /** The environment variables `get_zabbix_client` reads. */
  const ClientVariables: set<string> := {"ZABBIX_URL", "VERIFY_SSL", "ZABBIX_TOKEN", "ZABBIX_USER", "ZABBIX_PASSWORD"}

  /** Two environments that set and unset the same `names`, to the same values. */
  predicate AgreeOn(a: Env, b: Env, names: set<string>) {
    forall n | n in names :: (n in a <==> n in b) && (n in a ==> a[n] == b[n])
  }

  /** Obtaining the client depends on the environment only through the five
      client variables: any other setting, such as `READ_ONLY`, changes
      nothing about the client, the logins or the outcome. */
  lemma GetClientReadsOnlyClientVariables(st: State, other: State, remote: Remote)
    requires other.slot == st.slot && other.log == st.log
    requires AgreeOn(st.env, other.env, ClientVariables)
    ensures GetClient(other, remote).result == GetClient(st, remote).result
    ensures GetClient(other, remote).state == GetClient(st, remote).state.(env := other.env)
  {
    assert GetEnv(st.env, "ZABBIX_URL", "") == GetEnv(other.env, "ZABBIX_URL", "");
    assert GetEnv(st.env, "VERIFY_SSL", "true") == GetEnv(other.env, "VERIFY_SSL", "true");
    assert GetEnv(st.env, "ZABBIX_TOKEN", "") == GetEnv(other.env, "ZABBIX_TOKEN", "");
    assert GetEnv(st.env, "ZABBIX_USER", "") == GetEnv(other.env, "ZABBIX_USER", "");
    assert GetEnv(st.env, "ZABBIX_PASSWORD", "") == GetEnv(other.env, "ZABBIX_PASSWORD", "");
  }
}
