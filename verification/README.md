# zabbix-mcp-server core, modelled in Dafny

The Zabbix MCP server exposes Zabbix API methods as tools. Each tool is a
thin wrapper: it assembles keyword parameters with `build_params`, then
reaches the API by one of three registry paths:

- `zabbix_get` is the read path and has no guard.
- `zabbix_write` runs the read-only guard first.
- `zabbix_delete` runs the same guard and passes the ids as positional
  arguments.

This project models that core:

- the process-wide configuration of `src/_core.py`: the read-only flag and
  its guard, the transport settings, and the lazily created, memoised API
  client with its login;
- the registry helpers of `src/tools/_registry.py`;
- the host, host group, template group, user macro and problem tools, one
  function per tool.

A tool function returns the `Request` it would make, and `Registry.Run`
executes a request against a process `State`. The state holds three
things: the environment, the global client slot, and a log of every call
that reached the remote API, logins included. The remote API is a
parameter (`Remote`): a function from a call to an answer or an exception
message. Python's `None` is `VNull`. An exception raised by the source is
a `Failure` of the model's `Error` type.

Modules:

- `Wrappers`: `Option`, `Result` and `Outcome`.
- `Text`: ASCII lower-casing and Python's `int()` for decimal text.
- `Values`: the JSON-like values tools send and receive.
- `Core`: `src/_core.py`.
- `Registry`: `src/tools/_registry.py`.
- `Host`, `Hostgroup`, `Templategroup`, `Usermacro`, `Problem`: the tool
  files.
- `Server`: sequences of tool calls and environment changes over the life
  of one process.
- `Scenarios`: whole invocations under the environment of the repository's
  test fixtures.

## Model

| member | source | states |
|---|---|---|
| Text.LowerMatchesIgnoringCase | src/_core.py:83 | `.lower()` yields a lower-case word exactly when the text spells that word in any mixture of cases |
| Text.ParseDecimal | src/_core.py:132 | `int(str(n)) == n` for every integer: the port parser reads back any decimal spelling |
| Core.EnvFlagSpelling | src/_core.py:53 | a flag variable is on exactly when its value, or the default when it is unset, spells `true`, `1` or `yes` ignoring case |
| Core.ReadOnlyMeaning | src/_core.py:77-83 | an unset `READ_ONLY` means read-only; a set one means read-only exactly when it spells a flag word |
| Core.WritableSpellings | src/_core.py:77-83 | `false`, `False`, `FALSE`, `no`, `No`, `0` and the empty string all leave the server writable |
| Core.ValidateReadOnly | src/_core.py:98-105 | the guard fails exactly when `READ_ONLY` is unset or spells true, 1 or yes in any case, and then with the read-only error; otherwise it has no effect |
| Core.HttpConfig | src/_core.py:124-135 | the HTTP settings: host (default 127.0.0.1), the port as `int()` parses it (default 8000), stateless mode (default off); an unparsable port is an error naming the text |
| Core.TransportConfig | src/_core.py:108-139 | the result always names the transport; a stdio result holds nothing else; an HTTP result is exactly the HTTP settings |
| Core.TransportSelection | src/_core.py:117-128 | stdio is chosen iff the variable spells `stdio`; the invalid-transport error iff it spells neither transport; the auth error iff it spells `streamable-http` and `AUTH_TYPE` does not spell `no-auth` |
| Core.DefaultTransportIsStdio | src/_core.py:117-122 | with the transport variable unset the configuration is `{"transport": "stdio"}` |
| Core.HttpDefaults | src/_core.py:130-135 | an HTTP configuration with nothing else set listens on 127.0.0.1:8000, stateful |
| Core.HttpPortRoundTrip | src/_core.py:132 | a port written in decimal is configured as that number |
| Core.HttpWithoutNoAuthRejected | src/_core.py:124-128 | the HTTP transport without `AUTH_TYPE` is refused |
| Core.Authenticate | src/_core.py:59-70 | a login is one logged call; on success the client holds the credential, on failure the slot is unchanged and the remote error propagates |
| Core.GetClient | src/_core.py:32-74 | a held client is returned with no call; no URL is an error with nothing changed; otherwise the slot is filled first; a token wins over user and password; missing credentials fail with no login; a login attempt is logged and returns the client authenticated with that credential exactly when the remote side accepts it, and otherwise raises the remote error, leaving the unauthenticated client in the slot; the log grows by at most one login |
| Core.ClientIsMemoised | src/_core.py:45-74 | after a successful `get_zabbix_client` the next call returns the same client and changes nothing |
| Core.CredentialFailureThenFastPath | src/_core.py:57-68 | a missing credential is reported once; the next call returns the unauthenticated client already in the slot |
| Core.LoginFailureNotRetried | src/_core.py:57-63 | a rejected login leaves the unauthenticated client in the slot; the next call neither logs in again nor fails |
| Core.GetClientReadsOnlyClientVariables | src/_core.py:45-67 | obtaining the client depends on the environment only through `ZABBIX_URL`, `VERIFY_SSL`, `ZABBIX_TOKEN`, `ZABBIX_USER` and `ZABBIX_PASSWORD` |
| Registry.BuildParams | src/tools/_registry.py:13-31 | the keys are the required ones, the optional ones that are not `None` and the extra ones; extra values win; otherwise a given optional value wins over a required one |
| Registry.BuildParamsWithoutExtra | src/tools/_registry.py:29-31 | an absent or empty `extra_params` changes nothing |
| Registry.OptionalSentUnlessNone | src/tools/_registry.py:26-28 | an optional entry is sent iff it is not `None`: `False`, `0`, `""` and `[]` are sent |
| Registry.BuildParamsLoop | src/tools/_registry.py:25-31 | the loop over the optional entries, in any order, computes the same dictionary as the merge |
| Registry.ZabbixGet | src/tools/_registry.py:34-49 | obtains the client, then makes exactly the keyword call; a client failure propagates with no call; the environment is untouched |
| Registry.ZabbixWrite | src/tools/_registry.py:52-68 | in read-only mode nothing at all happens; otherwise it behaves exactly as the read path |
| Registry.ZabbixDelete | src/tools/_registry.py:71-86 | guarded as a write; the ids become the positional arguments of `delete`, in order |
| Registry.GetIgnoresReadOnly | src/tools/_registry.py:34-49 | changing `READ_ONLY` changes nothing about a read: same answer, same calls, same client |
| Registry.Run | src/tools/_registry.py:52-86 | any write or delete in read-only mode fails with the state unchanged; every request keeps the session invariant |
| Registry.BuildParamsRequiredOnly | tests/test_registry.py:11-13 | required entries alone come back unchanged |
| Registry.BuildParamsNoneSkipped | tests/test_registry.py:15-17 | a `None` optional entry is dropped and a given one is kept |
| Registry.BuildParamsExtraMerged | tests/test_registry.py:19-21 | an extra entry with a new key is added beside the required ones |
| Registry.BuildParamsExtraOverrides | tests/test_registry.py:23-25 | an extra entry replaces the required entry of the same key |
| Registry.BuildParamsNoExtra | tests/test_registry.py:27-29 | with no extra entries the result is the required and given optional entries |
| Registry.BuildParamsKeepsFalsy | src/tools/_registry.py:26-28 | falsy optional values other than `None` are sent |
| Host.Get | src/tools/host.py:10-39 | a read of `host.get`; `output` (default `extend`) always sent, each filter iff given, extra entries win, no other keys |
| Host.Create | src/tools/host.py:43-69 | a write of `host.create`; host, groups, interfaces, inventory mode (default -1) and status (default 0) always sent, templates iff given |
| Host.Update | src/tools/host.py:73-93 | a write of `host.update`; `hostid` always sent, host, name and status iff given |
| Host.Delete | src/tools/host.py:97-106 | refused in read-only mode; otherwise `host.delete` receives the ids positionally |
| Host.MassAdd | src/tools/host.py:110-135 | a write of `host.massadd`; hosts always sent, the rest iff given |
| Host.MassRemove | src/tools/host.py:139-164 | a write of `host.massremove`; host ids always sent, the rest iff given |
| Host.MassUpdate | src/tools/host.py:168-193 | a write of `host.massupdate`; hosts always sent, the rest iff given |
| Hostgroup.Get | src/tools/hostgroup.py:10-32 | a read of `hostgroup.get`; output always sent, filters iff given |
| Hostgroup.Create | src/tools/hostgroup.py:36-52 | a write of `hostgroup.create` sending only `name` besides the extra entries |
| Hostgroup.Update | src/tools/hostgroup.py:56-73 | a write of `hostgroup.update` sending `groupid` and `name` |
| Hostgroup.Delete | src/tools/hostgroup.py:77-86 | refused in read-only mode; otherwise `hostgroup.delete` receives the ids positionally |
| Hostgroup.MassAdd | src/tools/hostgroup.py:90-110 | a write of `hostgroup.massadd`; groups always sent, hosts and templates iff given |
| Hostgroup.MassRemove | src/tools/hostgroup.py:114-134 | a write of `hostgroup.massremove`; group ids always sent, host and template ids iff given |
| Hostgroup.MassUpdate | src/tools/hostgroup.py:138-158 | a write of `hostgroup.massupdate`; groups always sent, hosts and templates iff given |
| Hostgroup.Propagate | src/tools/hostgroup.py:162-183 | a write of `hostgroup.propagate`; each switch is sent iff it is on, and then as `true` |
| Templategroup.Get | src/tools/templategroup.py:10-32 | a read of `templategroup.get`; output always sent, filters iff given |
| Templategroup.Create | src/tools/templategroup.py:36-52 | a write of `templategroup.create` sending only `name` |
| Templategroup.Update | src/tools/templategroup.py:56-73 | a write of `templategroup.update` sending `groupid` and `name` |
| Templategroup.Delete | src/tools/templategroup.py:77-86 | refused in read-only mode; otherwise `templategroup.delete` receives the ids positionally |
| Templategroup.MassAdd | src/tools/templategroup.py:90-108 | a write of `templategroup.massadd`; groups always sent, templates iff given |
| Templategroup.MassRemove | src/tools/templategroup.py:112-130 | a write of `templategroup.massremove`; group ids always sent, template ids iff given |
| Templategroup.MassUpdate | src/tools/templategroup.py:134-152 | a write of `templategroup.massupdate`; groups always sent, templates iff given |
| Templategroup.Propagate | src/tools/templategroup.py:156-177 | a write of `templategroup.propagate`; each switch is sent iff it is on, and then as `true` |
| Usermacro.Get | src/tools/usermacro.py:10-35 | a read of `usermacro.get`; output always sent, filters iff given |
| Usermacro.Create | src/tools/usermacro.py:39-61 | a write of `usermacro.create`; host id, macro, value and type (default 0) always sent, description iff given |
| Usermacro.CreateGlobal | src/tools/usermacro.py:65-86 | a write of `usermacro.createglobal`; macro, value and type always sent, description iff given |
| Usermacro.Update | src/tools/usermacro.py:90-113 | a write of `usermacro.update`; the host macro id always sent, the rest iff given |
| Usermacro.UpdateGlobal | src/tools/usermacro.py:117-140 | a write of `usermacro.updateglobal`; the global macro id always sent, the rest iff given |
| Usermacro.Delete | src/tools/usermacro.py:144-153 | refused in read-only mode; otherwise `usermacro.delete` receives the ids positionally |
| Usermacro.DeleteGlobal | src/tools/usermacro.py:157-170 | its own inline guard behaves as the registry's: nothing happens in read-only mode; otherwise client, then `usermacro.deleteglobal` with the ids positionally |
| Problem.Get | src/tools/problem.py:10-47 | a read of `problem.get`; output always sent, `recent` iff it is on (then `true`), every other filter iff given |
| Server.Handle | src/tools/_registry.py:34-86 | one tool call or environment change keeps the session invariant; only an environment change alters the environment |
| Server.AtMostOneLogin | src/_core.py:45-70 | over any sequence of calls the process logs in at most once, and not at all if the slot is still empty at the end; a held client is never replaced |
| Server.ExactlyOneLogin | src/_core.py:45-70 | in a fresh process with a URL and a token, a first call allowed to proceed logs in, and over the whole run exactly one login reaches the remote side, accepted or not |
| Server.RunAll | src/_core.py:45-74 | over any sequence of events the log only grows, keeping every earlier call in order; the process logs in at most once and never while a client is held; a held client is never replaced; the first answer is the first event's |
| Server.ReadOnlyTakesEffectImmediately | src/_core.py:77-83 | `READ_ONLY` is read on every call: once turned on, the next write is refused with nothing called |
| Server.WritableTakesEffectImmediately | src/_core.py:98-105 | once `READ_ONLY` is turned off, a write behaves exactly as a read of the same method |
| Scenarios.FixtureIsWritable | tests/conftest.py:8-14 | the fixture environment allows writes |
| Scenarios.HostGetParams | tests/test_tools.py:33-39 | `host_get(hostids=["1"])` sends exactly output `extend` and those ids |
| Scenarios.HostGetExtraParams | tests/test_tools.py:41-46 | `selectInterfaces` from `extra_params` is sent alongside the output mode |
| Scenarios.HostCreateParams | tests/test_tools.py:48-57 | `host_create` without templates sends exactly five entries, inventory mode -1 and status 0 |
| Scenarios.HostCreateInFreshProcess | tests/test_tools.py:48-57 | in a fresh process `host_create` logs in with the token, then calls `host.create`; the authenticated client stays |
| Scenarios.HostCreateReadOnly | tests/test_tools.py:59-66 | in read-only mode `host_create` fails with nothing changed |
| Scenarios.HostDeleteCallsPositionally | tests/test_tools.py:68-72 | `host_delete(["1"])` calls `host.delete("1")` |
| Scenarios.HostGetInReadOnly | src/tools/_registry.py:34-49 | `host_get` reaches the API even in read-only mode |
| Scenarios.UsermacroCreateParams | tests/test_tools.py:121-125 | `usermacro_create` sends type 0 by default and leaves out the description |
| Scenarios.PropagateSwitchesOff | src/tools/hostgroup.py:177-183 | with both switches off only the groups are sent |
| Scenarios.PropagatePermissionsOnly | src/tools/hostgroup.py:177-183 | an on switch is sent as `true`, the off one is left out |
| Scenarios.ProblemGetDefaults | src/tools/problem.py:39-47 | `problem_get()` sends only the output mode; `recent=False` is left out |
| Scenarios.ProblemGetRecent | src/tools/problem.py:39-47 | `problem_get(recent=True)` sends `recent: true` |
| Scenarios.DeleteGlobalGuarded | src/tools/usermacro.py:166-169 | `usermacro_deleteglobal` is refused in read-only mode, otherwise passes the ids positionally |

## Left out

- `format_response` (`src/_core.py:86-95`): JSON serialisation with `default=str` is not modelled. Every path returns the remote answer as a `Value` instead of its JSON text.
- Logging, the FastMCP instance, tool registration and the entry point `src/zabbix_mcp_server.py` are not modelled. They do not affect what is called or returned.
- `load_dotenv()` (`src/_core.py:17`) is not modelled. It copies a `.env` file into the process environment at import, without overriding variables already set. `Env` is the environment after that import, so the file's effect on `READ_ONLY`, `ZABBIX_URL` and the credentials is already in it.
- The other tool files (item, trigger, template and the rest) are not part of this model. They follow the same pattern as the modelled tool files.
- The Zabbix API itself and the `zabbix_utils` client are left out. The remote side is a parameter, and an exception it raises becomes an error message.
- Text.Lower: models `str.lower()` on ASCII letters only. Non-ASCII letters are left unchanged, which is exact for the words compared here but not for arbitrary text.
- Text.ParseInt: models `int()` for ASCII digits and ASCII white space only. Other Unicode digits and spaces that Python accepts are not.
- Values.Value: floating-point numbers are not modelled. No modelled tool reads or builds one.
- Scenarios.HostGetExtraParams: states the two sent entries and one absent filter, not the whole dictionary. The full equality is costly to prove through the eight-key tool contract.
- Concurrency is left out. The source keeps the client in an unsynchronised global; the model handles one call at a time.
- Parameter types are partly fixed. Most tool arguments are any `Value`, whatever the source's type hints say. Three kinds of argument are narrower than Python allows:
  - the id lists of the delete tools are `seq<Value>`. So `host_delete("12")`, which Python would unpack into `host.delete("1", "2")`, cannot be written.
  - the switches `permissions` and `tag_filters` of `hostgroup_propagate` and `templategroup_propagate` are `bool`.
  - `recent` of `problem_get` is `bool`. So `problem_get(recent="yes")`, which Python would send as it is, cannot be written.
- Core.GetClient: constructing the client (`ZabbixAPI(url=..., validate_certs=...)`, `src/_core.py:57`) is assumed never to fail. If it raised, the slot would stay empty and the next call would build the client again; the model has no such path.

## Notes

- A non-`None` optional entry replaces a required entry of the same name. The source's wording says required entries are always included, but the code applies the optional loop after copying them. `Registry.BuildParams` follows the code. No modelled tool uses the same key in both.
- `get_zabbix_client` stores the new client in the global slot before it checks credentials or logs in. After a missing credential or a rejected login, later calls therefore get an unauthenticated client, and no error is raised. The docstring (`src/_core.py:36-41`) promises an authenticated client and an exception when authentication fails; that holds for the call that logs in, and `Core.GetClient` states it, but not for the calls after a failure. `Core.CredentialFailureThenFastPath` and `Core.LoginFailureNotRetried` state this as the code does it.
