/** `src/tools/_registry.py`: how every tool assembles its keyword parameters,
    and the three guarded or unguarded paths by which a tool reaches the API. */
module Registry {
  import opened Wrappers
  import opened Values
  import opened Core

  // ---------------------------------------------------------------------------
  // Parameter assembly
  // ---------------------------------------------------------------------------

  /** `extra_params` as a mapping; `None` contributes nothing. */
  function ExtraOf(extraParams: Option<Params>): Params {
    if extraParams.Some? then extraParams.value else map[]
  }

  /** The entries of `optional` whose value is not `None`. */
  function Given(optional: Params): (given: Params)
    ensures forall k | k in optional :: k in given <==> optional[k] != VNull
    ensures forall k | k in given :: k in optional && given[k] == optional[k]
  {
    map k | k in optional && optional[k] != VNull :: optional[k]
  }

  /** `base` updated with every entry of `top`, as `dict.update` does. */
  function Override(base: Params, top: Params): (m: Params)
    ensures m.Keys == base.Keys + top.Keys
    ensures forall k | k in top :: m[k] == top[k]
    ensures forall k | k in base && k !in top :: m[k] == base[k]
  {
    base + top
  }

  /** `build_params(required, optional, extra_params)`: required entries first,
      then the optional entries that are not `None` (`False`, `0`, `""` and `[]`
      are kept), then `extra_params`, which wins every collision. A non-`None`
      optional entry also replaces a required entry of the same name. */
  function BuildParams(required: Params, optional: Params, extraParams: Option<Params>): (params: Params)
    ensures params.Keys == required.Keys + Given(optional).Keys + ExtraOf(extraParams).Keys
    ensures forall k | k in ExtraOf(extraParams) :: params[k] == ExtraOf(extraParams)[k]
    ensures forall k | k in Given(optional) && k !in ExtraOf(extraParams) :: params[k] == optional[k]
    ensures forall k | k in required && k !in Given(optional) && k !in ExtraOf(extraParams) ::
      params[k] == required[k]
  {
    var merged := Override(required, Given(optional));
    if extraParams.Some? && |extraParams.value| > 0 then Override(merged, extraParams.value) else merged
  }

  /** Without `extra_params` (absent or empty) the result is exactly the
      required entries together with the optional entries that are not `None`. */
  lemma BuildParamsWithoutExtra(required: Params, optional: Params, extraParams: Option<Params>)
    requires extraParams.None? || extraParams.value == map[]
    ensures BuildParams(required, optional, extraParams) == required + Given(optional)
  {
  }

  /** An optional entry is sent exactly when its value is not `None`, or when
      another source supplies the same key; falsy values are not `None`. */
  lemma OptionalSentUnlessNone(required: Params, optional: Params, extraParams: Option<Params>, key: string)
    requires key in optional && key !in required && key !in ExtraOf(extraParams)
    ensures key in BuildParams(required, optional, extraParams) <==> optional[key] != VNull
  {
  }

  /** The entries of `optional` among the keys `done` whose value is not `None`:
      what the loop of `build_params` has added after visiting `done`. */
  function GivenAmong(optional: Params, done: set<string>): Params {
    map k | k in optional && k in done && optional[k] != VNull :: optional[k]
  }

  /** Visiting one more key adds its entry when it is not `None`. */
  lemma GivenAmongAdds(optional: Params, done: set<string>, key: string)
    requires key in optional && optional[key] != VNull
    ensures GivenAmong(optional, done + {key}) == GivenAmong(optional, done)[key := optional[key]]
  {
  }

  /** Visiting a key whose value is `None` adds nothing. */
  lemma GivenAmongSkips(optional: Params, done: set<string>, key: string)
    requires key in optional && optional[key] == VNull
    ensures GivenAmong(optional, done + {key}) == GivenAmong(optional, done)
  {
  }

  /** Once every optional key has been visited, the accumulated entries are
      the required ones together with every optional entry that is not `None`. */
  lemma LoopDone(required: Params, optional: Params, done: set<string>)
    requires done <= optional.Keys && optional.Keys - done == {}
    ensures required + GivenAmong(optional, done) == Override(required, Given(optional))
  {
    assert done == optional.Keys by {
      forall k | k in optional.Keys ensures k in done {
        assert k !in optional.Keys - done;
      }
    }
    assert GivenAmong(optional, done) == Given(optional);
  }

  /** The merge of `extra_params` that ends `build_params`. */
  lemma ExtraMergedLast(required: Params, optional: Params, extraParams: Option<Params>)
    requires extraParams.Some? && |extraParams.value| > 0
    ensures Override(required, Given(optional)) + extraParams.value == BuildParams(required, optional, extraParams)
  {
  }

  /** `build_params` as the source writes it: a loop over the optional entries
      (in whatever order the dictionary yields them), then the merge. */
  method BuildParamsLoop(required: Params, optional: Params, extraParams: Option<Params>) returns (params: Params)
    ensures params == BuildParams(required, optional, extraParams)
  {
    params := required;
    var done: set<string> := {};
    assert GivenAmong(optional, done) == map[];
    while optional.Keys - done != {}
      invariant done <= optional.Keys
      invariant params == required + GivenAmong(optional, done)
      decreases optional.Keys - done
    {
      var key :| key in optional.Keys - done;
      if optional[key] != VNull {
        GivenAmongAdds(optional, done, key);
        params := params[key := optional[key]];
      } else {
        GivenAmongSkips(optional, done, key);
      }
      done := done + {key};
    }
    LoopDone(required, optional, done);
    if extraParams.Some? && |extraParams.value| > 0 {
      ExtraMergedLast(required, optional, extraParams);
      params := params + extraParams.value;
    }
  }

  // The shapes in which the tools' contracts speak about their parameters.

  /** A required argument: always sent, with the caller's value unless
      `extra_params` replaces it. */
  predicate SendsAlways(params: Params, extraParams: Option<Params>, key: string, v: Value) {
    key in params && (key !in ExtraOf(extraParams) ==> params[key] == v)
  }

  /** An optional argument: unless `extra_params` supplies the key, it is sent
      exactly when it is not `None`, and then with the caller's value. */
  predicate SendsIfGiven(params: Params, extraParams: Option<Params>, key: string, v: Value) {
    key !in ExtraOf(extraParams) ==> (key in params <==> v != VNull) && (v != VNull ==> params[key] == v)
  }

  /** A boolean switch passed as `flag if flag else None`: unless
      `extra_params` supplies the key, it is sent exactly when it is on, and
      then as `true`. */
  predicate SendsFlag(params: Params, extraParams: Option<Params>, key: string, flag: bool) {
    key !in ExtraOf(extraParams) ==> (key in params <==> flag) && (flag ==> params[key] == VBool(true))
  }

  /** `flag if flag else None` for a boolean `flag`. */
  function FlagValue(flag: bool): (v: Value)
    ensures v != VNull <==> flag
    ensures flag ==> v == VBool(true)
  {
    if flag then VBool(true) else VNull
  }

  /** Every entry of `extra_params` is sent as given. */
  predicate ExtraWins(params: Params, extraParams: Option<Params>) {
    forall k | k in ExtraOf(extraParams) :: k in params && params[k] == ExtraOf(extraParams)[k]
  }

  /** Nothing is sent beyond the tool's own keys and those of `extra_params`. */
  predicate OnlyKeys(params: Params, keys: set<string>, extraParams: Option<Params>) {
    params.Keys <= keys + ExtraOf(extraParams).Keys
  }

  /** A required entry is always sent, with its own value unless
      `extra_params` replaces it. */
  lemma RequiredKeySent(required: Params, optional: Params, extraParams: Option<Params>, key: string)
    requires key in required && key !in optional
    ensures SendsAlways(BuildParams(required, optional, extraParams), extraParams, key, required[key])
  {
  }

  /** An optional entry is sent exactly when it is not `None`, unless
      `extra_params` supplies the key. */
  lemma OptionalKeySent(required: Params, optional: Params, extraParams: Option<Params>, key: string)
    requires key in optional && key !in required
    ensures SendsIfGiven(BuildParams(required, optional, extraParams), extraParams, key, optional[key])
  {
  }

  /** `extra_params` is applied last, and nothing beyond the three sources appears. */
  lemma ExtraAppliedLast(required: Params, optional: Params, extraParams: Option<Params>)
    ensures ExtraWins(BuildParams(required, optional, extraParams), extraParams)
    ensures OnlyKeys(BuildParams(required, optional, extraParams), required.Keys + optional.Keys, extraParams)
  {
  }

  // ---------------------------------------------------------------------------
  // Dispatch
  // ---------------------------------------------------------------------------

  /** An answer of the remote API as the tool sees it: an exception raised by
      the client propagates unchanged. */
  function Reply(answer: Result<Value, string>): (r: Result<Value, Error>)
    ensures r.Success? <==> answer.Success?
    ensures r.Success? ==> r.value == answer.value
    ensures r.Failure? ==> r.error == RemoteFailure(answer.error)
  {
    match answer
    case Success(v) => Success(v)
    case Failure(message) => Failure(RemoteFailure(message))
  }

  /** One call on the client: it is recorded, and the remote answer is returned. */
  function Perform(st: State, remote: Remote, call: Call): Step<Value> {
    Step(st.(log := st.log + [call]), Reply(remote(call)))
  }

  /** Obtain the client and then make exactly `call`; a failure to obtain the
      client propagates and no call is made. */
  predicate ObtainsClientThenCalls(st: State, remote: Remote, call: Call, o: Step<Value>) {
    var c := GetClient(st, remote);
    && (c.result.Failure? ==> o == Step(c.state, Failure(c.result.error)))
    && (c.result.Success? ==>
          && o.state == c.state.(log := c.state.log + [call])
          && o.result == Reply(remote(call)))
  }

  /** `zabbix_get(api_object, api_method, params)`: no read-only guard. */
  function ZabbixGet(st: State, remote: Remote, apiObject: string, apiMethod: string, params: Params): (o: Step<Value>)
    ensures ObtainsClientThenCalls(st, remote, Keyword(apiObject, apiMethod, params), o)
    ensures st.slot.Some? ==>
      && o.state == st.(log := st.log + [Keyword(apiObject, apiMethod, params)])
      && o.result == Reply(remote(Keyword(apiObject, apiMethod, params)))
    ensures o.state.env == st.env
    ensures SessionStep(st, o.state)
  {
    var c := GetClient(st, remote);
    if c.result.Failure? then Step(c.state, Failure(c.result.error))
    else
      SessionStepThenCall(st, c.state, Keyword(apiObject, apiMethod, params));
      Perform(c.state, remote, Keyword(apiObject, apiMethod, params))
  }

  /** `zabbix_write(api_object, api_method, params)`: the guard runs first; in
      read-only mode nothing happens at all (no client, no call); otherwise it
      behaves exactly as the read path. */
  function ZabbixWrite(st: State, remote: Remote, apiObject: string, apiMethod: string, params: Params): (o: Step<Value>)
    ensures IsReadOnly(st.env) ==> o == Step(st, Failure(ReadOnlyMode))
    ensures !IsReadOnly(st.env) ==> o == ZabbixGet(st, remote, apiObject, apiMethod, params)
  {
    var guard := ValidateReadOnly(st.env);
    if guard.Fail? then Step(st, Failure(guard.error))
    else
      var c := GetClient(st, remote);
      if c.result.Failure? then Step(c.state, Failure(c.result.error))
      else Perform(c.state, remote, Keyword(apiObject, apiMethod, params))
  }

  /** `zabbix_delete(api_object, ids)`: guarded like a write; the ids become the
      positional arguments of `api_object.delete`, in order. */
  function ZabbixDelete(st: State, remote: Remote, apiObject: string, ids: seq<Value>): (o: Step<Value>)
    ensures IsReadOnly(st.env) ==> o == Step(st, Failure(ReadOnlyMode))
    ensures !IsReadOnly(st.env) ==> ObtainsClientThenCalls(st, remote, Positional(apiObject, "delete", ids), o)
    ensures !IsReadOnly(st.env) && st.slot.Some? ==>
      && o.state == st.(log := st.log + [Positional(apiObject, "delete", ids)])
      && o.result == Reply(remote(Positional(apiObject, "delete", ids)))
    ensures o.state.env == st.env
    ensures SessionStep(st, o.state)
  {
    var guard := ValidateReadOnly(st.env);
    if guard.Fail? then Step(st, Failure(guard.error))
    else
      var c := GetClient(st, remote);
      if c.result.Failure? then Step(c.state, Failure(c.result.error))
      else
        SessionStepThenCall(st, c.state, Positional(apiObject, "delete", ids));
        Perform(c.state, remote, Positional(apiObject, "delete", ids))
  }

  /** The read path never consults `READ_ONLY`: changing it changes nothing
      about the call made or the answer returned. */
  lemma GetIgnoresReadOnly(st: State, remote: Remote, apiObject: string, apiMethod: string, params: Params, setting: string)
    ensures var flipped := st.(env := st.env["READ_ONLY" := setting]);
      && ZabbixGet(flipped, remote, apiObject, apiMethod, params).result == ZabbixGet(st, remote, apiObject, apiMethod, params).result
      && ZabbixGet(flipped, remote, apiObject, apiMethod, params).state.log == ZabbixGet(st, remote, apiObject, apiMethod, params).state.log
      && ZabbixGet(flipped, remote, apiObject, apiMethod, params).state.slot == ZabbixGet(st, remote, apiObject, apiMethod, params).state.slot
  {
    var flipped := st.(env := st.env["READ_ONLY" := setting]);
    assert "READ_ONLY" !in ClientVariables;
    GetClientReadsOnlyClientVariables(st, flipped, remote);
  }

  /** How a tool reaches the API: through one of the three registry paths. */
  datatype Request =
    | ViaGet(apiObject: string, apiMethod: string, params: Params)
    | ViaWrite(apiObject: string, apiMethod: string, params: Params)
    | ViaDelete(apiObject: string, ids: seq<Value>)

  /** Run a tool's request against the current process state. */
  function Run(st: State, remote: Remote, request: Request): (o: Step<Value>)
    ensures !request.ViaGet? && IsReadOnly(st.env) ==> o == Step(st, Failure(ReadOnlyMode))
    ensures o.state.env == st.env
    ensures SessionStep(st, o.state)
  {
    match request
    case ViaGet(apiObject, apiMethod, params) => ZabbixGet(st, remote, apiObject, apiMethod, params)
    case ViaWrite(apiObject, apiMethod, params) => ZabbixWrite(st, remote, apiObject, apiMethod, params)
    case ViaDelete(apiObject, ids) => ZabbixDelete(st, remote, apiObject, ids)
  }

  // ---------------------------------------------------------------------------
  // The examples the source's tests give
  // ---------------------------------------------------------------------------

  /** `build_params({"a": 1}, {}) == {"a": 1}`. */
  lemma BuildParamsRequiredOnly()
    ensures BuildParams(map["a" := VInt(1)], map[], None) == map["a" := VInt(1)]
  {
    assert Given(map[]) == map[];
  }

  /** `build_params({"a": 1}, {"b": None, "c": 2}) == {"a": 1, "c": 2}`. */
  lemma BuildParamsNoneSkipped()
    ensures BuildParams(map["a" := VInt(1)], map["b" := VNull, "c" := VInt(2)], None)
      == map["a" := VInt(1), "c" := VInt(2)]
  {
    assert Given(map["b" := VNull, "c" := VInt(2)]) == map["c" := VInt(2)];
  }

  /** `build_params({"a": 1}, {}, {"d": 3}) == {"a": 1, "d": 3}`. */
  lemma BuildParamsExtraMerged()
    ensures BuildParams(map["a" := VInt(1)], map[], Some(map["d" := VInt(3)]))
      == map["a" := VInt(1), "d" := VInt(3)]
  {
    assert Given(map[]) == map[];
  }

  /** `build_params({"a": 1}, {}, {"a": 99}) == {"a": 99}`. */
  lemma BuildParamsExtraOverrides()
    ensures BuildParams(map["a" := VInt(1)], map[], Some(map["a" := VInt(99)])) == map["a" := VInt(99)]
  {
    assert Given(map[]) == map[];
  }

  /** `build_params({"a": 1}, {"b": 2}, None) == {"a": 1, "b": 2}`. */
  lemma BuildParamsNoExtra()
    ensures BuildParams(map["a" := VInt(1)], map["b" := VInt(2)], None) == map["a" := VInt(1), "b" := VInt(2)]
  {
    assert Given(map["b" := VInt(2)]) == map["b" := VInt(2)];
  }

  /** Falsy values other than `None` are kept. */
  lemma BuildParamsKeepsFalsy()
    ensures BuildParams(map["a" := VInt(1)], map["b" := VBool(false), "c" := VInt(0), "d" := VStr(""), "e" := VList([])], None)
      == map["a" := VInt(1), "b" := VBool(false), "c" := VInt(0), "d" := VStr(""), "e" := VList([])]
  {
  }
}
