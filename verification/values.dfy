/** JSON-like values: what tool arguments, API parameters and API results are made of. */
module Values {

  /** A Python value as it crosses the tool boundary. `VNull` is Python's `None`
      (JSON `null`). Floating-point numbers are not modelled. */
  datatype Value =
    | VNull
    | VBool(b: bool)
    | VInt(i: int)
    | VStr(s: string)
    | VList(items: seq<Value>)
    | VObj(fields: map<string, Value>)

  /** Keyword parameters of one API call: Python's `Dict[str, Any]`. Keyword
      arguments are unordered, so insertion order is not kept. */
  type Params = map<string, Value>

  /** A list of strings, as the id-list arguments are spelled. */
  function Strings(ss: seq<string>): (v: Value)
    ensures v.VList? && |v.items| == |ss|
    ensures forall i | 0 <= i < |ss| :: v.items[i] == VStr(ss[i])
  {
    VList(seq(|ss|, i requires 0 <= i < |ss| => VStr(ss[i])))
  }
}
