/** The dynamically typed values that the audit reads from provider
    payloads and writes into its report records (Python dicts and lists). */
module Values {

  datatype Option<T> = None | Some(value: T)

  /** A JSON-like value. `Null` also stands for a key that is absent, which is
      what Python's `dict.get(key)` returns in that case. */
  datatype Value =
    | Null
    | Bool(b: bool)
    | Num(n: int)
    | Str(s: string)
    | Arr(items: seq<Value>)
    | Obj(fields: map<string, Value>)

  /** A Python dict with string keys: a resource entry or a report row. */
  type Record = map<string, Value>

  /** `r.get(key)`: the value under `key`, or `None` when it is absent. */
  function Get(r: Record, key: string): Value
  {
    if key in r then r[key] else Null
  }

  /** Python's `bool(v)`: `None`, `False`, `0` and empty containers are false. */
  predicate Truthy(v: Value)
  {
    match v
    case Null => false
    case Bool(b) => b
    case Num(n) => n != 0
    case Str(s) => s != ""
    case Arr(xs) => xs != []
    case Obj(m) => m != map[]
  }

  /** A list of strings as a value. */
  function StrList(ss: seq<string>): (v: Value)
    ensures v.Arr? && |v.items| == |ss|
    ensures forall k :: 0 <= k < |ss| ==> v.items[k] == Str(ss[k])
  {
    Arr(seq(|ss|, k requires 0 <= k < |ss| => Str(ss[k])))
  }
}
