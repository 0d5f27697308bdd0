/**
 * Decoded JSON values as the client sees them after `response.json()`,
 * with the two Python operations the display code applies to them:
 * truthiness (`if x:`) and `dict.get`.
 */
module Json {

  import opened Wrappers

  datatype Value =
    | Null
    | Bool(b: bool)
    | Int(i: int)
    | Float(f: real)
    | Str(s: string)
    | List(items: seq<Value>)
    | Object(fields: map<string, Value>)

  /** A JSON object, a Python `dict[str, Any]`. */
  type Record = map<string, Value>

  /**
   * Python truthiness: the falsy values are exactly `None`, `False`, the
   * zeros, and the empty string, list and dict; everything else is true.
   */
  predicate Truthy(v: Value)
    ensures !Truthy(v) <==> v in {Null, Bool(false), Int(0), Float(0.0), Str(""), List([]), Object(map[])}
  {
    match v
    case Null => false
    case Bool(b) => b
    case Int(i) => i != 0
    case Float(f) => f != 0.0
    case Str(s) => s != ""
    case List(items) => items != []
    case Object(fields) => fields != map[]
  }

  /** `data.get(key)`: the stored value, or `None` when the key is missing. */
  function Get(data: Record, key: string): (v: Value)
    ensures key !in data ==> v == Null
    ensures key in data ==> v == data[key]
  {
    GetOr(data, key, Null)
  }

  /**
   * `data.get(key, default)`: the default replaces only a MISSING key;
   * a key that is present with a JSON `null` yields `Null`.
   */
  function GetOr(data: Record, key: string, default: Value): (v: Value)
    ensures key in data ==> v == data[key]
    ensures key !in data ==> v == default
  {
    if key in data then data[key] else default
  }

  /** Python's `len(v)`, which raises `TypeError` for values without a length. */
  function Length(v: Value): (n: Option<nat>)
    ensures n.Some? <==> (v.Str? || v.List? || v.Object?)
    ensures n.Some? ==> (n.value == 0 <==> !Truthy(v))
  {
    match v
    case Str(s) => Some(|s|)
    case List(items) => Some(|items|)
    case Object(fields) => Some(|fields|)
    case _ => None
  }
}
