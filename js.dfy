/** JavaScript values as they appear in a parsed JSON request body or a stored document. */
module Js {

  /**
   * A JSON value, plus `undefined` for a key that is absent. Numbers are
   * integers here (NaN and fractions are not modelled).
   */
  datatype Value =
    | Undefined
    | Null
    | Bool(b: bool)
    | Num(n: int)
    | Str(s: string)
    | Arr(items: seq<Value>)
    | Obj(fields: map<string, Value>)

  /** JavaScript truthiness: `false`, `0`, `""`, `null` and `undefined` are falsy. */
  predicate Truthy(v: Value) {
    match v
    case Undefined => false
    case Null => false
    case Bool(b) => b
    case Num(n) => n != 0
    case Str(s) => s != ""
    case Arr(_) => true
    case Obj(_) => true
  }

  /** A plain object: `obj.key` reads `undefined` for a missing key. */
  type Object = map<string, Value>

  function Get(o: Object, key: string): Value {
    if key in o then o[key] else Undefined
  }
}
