/**
 JSON values as the two services exchange them. An object is a finite map: both
 Python dictionaries and the `jsonb` column compare objects without their key order.
 */
module Json {

  datatype Value =
    | Null
    | Bool(b: bool)
    | Int(n: int)
    | Float(x: real)
    | Str(s: string)
    | Arr(items: seq<Value>)
    | Obj(fields: map<string, Value>)

  type Object = map<string, Value>

  /** `dict.get(key)`: a missing key reads as null. */
  function Get(o: Object, key: string): Value {
    if key in o then o[key] else Null
  }

  /** What `if value` and `value or default` test. */
  predicate Truthy(v: Value) {
    match v
    case Null => false
    case Bool(b) => b
    case Int(n) => n != 0
    case Float(x) => x != 0.0
    case Str(s) => s != ""
    case Arr(items) => items != []
    case Obj(fields) => fields != map[]
  }
}
