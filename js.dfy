/** JavaScript values as the components see them: option objects are maps from
    property names to values, and a missing property reads as Undefined. */
module Js {

  datatype Option<+T> = None | Some(value: T)

  /** A JavaScript value. Objects the code never looks inside (LatLng
      instances, SDK results, component APIs) are opaque references. */
  datatype Value =
    | Undefined
    | Null
    | Bool(b: bool)
    | Num(n: real)
    | Str(s: string)
    | Arr(items: seq<Value>)
    | Ref(id: nat)

  /** A plain options object `{ key: value, ... }`. */
  type Options = map<string, Value>

  /** Reading `obj[key]`: Undefined when the key is missing. */
  function Get(o: Options, key: string): (v: Value)
    ensures key !in o ==> v == Undefined
    ensures key in o ==> v == o[key]
  {
    if key in o then o[key] else Undefined
  }

  /** JavaScript truthiness. Every array and every object is truthy. */
  predicate Truthy(v: Value) {
    match v
    case Undefined => false
    case Null => false
    case Bool(b) => b
    case Num(n) => n != 0.0
    case Str(s) => s != ""
    case Arr(_) => true
    case Ref(_) => true
  }
}
