/**
 * The Python values the service keeps in its post dictionaries, with the
 * truthiness rules that `if`, `not` and `or` apply to them, and a dictionary
 * object whose contents are updated in place.
 */
module PyData {

  /** A value stored in a post dict. `Float` is carried through, never computed on. */
  datatype Value = Null | Str(s: string) | Int(i: int) | Bool(b: bool) | Float(x: real)

  /** Python truthiness: None, "", 0, False and 0.0 are false. */
  predicate Truthy(v: Value) {
    match v
    case Null => false
    case Str(s) => s != []
    case Int(i) => i != 0
    case Bool(b) => b
    case Float(x) => x != 0.0
  }

  /** Python's `a or b`: `a` when it is truthy, otherwise `b`. */
  function Or(a: Value, b: Value): (r: Value)
    ensures Truthy(a) ==> r == a
    ensures !Truthy(a) ==> r == b
  {
    if Truthy(a) then a else b
  }

  /** `d.get(key, default)`. */
  function Get(d: map<string, Value>, key: string, default: Value): (r: Value)
    ensures key in d ==> r == d[key]
    ensures key !in d ==> r == default
  {
    if key in d then d[key] else default
  }

  /** A Python `dict[str, Any]`: an object whose entries can be changed in place. */
  class Dict {
    var items: map<string, Value>

    constructor (items: map<string, Value>)
      ensures this.items == items
    {
      this.items := items;
    }
  }
}
