/**
  JSON values as the page's script sees them after `response.json()`, and the small
  part of JavaScript's semantics the response check relies on: reading a named
  property, reading element `[0]`, truthiness, and `x > 0`.

  A property read yields `None` for `undefined`. Reading a property of `null` or
  `undefined` throws a `TypeError`; the callers of `Field` and `Index0` exclude that
  case and model the throw themselves.
*/
module JsValue {
  import opened Wrappers

  datatype Json =
    | Null
    | Bool(b: bool)
    | Num(n: int)
    | Str(s: string)
    | Arr(items: seq<Json>)
    | Obj(fields: map<string, Json>)

  /** JavaScript truthiness of a property that may be `undefined`. */
  predicate Truthy(x: Option<Json>) {
    match x
    case None => false
    case Some(v) =>
      match v
      case Null => false
      case Bool(b) => b
      case Num(n) => n != 0
      case Str(s) => s != []
      case Arr(_) => true
      case Obj(_) => true
  }

  /**
    `v.name` for a property name that is not an array index: an object's own field,
    or the `length` of an array or string.
  */
  function Field(v: Json, name: string): (r: Option<Json>)
    requires v != Null
    ensures v.Obj? ==> (r.Some? <==> name in v.fields)
    ensures v.Obj? && name in v.fields ==> r == Some(v.fields[name])
    ensures v.Arr? && name == "length" ==> r == Some(Num(|v.items|))
  {
    match v
    case Obj(fields) => if name in fields then Some(fields[name]) else None
    case Arr(items) => if name == "length" then Some(Num(|items|)) else None
    case Str(s) => if name == "length" then Some(Num(|s|)) else None
    case _ => None
  }

  /** `v[0]`: the first element of an array or string, or an object's field `"0"`. */
  function Index0(v: Json): (r: Option<Json>)
    requires v != Null
    ensures v.Arr? ==> (r.Some? <==> |v.items| > 0)
    ensures v.Arr? && |v.items| > 0 ==> r == Some(v.items[0])
  {
    match v
    case Obj(fields) => if "0" in fields then Some(fields["0"]) else None
    case Arr(items) => if |items| > 0 then Some(items[0]) else None
    case Str(s) => if |s| > 0 then Some(Str([s[0]])) else None
    case _ => None
  }

  /** `x > 0` for a `length` read from a value; see the README for the coercions left out. */
  predicate Positive(x: Option<Json>) {
    match x
    case Some(Num(n)) => n > 0
    case Some(Bool(b)) => b
    case _ => false
  }
}
