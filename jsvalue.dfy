/**
 * The JSON values a request body or a watched file can hold, and the few
 * JavaScript operators the session parser applies to them: property reads
 * (`v.name`, `v?.name`, `v?.[0]`), truthiness, `||` and `??`.
 *
 * `undefined` is not a value of its own: a read that finds nothing yields
 * `None`. Numbers are reals, so NaN, -0 and the infinities are not modelled.
 */
module JsValue {
  import opened Wrappers

  datatype Value =
    | Null
    | Bool(b: bool)
    | Num(n: real)
    | Str(s: string)
    | Arr(elems: seq<Value>)
    | Obj(fields: map<string, Value>)

  /** JavaScript truthiness of a read; `undefined` (None) is falsy. */
  predicate Truthy(x: Option<Value>)
  {
    match x
    case None => false
    case Some(v) =>
      match v
      case Null => false
      case Bool(b) => b
      case Num(n) => n != 0.0
      case Str(s) => s != ""
      case Arr(_) => true
      case Obj(_) => true
  }

  /** `undefined` or `null`: the operands on which `?.` stops and `??` falls back. */
  predicate Nullish(x: Option<Value>)
  {
    x == None || x == Some(Null)
  }

  /**
   * `v.name` for a receiver that is not null. Only own properties of objects
   * are found; the names the parser reads are not own properties of arrays,
   * strings, numbers or booleans.
   */
  function Prop(v: Value, name: string): Option<Value>
  {
    match v
    case Obj(fields) => if name in fields then Some(fields[name]) else None
    case _ => None
  }

  /** `x?.name`: undefined when `x` is nullish, otherwise `x.name`. */
  function OptProp(x: Option<Value>, name: string): Option<Value>
  {
    if Nullish(x) then None else Prop(x.value, name)
  }

  /**
   * `x?.[0]`: the first element of an array, the first code unit of a string,
   * the property "0" of an object, and undefined otherwise.
   */
  function OptFirst(x: Option<Value>): Option<Value>
  {
    match x
    case None => None
    case Some(v) =>
      match v
      case Arr(elems) => if elems == [] then None else Some(elems[0])
      case Str(s) => if s == "" then None else Some(Str([s[0]]))
      case Obj(fields) => if "0" in fields then Some(fields["0"]) else None
      case _ => None
  }

  /** `x || d`: `x` itself when truthy, otherwise `d`. */
  function Or(x: Option<Value>, d: Value): Value
  {
    if Truthy(x) then x.value else d
  }

  /** `x ?? d`: `x` itself unless it is undefined or null, otherwise `d`. */
  function Coalesce(x: Option<Value>, d: Value): Value
  {
    if Nullish(x) then d else x.value
  }
}
