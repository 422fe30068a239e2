/**
 * The slice of JavaScript values the gateway inspects: primitives, plain
 * objects, truthiness, optional-chaining property reads and `||`.
 */
module JsValues {

  /** A JavaScript value; numbers are kept integral (no NaN, no fractions). */
  datatype JsValue =
    | Undefined
    | Null
    | Bool(b: bool)
    | Number(n: int)
    | Str(s: string)
    | Obj(fields: map<string, JsValue>)

  /** ECMAScript ToBoolean: `undefined`, `null`, `false`, `0` and `""` are falsy, every object is truthy. */
  predicate Truthy(v: JsValue)
  {
    match v
    case Undefined => false
    case Null => false
    case Bool(b) => b
    case Number(n) => n != 0
    case Str(s) => s != ""
    case Obj(_) => true
  }

  /**
   * `v?.name`: `undefined` on a nullish value, on a primitive (none of the
   * names read here is a property of a primitive) and on a missing key.
   */
  function Prop(v: JsValue, name: string): (r: JsValue)
    ensures r != Undefined ==> v.Obj? && name in v.fields && r == v.fields[name]
    ensures v.Obj? && name in v.fields ==> r == v.fields[name]
  {
    match v
    case Obj(f) => if name in f then f[name] else Undefined
    case _ => Undefined
  }

  /** `a || b`: the first operand when it is truthy, else the second. */
  function Or(a: JsValue, b: JsValue): (r: JsValue)
    ensures Truthy(r) <==> Truthy(a) || Truthy(b)
    ensures r == a || r == b
  {
    if Truthy(a) then a else b
  }

  /** A destructuring default `{ x = null }`: only an `undefined` property takes the default. */
  function DefaultNull(v: JsValue): (r: JsValue)
    ensures r != Undefined
    ensures v != Undefined ==> r == v
  {
    if v == Undefined then Null else v
  }
}
