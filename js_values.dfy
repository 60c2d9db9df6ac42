/**
 * The JavaScript values that flow through the demo's table code: what
 * Apache Arrow's `get(i)` hands back, what the converted rows hold and what
 * `formatCell` receives. Only the parts of the language the code inspects
 * are modelled: `typeof`, truthiness and strict equality.
 */
module JsValues {

  /**
   * A JavaScript value. Numbers are modelled as reals, so NaN, the
   * infinities and -0 are not represented. `JsVector` is an Apache Arrow
   * `Vector` (an object whose `get(i)` yields `items[i]`); `JsArray` is a
   * plain JavaScript array; `JsObject` is any other object.
   */
  datatype JsValue =
    | JsUndefined
    | JsNull
    | JsBoolean(b: bool)
    | JsNumber(num: real)
    | JsBigInt(big: int)
    | JsString(str: string)
    | JsSymbol(description: string)
    | JsFunction(name: string)
    | JsArray(elems: seq<JsValue>)
    | JsVector(items: seq<JsValue>)
    | JsObject(className: string)

  /** The string JavaScript's `typeof` operator yields. */
  function TypeOf(v: JsValue): (kind: string)
    ensures kind == "object" <==> (v.JsNull? || v.JsArray? || v.JsVector? || v.JsObject?)
    ensures kind in {"undefined", "object", "boolean", "number", "bigint", "string", "symbol", "function"}
  {
    match v
    case JsUndefined => "undefined"
    case JsNull => "object"
    case JsBoolean(_) => "boolean"
    case JsNumber(_) => "number"
    case JsBigInt(_) => "bigint"
    case JsString(_) => "string"
    case JsSymbol(_) => "symbol"
    case JsFunction(_) => "function"
    case JsArray(_) => "object"
    case JsVector(_) => "object"
    case JsObject(_) => "object"
  }

  /**
   * JavaScript truthiness: `undefined`, `null`, `false`, `0`, `0n` and the
   * empty string are falsy; every object, arrays included, is truthy.
   */
  predicate Truthy(v: JsValue)
    ensures v.JsUndefined? || v.JsNull? || v == JsBoolean(false) || v == JsNumber(0.0) || v == JsBigInt(0) || v == JsString("") <==> !Truthy(v)
  {
    match v
    case JsUndefined => false
    case JsNull => false
    case JsBoolean(b) => b
    case JsNumber(x) => x != 0.0
    case JsBigInt(i) => i != 0
    case JsString(s) => s != ""
    case _ => true
  }

  /** `instanceof Vector`: Arrow Vectors only; every Vector is an "object" to `typeof`, and no plain array is one. */
  predicate IsVector(v: JsValue)
    ensures IsVector(v) ==> TypeOf(v) == "object"
    ensures v.JsArray? || v.JsNull? || v.JsObject? ==> !IsVector(v)
  {
    v.JsVector?
  }

  /**
   * `a === b`. Primitives compare by value (with `typeof` first); reference
   * values (symbols, functions, arrays, vectors, other objects) compare by
   * identity, which this model does not track: they are taken to be
   * distinct objects, as every array the converter creates is.
   */
  predicate StrictEquals(a: JsValue, b: JsValue)
    ensures StrictEquals(a, b) ==> a == b
    ensures TypeOf(a) != TypeOf(b) ==> !StrictEquals(a, b)
    ensures TypeOf(a) in {"symbol", "function", "object"} && !(a.JsNull? && b.JsNull?) ==> !StrictEquals(a, b)
    ensures (a.JsUndefined? || a.JsBoolean? || a.JsNumber? || a.JsBigInt? || a.JsString? || a.JsNull?) ==> (StrictEquals(a, b) <==> a == b)
  {
    || (a.JsUndefined? && b.JsUndefined?)
    || (a.JsNull? && b.JsNull?)
    || (a.JsBoolean? && b.JsBoolean? && a.b == b.b)
    || (a.JsNumber? && b.JsNumber? && a.num == b.num)
    || (a.JsBigInt? && b.JsBigInt? && a.big == b.big)
    || (a.JsString? && b.JsString? && a.str == b.str)
  }
}
