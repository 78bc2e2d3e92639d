/** The JavaScript values a client can put in a socket message, and the coercions the server applies to them. */
module JsValues {
  import opened Wrappers

  /** A message field as the server receives it; a missing field reads as JsUndefined. */
  datatype JsValue =
    | JsNumber(n: real)
    | JsBool(b: bool)
    | JsString(s: string)
    | JsUndefined
    | JsNull
    | JsObject

  /** `typeof v == "number" ? v : 0` */
  function NumberOr0(v: JsValue): (r: real)
    ensures v.JsNumber? ==> r == v.n
    ensures !v.JsNumber? ==> r == 0.0
  {
    if v.JsNumber? then v.n else 0.0
  }

  /** `typeof v == "boolean" ? v : false` */
  function BoolOrFalse(v: JsValue): (r: bool)
    ensures r <==> v == JsBool(true)
  {
    v.JsBool? && v.b
  }

  /** `typeof v == "string" ? v : "None"` */
  function StringOrNone(v: JsValue): (r: string)
    ensures v.JsString? ==> r == v.s
    ensures !v.JsString? ==> r == "None"
  {
    if v.JsString? then v.s else "None"
  }

  /** JavaScript truthiness, as an `if` or `?:` reads a value; NaN is not modelled. */
  predicate Truthy(v: JsValue) {
    match v
    case JsNumber(n) => n != 0.0
    case JsBool(b) => b
    case JsString(s) => s != ""
    case JsUndefined => false
    case JsNull => false
    case JsObject => true
  }

  /** The integer key `Map.prototype.has` finds for `v` in a map keyed by non-negative integers: only a number
      with an integral value matches; a string such as "3" never does. */
  function KeyOf(v: JsValue): (r: Option<nat>)
    ensures r.Some? <==> v.JsNumber? && v.n >= 0.0 && v.n == v.n.Floor as real
    ensures r.Some? ==> v == JsNumber(r.value as real)
  {
    if v.JsNumber? && v.n >= 0.0 && v.n == v.n.Floor as real then Some(v.n.Floor) else None
  }

  lemma KeyOfNumber(k: nat)
    ensures KeyOf(JsNumber(k as real)) == Some(k)
  {
  }
}
