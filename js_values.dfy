/** The JavaScript values the entry points inspect, and the checks they apply to them. */
module JsValues {
  /** A JavaScript number: a finite value, or one of the three non-finite ones. */
  datatype JsNumber = Finite(value: real) | NaN | PositiveInfinity | NegativeInfinity

  /** A JavaScript value, as far as argument checking tells values apart. */
  datatype JsValue =
    | Undefined
    | Null
    | Boolean(b: bool)
    | Number(n: JsNumber)
    | Str(s: string)
    | Function
    | Object(properties: map<string, JsValue>)

  /** `IsObject`: plain objects and functions are objects. */
  predicate IsObject(v: JsValue)
  {
    v.Object? || v.Function?
  }

  /** JavaScript truthiness. */
  predicate Truthy(v: JsValue)
  {
    match v
    case Undefined => false
    case Null => false
    case Boolean(b) => b
    case Number(n) => !n.NaN? && (n.Finite? ==> n.value != 0.0)
    case Str(s) => s != ""
    case Function => true
    case Object(_) => true
  }

  /** `options.Has(key)`: only plain objects carry properties here. */
  predicate HasProperty(v: JsValue, key: string)
  {
    v.Object? && key in v.properties
  }

  /** `options[key]`: `undefined` when the property is missing. */
  function Property(v: JsValue, key: string): (r: JsValue)
    ensures !HasProperty(v, key) ==> r == Undefined
  {
    if HasProperty(v, key) then v.properties[key] else Undefined
  }
}
