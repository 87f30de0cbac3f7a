/** The slice of JavaScript's value model that the display module inspects:
    `typeof` tests, truthiness, property reads and `Number.isFinite`.
    Numbers are IEEE doubles in the source; here a finite number is an exact
    `real`, next to the three non-finite values. */
module JsValues {

  datatype Option<+T> = None | Some(value: T)

  /** A JavaScript number. Negative zero is not distinguished from zero. */
  datatype Number = Finite(r: real) | NaN | PosInf | NegInf

  /** A JavaScript value as seen by `typeof`: `Obj` stands for every value
      whose `typeof` is "object" and that is not null (plain objects and
      arrays alike), keyed by own property name; `Fn` for a function. */
  datatype JsValue =
    | Undefined
    | Null
    | Bool(b: bool)
    | Num(n: Number)
    | Str(s: string)
    | Obj(props: map<string, JsValue>)
    | Fn

  /** `typeof v === "number"` */
  predicate IsNumber(v: JsValue) {
    v.Num?
  }

  /** `typeof v === "object"`: true for null as well. */
  predicate IsObjectType(v: JsValue) {
    v.Obj? || v.Null?
  }

  /** `Number.isFinite(v)`: no coercion, so only finite numbers pass. */
  predicate IsFiniteNumber(v: JsValue) {
    v.Num? && v.n.Finite?
  }

  /** JavaScript truthiness (`if (v)`, `!v`, `v || w`). */
  predicate Truthy(v: JsValue) {
    match v
    case Undefined => false
    case Null => false
    case Bool(b) => b
    case Num(n) => !(n.NaN? || n == Finite(0.0))
    case Str(s) => s != ""
    case Obj(_) => true
    case Fn => true
  }

  /** `v.name` (and `v?.name`) for the property names the module reads: an
      object yields its own property or undefined; null and undefined yield
      undefined under `?.`; primitives and functions have none of these
      properties. */
  function Prop(v: JsValue, name: string): (r: JsValue)
    ensures !v.Obj? ==> r == Undefined
  {
    if v.Obj? && name in v.props then v.props[name] else Undefined
  }

  /** `a >= b` for two JavaScript numbers: false whenever NaN takes part. */
  predicate GreaterOrEqual(a: Number, b: Number) {
    match (a, b)
    case (NaN, _) => false
    case (_, NaN) => false
    case (PosInf, _) => true
    case (_, NegInf) => true
    case (NegInf, _) => false
    case (_, PosInf) => false
    case (Finite(x), Finite(y)) => x >= y
  }
}
