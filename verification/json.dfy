/** The values a parsed geocoding response body is made of, and the few
    JavaScript operations the assertion library applies to them:
    truthiness, property reads, `hasOwnProperty` and the number conversion
    behind `<` and `<=`. */
module Json {

  datatype Option<+T> = None | Some(value: T)

  /** A JSON value. Numbers are mathematical reals: IEEE doubles, NaN and the
      infinities are not part of the model. */
  datatype Value =
    | Null
    | Bool(b: bool)
    | Num(n: real)
    | Str(s: string)
    | Arr(items: seq<Value>)
    | Obj(fields: map<string, Value>)

  /** JavaScript truthiness (`!v` is its negation). */
  predicate Truthy(v: Value) {
    match v
    case Null => false
    case Bool(b) => b
    case Num(n) => n != 0.0
    case Str(s) => s != ""
    case Arr(_) => true
    case Obj(_) => true
  }

  /** The property read `v.key`; `None` is `undefined`. Reading a property of
      `null` throws in JavaScript, so every caller tests for `Null` first.
      Array and string elements by numeric key are not needed and not modelled. */
  function Prop(v: Value, key: string): Option<Value> {
    match v
    case Obj(m) => if key in m then Some(m[key]) else None
    case Arr(items) => if key == "length" then Some(Num(|items| as real)) else None
    case Str(s) => if key == "length" then Some(Num(|s| as real)) else None
    case _ => None
  }

  /** `v.hasOwnProperty(key)` for a named key: only a JSON object has named
      own properties (the own `length` of arrays and strings is never asked). */
  predicate HasOwn(v: Value, key: string) {
    v.Obj? && key in v.fields
  }

  /** The conversion `<` and `<=` apply to an operand that is not a number;
      `None` is NaN, with which every comparison is false. */
  function ToNumber(x: Option<Value>): Option<real> {
    match x
    case None => None
    case Some(Null) => Some(0.0)
    case Some(Bool(b)) => Some(if b then 1.0 else 0.0)
    case Some(Num(n)) => Some(n)
    case Some(_) => None
  }

  /** `x < y` for a number `y`. */
  predicate Less(x: Option<Value>, y: real) {
    ToNumber(x).Some? && ToNumber(x).value < y
  }

  /** `x <= y` for a number `y`. */
  predicate AtMost(x: Option<Value>, y: real) {
    ToNumber(x).Some? && ToNumber(x).value <= y
  }
}
