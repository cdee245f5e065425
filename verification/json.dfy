/** The untyped JavaScript values a submitted document is made of. */
module Json {

  /** A JavaScript number: a finite value, an infinity, or NaN (what
      `Number(s)` yields for text that is not numeric). */
  datatype Number = Finite(r: real) | Infinite(negative: bool) | NaN

  /** `Undefined` is what reading a missing property yields. */
  datatype Value =
    | Undefined
    | Null
    | Bool(b: bool)
    | Num(n: Number)
    | Str(s: string)
    | Arr(items: seq<Value>)
    | Obj(props: map<string, Value>)

  /** Reading `x[k]` on a value: a missing key, or a value that is not an
      object, yields `undefined`. */
  function Get(x: Value, k: string): Value {
    if x.Obj? && k in x.props then x.props[k] else Undefined
  }
}
