/** The slice of JavaScript number semantics that the analysis code relies on.
    Finite values are exact reals: IEEE-754 rounding is not modelled, only the
    special values that division by zero produces and how `<` and `>` treat them. */
module JsNumber {

  /** A JavaScript number: a finite value, one of the two infinities, or NaN. */
  datatype Number = Finite(v: real) | PosInf | NegInf | NaN

  /** JavaScript `a / b` on finite operands: a nonzero divisor gives the
      quotient, `x / 0` gives an infinity with the sign of `x`, and `0 / 0` is NaN. */
  function Div(a: real, b: real): (q: Number)
    ensures q.Finite? <==> b != 0.0
    ensures q.Finite? ==> q.v * b == a
    ensures q.NaN? <==> a == 0.0 && b == 0.0
    ensures q.PosInf? <==> b == 0.0 && a > 0.0
    ensures q.NegInf? <==> b == 0.0 && a < 0.0
  {
    if b != 0.0 then Finite(a / b)
    else if a > 0.0 then PosInf
    else if a < 0.0 then NegInf
    else NaN
  }

  /** JavaScript `x < c` for a finite constant `c`: every comparison with NaN is false. */
  predicate Less(x: Number, c: real)
  {
    match x
    case Finite(v) => v < c
    case NegInf => true
    case PosInf => false
    case NaN => false
  }

  /** JavaScript `x > c` for a finite constant `c`: every comparison with NaN is false. */
  predicate Greater(x: Number, c: real)
  {
    match x
    case Finite(v) => v > c
    case PosInf => true
    case NegInf => false
    case NaN => false
  }
}
