/** Floating-point values as the notebook's arithmetic produces them, seen
    through their real value. Rounding is not modelled; what is modelled is
    that a division by zero yields an infinity or NaN instead of raising. */
module Floats {

  /** A finite value, one of the two infinities, or NaN. */
  datatype Float = Finite(value: real) | PosInf | NegInf | NaN

  /** IEEE-754 division by a finite divisor: a zero divisor (always +0.0
      here) gives an infinity of the dividend's sign, or NaN for 0/0. */
  function Div(a: real, b: real): (q: Float)
    ensures q.Finite? <==> b != 0.0
    ensures q.Finite? ==> q.value * b == a
    ensures a == 0.0 && b != 0.0 ==> q == Finite(0.0)
    ensures q == NaN <==> a == 0.0 && b == 0.0
    ensures q == PosInf <==> a > 0.0 && b == 0.0
    ensures q == NegInf <==> a < 0.0 && b == 0.0
  {
    if b != 0.0 then Finite(a / b)
    else if a > 0.0 then PosInf
    else if a < 0.0 then NegInf
    else NaN
  }
}
