/** JavaScript numbers, as far as the axis computation can tell them apart: a finite
    value, the two infinities, and NaN. Rounding is not modelled (values are `real`). */
module JsNumber {

  datatype Number = Finite(v: real) | PosInf | NegInf | NaN

  /** JavaScript `a < b`: false whenever either side is NaN. */
  predicate Less(a: Number, b: Number) {
    match (a, b)
    case (Finite(x), Finite(y)) => x < y
    case (NegInf, Finite(_)) => true
    case (NegInf, PosInf) => true
    case (Finite(_), PosInf) => true
    case _ => false
  }

  /** JavaScript `a - d` for a finite `d`: the infinities and NaN absorb it. */
  function Sub(a: Number, d: real): Number {
    match a
    case Finite(x) => Finite(x - d)
    case _ => a
  }

  /** JavaScript `a + d` for a finite `d`. */
  function Add(a: Number, d: real): Number {
    match a
    case Finite(x) => Finite(x + d)
    case _ => a
  }

  /** `<` is a strict total order on the numbers other than NaN, and NaN is
      comparable to nothing. */
  lemma LessIsStrictTotalOrder(a: Number, b: Number, c: Number)
    ensures !Less(a, a)
    ensures Less(a, b) ==> !Less(b, a)
    ensures Less(a, b) && Less(b, c) ==> Less(a, c)
    ensures a != NaN && b != NaN && a != b ==> Less(a, b) || Less(b, a)
    ensures a == NaN ==> !Less(a, b) && !Less(b, a)
  {
  }
}
