/** Reals extended with the two infinities numpy uses as open ends (`-inf`, `inf`). */
module ExtReals {

  datatype ExtReal = NegInf | Finite(r: real) | PosInf

  /** The order of IEEE floats restricted to non-NaN values. */
  predicate Le(x: ExtReal, y: ExtReal) {
    x.NegInf? || y.PosInf? || (x.Finite? && y.Finite? && x.r <= y.r)
  }

  lemma LeTotalOrder(x: ExtReal, y: ExtReal, z: ExtReal)
    ensures Le(x, x)
    ensures Le(x, y) || Le(y, x)
    ensures Le(x, y) && Le(y, x) ==> x == y
    ensures Le(x, y) && Le(y, z) ==> Le(x, z)
  {
  }
}
