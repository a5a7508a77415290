/** JavaScript's `Math.round` of a quotient, over exact integers. Both the
    progress screen's average and the interview screen's progress figure
    are rounded this way. */
module JsMath {
  /** `Math.round(num / den)`: the nearest integer, halves rounded up. */
  function RoundDiv(num: int, den: int): (r: int)
    requires den > 0
    ensures 2 * den * r <= 2 * num + den < 2 * den * r + 2 * den
  {
    var r := (2 * num + den) / (2 * den);
    DivBounds(2 * num + den, 2 * den);
    r
  }

  /** Euclidean division leaves a remainder below the divisor. */
  lemma DivBounds(x: int, y: int)
    requires y > 0
    ensures y * (x / y) <= x < y * (x / y) + y
  {
  }
}
