/** Python's round() of an exact quotient: to nearest, ties to even. */
module Rounding {

  function RoundDiv(n: int, d: int): int
    requires d > 0
  {
    var q, r := n / d, n % d;
    if 2 * r < d then q
    else if 2 * r > d then q + 1
    else if q % 2 == 0 then q else q + 1
  }

  /** The result is off by at most half a unit, and even when it is off by exactly that: there is
      only one such number. */
  lemma RoundDivNear(n: int, d: int)
    requires d > 0
    ensures -d <= 2 * (d * RoundDiv(n, d) - n) <= d
    ensures 2 * (d * RoundDiv(n, d) - n) == d || 2 * (n - d * RoundDiv(n, d)) == d ==> RoundDiv(n, d) % 2 == 0
    ensures n >= 0 ==> RoundDiv(n, d) >= 0
  {
    var q, r := n / d, n % d;
    assert d * (q + 1) == d * q + d;
    assert n == d * q + r;
  }
}
