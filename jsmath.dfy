/** JavaScript's Math.round of a quotient and Math.floor(Math.random() * n),
    on exact numbers. */
module JsMath {

  /** Math.round(p / q) for q > 0: the integer nearest to p / q, a half rounded up. */
  function RoundDiv(p: int, q: int): (r: int)
    requires q > 0
    ensures q * (2 * r - 1) <= 2 * p < q * (2 * r + 1)
  {
    (2 * p + q) / (2 * q)
  }

  /** Math.round(p / q) for any nonzero q: p / q equals (-p) / (-q). Dividing
      by zero gives a non-finite number in JavaScript and is not modelled. */
  function RoundQuotient(p: int, q: int): (r: int)
    requires q != 0
    ensures q > 0 ==> q * (2 * r - 1) <= 2 * p < q * (2 * r + 1)
    ensures q < 0 ==> -q * (2 * r - 1) <= -2 * p < -q * (2 * r + 1)
  {
    if q > 0 then RoundDiv(p, q) else RoundDiv(-p, -q)
  }

  /** Rounding p / q never exceeds an integer bound of p / q. */
  lemma RoundDivAtMost(p: int, q: int, m: int)
    requires q > 0 && p <= q * m
    ensures RoundDiv(p, q) <= m
  {
    var r := RoundDiv(p, q);
    assert q * (2 * r - 1) < q * (2 * m + 1);
    MulMonotoneInverse(q, 2 * r - 1, 2 * m + 1);
  }

  lemma MulMonotoneInverse(q: int, a: int, b: int)
    requires q > 0 && q * a < q * b
    ensures a < b
  {
  }

  /** Math.floor(roll * n) for a Math.random() roll in [0, 1): an index into a
      list of n elements. */
  function PickIndex(roll: real, n: nat): (i: nat)
    requires 0.0 <= roll < 1.0 && n > 0
    ensures i < n
  {
    var x := roll * n as real;
    assert (n as real) - x == (1.0 - roll) * (n as real);
    assert (1.0 - roll) * (n as real) > 0.0;
    assert x.Floor as real <= x < n as real;
    x.Floor
  }
}
