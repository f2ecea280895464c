/**
 * Python's `round` on the real numbers, and a JavaScript number.
 *
 * A Python `float` is modelled as an exact real: `round(x, n)` rounds the
 * exact value `x` to `n` decimals, halves to the even neighbour.
 */
module Numeric {

  /** `10^n` for the decimal counts the engine rounds to. */
  function Scale(n: nat): (p: real)
    requires n <= 4
    ensures p >= 1.0
  {
    if n == 0 then 1.0 else if n == 1 then 10.0 else if n == 2 then 100.0 else if n == 3 then 1000.0 else 10000.0
  }

  /** `round(x)`: the nearest integer, ties to the even one. */
  function RoundHalfEven(x: real): (k: int)
    ensures k as real - 0.5 <= x <= k as real + 0.5
    ensures x - k as real == 0.5 || k as real - x == 0.5 ==> k % 2 == 0
  {
    var f := x.Floor;
    var d := x - f as real;
    if d < 0.5 then f else if d > 0.5 then f + 1 else if f % 2 == 0 then f else f + 1
  }

  /** A value with at most `n` decimals: `x * 10^n` is a whole number. */
  predicate OnGrid(x: real, n: nat)
    requires n <= 4
  {
    var y := x * Scale(n);
    y.Floor as real == y
  }

  /** `r` is within half a unit of the `n`-th decimal of `x`. */
  predicate Near(r: real, x: real, n: nat)
    requires n <= 4
  {
    -0.5 <= (r - x) * Scale(n) <= 0.5
  }

  /** `round(x, n)`: the value with at most `n` decimals nearest to `x`, ties to even. */
  function Round(x: real, n: nat): (r: real)
    requires n <= 4
    ensures OnGrid(r, n)
    ensures Near(r, x, n)
  {
    RoundByGrid(x, Scale(n));
    RoundBy(x, Scale(n))
  }

  /** Rounding by `p` lands on a multiple of `1/p` within half of `1/p` of `x`. */
  lemma RoundByGrid(x: real, p: real)
    requires p >= 1.0
    ensures (RoundBy(x, p) * p).Floor as real == RoundBy(x, p) * p
    ensures -0.5 <= (RoundBy(x, p) - x) * p <= 0.5
  {
    var r := RoundBy(x, p);
    var k := RoundHalfEven(x * p);
    assert r * p == k as real;
    assert (k as real).Floor == k;
    SubTimes(r, x, p);
  }

  lemma SubTimes(a: real, b: real, p: real)
    ensures (a - b) * p == a * p - b * p
  {
  }

  /** `x` rounded to the nearest multiple of `1/p`, ties to even. */
  function RoundBy(x: real, p: real): (r: real)
    requires p >= 1.0
    ensures r * p == RoundHalfEven(x * p) as real
  {
    RoundHalfEven(x * p) as real / p
  }

  lemma RoundHalfEvenMonotone(x: real, y: real)
    requires x <= y
    ensures RoundHalfEven(x) <= RoundHalfEven(y)
  {
  }

  lemma DivMonotone(a: real, b: real, p: real)
    requires a <= b && p > 0.0
    ensures a / p <= b / p
  {
    assert b / p - a / p == (b - a) / p;
  }

  lemma MulMonotone(a: real, b: real, p: real)
    requires a <= b && p > 0.0
    ensures a * p <= b * p
  {
    assert b * p - a * p == (b - a) * p;
  }

  /** Rounding never reverses the order of two values. */
  lemma RoundMonotone(x: real, y: real, n: nat)
    requires x <= y && n <= 4
    ensures Round(x, n) <= Round(y, n)
  {
    RoundByMonotone(x, y, Scale(n));
  }

  lemma RoundByMonotone(x: real, y: real, p: real)
    requires x <= y && p >= 1.0
    ensures RoundBy(x, p) <= RoundBy(y, p)
  {
    MulMonotone(x, y, p);
    RoundHalfEvenMonotone(x * p, y * p);
    DivMonotone(RoundHalfEven(x * p) as real, RoundHalfEven(y * p) as real, p);
  }

  /** A value with one decimal lies at or below `a/10` or at or above `(a+1)/10`: never strictly between. */
  lemma OneDecimalGap(x: real, a: int)
    requires OnGrid(x, 1)
    ensures x <= a as real / 10.0 || (a + 1) as real / 10.0 <= x
  {
    assert Scale(1) == 10.0;
    var y := x * 10.0;
    assert x == y / 10.0;
    var k := y.Floor;
    assert k as real == y;
    if k <= a {
      DivMonotone(y, a as real, 10.0);
    } else {
      DivMonotone((a + 1) as real, y, 10.0);
    }
  }
}
