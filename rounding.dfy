/** Python's `round(x, n)` on the averages the routers report, taken in
    exact rational arithmetic: round half to even at the n-th decimal. */
module Rounding {

  function Pow10(n: nat): (p: nat)
    ensures p >= 1
  {
    if n == 0 then 1 else 10 * Pow10(n - 1)
  }

  /** `10^digits` as a real. */
  function Scale(digits: nat): (p: real)
    ensures p >= 1.0
  {
    Pow10(digits) as real
  }

  /** Nearest integer to `x`, ties going to the even neighbour. */
  function RoundHalfEven(x: real): (r: int)
    ensures -0.5 <= x - r as real <= 0.5
    ensures (x - r as real == 0.5 || x - r as real == -0.5) ==> r % 2 == 0
  {
    var f := x.Floor;
    var frac := x - f as real;
    if frac < 0.5 then f
    else if frac > 0.5 then f + 1
    else if f % 2 == 0 then f
    else f + 1
  }

  /** Rounding to an integer keeps integer bounds. */
  lemma RoundHalfEvenBounds(x: real, lo: int, hi: int)
    requires lo as real <= x <= hi as real
    ensures lo <= RoundHalfEven(x) <= hi
  {
  }

  /** Rounding an integer gives it back. */
  lemma RoundHalfEvenOfInt(n: int)
    ensures RoundHalfEven(n as real) == n
  {
  }

  /** `round(x, digits)`: the value scaled by `10^digits`, rounded to an
      integer, scaled back. */
  function RoundTo(x: real, digits: nat): (r: real)
    ensures r * Scale(digits) == RoundHalfEven(x * Scale(digits)) as real
  {
    RoundHalfEven(x * Scale(digits)) as real / Scale(digits)
  }

  /** The defining property of `RoundTo`, as a fact a proof can cite. */
  lemma RoundToScaled(x: real, digits: nat)
    ensures RoundTo(x, digits) * Scale(digits) == RoundHalfEven(x * Scale(digits)) as real
  {
  }

  /** The rounded value is within half a unit of the last kept decimal. */
  lemma RoundToError(x: real, digits: nat)
    ensures x - 0.5 / Scale(digits) <= RoundTo(x, digits) <= x + 0.5 / Scale(digits)
  {
    var p := Scale(digits);
    var r := RoundTo(x, digits);
    assert -0.5 <= x * p - r * p <= 0.5;
    assert (x - r) * p == x * p - r * p;
    ScaleBack(x - r, p);
  }

  /** From a bound on `y * p` to a bound on `y`. */
  lemma ScaleBack(y: real, p: real)
    requires p >= 1.0 && -0.5 <= y * p <= 0.5
    ensures -0.5 / p <= y <= 0.5 / p
  {
    assert y == (y * p) / p;
  }

  /** Rounding a value within integer bounds stays within them. */
  lemma RoundToBounds(x: real, digits: nat, lo: int, hi: int)
    requires lo as real <= x <= hi as real
    ensures lo as real <= RoundTo(x, digits) <= hi as real
  {
    ScaledBounds(x, Scale(digits), lo, hi);
    RoundToScaled(x, digits);
    CancelScale(lo as real, RoundTo(x, digits), hi as real, Scale(digits),
      RoundHalfEven(x * Scale(digits)) as real);
  }

  /** The integer bounds scaled by `p` bound the rounded scaled value. */
  lemma ScaledBounds(x: real, p: real, lo: int, hi: int)
    requires p >= 1.0 && p == p.Floor as real && lo as real <= x <= hi as real
    ensures lo as real * p <= RoundHalfEven(x * p) as real
    ensures RoundHalfEven(x * p) as real <= hi as real * p
  {
    var n := p.Floor;
    MulMono(lo as real, x, p);
    MulMono(x, hi as real, p);
    assert (lo * n) as real == lo as real * p;
    assert (hi * n) as real == hi as real * p;
    RoundHalfEvenBounds(x * p, lo * n, hi * n);
  }

  lemma MulMono(a: real, b: real, p: real)
    requires p >= 0.0 && a <= b
    ensures a * p <= b * p
  {
    assert (b - a) * p >= 0.0;
  }

  lemma CancelScale(a: real, b: real, c: real, p: real, bp: real)
    requires p > 0.0 && b * p == bp && a * p <= bp <= c * p
    ensures a <= b <= c
  {
    assert (b - a) * p >= 0.0;
    assert (c - b) * p >= 0.0;
  }

  /** Rounding an integer at any number of decimals gives it back. */
  lemma RoundToOfInt(n: int, digits: nat)
    ensures RoundTo(n as real, digits) == n as real
  {
    RoundToBounds(n as real, digits, n, n);
  }

  /** A total between `lo*n` and `hi*n` has its mean between `lo` and `hi`. */
  lemma MeanBounds(total: int, n: nat, lo: int, hi: int)
    requires n > 0 && lo * n <= total <= hi * n
    ensures lo as real <= total as real / n as real <= hi as real
  {
    var m := total as real / n as real;
    assert m * n as real == total as real;
    assert (lo * n) as real == lo as real * n as real;
    assert (hi * n) as real == hi as real * n as real;
    CancelScale(lo as real, m, hi as real, n as real, total as real);
  }

  /** JavaScript's `Math.round`: the integer nearest to `x`, halves going up. */
  function RoundHalfUp(x: real): (r: int)
    ensures r as real - 0.5 <= x < r as real + 0.5
  {
    (x + 0.5).Floor
  }

  /** `Math.round` gives an integer back unchanged. */
  lemma RoundHalfUpOfInt(n: int)
    ensures RoundHalfUp(n as real) == n
  {
  }
}
