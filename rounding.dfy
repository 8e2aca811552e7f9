/**
  `Math.round` on an exact rational `p / q`: the nearest integer, with
  halves rounded up (towards positive infinity), as JavaScript rounds.
 */
module Rounding {

  /** `Math.round(p / q)`. */
  function RoundRatio(p: int, q: int): int
    requires q > 0
  {
    (2 * p + q) / (2 * q)
  }

  /** `RoundRatio(p, q)` is the integer `r` with `r - 1/2 <= p / q < r + 1/2`. */
  lemma RoundBounds(p: int, q: int)
    requires q > 0
    ensures 2 * q * RoundRatio(p, q) <= 2 * p + q < 2 * q * RoundRatio(p, q) + 2 * q
  {
  }

  /** A multiple of `q` below `q` has a factor of at most zero. */
  lemma MultipleBelow(q: int, t: int)
    requires q > 0 && q * t < q
    ensures t <= 0
  {
  }

  /** `q * t` lies strictly between `-2q` and `2q` only for `t` in {-1, 0, 1}. */
  lemma SmallMultiple(q: int, t: int)
    requires q > 0 && -2 * q < q * t < 2 * q
    ensures -1 <= t <= 1
  {
  }

  /** `q * t` lies strictly between `-q` and `q` only for `t = 0`. */
  lemma ZeroMultiple(q: int, t: int)
    requires q > 0 && -q < q * t < q
    ensures t == 0
  {
  }

  lemma MultiplyBoth(c: int, a: int, b: int, d: int)
    requires c > 0 && a <= b < d
    ensures c * a <= c * b < c * d
  {
    assert c * b - c * a == c * (b - a);
    assert c * d - c * b == c * (d - b);
  }

  /** The rounding condition has one solution: whatever satisfies it is `RoundRatio(p, q)`. */
  lemma RoundUnique(p: int, q: int, r: int)
    requires q > 0 && 2 * q * r <= 2 * p + q < 2 * q * r + 2 * q
    ensures RoundRatio(p, q) == r
  {
    var r' := RoundRatio(p, q);
    RoundBounds(p, q);
    var t := r' - r;
    assert 2 * q * t == 2 * q * r' - 2 * q * r;
    ZeroMultiple(2 * q, t);
  }

  /** Whole numbers round to themselves. */
  lemma RoundWhole(c: int, q: int)
    requires q > 0
    ensures RoundRatio(c * q, q) == c
  {
    RoundUnique(c * q, q, c);
  }

  /** Rounding does not depend on how the fraction is written. */
  lemma RoundScale(c: int, p: int, q: int)
    requires q > 0 && c > 0
    ensures RoundRatio(c * p, c * q) == RoundRatio(p, q)
  {
    var r := RoundRatio(p, q);
    RoundBounds(p, q);
    MultiplyBoth(c, 2 * q * r, 2 * p + q, 2 * q * r + 2 * q);
    assert 2 * (c * q) * r == c * (2 * q * r);
    assert 2 * (c * p) + c * q == c * (2 * p + q);
    assert 2 * (c * q) * r + 2 * (c * q) == c * (2 * q * r + 2 * q);
    RoundUnique(c * p, c * q, r);
  }

  /** Rounding is monotone. */
  lemma RoundMonotone(x: int, y: int, q: int)
    requires q > 0 && x <= y
    ensures RoundRatio(x, q) <= RoundRatio(y, q)
  {
    var rx, ry := RoundRatio(x, q), RoundRatio(y, q);
    RoundBounds(x, q);
    RoundBounds(y, q);
    var t := rx - ry;
    assert 2 * q * t == 2 * q * rx - 2 * q * ry;
    MultipleBelow(2 * q, t);
  }

  /** Values at most half a unit apart round at most one apart. */
  lemma RoundNear(x: int, y: int, q: int)
    requires q > 0 && -q <= 2 * (x - y) <= q
    ensures -1 <= RoundRatio(x, q) - RoundRatio(y, q) <= 1
  {
    var rx, ry := RoundRatio(x, q), RoundRatio(y, q);
    RoundBounds(x, q);
    RoundBounds(y, q);
    var t := rx - ry;
    assert 2 * q * t == 2 * q * rx - 2 * q * ry;
    SmallMultiple(2 * q, t);
  }

  /** Rounding two parts separately is off from rounding their sum by at most one. */
  lemma RoundSum(x: int, y: int, q: int)
    requires q > 0
    ensures -1 <= RoundRatio(x, q) + RoundRatio(y, q) - RoundRatio(x + y, q) <= 1
  {
    var rx, ry, rs := RoundRatio(x, q), RoundRatio(y, q), RoundRatio(x + y, q);
    RoundBounds(x, q);
    RoundBounds(y, q);
    RoundBounds(x + y, q);
    var t := rx + ry - rs;
    assert 2 * q * t == 2 * q * rx + 2 * q * ry - 2 * q * rs;
    SmallMultiple(2 * q, t);
  }

  /** The rounding error `p / q - Math.round(p / q)` is at most one half. */
  lemma RoundError(p: int, q: int)
    requires q > 0
    ensures -q <= 2 * (p - q * RoundRatio(p, q)) < q
  {
    var r := RoundRatio(p, q);
    RoundBounds(p, q);
    assert 2 * q * r == 2 * (q * r);
  }

  /** An error of at most half a unit, scaled by `c <= m`, is at most half of `m` units. */
  lemma ScaledError(e: int, q: int, c: int, m: int)
    requires q > 0 && 0 <= c <= m && -q <= 2 * e < q
    ensures -(m * q) <= 2 * (c * e) <= m * q
  {
    if c > 0 {
      MultiplyBoth(c, -q, 2 * e, q);
      assert (m - c) * q >= 0;
    }
  }

  /**
    Scaling a value by `c / m` (with `0 <= c <= m`) and rounding once lands
    within one unit of rounding it first and scaling the rounded value.
   */
  lemma RoundRescaled(p: int, q: int, c: int, m: int)
    requires q > 0 && 0 <= c <= m && m > 0
    ensures -1 <= RoundRatio(c * p, m * q) - RoundRatio(c * RoundRatio(p, q), m) <= 1
  {
    var r := RoundRatio(p, q);
    RoundError(p, q);
    ScaledError(p - q * r, q, c, m);
    assert c * p - q * (c * r) == c * (p - q * r);
    RoundScale(q, c * r, m);
    assert q * m == m * q;
    RoundNear(c * p, q * (c * r), m * q);
  }
}
