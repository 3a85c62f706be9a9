/** Python numeric built-ins used by the denoise converters, stated over exact
    integers and reals: `round` on a float (nearest integer, ties to even) and
    the `max(lo, min(hi, x))` clamping idiom. */
module PyMath {
  import opened Arith

  /** Python 3 `round(x)` for a single argument: the nearest integer, and on a
      tie the even one. The two ensures clauses determine the result
      uniquely (see RoundUnique). */
  function Round(x: real): (r: int)
    ensures 2.0 * (x - r as real) <= 1.0 && 2.0 * (r as real - x) <= 1.0
    ensures (2.0 * (x - r as real) == 1.0 || 2.0 * (r as real - x) == 1.0) ==> r % 2 == 0
  {
    var f := x.Floor;
    var frac := x - f as real;
    if frac < 0.5 then f
    else if frac > 0.5 then f + 1
    else if f % 2 == 0 then f
    else f + 1
  }

  /** Nearest-integer with ties to even has exactly one answer. */
  lemma RoundUnique(x: real, a: int, b: int)
    requires 2.0 * (x - a as real) <= 1.0 && 2.0 * (a as real - x) <= 1.0
    requires (2.0 * (x - a as real) == 1.0 || 2.0 * (a as real - x) == 1.0) ==> a % 2 == 0
    requires 2.0 * (x - b as real) <= 1.0 && 2.0 * (b as real - x) <= 1.0
    requires (2.0 * (x - b as real) == 1.0 || 2.0 * (b as real - x) == 1.0) ==> b % 2 == 0
    ensures a == b
  {
  }

  /** An integer rounds to itself. */
  lemma RoundOfInt(k: int)
    ensures Round(k as real) == k
  {
    var r := Round(k as real);
    assert -1 < r - k < 1;
  }

  /** Rounding never reverses the order of its arguments. */
  lemma RoundMonotone(x: real, y: real)
    requires x <= y
    ensures Round(x) <= Round(y)
  {
    // if Round(x) > Round(y) then x >= Round(x) - 1/2 >= Round(y) + 1/2 >= y,
    // so x == y, where the two results coincide
    if x == y {
      RoundUnique(x, Round(x), Round(y));
    }
  }

  /** Rounding a value scaled by a count keeps the order of the unscaled
      ones. */
  lemma RoundScaleMonotone(x: real, y: real, count: int)
    requires x <= y && count >= 0
    ensures Round(x * count as real) <= Round(y * count as real)
  {
    MultiplyBound(x, y, count as real);
    RoundMonotone(x * count as real, y * count as real);
  }

  /** A value between two integers rounds to an integer between them. */
  lemma RoundWithin(x: real, lo: int, hi: int)
    requires lo as real <= x <= hi as real
    ensures lo <= Round(x) <= hi
  {
    RoundOfInt(lo);
    RoundOfInt(hi);
    RoundMonotone(lo as real, x);
    RoundMonotone(x, hi as real);
  }

  /** Python's round applied to a quotient a / d misses it by at most half,
      and by exactly half only when it is even: stated after multiplying
      through by d, on integers. */
  lemma RoundScaled(a: int, d: int)
    requires d >= 1
    ensures 2 * (Round(a as real / d as real) * d - a) <= d
    ensures 2 * (a - Round(a as real / d as real) * d) <= d
    ensures var r := Round(a as real / d as real);
            (2 * (r * d - a) == d || 2 * (a - r * d) == d) ==> r % 2 == 0
  {
    var r := Round(a as real / d as real);
    HalfAbove(r, a, d);
    HalfBelow(r, a, d);
    // a miss of less than half is less than half after multiplying through,
    // so an integer miss of exactly half is a real miss of exactly half
    var x := a as real / d as real;
    if 2.0 * (r as real - x) < 1.0 {
      HalfAboveStrict(r, a, d);
    }
    if 2.0 * (x - r as real) < 1.0 {
      HalfBelowStrict(r, a, d);
    }
  }

  /** `max(lo, min(hi, x))` on integers. When `lo > hi` Python returns `lo`. */
  function Clamp(x: int, lo: int, hi: int): (r: int)
    ensures lo <= r
    ensures lo <= hi ==> r <= hi
    ensures lo <= x <= hi ==> r == x
    ensures x < lo ==> r == lo
    ensures lo <= hi < x ==> r == hi
    ensures hi < lo ==> r == lo
  {
    var m := if hi < x then hi else x;
    if lo < m then m else lo
  }

  /** Clamping preserves the order of its arguments. */
  lemma ClampMonotone(x: int, y: int, lo: int, hi: int)
    requires x <= y
    ensures Clamp(x, lo, hi) <= Clamp(y, lo, hi)
  {
  }

  /** `max(lo, min(hi, x))` on floats, here exact reals. */
  function ClampReal(x: real, lo: real, hi: real): (r: real)
    ensures lo <= r
    ensures lo <= hi ==> r <= hi
    ensures lo <= x <= hi ==> r == x
    ensures x < lo ==> r == lo
    ensures lo <= hi < x ==> r == hi
  {
    var m := if hi < x then hi else x;
    if lo < m then m else lo
  }
}
