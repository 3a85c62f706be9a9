/** Facts of ordered-field and integer arithmetic that the solver does not
    find on its own once products of variables are involved. */
module Arith {

  /** Multiplying both sides by a non-negative number keeps the order. */
  lemma MultiplyBound(a: real, b: real, c: real)
    requires a <= b && c >= 0.0
    ensures a * c <= b * c
  {
    assert b * c - a * c == (b - a) * c;
  }

  /** Multiplying both sides by a positive number keeps the strict order. */
  lemma MultiplyStrict(a: real, b: real, c: real)
    requires a < b && c > 0.0
    ensures a * c < b * c
  {
    assert b * c - a * c == (b - a) * c;
  }

  /** A fraction in [0, 1] of a non-negative count lies between 0 and that count. */
  lemma FractionOfCount(d: real, count: int)
    requires 0.0 <= d <= 1.0 && count >= 0
    ensures 0.0 <= d * count as real <= count as real
  {
    MultiplyBound(0.0, d, count as real);
    MultiplyBound(d, 1.0, count as real);
  }

  /** Dividing by a positive number keeps the order. */
  lemma DivideMonotone(a: real, b: real, c: real)
    requires a <= b && c > 0.0
    ensures a / c <= b / c
  {
    assert b / c - a / c == (b - a) / c;
  }

  /** An integer at most half above a / d, multiplied through by d. */
  lemma HalfAbove(r: int, a: int, d: int)
    requires d >= 1
    requires 2.0 * (r as real - a as real / d as real) <= 1.0
    ensures 2 * (r * d - a) <= d
  {
    var D := d as real;
    var x := a as real / D;
    assert x * D == a as real;
    MultiplyBound(2.0 * (r as real - x), 1.0, D);
    assert 2.0 * (r as real - x) * D == 2.0 * (r as real * D) - 2.0 * a as real;
    assert (r * d) as real == r as real * D;
  }

  /** An integer at most half below a / d, multiplied through by d. */
  lemma HalfBelow(r: int, a: int, d: int)
    requires d >= 1
    requires 2.0 * (a as real / d as real - r as real) <= 1.0
    ensures 2 * (a - r * d) <= d
  {
    var D := d as real;
    var x := a as real / D;
    assert x * D == a as real;
    MultiplyBound(2.0 * (x - r as real), 1.0, D);
    assert 2.0 * (x - r as real) * D == 2.0 * a as real - 2.0 * (r as real * D);
    assert (r * d) as real == r as real * D;
  }

  /** An integer less than half above a / d, multiplied through by d. */
  lemma HalfAboveStrict(r: int, a: int, d: int)
    requires d >= 1
    requires 2.0 * (r as real - a as real / d as real) < 1.0
    ensures 2 * (r * d - a) < d
  {
    var D := d as real;
    var x := a as real / D;
    assert x * D == a as real;
    MultiplyStrict(2.0 * (r as real - x), 1.0, D);
    assert 2.0 * (r as real - x) * D == 2.0 * (r as real * D) - 2.0 * a as real;
    assert (r * d) as real == r as real * D;
  }

  /** An integer less than half below a / d, multiplied through by d. */
  lemma HalfBelowStrict(r: int, a: int, d: int)
    requires d >= 1
    requires 2.0 * (a as real / d as real - r as real) < 1.0
    ensures 2 * (a - r * d) < d
  {
    var D := d as real;
    var x := a as real / D;
    assert x * D == a as real;
    MultiplyStrict(2.0 * (x - r as real), 1.0, D);
    assert 2.0 * (x - r as real) * D == 2.0 * a as real - 2.0 * (r as real * D);
    assert (r * d) as real == r as real * D;
  }

  /** Rescaling an integer by a non-negative ratio keeps the order. */
  lemma ScaleMonotone(a: int, b: int, num: int, den: int)
    requires a <= b && num >= 0 && den >= 1
    ensures (a * num) as real / den as real <= (b * num) as real / den as real
  {
    assert a * num <= b * num by {
      assert (b - a) * num >= 0;
    }
    DivideMonotone((a * num) as real, (b * num) as real, den as real);
  }

  /** Multiplication distributes over a difference. */
  lemma Distribute(a: int, b: int, c: int)
    ensures a * (b - c) == a * b - a * c
    ensures a * (c - b) == a * c - a * b
    ensures a * b == b * a && a * c == c * a
  {
  }

  /** A noise level below d times a positive initial level is a ratio below d. */
  lemma RatioBelow(s: real, s0: real, d: real)
    requires s0 > 0.0 && s < d * s0
    ensures s / s0 < d
  {
    assert s / s0 * s0 == s;
  }

  /** A noise level at least d times a positive initial level is a ratio of
      at least d. */
  lemma RatioAtLeast(s: real, s0: real, d: real)
    requires s0 > 0.0 && s >= d * s0
    ensures s / s0 >= d
  {
    assert s / s0 * s0 == s;
  }

  /** The arithmetic of the round trip: an index k rescaled to a step within
      half a step, and that step rescaled back to an index `rounded` within
      half an index, then read at `n - 1` when it is `n`, ends within
      (n + steps) / (2 steps) of k, unless k itself is `n`. */
  lemma IndexWindow(k: int, start: int, rounded: int, steps: int, n: int)
    requires steps >= 1 && n >= 1 && 0 <= k <= n && 0 <= rounded <= n
    requires 2 * (start * n - k * steps) <= n && 2 * (k * steps - start * n) <= n
    requires 2 * (rounded * steps - start * n) <= steps && 2 * (start * n - rounded * steps) <= steps
    ensures var idx := if rounded == n then n - 1 else rounded;
            || (2 * (steps * (idx - k)) <= n + steps && 2 * (steps * (k - idx)) <= n + steps)
            || (k == n && idx == n - 1)
  {
    Distribute(steps, rounded, k);
    // steps * (rounded - k) == (rounded * steps - start * n) + (start * n - k * steps)
    assert 2 * (steps * (rounded - k)) <= n + steps;
    assert 2 * (steps * (k - rounded)) <= n + steps;
    if rounded == n && k < n {
      TopWindow(k, steps, n, n + steps);
    }
  }

  /** Reading position `n` at `n - 1` keeps a crossing k < n inside the window. */
  lemma TopWindow(k: int, steps: int, n: int, w: int)
    requires steps >= 1 && 0 <= k < n && w >= 0
    requires 2 * (steps * (n - k)) <= w
    ensures 2 * (steps * (n - 1 - k)) <= w && 2 * (steps * (k - (n - 1))) <= w
  {
    Distribute(steps, n - k, 1);
    assert steps * (n - 1 - k) >= 0;
    assert steps * (k - (n - 1)) == -(steps * (n - 1 - k));
  }

  /** A noise level between 0 and the initial one, divided by the initial
      one, lies in [0, 1]; the initial one divided by itself is 1. */
  lemma RatioInUnit(s: real, s0: real)
    requires s0 != 0.0
    ensures 0.0 <= s <= s0 ==> 0.0 <= s / s0 <= 1.0
    ensures (s / s0) * s0 == s
    ensures s == s0 ==> s / s0 == 1.0
  {
  }
}
