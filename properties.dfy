/** What the nodes of nodes.py promise about each other: each converter is
    monotone in its input, the forward and inverse directions agree up to
    the quantisation of the two step grids, and the clamps are idle on a
    schedule of the requested resolution. */
module NodesProperties {
  import opened Arith
  import opened PyMath
  import opened Nodes

  /** A higher threshold is crossed no later. */
  lemma FirstBelowAntitone(sigmas: seq<real>, t1: real, t2: real)
    requires t1 <= t2
    ensures FirstBelow(sigmas, t2) <= FirstBelow(sigmas, t1)
  {
    var k1 := FirstBelow(sigmas, t1);
    if k1 < |sigmas| {
      assert sigmas[k1] < t2;
    }
  }

  /** get_sigma_index never moves later as the strength grows, including
      across the short-circuits at 0 and 1, provided the initial noise level
      is not negative and the schedule has at most n + 1 entries. */
  lemma SigmaIndexMonotone(sigmas: seq<real>, d1: real, d2: real, n: nat)
    requires d1 <= d2
    requires 0.0 < d1 < 1.0 ==> |sigmas| > 0
    requires 0.0 < d2 < 1.0 ==> |sigmas| > 0
    requires |sigmas| > 0 ==> sigmas[0] >= 0.0
    requires |sigmas| <= n + 1
    ensures GetSigmaIndex(sigmas, d2, n) <= GetSigmaIndex(sigmas, d1, n)
  {
    if 0.0 < d1 && d2 < 1.0 {
      var t1, t2 := d1 * sigmas[0], d2 * sigmas[0];
      assert t1 <= t2 by {
        assert (d2 - d1) * sigmas[0] >= 0.0;
      }
      FirstBelowAntitone(sigmas, t1, t2);
    }
  }

  /** On a schedule of at most 1001 entries the crossing index is at most
      1000, so AccurateDenoise's clamp never changes `1 - idx/1000`. */
  lemma AccurateDenoiseUnclamped(sigmas: seq<real>, scheduler: Scheduler, actualDenoise: real)
    requires 0.0 < actualDenoise < 1.0 ==> |sigmas| > 0
    requires |sigmas| <= TotalSigmaSteps + 1
    ensures AccurateDenoise(sigmas, scheduler, actualDenoise).denoise
      == 1.0 - GetSigmaIndex(sigmas, actualDenoise, TotalSigmaSteps) as real / TotalSigmaSteps as real
  {
  }

  /** A larger requested strength never yields a smaller corrected denoise. */
  lemma AccurateDenoiseMonotone(sigmas: seq<real>, scheduler: Scheduler, d1: real, d2: real)
    requires d1 <= d2
    requires 0.0 < d1 < 1.0 ==> |sigmas| > 0
    requires 0.0 < d2 < 1.0 ==> |sigmas| > 0
    requires |sigmas| > 0 ==> sigmas[0] >= 0.0
    requires |sigmas| <= TotalSigmaSteps + 1
    ensures AccurateDenoise(sigmas, scheduler, d1).denoise <= AccurateDenoise(sigmas, scheduler, d2).denoise
  {
    SigmaIndexMonotone(sigmas, d1, d2, TotalSigmaSteps);
    AccurateDenoiseUnclamped(sigmas, scheduler, d1);
    AccurateDenoiseUnclamped(sigmas, scheduler, d2);
  }

  /** On a schedule of at most 1001 entries AccurateDenoiseStep's start step
      is the crossing index rescaled to `steps`, to within half a step; when
      the rescaled index lies exactly halfway, the start step is the even
      neighbour, as Python's round picks. */
  lemma AccurateDenoiseStepQuantises(sigmas: seq<real>, scheduler: Scheduler, actualDenoise: real, steps: int)
    requires steps >= 1
    requires 0.0 < actualDenoise < 1.0 ==> |sigmas| > 0
    requires |sigmas| <= TotalSigmaSteps + 1
    ensures var k := GetSigmaIndex(sigmas, actualDenoise, TotalSigmaSteps);
            var start := AccurateDenoiseStep(sigmas, scheduler, actualDenoise, steps).startAtStep;
            2 * (start * TotalSigmaSteps - k * steps) <= TotalSigmaSteps
            && 2 * (k * steps - start * TotalSigmaSteps) <= TotalSigmaSteps
    ensures var k := GetSigmaIndex(sigmas, actualDenoise, TotalSigmaSteps);
            var start := AccurateDenoiseStep(sigmas, scheduler, actualDenoise, steps).startAtStep;
            (2 * (start * TotalSigmaSteps - k * steps) == TotalSigmaSteps
             || 2 * (k * steps - start * TotalSigmaSteps) == TotalSigmaSteps)
            ==> start % 2 == 0
  {
    var k := GetSigmaIndex(sigmas, actualDenoise, TotalSigmaSteps);
    var x := (k * steps) as real / TotalSigmaSteps as real;
    PositionInRange(k, TotalSigmaSteps, steps);
    RoundWithin(x, 0, steps);
    RoundScaled(k * steps, TotalSigmaSteps);
  }

  /** A larger requested strength never yields a later start step. */
  lemma AccurateDenoiseStepMonotone(sigmas: seq<real>, scheduler: Scheduler, d1: real, d2: real, steps: int)
    requires steps >= 1
    requires d1 <= d2
    requires 0.0 < d1 < 1.0 ==> |sigmas| > 0
    requires 0.0 < d2 < 1.0 ==> |sigmas| > 0
    requires |sigmas| > 0 ==> sigmas[0] >= 0.0
    requires |sigmas| <= TotalSigmaSteps + 1
    ensures AccurateDenoiseStep(sigmas, scheduler, d2, steps).startAtStep
      <= AccurateDenoiseStep(sigmas, scheduler, d1, steps).startAtStep
  {
    var k1 := GetSigmaIndex(sigmas, d1, TotalSigmaSteps);
    var k2 := GetSigmaIndex(sigmas, d2, TotalSigmaSteps);
    SigmaIndexMonotone(sigmas, d1, d2, TotalSigmaSteps);
    ScaleMonotone(k2, k1, steps, TotalSigmaSteps);
    var x1 := (k1 * steps) as real / TotalSigmaSteps as real;
    var x2 := (k2 * steps) as real / TotalSigmaSteps as real;
    RoundMonotone(x2, x1);
    ClampMonotone(Round(x2), Round(x1), 0, steps);
  }

  /** A later start step never reads an earlier schedule index. */
  lemma StartIndexMonotone(start1: int, start2: int, steps: int, n: nat)
    requires steps >= 1
    requires start1 <= start2
    ensures StartIndex(start1, steps, n) <= StartIndex(start2, steps, n)
  {
    var c1, c2 := Clamp(start1, 0, steps), Clamp(start2, 0, steps);
    ClampMonotone(start1, start2, 0, steps);
    ScaleMonotone(c1, c2, n, steps);
    var p1 := (c1 * n) as real / steps as real;
    var p2 := (c2 * n) as real / steps as real;
    RoundMonotone(p1, p2);
    ClampMonotone(Round(p1), Round(p2), 0, n - 1);
  }

  /** On a non-increasing schedule a later start step leaves no more noise:
      get_actual_denoise never grows with the start step. */
  lemma GetActualDenoiseAntitone(sigmas: seq<real>, start1: int, start2: int, steps: int, n: nat)
    requires steps >= 1
    requires Readable(sigmas, n)
    requires NonIncreasing(sigmas) && sigmas[0] > 0.0
    requires start1 <= start2
    ensures GetActualDenoise(sigmas, start2, steps, n) <= GetActualDenoise(sigmas, start1, steps, n)
  {
    var i1, i2 := StartIndex(start1, steps, n), StartIndex(start2, steps, n);
    StartIndexMonotone(start1, start2, steps, n);
    DivideMonotone(sigmas[i2], sigmas[i1], sigmas[0]);
  }

  /** A larger strength uses more steps, so it starts no later. */
  lemma InverseStartAntitone(d1: real, d2: real, steps: int)
    requires 0.0 < d1 <= d2 < 1.0 && steps >= 1
    ensures InverseStart(d2, steps) <= InverseStart(d1, steps)
  {
    var x1, x2 := d1 * steps as real, d2 * steps as real;
    // the steps each start step leaves to run are the rounded products
    RoundUnique(x1, steps - InverseStart(d1, steps), Round(x1));
    RoundUnique(x2, steps - InverseStart(d2, steps), Round(x2));
    RoundScaleMonotone(d1, d2, steps);
  }

  /** AccurateDenoiseInverse never returns a smaller actual denoise for a
      larger denoise, across both short-circuits, on a well-formed schedule. */
  lemma AccurateDenoiseInverseMonotone(sigmas: seq<real>, scheduler: Scheduler, d1: real, d2: real, steps: int)
    requires steps >= 1
    requires d1 <= d2
    requires Readable(sigmas, TotalSigmaSteps) && WellFormed(sigmas)
    ensures AccurateDenoiseInverse(sigmas, scheduler, d1, steps).actualDenoise
      <= AccurateDenoiseInverse(sigmas, scheduler, d2, steps).actualDenoise
  {
    if 0.0 < d1 && d2 < 1.0 {
      var start1 := InverseStart(d1, steps);
      var start2 := InverseStart(d2, steps);
      InverseStartAntitone(d1, d2, steps);
      assert AccurateDenoiseInverse(sigmas, scheduler, d1, steps).actualDenoise
        == GetActualDenoise(sigmas, start1, steps, TotalSigmaSteps);
      assert AccurateDenoiseInverse(sigmas, scheduler, d2, steps).actualDenoise
        == GetActualDenoise(sigmas, start2, steps, TotalSigmaSteps);
      GetActualDenoiseAntitone(sigmas, start2, start1, steps, TotalSigmaSteps);
    }
  }

  /** The index the inverse reads for a start step in [0, steps]: the start
      step rescaled to the schedule and rounded to within half a step of
      `steps` (stated multiplied through by `steps`), then read at `n - 1`
      when it lands on `n`. */
  lemma StartIndexScaled(start: int, steps: int, n: nat)
    requires 0 <= start <= steps && steps >= 1 && n >= 1
    ensures var rounded := Round((start * n) as real / steps as real);
            && 0 <= rounded <= n
            && StartIndex(start, steps, n) == (if rounded == n then n - 1 else rounded)
            && 2 * (rounded * steps - start * n) <= steps
            && 2 * (start * n - rounded * steps) <= steps
  {
    var p := (start * n) as real / steps as real;
    PositionInRange(start, steps, n);
    RoundWithin(p, 0, n);
    RoundScaled(start * n, steps);
  }

  /** Strength to start step and back, in schedule indices: the index that
      AccurateDenoiseInverseStep reads lies within (1000 + steps) / (2 steps)
      of the crossing that AccurateDenoiseStep rescaled, or, when that
      crossing index is 1000 (the final entry of a 1001-entry schedule, or
      no crossing at all), it is 999. */
  lemma ForwardThenInverseWindow(sigmas: seq<real>, scheduler: Scheduler, actualDenoise: real, steps: int)
    requires steps >= 1
    requires 0.0 < actualDenoise < 1.0 ==> |sigmas| > 0
    requires |sigmas| <= TotalSigmaSteps + 1
    ensures var N := TotalSigmaSteps;
            var k := GetSigmaIndex(sigmas, actualDenoise, N);
            var start := AccurateDenoiseStep(sigmas, scheduler, actualDenoise, steps).startAtStep;
            var idx := StartIndex(start, steps, N);
            || (2 * (steps * (idx - k)) <= N + steps && 2 * (steps * (k - idx)) <= N + steps)
            || (k == N && idx == N - 1)
  {
    var N := TotalSigmaSteps;
    var k := GetSigmaIndex(sigmas, actualDenoise, N);
    var start := AccurateDenoiseStep(sigmas, scheduler, actualDenoise, steps).startAtStep;
    var idx := StartIndex(start, steps, N);
    AccurateDenoiseStepQuantises(sigmas, scheduler, actualDenoise, steps);
    StartIndexScaled(start, steps, N);
    var rounded := Round((start * N) as real / steps as real);
    IndexWindow(k, start, rounded, steps, N);
  }

  /** Strength to start step and back, in values: the ratio that
      AccurateDenoiseInverseStep recovers is below the requested strength
      exactly when the index it reads is at or past the crossing that
      AccurateDenoiseStep started from, and at least the strength when it
      is before it. */
  lemma ForwardThenInverseSide(sigmas: seq<real>, scheduler: Scheduler, actualDenoise: real, steps: int)
    requires 0.0 < actualDenoise < 1.0 && steps >= 1
    requires WellFormed(sigmas)
    requires TotalSigmaSteps <= |sigmas|
    ensures var k := GetSigmaIndex(sigmas, actualDenoise, TotalSigmaSteps);
            var start := AccurateDenoiseStep(sigmas, scheduler, actualDenoise, steps).startAtStep;
            var idx := StartIndex(start, steps, TotalSigmaSteps);
            var back := AccurateDenoiseInverseStep(sigmas, scheduler, start, steps).actualDenoise;
            && (idx >= k ==> back < actualDenoise)
            && (idx < k ==> back >= actualDenoise)
  {
    var N := TotalSigmaSteps;
    var start := AccurateDenoiseStep(sigmas, scheduler, actualDenoise, steps).startAtStep;
    var idx := StartIndex(start, steps, N);
    assert AccurateDenoiseInverseStep(sigmas, scheduler, start, steps).actualDenoise == sigmas[idx] / sigmas[0];
    RatioSide(sigmas, actualDenoise, idx, N);
  }

  /** The ratio read at any index below `n` is under the strength `d` exactly
      when the index is at or past the crossing for `d`. */
  lemma RatioSide(sigmas: seq<real>, d: real, idx: int, n: nat)
    requires 0.0 < d < 1.0 && WellFormed(sigmas)
    requires 0 <= idx < n && idx < |sigmas|
    ensures var k := GetSigmaIndex(sigmas, d, n);
            && (idx >= k ==> sigmas[idx] / sigmas[0] < d)
            && (idx < k ==> sigmas[idx] / sigmas[0] >= d)
  {
    var k := GetSigmaIndex(sigmas, d, n);
    var threshold := d * sigmas[0];
    SideOfCrossing(sigmas, threshold, k, idx, n);
    if idx >= k {
      RatioBelow(sigmas[idx], sigmas[0], d);
    } else {
      RatioAtLeast(sigmas[idx], sigmas[0], d);
    }
  }

  /** On a non-increasing schedule, an index below `n` is under the
      threshold exactly when it is at or past the first crossing k. */
  lemma SideOfCrossing(sigmas: seq<real>, t: real, k: int, idx: int, n: int)
    requires NonIncreasing(sigmas)
    requires CrossesAt(sigmas, t, k) || (k == n && NeverCrosses(sigmas, t))
    requires 0 <= idx < n && idx < |sigmas|
    ensures idx >= k ==> sigmas[idx] < t
    ensures idx < k ==> sigmas[idx] >= t
  {
    if idx >= k {
      assert CrossesAt(sigmas, t, k);
      assert sigmas[idx] <= sigmas[k];
    }
  }

  /** Start step to ratio and back to an index: searching the schedule for
      the recovered ratio (when it is below 1) finds its crossing strictly
      after the index the ratio was read from, because every entry up to that
      index is at least as large as the one read. */
  lemma InverseThenSearch(sigmas: seq<real>, scheduler: Scheduler, start: int, steps: int)
    requires steps >= 1
    requires WellFormed(sigmas) && |sigmas| >= TotalSigmaSteps
    ensures var ratio := AccurateDenoiseInverseStep(sigmas, scheduler, start, steps).actualDenoise;
            ratio < 1.0 ==> GetSigmaIndex(sigmas, ratio, TotalSigmaSteps) > StartIndex(start, steps, TotalSigmaSteps)
  {
    var N := TotalSigmaSteps;
    var idx := StartIndex(start, steps, N);
    var ratio := AccurateDenoiseInverseStep(sigmas, scheduler, start, steps).actualDenoise;
    assert ratio == sigmas[idx] / sigmas[0];
    if 0.0 < ratio < 1.0 {
      var threshold := ratio * sigmas[0];
      RatioInUnit(sigmas[idx], sigmas[0]);
      assert threshold == sigmas[idx];
      // every entry up to idx is at least the threshold, so none of them crosses
      assert forall j :: 0 <= j <= idx ==> sigmas[j] >= threshold;
    }
  }

  /** A six-entry schedule [14.6, 10, 6, 3, 1, 0] at strength 0.5: the
      threshold is 7.3 and the first entry below it is at index 2. */
  lemma ExampleSearch()
    ensures GetSigmaIndex([14.6, 10.0, 6.0, 3.0, 1.0, 0.0], 0.5, 6) == 2
  {
    var s := [14.6, 10.0, 6.0, 3.0, 1.0, 0.0];
    assert FirstBelow(s[2..], 7.3) == 0;
    assert FirstBelow(s[1..], 7.3) == 1;
  }

  /** AccurateDenoise on that schedule: the crossing index 2 is divided by
      the fixed resolution 1000, not by the schedule's length, so the
      corrected strength is 0.998. */
  lemma ExampleDenoise(scheduler: Scheduler)
    ensures AccurateDenoise([14.6, 10.0, 6.0, 3.0, 1.0, 0.0], scheduler, 0.5).denoise == 0.998
  {
    ExampleSearch();
  }

  /** The same schedule with five steps: start step 2 sits at position
      2 * 6 / 5 = 2.4, read at index 2, giving the ratio 6 / 14.6. */
  lemma ExampleInverse()
    ensures GetActualDenoise([14.6, 10.0, 6.0, 3.0, 1.0, 0.0], 2, 5, 6) == 6.0 / 14.6
  {
    assert Round(2.4) == 2;
  }
}
