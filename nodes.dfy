/** The conversions of nodes.py between a denoise strength, a start step
    within a caller's step count, and a sigma ratio.

    The host's schedule generator (`calculate_sigmas` on the model's
    sampling object, for a scheduler name and a resolution) is not part of
    this model: every operation receives the schedule it would have returned
    as the parameter `sigmas`, and the scheduler name only to echo it back.
    Floats are exact reals. */
module Nodes {
  import opened Arith
  import opened PyMath

  /** The schedule resolution every node asks the host for. */
  const TotalSigmaSteps: nat := 1000

  /** A scheduler name, passed through unchanged. */
  type Scheduler = string

  /** Outputs of AccurateDenoise: ("denoise", "scheduler"). */
  datatype DenoiseResult = DenoiseResult(denoise: real, scheduler: Scheduler)

  /** Outputs of AccurateDenoiseStep: ("start_at_step", "steps", "scheduler"). */
  datatype StepResult = StepResult(startAtStep: int, steps: int, scheduler: Scheduler)

  /** Outputs of both inverse nodes: ("actual_denoise", "scheduler"). */
  datatype ActualDenoiseResult = ActualDenoiseResult(actualDenoise: real, scheduler: Scheduler)

  /** A schedule whose noise level never rises. */
  predicate NonIncreasing(sigmas: seq<real>) {
    forall i, j :: 0 <= i <= j < |sigmas| ==> sigmas[i] >= sigmas[j]
  }

  /** A schedule without negative noise levels. */
  predicate NonNegative(sigmas: seq<real>) {
    forall i :: 0 <= i < |sigmas| ==> sigmas[i] >= 0.0
  }

  /** The shape of a schedule a well-behaved generator hands back: a positive
      initial noise level that never rises and never goes below zero. */
  predicate WellFormed(sigmas: seq<real>) {
    |sigmas| > 0 && sigmas[0] > 0.0 && NonIncreasing(sigmas) && NonNegative(sigmas)
  }

  /** What get_actual_denoise needs to run at resolution `n` without an
      IndexError or a ZeroDivisionError: `sigmas[0]` and every clamped index
      below `n` exist, and the initial noise level is not zero. */
  predicate Readable(sigmas: seq<real>, n: nat) {
    |sigmas| >= 1 && |sigmas| >= n && sigmas[0] != 0.0
  }

  /** `k` is the first index whose noise level is strictly below `t`. */
  predicate CrossesAt(sigmas: seq<real>, t: real, k: int) {
    0 <= k < |sigmas| && sigmas[k] < t && forall j :: 0 <= j < k ==> sigmas[j] >= t
  }

  /** No noise level of the schedule is below `t`. */
  predicate NeverCrosses(sigmas: seq<real>, t: real) {
    forall j :: 0 <= j < |sigmas| ==> sigmas[j] >= t
  }

  /** The first position of `(sigmas < t).nonzero()`, or `|sigmas|` when that
      tensor is empty. */
  function FirstBelow(sigmas: seq<real>, t: real): (k: nat)
    ensures k <= |sigmas|
    ensures k < |sigmas| ==> sigmas[k] < t
    ensures forall j :: 0 <= j < k ==> sigmas[j] >= t
    decreases |sigmas|
  {
    if |sigmas| == 0 then 0
    else if sigmas[0] < t then 0
    else 1 + FirstBelow(sigmas[1..], t)
  }

  /** get_sigma_index: the index at which the schedule first drops below
      `actualDenoise` times its initial noise level; `n` when it never does.
      Strengths at or below 0 give `n` and at or above 1 give 0 without
      looking at the schedule (which may then even be empty). */
  function GetSigmaIndex(sigmas: seq<real>, actualDenoise: real, n: nat): (r: nat)
    requires 0.0 < actualDenoise < 1.0 ==> |sigmas| > 0
    ensures actualDenoise <= 0.0 ==> r == n
    ensures actualDenoise >= 1.0 ==> r == 0
    ensures 0.0 < actualDenoise < 1.0 ==>
      var threshold := actualDenoise * sigmas[0];
      CrossesAt(sigmas, threshold, r) || (r == n && NeverCrosses(sigmas, threshold))
    ensures |sigmas| <= n + 1 ==> r <= n
  {
    if actualDenoise <= 0.0 then n
    else if actualDenoise >= 1.0 then 0
    else
      var threshold := actualDenoise * sigmas[0];
      var k := FirstBelow(sigmas, threshold);
      if k == |sigmas| then n else k
  }

  /** AccurateDenoise.execute: the schedule-corrected strength
      `1 - idx/1000`, clamped to [0, 1]; the scheduler is echoed. */
  function AccurateDenoise(sigmas: seq<real>, scheduler: Scheduler, actualDenoise: real): (r: DenoiseResult)
    requires 0.0 < actualDenoise < 1.0 ==> |sigmas| > 0
    ensures r.scheduler == scheduler
    ensures 0.0 <= r.denoise <= 1.0
    ensures actualDenoise >= 1.0 ==> r.denoise == 1.0
    ensures actualDenoise <= 0.0 ==> r.denoise == 0.0
  {
    var idx := GetSigmaIndex(sigmas, actualDenoise, TotalSigmaSteps);
    var denoise := 1.0 - idx as real / TotalSigmaSteps as real;
    DenoiseResult(ClampReal(denoise, 0.0, 1.0), scheduler)
  }

  /** AccurateDenoiseStep.execute: the crossing index rescaled from the
      1000-entry schedule to the caller's `steps`, rounded and clamped to
      [0, steps]; `steps` and the scheduler are echoed. */
  function AccurateDenoiseStep(sigmas: seq<real>, scheduler: Scheduler, actualDenoise: real, steps: int): (r: StepResult)
    requires steps >= 1
    requires 0.0 < actualDenoise < 1.0 ==> |sigmas| > 0
    ensures r.steps == steps && r.scheduler == scheduler
    ensures 0 <= r.startAtStep <= steps
    ensures actualDenoise >= 1.0 ==> r.startAtStep == 0
    ensures actualDenoise <= 0.0 ==> r.startAtStep == steps
  {
    var idx := GetSigmaIndex(sigmas, actualDenoise, TotalSigmaSteps);
    var startAtStep := Round((idx * steps) as real / TotalSigmaSteps as real);
    RoundOfInt(0);
    RoundOfInt(steps);
    StepResult(Clamp(startAtStep, 0, steps), steps, scheduler)
  }

  /** The schedule index get_actual_denoise reads for a start step: the start
      step is clamped to [0, steps], placed at the same fraction of `n`,
      rounded, and clamped to [0, n - 1]. A position that rounds to `n`
      (any position above `n - 1/2`) is read at `n - 1`, up to one index
      away; every other position is read at the nearest index. */
  function StartIndex(startAtStep: int, steps: int, n: nat): (idx: int)
    requires steps >= 1
    ensures 0 <= idx && (n >= 1 ==> idx < n) && (n == 0 ==> idx == 0)
    ensures startAtStep <= 0 ==> idx == 0
    ensures startAtStep >= steps && n >= 1 ==> idx == n - 1
    ensures n >= 1 ==>
      var position := (Clamp(startAtStep, 0, steps) * n) as real / steps as real;
      2.0 * (idx as real - position) <= 1.0 && position - idx as real <= 1.0
      && (idx < n - 1 ==> 2.0 * (position - idx as real) <= 1.0)
  {
    var start := Clamp(startAtStep, 0, steps);
    var position := (start * n) as real / steps as real;
    var idxHigh := Round(position);
    PositionInRange(start, steps, n);
    RoundOfInt(n);
    RoundWithin(position, 0, n);
    Clamp(idxHigh, 0, n - 1)
  }

  /** get_actual_denoise: the noise level at the start step's schedule
      index as a fraction of the initial noise level. For a well-formed
      schedule this ratio lies in [0, 1]; start step 0 (or earlier) gives
      exactly 1, and a start step at or past `steps` reads the last entry. */
  function GetActualDenoise(sigmas: seq<real>, startAtStep: int, steps: int, n: nat): (r: real)
    requires steps >= 1
    requires Readable(sigmas, n)
    ensures WellFormed(sigmas) ==> 0.0 <= r <= 1.0
    ensures startAtStep <= 0 ==> r == 1.0
    ensures startAtStep >= steps && n >= 1 ==> r * sigmas[0] == sigmas[n - 1]
    ensures r * sigmas[0] == sigmas[StartIndex(startAtStep, steps, n)]
  {
    var idxHigh := StartIndex(startAtStep, steps, n);
    var sigmaStart := sigmas[idxHigh];
    var sigma0 := sigmas[0];
    RatioInUnit(sigmaStart, sigma0);
    sigmaStart / sigma0
  }

  /** AccurateDenoiseInverse.execute: strengths at or outside [0, 1] map to
      exactly 0.0 or 1.0; otherwise the strength is turned into a start step
      `steps - round(denoise * steps)` and the sigma ratio there is
      returned. The scheduler is echoed. */
  function AccurateDenoiseInverse(sigmas: seq<real>, scheduler: Scheduler, denoise: real, steps: int): (r: ActualDenoiseResult)
    requires steps >= 1
    requires 0.0 < denoise < 1.0 ==> Readable(sigmas, TotalSigmaSteps)
    ensures r.scheduler == scheduler
    ensures denoise <= 0.0 ==> r.actualDenoise == 0.0
    ensures denoise >= 1.0 ==> r.actualDenoise == 1.0
    ensures WellFormed(sigmas) ==> 0.0 <= r.actualDenoise <= 1.0
    ensures 0.0 < denoise < 1.0 ==>
      r.actualDenoise == GetActualDenoise(sigmas, InverseStart(denoise, steps), steps, TotalSigmaSteps)
  {
    if denoise <= 0.0 then ActualDenoiseResult(0.0, scheduler)
    else if denoise >= 1.0 then ActualDenoiseResult(1.0, scheduler)
    else
      ActualDenoiseResult(GetActualDenoise(sigmas, InverseStart(denoise, steps), steps, TotalSigmaSteps), scheduler)
  }

  /** The start step AccurateDenoiseInverse derives from a strength strictly
      inside (0, 1): it lies in [0, steps], and the steps it leaves to run
      are the nearest integer to `denoise * steps`, the even one on a tie. */
  function InverseStart(denoise: real, steps: int): (startAtStep: int)
    requires 0.0 < denoise < 1.0 && steps >= 1
    ensures 0 <= startAtStep <= steps
    ensures var used := (steps - startAtStep) as real;
            2.0 * (used - denoise * steps as real) <= 1.0 && 2.0 * (denoise * steps as real - used) <= 1.0
    ensures var used := (steps - startAtStep) as real;
            (2.0 * (used - denoise * steps as real) == 1.0 || 2.0 * (denoise * steps as real - used) == 1.0)
            ==> (steps - startAtStep) % 2 == 0
  {
    FractionOfCount(denoise, steps);
    RoundWithin(denoise * steps as real, 0, steps);
    steps - Round(denoise * steps as real)
  }

  /** AccurateDenoiseInverseStep.execute: the sigma ratio at a start step,
      with the scheduler echoed. */
  function AccurateDenoiseInverseStep(sigmas: seq<real>, scheduler: Scheduler, startAtStep: int, steps: int): (r: ActualDenoiseResult)
    requires steps >= 1
    requires Readable(sigmas, TotalSigmaSteps)
    ensures r.scheduler == scheduler
    ensures WellFormed(sigmas) ==> 0.0 <= r.actualDenoise <= 1.0
    ensures startAtStep <= 0 ==> r.actualDenoise == 1.0
    ensures startAtStep >= steps ==> r.actualDenoise * sigmas[0] == sigmas[TotalSigmaSteps - 1]
    ensures r.actualDenoise * sigmas[0] == sigmas[StartIndex(startAtStep, steps, TotalSigmaSteps)]
  {
    ActualDenoiseResult(GetActualDenoise(sigmas, startAtStep, steps, TotalSigmaSteps), scheduler)
  }

  /** A start step in [0, steps] sits at a position in [0, n] of the
      schedule; the last step sits exactly at `n`. */
  lemma PositionInRange(start: int, steps: int, n: nat)
    requires 0 <= start <= steps && steps >= 1
    ensures 0.0 <= (start * n) as real / steps as real <= n as real
    ensures start == 0 ==> (start * n) as real / steps as real == 0.0
    ensures start == steps ==> (start * n) as real / steps as real == n as real
  {
    assert start * n <= steps * n by {
      assert (steps - start) * n >= 0;
    }
    assert (steps * n) as real == steps as real * n as real;
  }
}
