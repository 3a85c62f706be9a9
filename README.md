# ComfyUI-Actual-Denoise, modelled in Dafny

ComfyUI-Actual-Denoise adds sampling nodes to ComfyUI. They convert between
three quantities that describe how much of a diffusion sampling run to do:

- a denoise strength in [0, 1];
- a start step within the caller's step count;
- a sigma ratio, meaning the noise level at some point of the noise schedule
  divided by the schedule's initial noise level.

All of the logic is in `nodes.py`:

- `get_sigma_index` searches for a threshold crossing: the first schedule
  index whose sigma is strictly below `actual_denoise * sigmas[0]`.
- Two forward nodes, `AccurateDenoise` and `AccurateDenoiseStep`, rescale
  that index to a corrected denoise value or to a start step.
- `get_actual_denoise` and the two inverse nodes, `AccurateDenoiseInverse`
  and `AccurateDenoiseInverseStep`, map a start step to a schedule index and
  read off the sigma ratio there.

The code is stateless and made of expressions, so the model is written as
functions and lemmas:

- `arith.dfy` (module `Arith`): the ordered-field and integer facts the
  proofs need.
- `pymath.dfy` (module `PyMath`): Python's `round`, which rounds to the
  nearest integer with ties going to the even one, and the
  `max(lo, min(hi, x))` clamp on ints and on floats.
- `nodes.dfy` (module `Nodes`): the six operations of `nodes.py`.
- `properties.dfy` (module `NodesProperties`): how the operations relate to
  each other. It covers monotonicity, the forward-then-inverse round trip in
  both schedule indices and values, and concrete examples.

The host computes the schedule with `comfy.samplers.calculate_sigmas` on the
model's sampling object. Every operation receives that schedule as the
parameter `sigmas: seq<real>`. The scheduler name is only echoed back. Floats
are exact reals.

Some consequences of what `nodes.py` computes:

- The inverse direction reads `sigmas[max(0, min(N - 1, round(start * N / steps)))]`,
  where `start` is the start step clamped to [0, steps].
- Neither the search nor the inverse guards against a short schedule: both
  index `sigmas` directly. The model makes a long enough schedule a
  precondition.
- `AccurateDenoise` divides the crossing index by 1000 whatever the
  schedule's length. On the six-entry schedule of
  `NodesProperties.ExampleDenoise` it gives 0.998.
- At `start_at_step == steps` the inverse returns `sigmas[999] / sigmas[0]`,
  because the index is clamped to N - 1. The final entry of a 1001-entry
  schedule is never read.

## Model

| member | source | states |
|---|---|---|
| PyMath.Round | nodes.py:78 | Python `round` on a float: the result is within one half of x, and on a tie it is even, which fixes it uniquely |
| PyMath.RoundOfInt | nodes.py:86 | an integral value rounds to itself, so the clamps after a round are idle at 0, steps and N |
| PyMath.RoundMonotone | nodes.py:78 | rounding never reverses the order of two values |
| PyMath.RoundWithin | nodes.py:86 | a value between two integers rounds to an integer between them |
| PyMath.RoundScaled | nodes.py:78 | the rounded quotient a / d misses it by at most half of d, and by exactly half only when it is even, stated on integers |
| PyMath.Clamp | nodes.py:80 | `max(lo, min(hi, x))` on ints: within [lo, hi] when lo <= hi, x itself inside the range, lo below it, hi above it, lo when hi < lo |
| PyMath.ClampMonotone | nodes.py:85 | clamping preserves the order of its arguments |
| PyMath.ClampReal | nodes.py:50 | `max(lo, min(hi, x))` on floats: within [lo, hi], x itself inside the range, the bound it crossed outside |
| Nodes.FirstBelow | nodes.py:18-22 | the first position of `(sigmas < t).nonzero()`: every earlier entry is at least t, and the position, if it is inside the schedule, holds an entry below t |
| Nodes.GetSigmaIndex | nodes.py:4-22 | strength <= 0 gives N and strength >= 1 gives 0, neither reading the schedule; otherwise the result is the first index below `strength * sigmas[0]`, or N when no entry is below it; at most N on a schedule of at most N + 1 entries |
| Nodes.AccurateDenoise | nodes.py:44-51 | the corrected denoise lies in [0, 1], is 1.0 for strength >= 1 and 0.0 for strength <= 0, and the scheduler is echoed |
| Nodes.AccurateDenoiseStep | nodes.py:74-81 | the start step lies in [0, steps], is 0 for strength >= 1 and steps for strength <= 0, and steps and the scheduler are echoed |
| Nodes.StartIndex | nodes.py:85-87 | the index read for a start step lies in [0, N - 1], so the read is in bounds; it is 0 at or before step 0 and N - 1 at or past the last step; a position above N - 1/2 is read at N - 1, up to one index away, and every other position at the nearest index |
| Nodes.GetActualDenoise | nodes.py:84-96 | the result times `sigmas[0]` is the entry at the start step's index (`StartIndex`), so the result is that entry's ratio to the initial sigma; it lies in [0, 1] on a well-formed schedule, is exactly 1 at or before step 0, and is `sigmas[N-1] / sigmas[0]` at or past the last step |
| Nodes.InverseStart | nodes.py:125-126 | the start step derived from a strength inside (0, 1) lies in [0, steps], and the steps it leaves to run are the nearest integer to `denoise * steps`, the even one on a tie |
| Nodes.AccurateDenoiseInverse | nodes.py:119-128 | denoise <= 0 gives exactly 0.0 and denoise >= 1 gives exactly 1.0; otherwise the result is the sigma ratio at the start step `InverseStart` derives; the result lies in [0, 1] on a well-formed schedule; the scheduler is echoed |
| Nodes.AccurateDenoiseInverseStep | nodes.py:148-150 | the result times `sigmas[0]` is the entry at the start step's index (`StartIndex` with N = 1000); it lies in [0, 1] on a well-formed schedule, is 1 at or before step 0 and `sigmas[999] / sigmas[0]` at or past the last step; the scheduler is echoed |
| Nodes.PositionInRange | nodes.py:86 | a start step in [0, steps] sits at a position in [0, N] of the schedule, exactly at 0 for step 0 and exactly at N for the last step |
| NodesProperties.FirstBelowAntitone | nodes.py:16-22 | a higher threshold is crossed no later |
| NodesProperties.SigmaIndexMonotone | nodes.py:5-22 | with a non-negative initial sigma, the crossing index never moves later as the strength grows, across both short-circuits |
| NodesProperties.AccurateDenoiseUnclamped | nodes.py:48-50 | on a schedule of at most 1001 entries the clamp is idle and the result is exactly `1 - idx/1000` |
| NodesProperties.AccurateDenoiseMonotone | nodes.py:44-51 | a larger strength never gives a smaller corrected denoise |
| NodesProperties.AccurateDenoiseStepQuantises | nodes.py:76-80 | the start step is the crossing index rescaled from 1000 to steps, to within half a step, and on an exact half it is the even neighbour, as Python's round picks |
| NodesProperties.AccurateDenoiseStepMonotone | nodes.py:76-80 | a larger strength never gives a later start step |
| NodesProperties.StartIndexMonotone | nodes.py:85-87 | a later start step never reads an earlier schedule index |
| NodesProperties.GetActualDenoiseAntitone | nodes.py:84-96 | on a non-increasing schedule a later start step never gives a larger sigma ratio |
| NodesProperties.InverseStartAntitone | nodes.py:125-126 | a larger strength never gives a later start step in the inverse |
| PyMath.RoundScaleMonotone | nodes.py:125 | rounding a value scaled by a count keeps the order, so a larger strength never rounds to fewer used steps |
| NodesProperties.AccurateDenoiseInverseMonotone | nodes.py:119-128 | on a well-formed schedule a larger denoise never gives a smaller actual denoise, across both short-circuits |
| NodesProperties.StartIndexScaled | nodes.py:85-87 | for a start step in [0, steps], the index read is the rounded position, or N - 1 when that is N, and the rounded position is within half a step of the exact one |
| NodesProperties.ForwardThenInverseWindow | nodes.py:76-87 | strength to start step and back: the index the inverse reads is within (1000 + steps) / (2 steps) of the crossing the forward node found, or it is 999 when the crossing index is 1000 (the final entry of a 1001-entry schedule, or no crossing) |
| NodesProperties.ForwardThenInverseSide | nodes.py:76-96 | strength to start step and back, as values: the recovered ratio is below the strength exactly when the index read is at or past the crossing, and at least the strength when it is before the crossing |
| NodesProperties.RatioSide | nodes.py:16-22 | on a well-formed schedule, the ratio at an index is below the strength when the index is at or past the crossing, and at least the strength when it is before |
| NodesProperties.SideOfCrossing | nodes.py:18-22 | on a non-increasing schedule, entries at or past the first crossing are below the threshold and earlier ones are not |
| NodesProperties.InverseThenSearch | nodes.py:4-22 | start step to ratio and back: searching for the recovered ratio, when it is below 1, finds a crossing strictly after the index the ratio was read from |
| NodesProperties.ExampleSearch | nodes.py:15-22 | on [14.6, 10, 6, 3, 1, 0] with strength 0.5, the threshold 7.3 is first crossed at index 2 |
| NodesProperties.ExampleDenoise | nodes.py:44-51 | on the same schedule AccurateDenoise returns 0.998, because it divides by 1000 |
| NodesProperties.ExampleInverse | nodes.py:84-96 | on the same schedule with N = 6 and 5 steps, start step 2 reads index 2 and returns 6 / 14.6 |

## Left out

- The schedule generator and the model object are left out, along with the
  tensor plumbing (`get_model_object`, `calculate_sigmas`, `.cpu()`,
  `.item()`, `.nonzero()`). They are calls into the host, so the schedule is
  a parameter.
- Whether the host's schedule has N or N + 1 entries is not fixed. Lemmas
  that need the crossing index to be at most N require at most N + 1
  entries.
- The node metadata (`INPUT_TYPES`, `RETURN_TYPES`, `RETURN_NAMES`,
  `FUNCTION`, `CATEGORY`) is host registration data. Only its `steps >= 1`
  bound is kept, as a precondition. The other input bounds are not imposed,
  because the code clamps or short-circuits on its own.
- `__init__.py` is not part of this model. It only registers the node
  classes and their display names with the host.
- Floating-point rounding and NaN are not modelled, because floats are exact
  reals.
- The code fails on a schedule too short for the entries it reads, and the
  inverse nodes (through `get_actual_denoise`, the only place that divides
  by `sigmas[0]`) fail on a zero initial sigma. These exceptions are not
  modelled as results; instead they are preconditions: `|sigmas| > 0` for a
  search with a strength inside (0, 1), and `Readable` (enough entries, a
  non-zero `sigmas[0]`) for the inverse. The search itself does not need a
  non-zero initial sigma.
- The `int(...)` casts around `round` are not modelled, because Python's
  one-argument `round` already returns an int.
- ForwardThenInverseSide: states the side of the strength that the recovered
  ratio falls on, not a numeric bound on `|back - strength|`. No such bound
  holds for an arbitrary non-increasing schedule: a drop of any size may
  occur between the crossing and the index read.
