/**
  The integer logic of the smooth counter animation (src/lib/counter.js):
  the clamp that keeps the displayed value from going backward or past the
  target, and how each animation frame threads the last shown value through
  it. Easing curves are floating point and stay abstract: a frame supplies
  its linear progress and the unclamped value the easing produced.
 */
module Counter {
  import opened Options

  /** The progress fractions at which the counter approaches and then shows the final value. */
  datatype Thresholds = Thresholds(early: real, display: real)

  const DefaultThresholds := Thresholds(0.85, 0.95)

  /** `createProgressThresholds`: the given thresholds, or the defaults when none are given. */
  function CreateProgressThresholds(thresholds: Option<Thresholds>): (r: Thresholds)
    ensures thresholds.Some? ==> r == thresholds.value
    ensures thresholds.None? ==> r.early == 0.85 && r.display == 0.95
  {
    thresholds.GetOr(DefaultThresholds)
  }

  function Max(a: int, b: int): int {
    if a >= b then a else b
  }

  function Min(a: int, b: int): int {
    if a <= b then a else b
  }

  /**
    `ensureMonotonicProgress`: `Math.min(Math.max(lastValue, newValue), finalValue)`.
    It never exceeds the final value, never goes below the last value while
    that is in range, and keeps an in-range new value as it is.
   */
  function EnsureMonotonicProgress(lastValue: int, newValue: int, finalValue: int): (r: int)
    ensures r <= finalValue
    ensures lastValue <= finalValue ==> lastValue <= r
    ensures lastValue <= newValue <= finalValue ==> r == newValue
    ensures newValue < lastValue <= finalValue ==> r == lastValue
    ensures newValue > finalValue || lastValue > finalValue ==> r == finalValue
  {
    Min(Max(lastValue, newValue), finalValue)
  }

  /** Clamping an already clamped value again changes nothing. */
  lemma EnsureMonotonicProgressIdempotent(lastValue: int, newValue: int, finalValue: int)
    ensures var once := EnsureMonotonicProgress(lastValue, newValue, finalValue);
            EnsureMonotonicProgress(lastValue, once, finalValue) == once
  {
  }

  /** One animation frame: its linear progress and the unclamped value it computed. */
  datatype Frame = Frame(progress: real, computed: int)

  /** What one call of `step` shows, the `lastValue` it leaves behind, and whether it asks for another frame. */
  datatype StepResult = StepResult(shown: int, lastValue: int, requestNext: bool)

  /**
    One call of the `step` closure of `createSmoothAnimationStep`. At or past
    the display threshold it shows `end` and stops, leaving `lastValue`
    alone. Otherwise it clamps the computed value against `lastValue` and
    `end`, remembers it, and asks for another frame while progress is below 1.
   */
  function SmoothStep(end: int, thresholds: Thresholds, lastValue: int, frame: Frame): (r: StepResult)
    ensures frame.progress >= thresholds.display ==> r == StepResult(end, lastValue, false)
    ensures frame.progress < thresholds.display ==>
              && r.shown == r.lastValue
              && r.requestNext == (frame.progress < 1.0)
              && r.shown <= end
              && (lastValue <= end ==> lastValue <= r.shown)
              && (lastValue <= frame.computed <= end ==> r.shown == frame.computed)
              && (frame.computed < lastValue <= end ==> r.shown == lastValue)
              && (frame.computed > end ==> r.shown == end)
              && (lastValue > end ==> r.shown == end)
  {
    if frame.progress >= thresholds.display then StepResult(end, lastValue, false)
    else
      var value := EnsureMonotonicProgress(lastValue, frame.computed, end);
      StepResult(value, value, frame.progress < 1.0)
  }

  /**
    The values a counter shows over successive frames, starting from
    `lastValue`: each frame runs one step, and the run ends at the first
    step that requests no further frame (or when the frames run out).
   */
  function Animate(end: int, thresholds: Thresholds, lastValue: int, frames: seq<Frame>): seq<int>
    decreases |frames|
  {
    if |frames| == 0 then []
    else
      var r := SmoothStep(end, thresholds, lastValue, frames[0]);
      [r.shown] + (if r.requestNext then Animate(end, thresholds, r.lastValue, frames[1..]) else [])
  }

  predicate NonDecreasing(xs: seq<int>) {
    forall i, j :: 0 <= i < j < |xs| ==> xs[i] <= xs[j]
  }

  /**
    Threading `lastValue` through the frames never shows a value below the
    starting one or above `end`, and never goes backward.
   */
  lemma {:induction false} AnimationIsMonotoneAndBounded(end: int, thresholds: Thresholds, lastValue: int, frames: seq<Frame>)
    requires lastValue <= end
    ensures var shown := Animate(end, thresholds, lastValue, frames);
            && NonDecreasing(shown)
            && forall i :: 0 <= i < |shown| ==> lastValue <= shown[i] <= end
    decreases |frames|
  {
    if |frames| > 0 {
      var r := SmoothStep(end, thresholds, lastValue, frames[0]);
      if r.requestNext {
        AnimationIsMonotoneAndBounded(end, thresholds, r.lastValue, frames[1..]);
        var rest := Animate(end, thresholds, r.lastValue, frames[1..]);
        var shown := Animate(end, thresholds, lastValue, frames);
        assert shown == [r.shown] + rest;
        assert forall i :: 0 < i < |shown| ==> shown[i] == rest[i - 1];
      }
    }
  }

  /**
    With a display threshold of at most 1, a run that reaches full progress
    always ends on exactly `end`: the first frame at or past the threshold
    shows `end` and stops.
   */
  lemma {:induction false} AnimationEndsOnTarget(end: int, thresholds: Thresholds, lastValue: int, frames: seq<Frame>, k: nat)
    requires thresholds.display <= 1.0
    requires k < |frames| && frames[k].progress >= 1.0
    ensures var shown := Animate(end, thresholds, lastValue, frames);
            |shown| > 0 && shown[|shown| - 1] == end
    decreases |frames|
  {
    var r := SmoothStep(end, thresholds, lastValue, frames[0]);
    if r.requestNext {
      assert k > 0;
      AnimationEndsOnTarget(end, thresholds, r.lastValue, frames[1..], k - 1);
    }
  }
}
