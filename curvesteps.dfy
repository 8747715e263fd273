/**
 * Parameter sampling along the curve: the arc length by Simpson's rule over
 * micro-intervals, the resampling of [lower, upper] into steps of equal arc
 * length, and the sampling of the box's width. The curve's speed |r'(t)| is
 * an abstract function; floating-point accumulation of t is modelled as exact
 * real arithmetic, so the micro-interval loops run exactly as many times as
 * the interval count says.
 */
module CurveSteps {
  import opened Common

  /** The number of micro-intervals of the resampling pass. */
  const NumIntervals: nat := 5000

  /** The tolerance of the arc-length and width comparisons. */
  const Epsilon: real := 0.001

  function Abs(x: real): real
  {
    if x < 0.0 then -x else x
  }

  // ---------------------------------------------------------------------------
  // Arc length
  // ---------------------------------------------------------------------------

  /** The end of micro-interval i of width h from t1: t1 advanced i times by h, as the source's t is. */
  function Point(t1: real, h: real, i: nat): real
  {
    if i == 0 then t1 else Point(t1, h, i - 1) + h
  }

  lemma PointNext(t1: real, h: real, i: nat)
    ensures Point(t1, h, i + 1) == Point(t1, h, i) + h
  {
  }

  lemma {:induction false} PointLinear(t1: real, h: real, i: nat)
    ensures Point(t1, h, i) == t1 + (i as real) * h
  {
    if i > 0 {
      PointLinear(t1, h, i - 1);
    }
  }

  /** With h >= 0 the points never move back; with h > 0 they move forward. */
  lemma {:induction false} PointMono(t1: real, h: real, i: nat, j: nat)
    requires h >= 0.0 && i <= j
    ensures Point(t1, h, i) <= Point(t1, h, j)
    ensures h > 0.0 && i < j ==> Point(t1, h, i) < Point(t1, h, j)
  {
    if i < j {
      PointMono(t1, h, i, j - 1);
    }
  }

  /** n micro-intervals of width (t2 - t1) / n end exactly at t2. */
  lemma WholeInterval(t1: real, t2: real, n: nat)
    requires n >= 1
    ensures Point(t1, (t2 - t1) / (n as real), n) == t2
  {
    PointLinear(t1, (t2 - t1) / (n as real), n);
  }

  /** Micro-interval i ends inside [t1, t2] exactly when i <= n. */
  lemma StepInside(t1: real, t2: real, i: nat, n: nat)
    requires n >= 1 && t1 < t2
    ensures Point(t1, (t2 - t1) / (n as real), i) <= t2 <==> i <= n
  {
    WholeInterval(t1, t2, n);
    if i <= n {
      PointMono(t1, (t2 - t1) / (n as real), i, n);
    } else {
      PointMono(t1, (t2 - t1) / (n as real), n, i);
    }
  }

  /** Simpson's rule on [t - h, t]. */
  function Simpson(speed: real -> real, t: real, h: real): real
  {
    (speed(t - h) + 4.0 * speed((t + (t - h)) / 2.0) + speed(t)) * (h / 6.0)
  }

  /** Simpson's rule summed over the micro-intervals 1 .. i of width h from t1. */
  function ArcSum(speed: real -> real, t1: real, h: real, i: nat): real
  {
    if i == 0 then 0.0 else ArcSum(speed, t1, h, i - 1) + Simpson(speed, Point(t1, h, i), h)
  }

  function ArcLengthOf(speed: real -> real, t1: real, t2: real, n: nat): real
    requires n >= 1
  {
    if t1 == t2 then 0.0 else ArcSum(speed, t1, (t2 - t1) / (n as real), n)
  }

  /** The source's loop: Simpson's rule on each of the NumIntervals micro-intervals while t <= t2. */
  method ArcLength(speed: real -> real, t1: real, t2: real) returns (sum: real)
    requires t1 <= t2
    ensures sum == ArcLengthOf(speed, t1, t2, NumIntervals)
  {
    if t1 == t2 {
      return 0.0;
    }
    var stepSize := (t2 - t1) / (NumIntervals as real);
    var prev := speed(t1);
    sum := 0.0;
    var t := t1 + stepSize;
    var i: nat := 0;
    while t <= t2
      invariant i <= NumIntervals
      invariant t == Point(t1, stepSize, i + 1) && prev == speed(Point(t1, stepSize, i))
      invariant sum == ArcSum(speed, t1, stepSize, i)
      decreases NumIntervals - i
    {
      StepInside(t1, t2, i + 1, NumIntervals);
      PointNext(t1, stepSize, i);
      var piece, curr := SimpsonPiece(speed, t, stepSize, prev);
      sum := sum + piece;
      prev := curr;
      PointNext(t1, stepSize, i + 1);
      t := t + stepSize;
      i := i + 1;
    }
    StepInside(t1, t2, i + 1, NumIntervals);
  }

  /** Simpson's rule on [t - stepSize, t], with the speed at t - stepSize carried over as prev. */
  method SimpsonPiece(speed: real -> real, t: real, stepSize: real, prev: real) returns (piece: real, curr: real)
    requires prev == speed(t - stepSize)
    ensures piece == Simpson(speed, t, stepSize) && curr == speed(t)
  {
    curr := speed(t);
    var midValue := (t + (t - stepSize)) / 2.0;
    piece := (prev + 4.0 * speed(midValue) + curr) * (stepSize / 6.0);
  }

  lemma SimpsonNonNegative(speed: real -> real, t: real, h: real)
    requires h >= 0.0 && forall x :: speed(x) >= 0.0
    ensures Simpson(speed, t, h) >= 0.0
  {
    var a, b, c := speed(t - h), speed((t + (t - h)) / 2.0), speed(t);
    assert a + 4.0 * b + c >= 0.0;
  }

  /** With a non-negative speed, the partial sums are non-negative and never decrease. */
  lemma {:induction false} ArcSumMono(speed: real -> real, t1: real, h: real, i: nat, j: nat)
    requires h >= 0.0 && i <= j
    requires forall t :: speed(t) >= 0.0
    ensures 0.0 <= ArcSum(speed, t1, h, i) <= ArcSum(speed, t1, h, j)
  {
    if j > 0 {
      if i < j {
        ArcSumMono(speed, t1, h, i, j - 1);
      } else {
        ArcSumMono(speed, t1, h, i - 1, j - 1);
      }
      SimpsonNonNegative(speed, Point(t1, h, j), h);
    }
  }

  /** The arc length of [t1, t2] is non-negative for a non-negative speed. */
  lemma ArcLengthNonNegative(speed: real -> real, t1: real, t2: real, n: nat)
    requires n >= 1 && t1 <= t2
    requires forall t :: speed(t) >= 0.0
    ensures ArcLengthOf(speed, t1, t2, n) >= 0.0
  {
    if t1 != t2 {
      ArcSumMono(speed, t1, (t2 - t1) / (n as real), 0, n);
    }
  }

  // ---------------------------------------------------------------------------
  // Resampling by arc length
  // ---------------------------------------------------------------------------

  /**
   * The ratio that stretches the step length so that the total arc length is
   * a whole number of roundLength units; round stands for Math.Round. None
   * when the rounded length is zero, where the source's ratio is not a finite
   * float and no comparison with it succeeds.
   */
  function LengthAdjustment(total: real, roundLength: int, round: real -> real): Option<real>
  {
    if roundLength == 0 then Some(1.0)
    else
      var d := (roundLength as real) * round(total / (roundLength as real));
      if d == 0.0 then None else Some(total / d)
  }

  /** Everything the resampling walk depends on. */
  datatype Resampling = Resampling(speed: real -> real, lower: real, upper: real, total: real,
                                   stepLength: real, adjustment: Option<real>, stride: real)

  function MicroStep(r: Resampling): real
  {
    (r.upper - r.lower) / (NumIntervals as real)
  }

  /** The arc length between recorded steps: the step length stretched by the adjustment. */
  function Stride(stepLength: real, adjustment: Option<real>): real
  {
    if adjustment.Some? then stepLength * adjustment.value else 0.0
  }

  /** The walk's state: recorded steps, the next arc length to reach, the arc length so far, and whether it ended early. */
  datatype Walk = Walk(steps: seq<real>, target: real, sum: real, exited: bool)

  /**
   * Crossing the target at the end t of a micro-interval: record whichever
   * end of the micro-interval is nearer to it and move the target one stride on.
   */
  function Cross(r: Resampling, w: Walk, t: real, newSum: real): Walk
  {
    if r.adjustment.Some? && newSum > w.target then
      Walk(w.steps + [if newSum - w.target < w.target - w.sum then t else t - MicroStep(r)], w.target + r.stride, newSum, false)
    else Walk(w.steps, w.target, newSum, false)
  }

  /** Micro-interval i; the walk ends early, with upper appended, when the target meets the total. */
  function Advance(r: Resampling, w: Walk, i: nat): Walk
  {
    var t := Point(r.lower, MicroStep(r), i);
    var c := Cross(r, w, t, w.sum + Simpson(r.speed, t, MicroStep(r)));
    if r.adjustment.Some? && Abs(r.total - c.target) < Epsilon then Walk(c.steps + [r.upper], c.target, c.sum, true)
    else c
  }

  /** The walk after micro-intervals 1 .. i, or at the one where it ended. */
  function WalkTo(r: Resampling, i: nat): Walk
  {
    if i == 0 then Walk([r.lower], r.stride, 0.0, false)
    else
      var w := WalkTo(r, i - 1);
      if w.exited then w else Advance(r, w, i)
  }

  /**
   * The resampled steps and the fraction of a whole step that the last one
   * covers: 1 on the early exit, otherwise as Finish says.
   */
  function Resample(r: Resampling): (seq<real>, Option<real>)
  {
    var w := WalkTo(r, NumIntervals);
    if w.exited then (w.steps, Some(1.0)) else Finish(r, w)
  }

  /**
   * After the last micro-interval: upper is appended and the fraction is
   * LastFraction, or None where the source's value is not a finite float.
   */
  function Finish(r: Resampling, w: Walk): (seq<real>, Option<real>)
  {
    if r.adjustment.None? || r.stepLength == 0.0 then (w.steps + [r.upper], None)
    else (w.steps + [r.upper], Some(LastFraction(w.sum, w.target, r.stepLength, r.adjustment.value)))
  }

  /**
   * The result of the walk resumed in state w after micro-interval i: the
   * loop's view of Resample, which ResumeIsResample connects to it.
   */
  function ResumeFrom(r: Resampling, i: nat, w: Walk): (seq<real>, Option<real>)
    decreases NumIntervals - i
  {
    if i >= NumIntervals then Finish(r, w)
    else
      var w' := Advance(r, w, i + 1);
      if w'.exited then (w'.steps, Some(1.0)) else ResumeFrom(r, i + 1, w')
  }

  /**
   * The part of the last target interval that the walk covered, by the
   * source's expression: divided by stepLength, then multiplied by the adjustment.
   */
  function LastFraction(sum: real, target: real, stepLength: real, lengthAdjustment: real): real
    requires stepLength != 0.0
  {
    (sum - (target - stepLength * lengthAdjustment)) / stepLength * lengthAdjustment
  }

  predicate Sorted(s: seq<real>)
  {
    forall i, j :: 0 <= i < j < |s| ==> s[i] <= s[j]
  }

  /** The values of s all lie in [lo, hi]. */
  predicate Within(s: seq<real>, lo: real, hi: real)
  {
    forall k :: 0 <= k < |s| ==> lo <= s[k] <= hi
  }

  /** Appending a value no smaller than the last one, inside the bounds, keeps a sequence sorted and in bounds. */
  lemma RecordStep(s: seq<real>, v: real, lo: real, hi: real)
    requires 1 <= |s| && Sorted(s) && Within(s, lo, hi)
    requires s[|s| - 1] <= v && lo <= v <= hi
    ensures Sorted(s + [v]) && Within(s + [v], lo, hi)
  {
    var s' := s + [v];
    forall a, b | 0 <= a < b < |s'| ensures s'[a] <= s'[b]
    {
      if b == |s| {
        assert s'[a] <= s[|s| - 1];
      }
    }
  }

  /** The shape of the walk after micro-interval i. */
  predicate WalkShape(r: Resampling, w: Walk, i: nat)
  {
    1 <= |w.steps| && w.steps[0] == r.lower && Sorted(w.steps) && Within(w.steps, r.lower, r.upper)
    && (w.exited ==> w.steps[|w.steps| - 1] == r.upper && |w.steps| <= i + 2)
    && (!w.exited ==> w.steps[|w.steps| - 1] <= Point(r.lower, MicroStep(r), i) && |w.steps| <= i + 1)
  }

  /** Recording v, no earlier than the last step and no later than t_i, keeps the walk's shape for micro-interval i. */
  lemma RecordShape(r: Resampling, w: Walk, i: nat, v: real, target: real, sum: real)
    requires r.lower < r.upper && 1 <= i <= NumIntervals
    requires WalkShape(r, w, i - 1) && !w.exited
    requires w.steps[|w.steps| - 1] <= v && r.lower <= v <= Point(r.lower, MicroStep(r), i)
    ensures WalkShape(r, Walk(w.steps + [v], target, sum, false), i)
  {
    StepInside(r.lower, r.upper, i, NumIntervals);
    RecordStep(w.steps, v, r.lower, r.upper);
  }

  /** Whichever end of micro-interval i is recorded lies between the last step and t_i. */
  lemma CrossedEnd(r: Resampling, w: Walk, i: nat, v: real)
    requires r.lower < r.upper && 1 <= i <= NumIntervals
    requires WalkShape(r, w, i - 1) && !w.exited
    requires v == Point(r.lower, MicroStep(r), i) || v == Point(r.lower, MicroStep(r), i) - MicroStep(r)
    ensures w.steps[|w.steps| - 1] <= v && r.lower <= v <= Point(r.lower, MicroStep(r), i)
  {
    var h := MicroStep(r);
    PointMono(r.lower, h, 0, i - 1);
    PointNext(r.lower, h, i - 1);
  }

  lemma CrossShape(r: Resampling, w: Walk, i: nat, newSum: real)
    requires r.lower < r.upper && 1 <= i <= NumIntervals
    requires WalkShape(r, w, i - 1) && !w.exited
    ensures WalkShape(r, Cross(r, w, Point(r.lower, MicroStep(r), i), newSum), i)
  {
    var h := MicroStep(r);
    var t := Point(r.lower, h, i);
    if r.adjustment.Some? && newSum > w.target {
      var v := if newSum - w.target < w.target - w.sum then t else t - h;
      CrossedEnd(r, w, i, v);
      RecordShape(r, w, i, v, w.target + r.stride, newSum);
      assert Cross(r, w, t, newSum) == Walk(w.steps + [v], w.target + r.stride, newSum, false);
    } else {
      PointMono(r.lower, h, i - 1, i);
      assert Cross(r, w, t, newSum) == Walk(w.steps, w.target, newSum, false);
    }
  }

  /** Ending the walk at micro-interval i: upper is appended to a walk still within the interval. */
  lemma ExitShape(r: Resampling, c: Walk, i: nat)
    requires r.lower < r.upper && 1 <= i <= NumIntervals
    requires WalkShape(r, c, i) && !c.exited
    ensures WalkShape(r, Walk(c.steps + [r.upper], c.target, c.sum, true), i)
  {
    StepInside(r.lower, r.upper, i, NumIntervals);
    RecordStep(c.steps, r.upper, r.lower, r.upper);
  }

  lemma AdvanceShape(r: Resampling, w: Walk, i: nat)
    requires r.lower < r.upper && 1 <= i <= NumIntervals
    requires WalkShape(r, w, i - 1) && !w.exited
    ensures WalkShape(r, Advance(r, w, i), i)
  {
    var h := MicroStep(r);
    var t := Point(r.lower, h, i);
    var newSum := w.sum + Simpson(r.speed, t, h);
    var c := Cross(r, w, t, newSum);
    CrossShape(r, w, i, newSum);
    if r.adjustment.Some? && Abs(r.total - c.target) < Epsilon {
      ExitShape(r, c, i);
      assert Advance(r, w, i) == Walk(c.steps + [r.upper], c.target, c.sum, true);
    } else {
      assert Advance(r, w, i) == c;
    }
  }

  lemma {:induction false} WalkToShape(r: Resampling, i: nat)
    requires r.lower < r.upper && i <= NumIntervals
    ensures WalkShape(r, WalkTo(r, i), i)
  {
    if i > 0 {
      WalkToShape(r, i - 1);
      if !WalkTo(r, i - 1).exited {
        AdvanceShape(r, WalkTo(r, i - 1), i);
      }
    }
  }

  /** Once the walk has ended it stays as it was. */
  lemma {:induction false} WalkStays(r: Resampling, i: nat, j: nat)
    requires i <= j && WalkTo(r, i).exited
    ensures WalkTo(r, j) == WalkTo(r, i)
  {
    if i < j {
      WalkStays(r, i, j - 1);
    }
  }

  /**
   * The resampled steps start at lower and end at upper, never decrease, stay
   * in [lower, upper], are at least two and at most one per micro-interval
   * plus the two ends; the early exit reports a whole last step.
   */
  lemma ResampleShape(r: Resampling)
    requires r.lower < r.upper
    ensures var (steps, fraction) := Resample(r);
      2 <= |steps| <= NumIntervals + 2 && steps[0] == r.lower && steps[|steps| - 1] == r.upper
      && Sorted(steps) && Within(steps, r.lower, r.upper)
      && (WalkTo(r, NumIntervals).exited ==> fraction == Some(1.0))
  {
    WalkToShape(r, NumIntervals);
    var w := WalkTo(r, NumIntervals);
    if !w.exited {
      PointMono(r.lower, MicroStep(r), 0, NumIntervals);
      WholeInterval(r.lower, r.upper, NumIntervals);
      RecordStep(w.steps, r.upper, r.lower, r.upper);
    }
  }

  /** The inputs of the resampling pass, as the source computes them from the curve's fields. */
  function Plan(speed: real -> real, round: real -> real, lower: real, upper: real, stepLength: real, roundLength: int): Resampling
    requires lower <= upper
  {
    var total := ArcLengthOf(speed, lower, upper, NumIntervals);
    var adjustment := LengthAdjustment(total, roundLength, round);
    Resampling(speed, lower, upper, total, stepLength, adjustment, Stride(stepLength, adjustment))
  }

  /** Resuming the walk where WalkTo leaves it gives the resampled result. */
  lemma {:induction false} ResumeIsResample(r: Resampling, i: nat)
    requires i <= NumIntervals && !WalkTo(r, i).exited
    ensures ResumeFrom(r, i, WalkTo(r, i)) == Resample(r)
    decreases NumIntervals - i
  {
    if i < NumIntervals {
      var w' := Advance(r, WalkTo(r, i), i + 1);
      assert WalkTo(r, i + 1) == w';
      if w'.exited {
        WalkStays(r, i + 1, NumIntervals);
      } else {
        ResumeIsResample(r, i + 1);
      }
    }
  }

  /**
   * The body of the source's loop: Simpson's rule on micro-interval i, the
   * comparison with the target and the test for the early exit. Proved
   * against Advance.
   */
  method MicroInterval(r: Resampling, ghost i: nat, stepSize: real, t: real, prev: real,
                       stepList: seq<real>, target: real, sum: real)
    returns (stepList': seq<real>, target': real, newSum: real, curr: real, exits: bool)
    requires 1 <= i && stepSize == MicroStep(r)
    requires t == Point(r.lower, stepSize, i) && prev == r.speed(Point(r.lower, stepSize, i - 1))
    ensures curr == r.speed(t)
    ensures exits ==> Advance(r, Walk(stepList, target, sum, false), i) == Walk(stepList' + [r.upper], target', newSum, true)
    ensures !exits ==> Advance(r, Walk(stepList, target, sum, false), i) == Walk(stepList', target', newSum, false)
  {
    PointNext(r.lower, stepSize, i - 1);
    var piece;
    piece, curr := SimpsonPiece(r.speed, t, stepSize, prev);
    newSum := sum + piece;
    stepList', target' := stepList, target;
    if r.adjustment.Some? && newSum > target {
      if newSum - target < target - sum {
        stepList' := stepList + [t];
      } else {
        stepList' := stepList + [t - stepSize];
      }
      target' := target + r.stride;
    }
    exits := r.adjustment.Some? && Abs(r.total - target') < Epsilon;
  }

  /**
   * The source's resampling: the total arc length, the adjustment that makes
   * it a whole number of roundLength units, then the walk. Proved against
   * Resample, whose shape ResampleShape states.
   */
  method TSteps(speed: real -> real, round: real -> real, lower: real, upper: real, stepLength: real, roundLength: int)
    returns (stepList: seq<real>, fraction: Option<real>)
    requires lower < upper
    ensures (stepList, fraction) == Resample(Plan(speed, round, lower, upper, stepLength, roundLength))
    ensures 2 <= |stepList| && stepList[0] == lower && stepList[|stepList| - 1] == upper && Sorted(stepList)
  {
    var totalArcLength := ArcLength(speed, lower, upper);
    var lengthAdjustment := LengthAdjustment(totalArcLength, roundLength, round);
    var r := Resampling(speed, lower, upper, totalArcLength, stepLength, lengthAdjustment, Stride(stepLength, lengthAdjustment));
    assert r == Plan(speed, round, lower, upper, stepLength, roundLength);
    stepList, fraction := WalkIntervals(r);
    ResampleShape(r);
  }

  /**
   * The source's loop over the micro-intervals, with its early return; the
   * stride is the source's stepLength * lengthAdjustment.
   */
  method WalkIntervals(r: Resampling) returns (stepList: seq<real>, fraction: Option<real>)
    requires r.lower < r.upper
    ensures stepList == Resample(r).0 && fraction == Resample(r).1
  {
    var stepSize := (r.upper - r.lower) / (NumIntervals as real);
    stepList := [r.lower];
    var prev := r.speed(r.lower);
    var target := r.stride;
    var sum := 0.0;
    var t := r.lower + stepSize;
    ghost var i: nat := 0;
    ResumeIsResample(r, 0);
    while t <= r.upper
      invariant Resumable(r, i, t, prev, Walk(stepList, target, sum, false))
      decreases NumIntervals - i
    {
      var exits;
      stepList, target, sum, t, prev, exits := LoopBody(r, i, stepSize, t, prev, stepList, target, sum);
      if exits {
        return stepList, Some(1.0);
      }
      i := i + 1;
    }
    stepList, fraction := FinishWalk(r, i, t, prev, stepList, target, sum);
  }

  /**
   * The loop's state after micro-interval i: t ends micro-interval i + 1,
   * prev is the speed where it starts, and resuming the walk from w gives
   * the resampled result.
   */
  ghost predicate Resumable(r: Resampling, i: nat, t: real, prev: real, w: Walk)
  {
    i <= NumIntervals && t == Point(r.lower, MicroStep(r), i + 1) && prev == r.speed(Point(r.lower, MicroStep(r), i))
    && ResumeFrom(r, i, w) == Resample(r)
  }

  /**
   * One pass of the loop: micro-interval i + 1 and the move to the next one.
   * On the early exit the recorded steps, with upper, are the resampled ones.
   */
  method LoopBody(r: Resampling, ghost i: nat, stepSize: real, t: real, prev: real,
                  stepList: seq<real>, target: real, sum: real)
    returns (stepList': seq<real>, target': real, sum': real, t': real, prev': real, exits: bool)
    requires r.lower < r.upper && stepSize == MicroStep(r) && t <= r.upper
    requires Resumable(r, i, t, prev, Walk(stepList, target, sum, false))
    ensures i < NumIntervals
    ensures exits ==> stepList' == Resample(r).0 && Resample(r).1 == Some(1.0)
    ensures !exits ==> Resumable(r, i + 1, t', prev', Walk(stepList', target', sum', false))
  {
    StepInside(r.lower, r.upper, i + 1, NumIntervals);
    stepList', target', sum', prev', exits := MicroInterval(r, i + 1, stepSize, t, prev, stepList, target, sum);
    if exits {
      stepList' := stepList' + [r.upper];
    }
    PointNext(r.lower, stepSize, i + 1);
    t' := t + stepSize;
  }

  /** After the last micro-interval: append upper and report the fraction of the last step. */
  method FinishWalk(r: Resampling, ghost i: nat, t: real, prev: real, stepList: seq<real>, target: real, sum: real)
    returns (stepList': seq<real>, fraction: Option<real>)
    requires r.lower < r.upper && r.upper < t
    requires Resumable(r, i, t, prev, Walk(stepList, target, sum, false))
    ensures stepList' == Resample(r).0 && fraction == Resample(r).1
  {
    StepInside(r.lower, r.upper, i + 1, NumIntervals);
    stepList' := stepList + [r.upper];
    if r.adjustment.None? || r.stepLength == 0.0 {
      fraction := None;
    } else {
      fraction := Some(LastFraction(sum, target, r.stepLength, r.adjustment.value));
    }
  }

  // ---------------------------------------------------------------------------
  // Width sampling
  // ---------------------------------------------------------------------------

  /** A multiple of a positive step below a bound is at most the bound's floor quotient. */
  /** A bound on the number of width steps below bound, for the loop's termination. */
  ghost function WidthCount(bound: real, step: real): nat
    requires step > 0.0
  {
    var f := (bound / step).Floor;
    if bound <= 0.0 || f < 0 then 0 else f + 1
  }

  /**
   * The loop's final state: k running widths 0, step, ... below the bound,
   * then width. Each running width is k times the step.
   */
  lemma WidthsDone(s: seq<real>, step: real, width: real, k: nat)
    requires |s| == k + 1 && s[k] == width && Point(0.0, step, k) >= width - Epsilon
    requires forall m :: 0 <= m < k ==> s[m] == Point(0.0, step, m) && s[m] < width - Epsilon
    ensures WidthSamples(s, width, step)
  {
    forall m | 0 <= m < k ensures s[m] == (m as real) * step
    {
      PointLinear(0.0, step, m);
    }
    PointLinear(0.0, step, k);
  }

  /** A running width still below bound leaves room for one more step under WidthCount. */
  lemma BelowCount(k: nat, step: real, bound: real)
    requires step > 0.0 && Point(0.0, step, k) < bound
    ensures k < WidthCount(bound, step)
  {
    PointLinear(0.0, step, k);
    assert (k as real) * step >= 0.0;
    assert (k as real) < bound / step;
  }

  /**
   * The width samples: 0, step, 2 step, ... while below width - Epsilon,
   * then width itself as the last one.
   */
  predicate WidthSamples(s: seq<real>, width: real, step: real)
  {
    |s| >= 1 && s[|s| - 1] == width
    && (forall k :: 0 <= k < |s| - 1 ==> s[k] == (k as real) * step && s[k] < width - Epsilon)
    && ((|s| - 1) as real) * step >= width - Epsilon
  }

  /** At most one sequence meets WidthSamples: the widths below width - Epsilon and then width. */
  lemma WidthSamplesUnique(s: seq<real>, s': seq<real>, width: real, step: real)
    requires WidthSamples(s, width, step) && WidthSamples(s', width, step)
    ensures s == s'
  {
    WidthBelow(s', width, step, |s| - 1);
    WidthBelow(s, width, step, |s'| - 1);
  }

  /** m steps stay below width - Epsilon when a sample other than the last is m steps. */
  lemma WidthBelow(s: seq<real>, width: real, step: real, m: nat)
    requires WidthSamples(s, width, step)
    ensures m < |s| - 1 ==> (m as real) * step < width - Epsilon
  {
    if m < |s| - 1 {
      assert s[m] == (m as real) * step;
    }
  }

  /** The source's width loop, which WidthSamples specifies. */
  method WidthSteps(width: real, widthStep: real) returns (widthStepList: seq<real>)
    requires widthStep > 0.0 || width - Epsilon <= 0.0
    ensures WidthSamples(widthStepList, width, widthStep)
  {
    widthStepList := [];
    var currWidth := 0.0;
    var done := false;
    ghost var k: nat := 0;
    ghost var n: nat := if width - Epsilon <= 0.0 then 0 else WidthCount(width - Epsilon, widthStep);
    while !done
      invariant currWidth == Point(0.0, widthStep, k) && k <= n
      invariant !done ==> |widthStepList| == k
      invariant done ==> |widthStepList| == k + 1 && widthStepList[k] == width && currWidth >= width - Epsilon
      invariant forall m :: 0 <= m < k ==> widthStepList[m] == Point(0.0, widthStep, m) && widthStepList[m] < width - Epsilon
      decreases (if done then 0 else 1) + n - k
    {
      if currWidth >= width - Epsilon {
        widthStepList := widthStepList + [width];
        done := true;
      } else {
        BelowCount(k, widthStep, width - Epsilon);
        widthStepList := widthStepList + [currWidth];
        currWidth := currWidth + widthStep;
        k := k + 1;
      }
    }
    WidthsDone(widthStepList, widthStep, width, k);
  }
}
