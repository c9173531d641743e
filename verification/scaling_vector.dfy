/** Growth of a stimulus's diameter toward a target.

    The diameter grows linearly with elapsed time at a fixed rate and is
    capped at the target diameter. Before the starting epoch the elapsed
    time, and with it the diameter, is negative; the model keeps that. */
module Scaling {
  import TimeTracking

  datatype ScalingVector = ScalingVector(
    clock: TimeTracking.TimeTracker,
    targetDiameter: real,
    velocity: real)

  /** A vector built from a target diameter and a growth rate: it keeps
      both as given and measures time from epoch zero. */
  function NewScalingVector(targetDiameter: real, velocity: real): (v: ScalingVector)
    ensures v.targetDiameter == targetDiameter && v.velocity == velocity
    ensures v.clock.startingEpoch == 0.0
  {
    ScalingVector(TimeTracking.NewTracker(), targetDiameter, velocity)
  }

  /** Restarts the vector's clock at `epoch`; target and rate are kept. */
  function Start(v: ScalingVector, epoch: real): (r: ScalingVector)
    ensures r.clock.startingEpoch == epoch
    ensures r.targetDiameter == v.targetDiameter && r.velocity == v.velocity
  {
    v.(clock := TimeTracking.Start(epoch))
  }

  /** The uncapped diameter: elapsed seconds times the growth rate. */
  function Growth(v: ScalingVector, epoch: real): real
  {
    TimeTracking.Delta(v.clock, epoch) * v.velocity
  }

  /** The diameter at `epoch`: the smaller of the target and the uncapped
      growth, so it never exceeds the target. */
  function CurrentDiameter(v: ScalingVector, epoch: real): (d: real)
    ensures d <= v.targetDiameter
    ensures d <= Growth(v, epoch)
    ensures d == v.targetDiameter || d == Growth(v, epoch)
  {
    var growth := TimeTracking.Delta(v.clock, epoch) * v.velocity;
    if growth < v.targetDiameter then growth else v.targetDiameter
  }

  /** Whether the diameter has reached the target at `epoch`: exactly when
      the uncapped growth has reached it. */
  function IsTargetDiameterReached(v: ScalingVector, epoch: real): (b: bool)
    ensures b <==> Growth(v, epoch) >= v.targetDiameter
    ensures b <==> CurrentDiameter(v, epoch) == v.targetDiameter
  {
    CurrentDiameter(v, epoch) >= v.targetDiameter
  }

  /** Before the target is reached the diameter is the uncapped growth,
      strictly below the target. */
  lemma DiameterBeforeTarget(v: ScalingVector, epoch: real)
    requires !IsTargetDiameterReached(v, epoch)
    ensures CurrentDiameter(v, epoch) == Growth(v, epoch) < v.targetDiameter
  {
  }

  /** At the starting epoch no growth has happened: the diameter is zero,
      or the target if that is negative. */
  lemma DiameterAtStart(v: ScalingVector)
    ensures v.targetDiameter >= 0.0 ==> CurrentDiameter(v, v.clock.startingEpoch) == 0.0
    ensures v.targetDiameter < 0.0 ==> CurrentDiameter(v, v.clock.startingEpoch) == v.targetDiameter
  {
  }

  /** With a non-negative rate nothing has grown at or before the starting
      epoch. */
  lemma NoGrowthBeforeStart(v: ScalingVector, epoch: real)
    requires v.velocity >= 0.0
    requires epoch <= v.clock.startingEpoch
    ensures CurrentDiameter(v, epoch) <= Growth(v, epoch) <= 0.0
    ensures v.velocity > 0.0 && epoch < v.clock.startingEpoch ==> Growth(v, epoch) < 0.0
  {
    var d := TimeTracking.Delta(v.clock, epoch);
    assert d <= 0.0;
    assert d * v.velocity <= 0.0;
    if v.velocity > 0.0 && epoch < v.clock.startingEpoch {
      assert d < 0.0;
      assert d * v.velocity < 0.0;
    }
  }

  /** With a non-negative rate nothing shrinks below zero from the start
      on: at or after the starting epoch the diameter is at least zero
      whenever the target is. */
  lemma NoShrinkAfterStart(v: ScalingVector, epoch: real)
    requires v.velocity >= 0.0 && v.targetDiameter >= 0.0
    requires v.clock.startingEpoch <= epoch
    ensures 0.0 <= CurrentDiameter(v, epoch) <= v.targetDiameter
  {
    var d := TimeTracking.Delta(v.clock, epoch);
    assert d >= 0.0;
    assert d * v.velocity >= 0.0;
  }

  /** Without a rate, or at the starting epoch, nothing has grown, and the
      diameter is zero whenever the target is non-negative. */
  lemma ZeroGrowth(v: ScalingVector, epoch: real)
    requires v.velocity == 0.0 || epoch == v.clock.startingEpoch
    ensures Growth(v, epoch) == 0.0
    ensures v.targetDiameter >= 0.0 ==> CurrentDiameter(v, epoch) == 0.0
  {
    if v.velocity != 0.0 {
      assert TimeTracking.Delta(v.clock, epoch) == 0.0;
    }
  }

  /** With a non-negative rate the diameter never shrinks as time passes. */
  lemma DiameterMonotone(v: ScalingVector, e1: real, e2: real)
    requires v.velocity >= 0.0
    requires e1 <= e2
    ensures CurrentDiameter(v, e1) <= CurrentDiameter(v, e2)
  {
  }

  /** With a positive rate the target is reached exactly once the time it
      takes to grow to the target, `target / rate` seconds, has elapsed
      since the start. */
  lemma ReachedAfterGrowthTime(v: ScalingVector, epoch: real)
    requires v.velocity > 0.0
    ensures IsTargetDiameterReached(v, epoch)
        <==> epoch - v.clock.startingEpoch >= 1000.0 * (v.targetDiameter / v.velocity)
  {
  }

  /** A rate of zero with a target of zero: every reading is zero, and the
      target always counts as reached. */
  lemma StoppedReadsZero(v: ScalingVector, epoch: real)
    requires v.velocity == 0.0 && v.targetDiameter == 0.0
    ensures CurrentDiameter(v, epoch) == 0.0
    ensures IsTargetDiameterReached(v, epoch)
  {
  }

  /** The vector with target 500 and rate 1000, started at epoch zero. */
  function ScenarioVector(): (v: ScalingVector)
    ensures v == Start(NewScalingVector(500.0, 1000.0), 0.0)
  {
    ScalingVector(TimeTracking.TimeTracker(0.0), 500.0, 1000.0)
  }

  /** That vector is 100 across at 100 ms ... */
  lemma ScenarioDiameterAt100()
    ensures CurrentDiameter(ScenarioVector(), 100.0) == 100.0
  {
  }

  /** ... has not reached its target at 100 ms ... */
  lemma ScenarioNotReachedAt100()
    ensures !IsTargetDiameterReached(ScenarioVector(), 100.0)
  {
  }

  /** ... and has reached it at 600 ms. */
  lemma ScenarioReachedAt600()
    ensures IsTargetDiameterReached(ScenarioVector(), 600.0)
  {
  }
}
