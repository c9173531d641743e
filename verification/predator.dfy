/** A stimulus: one movement vector, one scaling vector and a colour.

    Each operation returns the updated predator. The diameter query is the
    one read that also writes: once the target diameter is reached it
    restarts growth at the wall-clock time, which is an input here. */
module Predators {
  import Movement
  import Scaling
  import WallClock

  datatype Predator = Predator(
    color: string,
    movementVector: Movement.MovementVector,
    scalingVector: Scaling.ScalingVector)

  /** What a diameter query leaves behind: the predator after the query
      and the diameter it reported. */
  datatype DiameterQuery = DiameterQuery(predator: Predator, diameter: real)

  /** The predator's growth is stopped: rate and target are both zero. */
  predicate Stopped(p: Predator)
  {
    p.scalingVector.velocity == 0.0 && p.scalingVector.targetDiameter == 0.0
  }

  /** Restarts the movement clock at `epoch`; nothing else changes. */
  function StartMovement(p: Predator, epoch: real): (r: Predator)
    ensures r.movementVector.clock.startingEpoch == epoch
    ensures r.movementVector.startingPosition == p.movementVector.startingPosition
    ensures r.movementVector.angle == p.movementVector.angle
    ensures r.movementVector.magnitude == p.movementVector.magnitude
    ensures r.scalingVector == p.scalingVector && r.color == p.color
  {
    p.(movementVector := Movement.Start(p.movementVector, epoch))
  }

  /** Restarts the growth clock at `epoch`; nothing else changes. */
  function StartScaling(p: Predator, epoch: real): (r: Predator)
    ensures r.scalingVector.clock.startingEpoch == epoch
    ensures r.scalingVector.targetDiameter == p.scalingVector.targetDiameter
    ensures r.scalingVector.velocity == p.scalingVector.velocity
    ensures r.movementVector == p.movementVector && r.color == p.color
  {
    p.(scalingVector := Scaling.Start(p.scalingVector, epoch))
  }

  /** Restarts both clocks at `epoch`; positions, angle, speed, target,
      rate and colour are kept. */
  function StartBoth(p: Predator, epoch: real): (r: Predator)
    ensures r.movementVector.clock.startingEpoch == epoch
    ensures r.scalingVector.clock.startingEpoch == epoch
    ensures r.movementVector.startingPosition == p.movementVector.startingPosition
    ensures r.movementVector.angle == p.movementVector.angle
    ensures r.movementVector.magnitude == p.movementVector.magnitude
    ensures r.scalingVector.targetDiameter == p.scalingVector.targetDiameter
    ensures r.scalingVector.velocity == p.scalingVector.velocity
    ensures r.color == p.color
  {
    StartScaling(StartMovement(p, epoch), epoch)
  }

  /** Manually restarts growth at `epoch`, whatever the current diameter:
      at `epoch` nothing has grown yet. It is the same transition as a
      scaling start. */
  function ResetScaling(p: Predator, epoch: real): (r: Predator)
    ensures r.scalingVector.clock.startingEpoch == epoch
    ensures Scaling.Growth(r.scalingVector, epoch) == 0.0
    ensures r.scalingVector.targetDiameter == p.scalingVector.targetDiameter
    ensures r.scalingVector.velocity == p.scalingVector.velocity
    ensures r.movementVector == p.movementVector && r.color == p.color
  {
    StartScaling(p, epoch)
  }

  /** Where the movement vector starts; restarting its clock does not
      move it. */
  function StartingPosition(p: Predator): (pos: Movement.Point)
    ensures pos == p.movementVector.startingPosition
  {
    p.movementVector.startingPosition
  }

  /** Replaces the growth rate; nothing else changes. */
  function SetScalingVelocity(p: Predator, value: real): (r: Predator)
    ensures r.scalingVector.velocity == value
    ensures r.scalingVector.clock == p.scalingVector.clock
    ensures r.scalingVector.targetDiameter == p.scalingVector.targetDiameter
    ensures r.movementVector == p.movementVector && r.color == p.color
  {
    p.(scalingVector := p.scalingVector.(velocity := value))
  }

  /** Replaces the target diameter; nothing else changes. */
  function SetTargetDiameter(p: Predator, value: real): (r: Predator)
    ensures r.scalingVector.targetDiameter == value
    ensures r.scalingVector.clock == p.scalingVector.clock
    ensures r.scalingVector.velocity == p.scalingVector.velocity
    ensures r.movementVector == p.movementVector && r.color == p.color
  {
    p.(scalingVector := p.scalingVector.(targetDiameter := value))
  }

  /** Stops growth by zeroing rate and target. Movement, colour and the
      growth clock are untouched. */
  function Stop(p: Predator): (r: Predator)
    ensures Stopped(r)
    ensures r.scalingVector.clock == p.scalingVector.clock
    ensures r.movementVector == p.movementVector && r.color == p.color
  {
    SetTargetDiameter(SetScalingVelocity(p, 0.0), 0.0)
  }

  /** The diameter at `epoch`. When the target is already reached at
      `epoch`, growth is first restarted at the wall-clock epoch read from
      `clockSeconds`, and the diameter is then taken at `epoch` against
      that new start. Before the target, the query changes nothing. */
  function CurrentDiameter(p: Predator, epoch: real, clockSeconds: real): (q: DiameterQuery)
    ensures q.predator.color == p.color
    ensures q.predator.movementVector == p.movementVector
    ensures q.predator.scalingVector.targetDiameter == p.scalingVector.targetDiameter
    ensures q.predator.scalingVector.velocity == p.scalingVector.velocity
    ensures q.diameter <= p.scalingVector.targetDiameter
    ensures !Scaling.IsTargetDiameterReached(p.scalingVector, epoch) ==>
              q.predator == p && q.diameter == Scaling.Growth(p.scalingVector, epoch)
    ensures Scaling.IsTargetDiameterReached(p.scalingVector, epoch) ==>
              q.predator.scalingVector.clock.startingEpoch == WallClock.EpochMillis(clockSeconds) as real
              && q.diameter == Scaling.CurrentDiameter(q.predator.scalingVector, epoch)
  {
    var restarted :=
      if Scaling.IsTargetDiameterReached(p.scalingVector, epoch)
      then ResetScaling(p, WallClock.EpochMillis(clockSeconds) as real)
      else p;
    DiameterQuery(restarted, Scaling.CurrentDiameter(restarted.scalingVector, epoch))
  }

  /** One diameter query as a display loop issues it: the epoch asked
      about and what the wall clock showed at that moment. */
  datatype Tick = Tick(epoch: real, clockSeconds: real)

  /** What a run of queries leaves behind: the final predator and every
      reported diameter, in order. */
  datatype PollResult = PollResult(predator: Predator, diameters: seq<real>)

  /** Queries the diameter once per tick, each query seeing the predator
      the previous one left. One diameter is reported per tick, none above
      the target, and the queries never touch colour, movement, target or
      rate. */
  function Poll(p: Predator, ticks: seq<Tick>): (r: PollResult)
    ensures |r.diameters| == |ticks|
    ensures forall i :: 0 <= i < |r.diameters| ==> r.diameters[i] <= p.scalingVector.targetDiameter
    ensures r.predator.color == p.color
    ensures r.predator.movementVector == p.movementVector
    ensures r.predator.scalingVector.targetDiameter == p.scalingVector.targetDiameter
    ensures r.predator.scalingVector.velocity == p.scalingVector.velocity
    decreases |ticks|
  {
    if |ticks| == 0 then
      PollResult(p, [])
    else
      var q := CurrentDiameter(p, ticks[0].epoch, ticks[0].clockSeconds);
      var rest := Poll(q.predator, ticks[1..]);
      PollResult(rest.predator, [q.diameter] + rest.diameters)
  }

  /** Starting both clocks is starting one and then the other, in either
      order. */
  lemma StartBothEitherOrder(p: Predator, epoch: real)
    ensures StartBoth(p, epoch) == StartScaling(StartMovement(p, epoch), epoch)
    ensures StartBoth(p, epoch) == StartMovement(StartScaling(p, epoch), epoch)
  {
  }

  /** The starting position is where the predator is at its movement
      start, whatever the direction and speed. */
  lemma StartingPositionAtMovementStart(p: Predator, cos: real -> real, sin: real -> real)
    ensures Movement.CurrentPosition(p.movementVector, p.movementVector.clock.startingEpoch, cos, sin)
         == StartingPosition(p)
  {
    Movement.PositionAtStart(p.movementVector, cos, sin);
  }

  /** Before the target is reached, asking twice at the same epoch gives
      the same answer and the same predator, whatever the clock shows. */
  lemma QueryIdempotentBeforeTarget(p: Predator, epoch: real, clock1: real, clock2: real)
    requires !Scaling.IsTargetDiameterReached(p.scalingVector, epoch)
    ensures CurrentDiameter(CurrentDiameter(p, epoch, clock1).predator, epoch, clock2)
         == CurrentDiameter(p, epoch, clock1)
  {
  }

  /** A restart read from a clock at or after the queried epoch reports a
      diameter of at most zero when the rate is non-negative: growth starts
      over. With a positive rate and a clock strictly later than the
      queried epoch the reported diameter is negative. */
  lemma RestartReportsNoGrowth(p: Predator, epoch: real, clockSeconds: real)
    requires Scaling.IsTargetDiameterReached(p.scalingVector, epoch)
    requires p.scalingVector.velocity >= 0.0
    requires WallClock.EpochMillis(clockSeconds) as real >= epoch
    ensures CurrentDiameter(p, epoch, clockSeconds).diameter <= 0.0
    ensures p.scalingVector.velocity > 0.0 && WallClock.EpochMillis(clockSeconds) as real > epoch ==>
              CurrentDiameter(p, epoch, clockSeconds).diameter < 0.0
  {
    var q := CurrentDiameter(p, epoch, clockSeconds);
    Scaling.NoGrowthBeforeStart(q.predator.scalingVector, epoch);
  }

  /** With a non-negative target, a restart reports exactly zero when the
      rate is zero or the clock reads exactly the queried epoch. */
  lemma RestartReportsZero(p: Predator, epoch: real, clockSeconds: real)
    requires Scaling.IsTargetDiameterReached(p.scalingVector, epoch)
    requires p.scalingVector.targetDiameter >= 0.0
    requires p.scalingVector.velocity == 0.0 || WallClock.EpochMillis(clockSeconds) as real == epoch
    ensures CurrentDiameter(p, epoch, clockSeconds).diameter == 0.0
  {
    var v := CurrentDiameter(p, epoch, clockSeconds).predator.scalingVector;
    Scaling.ZeroGrowth(v, epoch);
  }

  /** After a restart with a positive rate, the target is next reached
      exactly when the time to grow to it has passed since the wall-clock
      epoch: the stimulus pulses with that period. */
  lemma RestartPulsePeriod(p: Predator, epoch: real, clockSeconds: real, later: real)
    requires Scaling.IsTargetDiameterReached(p.scalingVector, epoch)
    requires p.scalingVector.velocity > 0.0
    ensures Scaling.IsTargetDiameterReached(CurrentDiameter(p, epoch, clockSeconds).predator.scalingVector, later)
        <==> later - WallClock.EpochMillis(clockSeconds) as real
             >= 1000.0 * (p.scalingVector.targetDiameter / p.scalingVector.velocity)
  {
    var restarted := CurrentDiameter(p, epoch, clockSeconds).predator.scalingVector;
    Scaling.ReachedAfterGrowthTime(restarted, later);
  }

  /** A stopped predator reports a diameter of zero at every epoch and
      stays stopped, with its movement and colour intact. */
  lemma StoppedReportsZero(p: Predator, epoch: real, clockSeconds: real)
    ensures CurrentDiameter(Stop(p), epoch, clockSeconds).diameter == 0.0
    ensures Stopped(CurrentDiameter(Stop(p), epoch, clockSeconds).predator)
    ensures CurrentDiameter(Stop(p), epoch, clockSeconds).predator.movementVector == p.movementVector
    ensures CurrentDiameter(Stop(p), epoch, clockSeconds).predator.color == p.color
  {
  }

  /** However often a stopped predator is polled, every reported
      diameter is zero and it stays stopped. */
  lemma {:induction false} StoppedPollsZero(p: Predator, ticks: seq<Tick>)
    requires Stopped(p)
    ensures Stopped(Poll(p, ticks).predator)
    ensures forall i :: 0 <= i < |ticks| ==> Poll(p, ticks).diameters[i] == 0.0
    decreases |ticks|
  {
    if |ticks| > 0 {
      assert Stop(p) == p;
      StoppedReportsZero(p, ticks[0].epoch, ticks[0].clockSeconds);
      var q := CurrentDiameter(p, ticks[0].epoch, ticks[0].clockSeconds);
      StoppedPollsZero(q.predator, ticks[1..]);
      var r := Poll(p, ticks);
      assert r.diameters == [q.diameter] + Poll(q.predator, ticks[1..]).diameters;
      forall i | 0 <= i < |ticks|
        ensures r.diameters[i] == 0.0
      {
        if i > 0 {
          assert r.diameters[i] == Poll(q.predator, ticks[1..]).diameters[i - 1];
        }
      }
    }
  }

  /** The ticks of a display loop that reads the wall clock for the very
      epoch it asks about, in non-decreasing order. */
  ghost predicate InStep(ticks: seq<Tick>)
  {
    (forall i :: 0 <= i < |ticks| ==> WallClock.EpochMillis(ticks[i].clockSeconds) as real == ticks[i].epoch)
    && (forall i, j :: 0 <= i < j < |ticks| ==> ticks[i].epoch <= ticks[j].epoch)
  }

  /** One query at an epoch no earlier than the growth start, with the
      clock reading that same epoch, reports a diameter between zero and
      the target, and leaves the growth start no later than that epoch:
      either nothing changes, or growth restarts exactly there. */
  lemma QueryInRange(p: Predator, epoch: real, clockSeconds: real)
    requires p.scalingVector.velocity >= 0.0 && p.scalingVector.targetDiameter >= 0.0
    requires p.scalingVector.clock.startingEpoch <= epoch
    requires WallClock.EpochMillis(clockSeconds) as real == epoch
    ensures 0.0 <= CurrentDiameter(p, epoch, clockSeconds).diameter <= p.scalingVector.targetDiameter
    ensures CurrentDiameter(p, epoch, clockSeconds).predator.scalingVector.clock.startingEpoch <= epoch
  {
    var q := CurrentDiameter(p, epoch, clockSeconds);
    Scaling.NoShrinkAfterStart(q.predator.scalingVector, epoch);
  }

  /** Dropping the first tick keeps a run of ticks in step. */
  lemma InStepTail(ticks: seq<Tick>)
    requires InStep(ticks) && |ticks| > 0
    ensures InStep(ticks[1..])
  {
    var rest := ticks[1..];
    forall i | 0 <= i < |rest|
      ensures WallClock.EpochMillis(rest[i].clockSeconds) as real == rest[i].epoch
    {
      assert rest[i] == ticks[i + 1];
    }
    forall i, j | 0 <= i < j < |rest|
      ensures rest[i].epoch <= rest[j].epoch
    {
      assert rest[i] == ticks[i + 1] && rest[j] == ticks[j + 1];
    }
  }

  /** A poll reports the first query's diameter first, then what polling
      the rest of the ticks from the predator it left reports. */
  lemma PollUnfold(p: Predator, ticks: seq<Tick>, i: int)
    requires 0 <= i < |ticks|
    ensures i == 0 ==> Poll(p, ticks).diameters[i]
                       == CurrentDiameter(p, ticks[0].epoch, ticks[0].clockSeconds).diameter
    ensures i > 0 ==> Poll(p, ticks).diameters[i]
                      == Poll(CurrentDiameter(p, ticks[0].epoch, ticks[0].clockSeconds).predator, ticks[1..]).diameters[i - 1]
  {
  }

  /** Polling a started predator in step with the wall clock, with a
      non-negative rate and target, only ever reports diameters between
      zero and the target: growth runs up to the target, restarts from
      zero, and grows again. */
  lemma {:induction false} PolledDiametersInRange(p: Predator, ticks: seq<Tick>)
    requires p.scalingVector.velocity >= 0.0 && p.scalingVector.targetDiameter >= 0.0
    requires InStep(ticks)
    requires |ticks| > 0 ==> p.scalingVector.clock.startingEpoch <= ticks[0].epoch
    ensures forall i :: 0 <= i < |ticks| ==>
              0.0 <= Poll(p, ticks).diameters[i] <= p.scalingVector.targetDiameter
    decreases |ticks|
  {
    if |ticks| > 0 {
      var t := ticks[0];
      QueryInRange(p, t.epoch, t.clockSeconds);
      var q := CurrentDiameter(p, t.epoch, t.clockSeconds);
      InStepTail(ticks);
      if |ticks| > 1 {
        assert ticks[1..][0] == ticks[1];
        assert t.epoch <= ticks[1].epoch;
      }
      PolledDiametersInRange(q.predator, ticks[1..]);
      forall i | 0 <= i < |ticks|
        ensures 0.0 <= Poll(p, ticks).diameters[i] <= p.scalingVector.targetDiameter
      {
        PollUnfold(p, ticks, i);
      }
    }
  }

  /** Stopping does not affect where the predator is at any epoch. */
  lemma StopKeepsPosition(p: Predator, epoch: real, cos: real -> real, sin: real -> real)
    ensures Movement.CurrentPosition(Stop(p).movementVector, epoch, cos, sin)
         == Movement.CurrentPosition(p.movementVector, epoch, cos, sin)
  {
  }
}
