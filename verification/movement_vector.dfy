/** Linear drift of a stimulus along a fixed direction.

    The velocity is kept in polar form (angle in radians, speed) and turned
    into a displacement only when a position is asked for, always from the
    starting position and starting epoch, so no error accumulates between
    readings. `cos` and `sin` are parameters: every property below holds
    for whatever trigonometric functions the caller supplies. */
module Movement {
  import TimeTracking

  datatype Point = Point(x: real, y: real)

  /** A velocity in polar form. */
  datatype PolarVelocity = PolarVelocity(angle: real, magnitude: real)

  datatype MovementVector = MovementVector(
    clock: TimeTracking.TimeTracker,
    startingPosition: Point,
    angle: real,
    magnitude: real)

  /** A vector built from a starting position and a polar velocity: it keeps
      both as given and measures time from epoch zero. */
  function NewMovementVector(startingPosition: Point, velocity: PolarVelocity): (v: MovementVector)
    ensures v.startingPosition == startingPosition
    ensures v.angle == velocity.angle && v.magnitude == velocity.magnitude
    ensures v.clock.startingEpoch == 0.0
  {
    MovementVector(TimeTracking.NewTracker(), startingPosition, velocity.angle, velocity.magnitude)
  }

  /** Restarts the vector's clock at `epoch`; position, angle and speed
      are kept. */
  function Start(v: MovementVector, epoch: real): (r: MovementVector)
    ensures r.clock.startingEpoch == epoch
    ensures r.startingPosition == v.startingPosition
    ensures r.angle == v.angle && r.magnitude == v.magnitude
  {
    v.(clock := TimeTracking.Start(epoch))
  }

  /** The displacement along one axis after `delta` seconds, where `trig`
      projects the direction onto that axis. It is zero exactly when the
      projection, the speed or the elapsed time is zero. */
  function ChangeForAxis(trig: real -> real, angle: real, magnitude: real, delta: real): (c: real)
    ensures c == 0.0 <==> trig(angle) == 0.0 || magnitude == 0.0 || delta == 0.0
  {
    var perSecond := trig(angle) * magnitude;
    perSecond * delta
  }

  /** The position at `epoch`: the starting position moved along the angle
      at the vector's speed for the elapsed milliseconds. */
  function CurrentPosition(v: MovementVector, epoch: real, cos: real -> real, sin: real -> real): (p: Point)
    ensures (p.x - v.startingPosition.x) * 1000.0
         == cos(v.angle) * v.magnitude * (epoch - v.clock.startingEpoch)
    ensures (p.y - v.startingPosition.y) * 1000.0
         == sin(v.angle) * v.magnitude * (epoch - v.clock.startingEpoch)
  {
    var delta := TimeTracking.Delta(v.clock, epoch);
    var changeX := ChangeForAxis(cos, v.angle, v.magnitude, delta);
    var changeY := ChangeForAxis(sin, v.angle, v.magnitude, delta);
    Point(v.startingPosition.x + changeX, v.startingPosition.y + changeY)
  }

  /** At its starting epoch the vector is exactly at its starting position,
      whatever the direction and speed. */
  lemma PositionAtStart(v: MovementVector, cos: real -> real, sin: real -> real)
    ensures CurrentPosition(v, v.clock.startingEpoch, cos, sin) == v.startingPosition
  {
  }

  /** Restarting at `epoch` puts the vector back at its starting position
      at that epoch. */
  lemma RestartReturnsToStart(v: MovementVector, epoch: real, cos: real -> real, sin: real -> real)
    ensures CurrentPosition(Start(v, epoch), epoch, cos, sin) == v.startingPosition
  {
  }

  /** Between any two epochs the vector moves by its velocity times the
      elapsed seconds, independently of when it was started. */
  lemma DisplacementBetweenEpochs(v: MovementVector, e1: real, e2: real, cos: real -> real, sin: real -> real)
    ensures CurrentPosition(v, e2, cos, sin).x - CurrentPosition(v, e1, cos, sin).x
         == cos(v.angle) * v.magnitude * ((e2 - e1) / 1000.0)
    ensures CurrentPosition(v, e2, cos, sin).y - CurrentPosition(v, e1, cos, sin).y
         == sin(v.angle) * v.magnitude * ((e2 - e1) / 1000.0)
  {
  }

  /** A vector with zero speed stays at its starting position forever. */
  lemma StationaryWithoutSpeed(v: MovementVector, epoch: real, cos: real -> real, sin: real -> real)
    requires v.magnitude == 0.0
    ensures CurrentPosition(v, epoch, cos, sin) == v.startingPosition
  {
  }
}
