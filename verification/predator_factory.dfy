/** The builder that holds a stimulus configuration and produces
    predators from it. Its fields are set directly by the caller; in the
    model that is a datatype update, and positions are copied by value. */
module Factories {
  import Movement
  import Scaling
  import Predators

  datatype PredatorFactory = PredatorFactory(
    movementVelocity: Movement.PolarVelocity,
    startingPosition: Movement.Point,
    scalingVelocity: real,
    targetDiameter: real,
    color: string)

  /** A factory as constructed: at the origin, motionless, not growing,
      white. */
  function DefaultFactory(): (f: PredatorFactory)
    ensures f.movementVelocity.angle == 0.0 && f.movementVelocity.magnitude == 0.0
    ensures f.startingPosition == Movement.Point(0.0, 0.0)
    ensures f.scalingVelocity == 0.0
    ensures f.targetDiameter == 0.0
    ensures f.color == "#FFFFFF"
  {
    PredatorFactory(
      Movement.PolarVelocity(0.0, 0.0),
      Movement.Point(0.0, 0.0),
      0.0,
      0.0,
      "#FFFFFF")
  }

  /** A predator built from the current configuration: every setting is
      copied, and both clocks start at epoch zero. */
  function Create(f: PredatorFactory): (p: Predators.Predator)
    ensures p.movementVector.startingPosition == f.startingPosition
    ensures p.movementVector.angle == f.movementVelocity.angle
    ensures p.movementVector.magnitude == f.movementVelocity.magnitude
    ensures p.scalingVector.targetDiameter == f.targetDiameter
    ensures p.scalingVector.velocity == f.scalingVelocity
    ensures p.color == f.color
    ensures p.movementVector.clock.startingEpoch == 0.0
    ensures p.scalingVector.clock.startingEpoch == 0.0
  {
    var mv := Movement.NewMovementVector(f.startingPosition, f.movementVelocity);
    var sv := Scaling.NewScalingVector(f.targetDiameter, f.scalingVelocity);
    Predators.Predator(f.color, mv, sv)
  }

  /** The configuration a predator was built from, read back from it. */
  function Configuration(p: Predators.Predator): PredatorFactory
  {
    PredatorFactory(
      Movement.PolarVelocity(p.movementVector.angle, p.movementVector.magnitude),
      p.movementVector.startingPosition,
      p.scalingVector.velocity,
      p.scalingVector.targetDiameter,
      p.color)
  }

  /** Nothing of the configuration is lost in a predator: it can be read
      back exactly. */
  lemma CreateKeepsConfiguration(f: PredatorFactory)
    ensures Configuration(Create(f)) == f
  {
  }

  /** Two factories build the same predator exactly when they hold the
      same configuration. */
  lemma CreateInjective(f1: PredatorFactory, f2: PredatorFactory)
    ensures Create(f1) == Create(f2) <==> f1 == f2
  {
    if Create(f1) == Create(f2) {
      CreateKeepsConfiguration(f1);
      CreateKeepsConfiguration(f2);
    }
  }

  /** Changing a factory setting after a predator was built leaves that
      predator as it was, and the next predator carries the new setting. */
  lemma LaterChangesOnlyAffectNewPredators(f: PredatorFactory, target: real)
    ensures Create(f).scalingVector.targetDiameter == f.targetDiameter
    ensures Create(f.(targetDiameter := target)).scalingVector.targetDiameter == target
    ensures Create(f.(targetDiameter := target)).color == Create(f).color
    ensures Create(f.(targetDiameter := target)).movementVector == Create(f).movementVector
  {
  }

  /** The default factory builds a white predator at the origin, with
      target and rate zero, that is already stopped and so reports a
      diameter of zero at every epoch. */
  lemma DefaultPredatorIsStopped(epoch: real, clockSeconds: real)
    ensures Create(DefaultFactory()).color == "#FFFFFF"
    ensures Create(DefaultFactory()).movementVector.startingPosition == Movement.Point(0.0, 0.0)
    ensures Predators.Stopped(Create(DefaultFactory()))
    ensures Predators.CurrentDiameter(Create(DefaultFactory()), epoch, clockSeconds).diameter == 0.0
  {
    var p := Create(DefaultFactory());
    assert Predators.Stop(p) == p;
    Predators.StoppedReportsZero(p, epoch, clockSeconds);
  }

  /** A freshly built predator is at the configured starting position at
      epoch zero, whatever the direction and speed. */
  lemma CreatedAtStartingPosition(f: PredatorFactory, cos: real -> real, sin: real -> real)
    ensures Movement.CurrentPosition(Create(f).movementVector, 0.0, cos, sin) == f.startingPosition
  {
    Movement.PositionAtStart(Create(f).movementVector, cos, sin);
  }
}
