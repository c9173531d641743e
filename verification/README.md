# Piscis stimulus kinematics in Dafny

Piscis drives predator-like visual stimuli (coloured discs that drift and
grow) for behavioural experiments. Its only non-GUI logic is the
kinematics in `piscis/model.py`, and this project models that logic:

- `TimeTracking`: a `TimeTracker` records a starting epoch in milliseconds
  and reports elapsed seconds from it.
- `Movement`: a `MovementVector` holds a starting position and a polar
  velocity (angle, speed). Its position at an epoch is the starting
  position displaced along the angle for the elapsed time.
- `Scaling`: a `ScalingVector` holds a target diameter and a growth rate.
  Its diameter is elapsed time times rate, capped at the target.
- `Predators`: a `Predator` is a colour, one movement vector and one
  scaling vector. It has start, reset, setter and stop transitions, and a
  diameter query that restarts growth at the wall-clock time once the
  target is reached, so a running stimulus pulses.
- `Factories`: a `PredatorFactory` holds a configuration and builds
  predators from it. Each predator is a separate value; see "Left out"
  for the one way Python lets a factory and its predators share state.
- `WallClock`: the integer-millisecond epoch the diameter query reads from
  the clock, using Python's `int()` truncation toward zero.

Python's mutable objects become immutable datatypes. Every mutating method
becomes a function that returns the updated value. Python floats are exact
`real`s. `cos` and `sin` are function-valued parameters, so each movement
property holds for any trigonometric functions the caller supplies. The
clock reading `time.time()` is the `clockSeconds` parameter of
`Predators.CurrentDiameter`.

Points of the code's behaviour worth knowing:

- After a restart the code still measures the diameter at the queried
  epoch, not at the wall-clock epoch it restarted from. With a
  non-negative rate and a clock at or after the queried epoch, the
  reported diameter is at most zero. If the target is also non-negative,
  it is negative exactly when the rate is positive and the clock is
  strictly later than the queried epoch
  (`Predators.RestartReportsNoGrowth`), and zero otherwise
  (`Predators.RestartReportsZero`). A negative target is accepted by
  the setters and the factory; then a restart can report a negative
  diameter even with a zero rate and a clock at the queried epoch.
- Polling keeps every diameter between zero and the target
  (`Predators.PolledDiametersInRange`) when the rate and the target are
  non-negative, growth started at or before the first tick, the ticks'
  epochs do not decrease, and each tick's clock reading equals its epoch.
- Elapsed time is computed as `epoch/1000 - start/1000`. Over the reals
  this equals `(epoch - start)/1000`, which is how `TimeTracking.Delta`
  states it.
- A predator stores no lifecycle state beyond its two vectors and colour.
  Whether it is growing or at its target is only a reading of the scaling
  vector at an epoch.

## Model

| member | source | states |
|---|---|---|
| TimeTracking.NewTracker | piscis/model.py:7-9 | a new tracker measures from epoch zero |
| TimeTracking.Start | piscis/model.py:11-12 | the start epoch is recorded exactly, and no time has elapsed at it |
| TimeTracking.Delta | piscis/model.py:14-15 | elapsed seconds times 1000 is the epoch minus the start; it is non-negative exactly from the start on, and zero exactly at the start |
| TimeTracking.DeltaLinear | piscis/model.py:14-15 | the difference between two elapsed-time readings is the epoch difference in seconds |
| TimeTracking.DeltaMonotone | piscis/model.py:14-15 | elapsed time never decreases as the epoch advances |
| TimeTracking.DeltaShift | piscis/model.py:11-15 | trackers started at different epochs differ by the gap between their starts |
| TimeTracking.DeltaScenario | test/test_model.py:19-22 | start 100000000 and read at 100001414 gives 1.414 s |
| WallClock.TruncateTowardZero | piscis/model.py:86 | Python `int()` gives the integer part of the reading, within one unit of it and rounded toward zero |
| WallClock.EpochMillis | piscis/model.py:86 | the restart epoch is within one millisecond of the clock reading, and never further from zero |
| WallClock.TruncateWhole | piscis/model.py:86 | whole millisecond readings are kept exactly |
| WallClock.TruncateOdd | piscis/model.py:86 | truncation commutes with negation |
| Movement.NewMovementVector | piscis/model.py:20-24 | position, angle and speed are kept as given, and the clock starts at zero |
| Movement.Start | piscis/model.py:11-12 | restarting the clock keeps position, angle and speed |
| Movement.ChangeForAxis | piscis/model.py:33-35 | the axis displacement is zero exactly when the projection, the speed or the elapsed time is zero |
| Movement.CurrentPosition | piscis/model.py:26-31 | each coordinate's offset from the start, times 1000, is the projected speed times the elapsed milliseconds |
| Movement.PositionAtStart | piscis/model.py:26-31 | at its starting epoch the vector is exactly at its starting position |
| Movement.RestartReturnsToStart | piscis/model.py:26-31 | after a restart at an epoch, the position at that epoch is the starting position |
| Movement.DisplacementBetweenEpochs | piscis/model.py:26-35 | between two epochs the vector moves by velocity times the elapsed seconds, whenever it was started |
| Movement.StationaryWithoutSpeed | piscis/model.py:33-35 | with speed zero the position never changes |
| Scaling.NewScalingVector | piscis/model.py:39-42 | target and rate are kept as given, and the clock starts at zero |
| Scaling.Start | piscis/model.py:11-12 | restarting the clock keeps target and rate |
| Scaling.CurrentDiameter | piscis/model.py:44-45 | the diameter is the smaller of the target and the uncapped growth, so it never exceeds the target |
| Scaling.IsTargetDiameterReached | piscis/model.py:47-48 | the target is reached exactly when the uncapped growth reaches it, and then the diameter equals the target |
| Scaling.DiameterBeforeTarget | piscis/model.py:44-48 | before the target, the diameter is the uncapped growth and is below the target |
| Scaling.DiameterAtStart | piscis/model.py:44-45 | at the start the diameter is zero, or the target if the target is negative |
| Scaling.NoGrowthBeforeStart | piscis/model.py:44-45 | with a non-negative rate, nothing has grown at or before the start, and with a positive rate the growth is negative strictly before it |
| Scaling.NoShrinkAfterStart | piscis/model.py:44-45 | with non-negative rate and target, the diameter from the start on lies between zero and the target |
| Scaling.ZeroGrowth | piscis/model.py:44-45 | with no rate, or at the starting epoch, nothing has grown whatever the target, and the diameter is zero when the target is non-negative |
| Scaling.DiameterMonotone | piscis/model.py:44-45 | with a non-negative rate the diameter never shrinks over time |
| Scaling.ReachedAfterGrowthTime | piscis/model.py:44-48 | with a positive rate, the target is reached exactly once target/rate seconds have passed since the start |
| Scaling.StoppedReadsZero | piscis/model.py:44-48 | with rate and target zero, every reading is zero and the target counts as reached |
| Scaling.ScenarioVector | test/test_model.py:56-57 | the test's vector is target 500 and rate 1000, started at zero |
| Scaling.ScenarioDiameterAt100 | test/test_model.py:55-59 | that vector has diameter 100 at 100 ms |
| Scaling.ScenarioNotReachedAt100 | test/test_model.py:61-65 | that vector has not reached its target at 100 ms |
| Scaling.ScenarioReachedAt600 | test/test_model.py:61-65 | that vector has reached its target at 600 ms |
| Predators.StartMovement | piscis/model.py:71-72 | only the movement clock changes, to the given epoch |
| Predators.StartScaling | piscis/model.py:74-75 | only the growth clock changes, to the given epoch |
| Predators.StartBoth | piscis/model.py:77-79 | both clocks move to the given epoch; all settings and the colour are kept |
| Predators.ResetScaling | piscis/model.py:81-82 | the growth clock moves to the given epoch, whatever the current diameter, so nothing has grown at it; target, rate, movement and colour are kept |
| Predators.StartingPosition | piscis/model.py:89-90 | the reported position is the movement vector's starting position |
| Predators.SetScalingVelocity | piscis/model.py:92-93 | only the growth rate changes |
| Predators.SetTargetDiameter | piscis/model.py:95-96 | only the target diameter changes |
| Predators.Stop | piscis/model.py:98-100 | the predator is stopped (rate and target zero); movement, colour and growth clock are kept |
| Predators.CurrentDiameter | piscis/model.py:84-87 | colour, movement, target and rate are kept, and the reported diameter never exceeds the target; before the target the query changes nothing and reports the uncapped growth; at the target the growth clock moves to the wall-clock epoch and the diameter is taken against it |
| Predators.Poll | piscis/model.py:84-87 | repeated queries, each on the predator the last one left, report one diameter per query, none above the target, and never change colour, movement, target or rate |
| Predators.QueryInRange | piscis/model.py:84-87 | with non-negative rate and target, one query at or after the growth start, with the clock reading that epoch, reports between zero and the target and leaves the growth start no later than that epoch |
| Predators.PolledDiametersInRange | piscis/model.py:84-87 | polling a started predator in step with the clock, with non-negative rate and target, reports every diameter between zero and the target |
| Predators.StoppedPollsZero | piscis/model.py:98-100 | however often a stopped predator is queried, every diameter is zero and it stays stopped |
| Predators.StartBothEitherOrder | piscis/model.py:77-79 | starting both clocks is starting movement and scaling, in either order |
| Predators.StartingPositionAtMovementStart | piscis/model.py:89-90 | the reported starting position is where the predator is at its movement start |
| Predators.QueryIdempotentBeforeTarget | piscis/model.py:84-87 | before the target, asking twice at the same epoch gives the same answer and predator |
| Predators.RestartReportsNoGrowth | piscis/model.py:84-87 | with a non-negative rate, a restart from a clock at or after the queried epoch reports at most zero; with a positive rate and a strictly later clock, less than zero |
| Predators.RestartReportsZero | piscis/model.py:84-87 | with a non-negative target, a restart reports exactly zero when the rate is zero or the clock reads the queried epoch |
| Predators.RestartPulsePeriod | piscis/model.py:84-87 | with a positive rate, after a restart the target is next reached exactly target/rate seconds after the wall-clock epoch |
| Predators.StoppedReportsZero | piscis/model.py:98-100 | a stopped predator reports zero at every epoch and stays stopped, with movement and colour intact |
| Predators.StopKeepsPosition | piscis/model.py:98-100 | stopping never changes the predator's position at any epoch |
| Factories.DefaultFactory | piscis/model.py:52-57 | a new factory has velocity (0, 0), position (0, 0), rate 0, target 0 and colour #FFFFFF |
| Factories.Create | piscis/model.py:59-62 | every setting and the colour are copied into the predator, and both clocks start at zero |
| Factories.CreateKeepsConfiguration | piscis/model.py:59-62 | the configuration can be read back exactly from the built predator |
| Factories.CreateInjective | piscis/model.py:59-62 | two factories build the same predator exactly when their configurations are equal |
| Factories.LaterChangesOnlyAffectNewPredators | test/test_model.py:102-104 | a later target change reaches the next predator but not an earlier one, and the next predator keeps colour and movement |
| Factories.DefaultPredatorIsStopped | piscis/model.py:52-57 | the default predator is white, at the origin, stopped, and reports zero diameter at every epoch |
| Factories.CreatedAtStartingPosition | piscis/model.py:59-62 | a new predator is at the configured starting position at epoch zero |

## Left out

- `piscis/ui/window.py` and `piscis/__main__.py` are not part of this model. They build the windows, draw on the canvas and run the GUI event loop, and they never call the kinematics.
- The constant `DEGREES_45` and concrete values of `cos`, `sin` and `pi`: the trigonometric functions are parameters, so the test of a 45-degree drift from (5, 5) to about (10, 10) is not restated.
- Floating-point rounding: values are exact reals, so the tests' tolerance of 0.5 has no counterpart.
- Python's `float()` on `None` or a non-numeric value (TypeError or ValueError), and `float()` accepting numeric strings in `start` and `get_delta`: inputs are reals by type, so neither can arise.
- Shared positions: `create()` hands the factory's starting position to the new movement vector by reference. Positions are tuples, so this cannot be observed; a caller that stored a mutable list there and changed it in place would move every predator already built. The model copies positions by value.
- Object aliasing: one test gives a predator the same tracker as both vectors. Predators here own two separate values, so shared mutation is not modelled.
- The two scaling tests call `start(0)` on a different vector than the one they query. Both vectors start at zero anyway, so the scenario lemmas use a vector started at zero.
