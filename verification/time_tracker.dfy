/** Elapsed-time bookkeeping shared by both stimulus vectors.

    Epochs are milliseconds; elapsed time is reported in seconds. Python
    floats are modelled as exact reals. */
module TimeTracking {

  /** The reference instant from which elapsed time is measured. */
  datatype TimeTracker = TimeTracker(startingEpoch: real)

  /** A freshly constructed tracker: it measures from epoch zero, so no
      time has elapsed at epoch zero. */
  function NewTracker(): (t: TimeTracker)
    ensures t.startingEpoch == 0.0
  {
    TimeTracker(0.0)
  }

  /** Restarts the tracker at `epoch`: afterwards no time has elapsed at
      `epoch`, and elapsed time is measured from there. */
  function Start(epoch: real): (t: TimeTracker)
    ensures t.startingEpoch == epoch
    ensures Delta(t, epoch) == 0.0
  {
    TimeTracker(epoch)
  }

  /** Seconds elapsed between the tracker's starting epoch and `epoch`.
      Negative before the start; never clamped. */
  function Delta(t: TimeTracker, epoch: real): (d: real)
    ensures d * 1000.0 == epoch - t.startingEpoch
    ensures d >= 0.0 <==> epoch >= t.startingEpoch
    ensures d == 0.0 <==> epoch == t.startingEpoch
  {
    epoch / 1000.0 - t.startingEpoch / 1000.0
  }

  /** Elapsed time is linear in the epoch: the difference between two
      readings is the difference of the epochs, in seconds. */
  lemma DeltaLinear(t: TimeTracker, e1: real, e2: real)
    ensures Delta(t, e2) - Delta(t, e1) == (e2 - e1) / 1000.0
  {
  }

  /** Elapsed time never decreases as the epoch advances. */
  lemma DeltaMonotone(t: TimeTracker, e1: real, e2: real)
    requires e1 <= e2
    ensures Delta(t, e1) <= Delta(t, e2)
  {
  }

  /** Two trackers started at different epochs disagree, at every epoch,
      by exactly the gap between their starts. */
  lemma DeltaShift(s1: real, s2: real, e: real)
    ensures Delta(Start(s1), e) - Delta(Start(s2), e) == (s2 - s1) / 1000.0
  {
  }

  /** Starting at 100000000 ms and reading at 100001414 ms gives 1.414 s. */
  lemma DeltaScenario()
    ensures Delta(Start(100000000.0), 100001414.0) == 1.414
  {
  }
}
