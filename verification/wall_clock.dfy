/** The wall-clock read that restarts a predator's growth: the clock in
    seconds is scaled to milliseconds and converted to an integer with
    Python's `int()`, which truncates toward zero. The clock value itself
    is an input of the model. */
module WallClock {

  /** Python's `int()` on a float: the integer part, rounding toward zero. */
  function TruncateTowardZero(x: real): (n: int)
    ensures x >= 0.0 ==> n as real <= x < n as real + 1.0
    ensures x < 0.0 ==> n as real - 1.0 < x <= n as real
  {
    if x >= 0.0 then x.Floor else -((-x).Floor)
  }

  /** The restart epoch read from a clock showing `clockSeconds`: within one
      millisecond of the exact reading, and never further from zero. */
  function EpochMillis(clockSeconds: real): (ms: int)
    ensures clockSeconds >= 0.0 ==> 0 <= ms && ms as real <= clockSeconds * 1000.0 < ms as real + 1.0
    ensures clockSeconds < 0.0 ==> ms <= 0 && ms as real - 1.0 < clockSeconds * 1000.0 <= ms as real
  {
    TruncateTowardZero(clockSeconds * 1000.0)
  }

  /** Truncation keeps whole numbers of milliseconds exactly. */
  lemma TruncateWhole(n: int)
    ensures TruncateTowardZero(n as real) == n
  {
  }

  /** Truncation is symmetric about zero: it commutes with negation. */
  lemma TruncateOdd(x: real)
    ensures TruncateTowardZero(-x) == -TruncateTowardZero(x)
  {
  }
}
