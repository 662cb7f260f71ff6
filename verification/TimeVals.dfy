/** The `struct timeval` arithmetic the schedulers use: the macros timeradd and timercmp. */
module TimeVals {

  const MICROS_PER_SECOND := 1_000_000

  datatype TimeVal = TimeVal(sec: int, usec: int)

  predicate Normal(t: TimeVal) {
    0 <= t.usec < MICROS_PER_SECOND
  }

  /** A length of time as timersub leaves it when the clock does not run backwards. */
  type Duration = t: TimeVal | Normal(t) && t.sec >= 0 witness TimeVal(0, 0)

  function Micros(t: TimeVal): int {
    t.sec * MICROS_PER_SECOND + t.usec
  }

  /** Milliseconds rounded to nearest, as fs_calculate_timeslice computes them. */
  function Millis(t: Duration): nat {
    t.sec * 1000 + (t.usec + 500) / 1000
  }

  function TimerAdd(a: TimeVal, b: TimeVal): TimeVal {
    var sec, usec := a.sec + b.sec, a.usec + b.usec;
    if usec >= MICROS_PER_SECOND then TimeVal(sec + 1, usec - MICROS_PER_SECOND) else TimeVal(sec, usec)
  }

  /** timercmp(a, b, <) */
  predicate TimerLess(a: TimeVal, b: TimeVal) {
    if a.sec == b.sec then a.usec < b.usec else a.sec < b.sec
  }

  /** timercmp(a, b, !=) */
  predicate TimerDiffers(a: TimeVal, b: TimeVal) {
    if a.sec == b.sec then a.usec != b.usec else a.sec != b.sec
  }

  /** On normalised values the macros are addition and comparison of microseconds. */
  lemma MacrosAreMicros(a: TimeVal, b: TimeVal)
    requires Normal(a) && Normal(b)
    ensures Normal(TimerAdd(a, b)) && Micros(TimerAdd(a, b)) == Micros(a) + Micros(b)
    ensures TimerLess(a, b) <==> Micros(a) < Micros(b)
    ensures TimerDiffers(a, b) <==> Micros(a) != Micros(b)
    ensures TimerDiffers(a, b) <==> a != b
  {
  }

  /** A millisecond is a thousand microseconds, and half of one rounds up. */
  lemma MillisRounds(t: Duration)
    ensures Millis(t) * 1000 <= Micros(t) + 500 < (Millis(t) + 1) * 1000
    ensures Millis(t) == (Micros(t) + 500) / 1000
  {
  }

  /** A second is a million microseconds. */
  lemma SecondIsMillion(sec: int, usec: int)
    ensures Micros(TimeVal(sec, usec)) == sec * 1_000_000 + usec
  {
  }
}
