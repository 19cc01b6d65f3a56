// The benchmark timer (src/test/Timer.h; the Windows variant is repeated
// verbatim in src/test/Performance.h and Performance.h). The clock readings,
// `QueryPerformanceCounter`, `QueryPerformanceFrequency` and
// `clock_gettime`, are parameters of the methods that take them.

module Timers {

  /** `std::max(0ll, stop - start)`: the counter interval, never negative. */
  function Clamped(start: int, stop: int): (r: int)
    ensures r >= 0 && r >= stop - start
    ensures r == 0 || r == stop - start
    ensures start <= stop ==> r == stop - start
  {
    if 0 < stop - start then stop - start else 0
  }

  /**
   * The Windows timer: `start` is the counter at the last `Start`, `accum`
   * the counter ticks summed over the `Start`/`Stop` intervals since
   * construction or the last `Reset`.
   */
  class Timer {
    var start: int
    var accum: int

    /** The accumulated ticks are never negative. */
    ghost predicate Valid()
      reads this
    {
      accum >= 0
    }

    /** A new timer has accumulated nothing. */
    constructor()
      ensures accum == 0 && Valid()
    {
      start := 0;
      accum := 0;
    }

    /** `Start` records the counter and leaves the accumulated ticks alone. */
    method Start(counter: int)
      requires Valid()
      modifies this
      ensures Valid()
      ensures start == counter && accum == old(accum)
    {
      start := counter;
    }

    /** `Stop` adds the interval since `Start`, clamped at zero, so the total never decreases. */
    method Stop(counter: int)
      requires Valid()
      modifies this
      ensures Valid()
      ensures start == old(start) && accum == old(accum) + Clamped(old(start), counter)
      ensures accum >= old(accum)
    {
      accum := accum + Clamped(start, counter);
    }

    /** `Reset` discards the accumulated ticks. */
    method Reset()
      modifies this
      ensures Valid()
      ensures start == old(start) && accum == 0
    {
      accum := 0;
    }

    /** The accumulated time in microseconds at `freq` ticks per second; never negative. */
    function Microseconds(freq: int): (r: real)
      requires freq > 0
      reads this
      ensures r * freq as real == 1000000.0 * accum as real
      ensures Valid() ==> r >= 0.0
    {
      QuotientSign(1000000.0 * accum as real, freq as real);
      1000000.0 * accum as real / freq as real
    }
  }

  /** A quotient by a positive real keeps the sign of the dividend and multiplies back. */
  lemma QuotientSign(x: real, d: real)
    requires d > 0.0
    ensures (x / d) * d == x
    ensures x >= 0.0 ==> x / d >= 0.0
  {
    var q := x / d;
    assert q * d == x;
    if x >= 0.0 && q < 0.0 {
      assert false;
    }
  }

  /** Nanoseconds in a second. */
  const NanosPerSecond: int := 1_000_000_000

  /** A `struct timespec`: whole seconds and nanoseconds. */
  datatype Timespec = Timespec(sec: int, nsec: int)

  /** The instant a timespec denotes, in nanoseconds. */
  function Nanoseconds(t: Timespec): int
  {
    NanosPerSecond * t.sec + t.nsec
  }

  /**
   * The POSIX `Stop` increment. The borrowing branch (stop's nanoseconds
   * below start's) and the direct branch both add the exact difference of
   * the two instants; neither clamps, so a stop before the start subtracts.
   */
  function Interval(start: Timespec, stop: Timespec): (r: int)
    ensures r == Nanoseconds(stop) - Nanoseconds(start)
    ensures Nanoseconds(stop) < Nanoseconds(start) ==> r < 0
  {
    if stop.nsec < start.nsec then
      (NanosPerSecond + stop.nsec - start.nsec) + NanosPerSecond * (stop.sec - start.sec - 1)
    else
      NanosPerSecond * (stop.sec - start.sec) + (stop.nsec - start.nsec)
  }

  /**
   * The POSIX timer: `start` is the clock at the last `Start`, `accum` the
   * nanoseconds summed over the intervals since construction or `Reset`.
   */
  class PosixTimer {
    var start: Timespec
    var accum: int

    /** A new timer has accumulated nothing. */
    constructor()
      ensures accum == 0
    {
      start := Timespec(0, 0);
      accum := 0;
    }

    /** `Start` records the clock and leaves the accumulated time alone. */
    method Start(now: Timespec)
      modifies this
      ensures start == now && accum == old(accum)
    {
      start := now;
    }

    /** `Stop` adds the signed interval since `Start`, borrowing a second when the nanoseconds underflow. */
    method Stop(now: Timespec)
      modifies this
      ensures start == old(start)
      ensures accum == old(accum) + Nanoseconds(now) - Nanoseconds(old(start))
    {
      accum := accum + Interval(start, now);
    }

    /** `Reset` discards the accumulated time. */
    method Reset()
      modifies this
      ensures start == old(start) && accum == 0
    {
      accum := 0;
    }

    /** `accum * 1e-3`: nanoseconds to microseconds. */
    function Microseconds(): (r: real)
      reads this
      ensures r * 1000.0 == accum as real
      ensures accum >= 0 <==> r >= 0.0
    {
      accum as real * 0.001
    }
  }

  /** Unlike the Windows timer, a POSIX interval whose stop precedes its start lowers the total. */
  lemma PosixStopCanDecrease()
    ensures Interval(Timespec(1, 0), Timespec(0, 500_000_000)) == -500_000_000
    ensures Clamped(1_000, 500) == 0
  {
  }
}
