/** Times as the timer service keeps them, and the due time `start` computes.

  Seconds and nanoseconds are signed 32-bit on the target, so each addition that could leave that
  range is written with its wrap-around.
  */
module LocTimerClock {

  const NANOS_PER_SEC := 1_000_000_000
  const NANOS_PER_MS := 1_000_000
  const MS_PER_SEC := 1_000

  datatype Timespec = Timespec(sec: int, nsec: int)

  type UInt32 = n: int | 0 <= n < 0x1_0000_0000

  predicate Normal(t: Timespec) {
    0 <= t.nsec < NANOS_PER_SEC
  }

  /** A clock reading. */
  type Clock = t: Timespec | Normal(t) witness Timespec(0, 0)

  function Nanos(t: Timespec): int {
    t.sec * NANOS_PER_SEC + t.nsec
  }

  /** A value stored into a signed 32-bit field. */
  function Wrap32(n: int): int {
    var low := n % 0x1_0000_0000;
    if low < 0x8000_0000 then low else low - 0x1_0000_0000
  }

  lemma WrapOnce(n: int)
    requires 0 <= n < 0x1_0000_0000
    ensures Wrap32(n) == if n < 0x8000_0000 then n else n - 0x1_0000_0000
  {
  }

  predicate Earlier(a: Timespec, b: Timespec) {
    a.sec < b.sec || (a.sec == b.sec && a.nsec < b.nsec)
  }

  /** The due time in unbounded arithmetic: `ms` after `now`, normalised. */
  function DueTime(now: Timespec, ms: UInt32): (due: Timespec)
    requires Normal(now)
    ensures Normal(due)
    ensures Nanos(due) == Nanos(now) + ms * NANOS_PER_MS
  {
    var nsec := now.nsec + ms % MS_PER_SEC * NANOS_PER_MS;
    Timespec(now.sec + ms / MS_PER_SEC + nsec / NANOS_PER_SEC, nsec % NANOS_PER_SEC)
  }

  /** A normal time is determined by its nanoseconds, and compared by them. */
  lemma NanosOrder(a: Timespec, b: Timespec)
    requires Normal(a) && Normal(b)
    ensures Earlier(a, b) <==> Nanos(a) < Nanos(b)
    ensures a == b <==> Nanos(a) == Nanos(b)
  {
  }

  /** What `start` does to the clock reading. The nanosecond field never wraps; the result is the
      exact due time precisely when the due second still fits the 32-bit field. */
  method FutureTime(now: Timespec, timeOutInMs: UInt32) returns (future: Timespec)
    requires Normal(now) && 0 <= now.sec < 0x8000_0000
    ensures Normal(future) && future.nsec == DueTime(now, timeOutInMs).nsec
    ensures Nanos(future) == Nanos(now) + timeOutInMs * NANOS_PER_MS
            <==> Nanos(now) + timeOutInMs * NANOS_PER_MS < 0x8000_0000 * NANOS_PER_SEC
  {
    future := now;
    ghost var carried := future.nsec + timeOutInMs % MS_PER_SEC * NANOS_PER_MS;
    WrapOnce(future.sec + timeOutInMs / MS_PER_SEC);
    WrapOnce(carried);
    future := future.(sec := Wrap32(future.sec + timeOutInMs / MS_PER_SEC));
    future := future.(nsec := Wrap32(future.nsec + timeOutInMs % MS_PER_SEC * NANOS_PER_MS));
    assert future.nsec == carried < 2 * NANOS_PER_SEC;
    if future.nsec >= NANOS_PER_SEC {
      if future.sec >= 0 { WrapOnce(future.sec + 1); }
      assert future.nsec / NANOS_PER_SEC == 1 && future.nsec % NANOS_PER_SEC == carried - NANOS_PER_SEC;
      future := future.(sec := Wrap32(future.sec + future.nsec / NANOS_PER_SEC));
      future := future.(nsec := future.nsec % NANOS_PER_SEC);
    }
  }
}
