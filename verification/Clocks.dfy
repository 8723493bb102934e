/** Time: the monotone clock counts nanoseconds, and the runners reckon in whole milliseconds. */
module Clocks {
  const NS_PER_S := 1_000_000_000
  const NS_PER_MS := 1_000_000

  /** Conversion to milliseconds truncates towards zero. */
  function ToMs(ns: int): int {
    if ns >= 0 then ns / NS_PER_MS else -((-ns) / NS_PER_MS)
  }

  datatype Timespec = Timespec(sec: int, nsec: int)

  /** What clock_gettime reports when the monotone clock stands at `ns`. */
  function At(ns: int): (t: Timespec)
    ensures 0 <= t.nsec < NS_PER_S && t.sec * NS_PER_S + t.nsec == ns
  {
    Timespec(ns / NS_PER_S, ns % NS_PER_S)
  }

  /** C division truncates towards zero, here of a difference that may be negative. */
  function ElapsedMs(start: Timespec, now: Timespec): int {
    (now.sec - start.sec) * 1000 + ToMs(now.nsec - start.nsec)
  }

  /** The formula is less than a millisecond off either way, and never negative. */
  lemma ElapsedIsClose(start: int, now: int)
    requires start <= now
    ensures ElapsedMs(At(start), At(now)) >= 0
    ensures -NS_PER_MS < ElapsedMs(At(start), At(now)) * NS_PER_MS - (now - start) < NS_PER_MS
  {
    var a, b := At(start), At(now);
    var d := b.nsec - a.nsec;
    assert now - start == (b.sec - a.sec) * NS_PER_S + d;
    if d < 0 {
      assert b.sec - a.sec >= 1;
      assert (-d) / NS_PER_MS <= 999;
    }
  }

  /** Nor is that bound too wide: a nanosecond can count for a millisecond, and two hardly more than one. */
  lemma ElapsedCanBeThatFarOff()
    ensures ElapsedMs(At(999_999_999), At(1_000_000_000)) == 1
    ensures ElapsedMs(At(0), At(1_999_999)) == 1
  {
  }

  /** It never runs backwards. */
  lemma ElapsedIsMonotone(start: int, now: int, later: int)
    requires start <= now <= later
    ensures ElapsedMs(At(start), At(now)) <= ElapsedMs(At(start), At(later))
  {
    var a, b, c := At(start), At(now), At(later);
    if b.sec == c.sec {
      MsIsMonotone(b.nsec - a.nsec, c.nsec - a.nsec);
    } else {
      assert b.sec < c.sec;
      MsIsMonotone(b.nsec - a.nsec, NS_PER_S - 1 - a.nsec);
      MsIsMonotone(-a.nsec, c.nsec - a.nsec);
      MsSpan(a.nsec);
    }
  }

  lemma MsIsMonotone(x: int, y: int)
    requires x <= y
    ensures ToMs(x) <= ToMs(y)
  {
  }

  lemma MsSpan(n: int)
    requires 0 <= n < NS_PER_S
    ensures ToMs(NS_PER_S - 1 - n) <= 1000 + ToMs(-n)
  {
    var q := n / NS_PER_MS;
    assert q * NS_PER_MS <= n < (q + 1) * NS_PER_MS;
    assert NS_PER_S - 1 - n < (1000 - q) * NS_PER_MS;
  }
}
