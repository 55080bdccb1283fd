/**
 * Absolute times of omnithread and the millisecond timeout timedwait() hands to the kernel.
 * Seconds, nanoseconds and timeouts are 32-bit unsigned; wrap-around is written out.
 */
module Clock {
  import opened Arithmetic

  const INFINITE: nat := 0xFFFF_FFFF
  const NS_PER_S: nat := 1_000_000_000
  const NS_PER_MS: nat := 1_000_000

  /** An absolute time. The clock itself only produces whole milliseconds. */
  datatype Stamp = Stamp(sec: nat, nsec: nat) {
    predicate Valid() { sec < U32 && nsec < NS_PER_S }

    predicate WholeMs() { nsec % NS_PER_MS == 0 }

    function Ms(): nat { sec * 1000 + nsec / NS_PER_MS }

    function Ns(): nat { sec * NS_PER_S + nsec }
  }

  /** get_time: `now` plus an offset. */
  function GetTime(now: Stamp, relSec: nat, relNsec: nat): Stamp {
    var nsec := (now.nsec + relNsec) % U32;
    Stamp((now.sec + (relSec + nsec / NS_PER_S) % U32) % U32, nsec % NS_PER_S)
  }

  /** The deadline the TimerID constructor computes for a delay in milliseconds. */
  function Deadline(now: Stamp, delta: nat): Stamp {
    GetTime(now, delta / 1000, (delta % 1000) * NS_PER_MS)
  }

  /** Unsigned 32-bit subtraction. */
  function Minus32(a: int, b: int): nat { (a - b) % U32 }

  /** The timeout timedwait() computes for the absolute time `abs`. */
  function TimeoutMs(abs: Stamp, now: Stamp): nat {
    if abs.sec <= now.sec && (abs.sec < now.sec || abs.nsec < now.nsec) then 0
    else
      var whole := (Minus32(abs.sec, now.sec) * 1000) % U32;
      if abs.nsec < now.nsec
      then Minus32(whole, Minus32(now.nsec, abs.nsec) / NS_PER_MS)
      else (whole + Minus32(abs.nsec, now.nsec) / NS_PER_MS) % U32
  }

  lemma ModMs(a: nat, b: nat)
    requires a % NS_PER_MS == 0 && b % NS_PER_MS == 0 && a <= b
    ensures (b - a) / NS_PER_MS == b / NS_PER_MS - a / NS_PER_MS
  {
  }

  /** Stamps in whole milliseconds are ordered as their millisecond counts are. */
  lemma MsOrders(a: Stamp, b: Stamp)
    requires a.Valid() && b.Valid() && a.WholeMs() && b.WholeMs()
    ensures a.Ms() < b.Ms() <==> a.sec < b.sec || (a.sec == b.sec && a.nsec < b.nsec)
    ensures a.Ms() == b.Ms() <==> a == b
  {
    if a.nsec <= b.nsec { ModMs(a.nsec, b.nsec); } else { ModMs(b.nsec, a.nsec); }
  }

  lemma CarryMs(n: nat)
    requires n < 2000
    ensures (n * NS_PER_MS) / NS_PER_S == n / 1000
    ensures (n * NS_PER_MS) % NS_PER_S == (n % 1000) * NS_PER_MS
    ensures ((n % 1000) * NS_PER_MS) / NS_PER_MS == n % 1000
  {
    if n >= 1000 {
      assert n * NS_PER_MS == NS_PER_S + (n - 1000) * NS_PER_MS;
    }
  }

  /** get_time in milliseconds: no field wraps, and the carry goes to the seconds. */
  lemma GetTimeCarries(now: Stamp, relSec: nat, k: nat, m: nat)
    requires now.sec < U32 && now.nsec == k * NS_PER_MS && k < 1000 && m < 1000
    requires now.sec + relSec + (k + m) / 1000 < U32
    ensures GetTime(now, relSec, m * NS_PER_MS)
         == Stamp(now.sec + relSec + (k + m) / 1000, (k + m) % 1000 * NS_PER_MS)
  {
    assert now.nsec + m * NS_PER_MS == (k + m) * NS_PER_MS < U32;
    CarryMs(k + m);
  }

  /** A delay below 2^32 ms, before the clock wraps, ends exactly `delta` milliseconds from now. */
  lemma DeadlineIsExact(now: Stamp, delta: nat)
    requires now.Valid() && now.WholeMs() && delta < U32 && now.Ms() + delta < 1000 * U32
    ensures var d := Deadline(now, delta); d.Valid() && d.WholeMs() && d.Ms() == now.Ms() + delta
  {
    var k, m := now.nsec / NS_PER_MS, delta % 1000;
    GetTimeCarries(now, delta / 1000, k, m);
    CarryMs(k + m);
  }

  lemma TimeoutBorrow(abs: Stamp, now: Stamp)
    requires abs.Valid() && now.Valid() && now.sec < abs.sec && abs.nsec < now.nsec
    ensures TimeoutMs(abs, now) == ((abs.sec - now.sec) * 1000 - (now.nsec - abs.nsec) / NS_PER_MS) % U32
  {
    var s, d := abs.sec - now.sec, (now.nsec - abs.nsec) / NS_PER_MS;
    assert Minus32(abs.sec, now.sec) == s && Minus32(now.nsec, abs.nsec) == now.nsec - abs.nsec;
    WrapEarly(s * 1000, -d);
  }

  lemma TimeoutPlain(abs: Stamp, now: Stamp)
    requires abs.Valid() && now.Valid() && now.sec <= abs.sec && now.nsec <= abs.nsec
    ensures TimeoutMs(abs, now) == ((abs.sec - now.sec) * 1000 + (abs.nsec - now.nsec) / NS_PER_MS) % U32
  {
    var s, d := abs.sec - now.sec, (abs.nsec - now.nsec) / NS_PER_MS;
    assert Minus32(abs.sec, now.sec) == s && Minus32(abs.nsec, now.nsec) == abs.nsec - now.nsec;
    WrapEarly(s * 1000, d);
  }

  /** Milliseconds from now to a later time: rounded down, or up when the nanoseconds borrow a second. */
  function Rounded(abs: Stamp, now: Stamp): nat
    requires now.Ns() <= abs.Ns()
  {
    var d := abs.Ns() - now.Ns();
    if abs.nsec < now.nsec then (d + NS_PER_MS - 1) / NS_PER_MS else d / NS_PER_MS
  }

  lemma RoundedIs(abs: Stamp, now: Stamp)
    requires abs.Valid() && now.Valid() && now.Ns() <= abs.Ns()
    ensures now.sec <= abs.sec
    ensures Rounded(abs, now) ==
            if abs.nsec < now.nsec then (abs.sec - now.sec) * 1000 - (now.nsec - abs.nsec) / NS_PER_MS
            else (abs.sec - now.sec) * 1000 + (abs.nsec - now.nsec) / NS_PER_MS
  {
    var s, d := abs.sec - now.sec, abs.Ns() - now.Ns();
    if abs.nsec < now.nsec {
      var q, r := (now.nsec - abs.nsec) / NS_PER_MS, (now.nsec - abs.nsec) % NS_PER_MS;
      DivIs(d + NS_PER_MS - 1, NS_PER_MS, s * 1000 - q, NS_PER_MS - 1 - r);
    } else {
      var q, r := (abs.nsec - now.nsec) / NS_PER_MS, (abs.nsec - now.nsec) % NS_PER_MS;
      DivIs(d, NS_PER_MS, s * 1000 + q, r);
    }
  }

  /** For any two times the timeout is that distance modulo 2^32 ms, and 0 for a time that has passed. */
  lemma TimeoutRounds(abs: Stamp, now: Stamp)
    requires abs.Valid() && now.Valid()
    ensures TimeoutMs(abs, now) == if abs.Ns() < now.Ns() then 0 else Rounded(abs, now) % U32
  {
    if abs.Ns() >= now.Ns() {
      RoundedIs(abs, now);
      if abs.nsec < now.nsec { TimeoutBorrow(abs, now); } else { TimeoutPlain(abs, now); }
    }
  }

  /**
   * A sleep for any later time takes the distance in milliseconds, less than one of them early or
   * late, exactly when that distance is below 2^32 - 1 ms; it is early only by the rounding down.
   */
  lemma SleepEndsNear(abs: Stamp, now: Stamp)
    requires abs.Valid() && now.Valid() && now.Ns() <= abs.Ns()
    ensures (TimeoutMs(abs, now) != INFINITE && TimeoutMs(abs, now) == Rounded(abs, now))
            <==> Rounded(abs, now) < INFINITE
    ensures var end := now.Ns() + Rounded(abs, now) * NS_PER_MS;
            abs.Ns() - NS_PER_MS < end < abs.Ns() + NS_PER_MS && (abs.nsec < now.nsec ==> abs.Ns() <= end)
  {
    TimeoutRounds(abs, now);
    var ms := Rounded(abs, now);
    if ms < U32 { DivIs(ms, U32, 0, ms); }
  }

  /** The timeout is the distance to the deadline, modulo 2^32 ms. */
  lemma TimeoutIsDistance(abs: Stamp, now: Stamp)
    requires abs.Valid() && now.Valid() && abs.WholeMs() && now.WholeMs()
    ensures TimeoutMs(abs, now) == if abs.Ms() <= now.Ms() then 0 else (abs.Ms() - now.Ms()) % U32
  {
    MsOrders(abs, now);
    MsOrders(now, abs);
    if abs.Ms() > now.Ms() {
      if abs.nsec < now.nsec {
        TimeoutBorrow(abs, now);
        ModMs(abs.nsec, now.nsec);
      } else {
        TimeoutPlain(abs, now);
        ModMs(now.nsec, abs.nsec);
      }
    } else if abs == now {
      TimeoutPlain(abs, now);
    }
  }

  /**
   * A sleep for a pending deadline ends at that deadline, and at no other time, exactly
   * when the distance is below 2^32 - 1 ms: at 2^32 - 1 the kernel reads INFINITE, and beyond
   * that the count has wrapped.
   */
  lemma SleepEndsAtDeadline(abs: Stamp, now: Stamp)
    requires abs.Valid() && now.Valid() && abs.WholeMs() && now.WholeMs() && now.Ms() <= abs.Ms()
    ensures (TimeoutMs(abs, now) != INFINITE && now.Ms() + TimeoutMs(abs, now) == abs.Ms())
            <==> abs.Ms() - now.Ms() < INFINITE
  {
    TimeoutIsDistance(abs, now);
    var d := abs.Ms() - now.Ms();
    if d >= U32 { assert d % U32 < U32; }
  }
}
