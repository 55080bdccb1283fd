/** The ordered timer set of timer/timer.cpp and the operations done on it under its mutex. */
module Timer {
  import opened Arithmetic
  import opened Common
  import opened Clock

  /** client and data do not take part in ordering or equality and are left out. */
  datatype TimerId = TimerId(at: Stamp, id: nat)

  /** operator< */
  predicate Less(a: TimerId, b: TimerId) {
    if a.at.sec == b.at.sec then
      if a.at.nsec == b.at.nsec then a.id < b.id else a.at.nsec < b.at.nsec
    else a.at.sec < b.at.sec
  }

  /** is_expired at one reading of the clock. */
  predicate Expired(t: TimerId, now: Stamp) {
    if now.sec == t.at.sec then now.nsec >= t.at.nsec else now.sec >= t.at.sec
  }

  /** The id add() hands out: the counter's next value, with 0 skipped. */
  function NextId(counter: nat): nat {
    var i := (counter + 1) % U32;
    if i == 0 then 1 else i
  }

  /** Two values of the counter give the same id exactly when they are 0 and 2^32 - 1: both give 1. */
  lemma IdsRepeatExactly(a: nat, b: nat)
    requires a < b < U32
    ensures NextId(a) == NextId(b) <==> a == 0 && b == 0xFFFF_FFFF
  {
  }

  ghost predicate Sorted(ts: seq<TimerId>) {
    forall i, j :: 0 <= i < j < |ts| ==> Less(ts[i], ts[j])
  }

  /** std::set::insert: an equivalent element stays as it is. */
  function Insert(ts: seq<TimerId>, t: TimerId): seq<TimerId> {
    if ts == [] || Less(t, ts[0]) then [t] + ts
    else if ts[0] == t then ts
    else [ts[0]] + Insert(ts[1..], t)
  }

  lemma {:induction false} InsertMembers(ts: seq<TimerId>, t: TimerId)
    ensures forall x :: x in Insert(ts, t) <==> x in ts || x == t
    ensures t !in ts ==> |Insert(ts, t)| == |ts| + 1
    ensures Insert(ts, t)[0] == if ts == [] || Less(t, ts[0]) then t else ts[0]
  {
    if ts != [] && !Less(t, ts[0]) && ts[0] != t {
      InsertMembers(ts[1..], t);
      assert forall x :: x in ts <==> x == ts[0] || x in ts[1..];
    }
  }

  lemma SortedCons(t: TimerId, ts: seq<TimerId>)
    requires Sorted(ts) && forall x :: x in ts ==> Less(t, x)
    ensures Sorted([t] + ts)
  {
    forall j | 0 < j < |[t] + ts| ensures Less(t, ([t] + ts)[j]) { assert ts[j - 1] in ts; }
  }

  lemma {:induction false} InsertSorts(ts: seq<TimerId>, t: TimerId)
    requires Sorted(ts)
    ensures Sorted(Insert(ts, t))
  {
    if ts == [] {
    } else if Less(t, ts[0]) {
      SortedCons(t, ts);
    } else if ts[0] != t {
      InsertSorts(ts[1..], t);
      InsertMembers(ts[1..], t);
      SortedCons(ts[0], Insert(ts[1..], t));
    }
  }

  lemma SortedNoDup(ts: seq<TimerId>)
    requires Sorted(ts)
    ensures NoDup(ts)
  {
  }

  /** How many timers the scan takes, given the clock readings of its is_expired() calls. */
  function DueCount(ts: seq<TimerId>, readings: seq<Stamp>): nat
    requires |readings| >= |ts|
  {
    if ts == [] || !Expired(ts[0], readings[0]) then 0 else 1 + DueCount(ts[1..], readings[1..])
  }

  ghost predicate Monotone(readings: seq<Stamp>) {
    forall i, j :: 0 <= i < j < |readings| ==> readings[i].Ms() <= readings[j].Ms()
  }

  ghost predicate AllWhole(readings: seq<Stamp>) {
    forall i :: 0 <= i < |readings| ==> readings[i].Valid() && readings[i].WholeMs()
  }

  lemma ExpiredMs(t: TimerId, now: Stamp)
    requires t.at.Valid() && t.at.WholeMs() && now.Valid() && now.WholeMs()
    ensures Expired(t, now) <==> t.at.Ms() <= now.Ms()
  {
    MsOrders(now, t.at);
    MsOrders(t.at, now);
  }

  lemma LessMs(a: TimerId, b: TimerId)
    requires a.at.Valid() && a.at.WholeMs() && b.at.Valid() && b.at.WholeMs()
    ensures Less(a, b) <==> a.at.Ms() < b.at.Ms() || (a.at.Ms() == b.at.Ms() && a.id < b.id)
  {
    MsOrders(a.at, b.at);
    MsOrders(b.at, a.at);
  }

  ghost predicate AllMs(ts: seq<TimerId>) {
    forall i :: 0 <= i < |ts| ==> ts[i].at.Valid() && ts[i].at.WholeMs()
  }

  /**
   * The scan takes a prefix: everything it takes had expired when it was looked at, and at the
   * last look nothing it left behind had expired.
   */
  lemma {:induction false} ScanIsExact(ts: seq<TimerId>, readings: seq<Stamp>)
    requires |readings| >= |ts| && Sorted(ts) && AllMs(ts) && AllWhole(readings) && Monotone(readings)
    ensures var n := DueCount(ts, readings);
            && n <= |ts|
            && (forall i :: 0 <= i < n ==> ts[i].at.Ms() <= readings[i].Ms())
            && (forall i :: n <= i < |ts| ==> readings[n].Ms() < ts[i].at.Ms())
  {
    if ts != [] {
      ExpiredMs(ts[0], readings[0]);
      if Expired(ts[0], readings[0]) {
        ScanIsExact(ts[1..], readings[1..]);
        var n := DueCount(ts[1..], readings[1..]);
        assert forall i :: 1 <= i < |ts| ==> ts[i] == ts[1..][i - 1] && readings[i] == readings[1..][i - 1];
      } else {
        forall i | 0 <= i < |ts| ensures readings[0].Ms() < ts[i].at.Ms() {
          if i > 0 { LessMs(ts[0], ts[i]); }
        }
      }
    }
  }

  lemma ScanSplits(ts: seq<TimerId>, readings: seq<Stamp>)
    requires |readings| >= |ts| && Sorted(ts) && AllMs(ts) && AllWhole(readings) && Monotone(readings)
    ensures var n := DueCount(ts, readings);
            n <= |ts| && Sorted(ts[..n]) && (forall t :: t in ts[n..] ==> readings[n].Ms() < t.at.Ms())
  {
    ScanIsExact(ts, readings);
  }

  class TimerSet {
    var timers: seq<TimerId>
    var idCounter: nat

    ghost predicate Valid()
      reads this
    {
      Sorted(timers) && idCounter < U32
    }

    constructor ()
      ensures Valid() && timers == [] && idCounter == 0
    {
      timers, idCounter := [], 0;
    }

    /** add() up to the signal; `first` tells whether the timer thread must be woken. */
    method Add(delta: nat, now: Stamp) returns (tid: TimerId, first: bool)
      requires Valid()
      modifies this
      ensures Valid() && idCounter == (old(idCounter) + 1) % U32
      ensures tid == TimerId(Deadline(now, delta), NextId(old(idCounter)))
      ensures tid.id == if old(idCounter) + 1 < U32 then old(idCounter) + 1 else 1
      ensures timers == Insert(old(timers), tid)
      ensures first <==> timers[0] == tid
    {
      InsertSorts(timers, TimerId(Deadline(now, delta), NextId(idCounter)));
      InsertMembers(timers, TimerId(Deadline(now, delta), NextId(idCounter)));
      idCounter := (idCounter + 1) % U32;
      var i := idCounter;
      if i == 0 {
        i := i + 1;
      }
      tid := TimerId(Deadline(now, delta), i);
      timers := Insert(timers, tid);
      first := timers[0] == tid;
    }

    method Remove(tid: TimerId) returns (found: bool)
      requires Valid()
      modifies this
      ensures Valid() && idCounter == old(idCounter)
      ensures found <==> tid.id != 0 && tid in old(timers)
      ensures timers == if found then Without(old(timers), tid) else old(timers)
    {
      if tid.id == 0 || tid !in timers {
        return false;
      }
      WithoutSorted(timers, tid);
      timers := Without(timers, tid);
      return true;
    }

    /** The scan of run_undetached(): collect the expired prefix, then erase it. */
    method TakeDue(readings: seq<Stamp>) returns (due: seq<TimerId>)
      requires Valid() && |readings| >= |timers|
      modifies this
      ensures Valid() && idCounter == old(idCounter)
      ensures |due| <= |old(timers)|
      ensures due == old(timers)[..|due|] && timers == old(timers)[|due|..]
      ensures |due| == DueCount(old(timers), readings)
    {
      due := [];
      var i := 0;
      while i < |timers|
        invariant 0 <= i <= |timers| && due == timers[..i]
        invariant timers == old(timers) && idCounter == old(idCounter)
        invariant DueCount(timers, readings) == i + DueCount(timers[i..], readings[i..])
      {
        if !Expired(timers[i], readings[i]) {
          break;
        }
        due := due + [timers[i]];
        assert timers[i..][1..] == timers[i + 1..] && readings[i..][1..] == readings[i + 1..];
        i := i + 1;
      }
      timers := timers[i..];
    }
  }

  lemma WithoutSorted(ts: seq<TimerId>, t: TimerId)
    requires Sorted(ts) && t in ts
    ensures Sorted(Without(ts, t))
    ensures forall x :: x in Without(ts, t) <==> x in ts && x != t
    ensures ts[0] != t ==> Without(ts, t)[0] == ts[0]
  {
    SortedNoDup(ts);
    var i :| 0 <= i < |ts| && ts[i] == t;
    WithoutAt(ts, i);
    WithoutKeeps(ts, t);
  }
}
