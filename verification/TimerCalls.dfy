/** What add() and remove() achieve in every reachable state, and that the dispatcher delivers. */
module TimerCalls {
  import opened Arithmetic
  import opened Common
  import opened Threads
  import opened Clock
  import opened Timer
  import opened TimerThread
  import M = Monitor

  lemma NewTimerIs(s: Sys, delta: nat)
    requires ClockOk(s) && IdsOk(s) && SplitOk(s)
    requires delta < U32 && s.now.Ms() + delta < 1000 * U32 && s.counter + 1 < U32
    ensures var t := NewTimer(s, delta);
            && t.at.Valid() && t.at.Ms() == s.now.Ms() + delta && t.id != 0
            && (forall x :: x in s.added ==> x.id != t.id) && t !in s.timers && Sorted(s.timers)
  {
    DeadlineIsExact(s.now, delta);
    assert NewTimer(s, delta).id == s.counter + 1;
  }

  lemma InsertedFirst(ts: seq<TimerId>, t: TimerId)
    requires Sorted(ts) && t !in ts
    ensures var us := Insert(ts, t);
            && Sorted(us) && |us| == |ts| + 1 && (forall x :: x in us <==> x in ts || x == t)
            && (ts == [] || Less(t, ts[0]) <==> us[0] == t)
  {
    InsertSorts(ts, t);
    InsertMembers(ts, t);
  }

  /** `u` is `s` with one more timer pending, to be signalled for exactly if it is the first. */
  ghost predicate Joins(s: Sys, u: Sys, t: TimerId) {
    && Sorted(u.timers) && |u.timers| == |s.timers| + 1
    && (forall x :: x in u.timers <==> x in s.timers || x == t)
    && u.added == s.added + {t} && (u.removed, u.taken, u.fired) == (s.removed, s.taken, s.fired)
    && (u.signalDue <==> u.timers[0] == t)
  }

  lemma AddJoins(s: Sys, c: Tid, delta: nat)
    requires Enabled(s, AddBegin(c, delta)) && Sorted(s.timers) && NewTimer(s, delta) !in s.timers
    ensures var u := Step(s, AddBegin(c, delta)); Joins(s, u, NewTimer(s, delta)) && u.adder == Some(c)
  {
    InsertedFirst(s.timers, NewTimer(s, delta));
  }

  /**
   * add(): the timer is pending, with the deadline exactly the delay away and an id no other timer
   * has had. The dispatcher is to be signalled exactly when the timer is the first.
   */
  lemma AddPends(es: seq<Event>, s: Sys, c: Tid, delta: nat)
    requires Runs(INIT, es) && s == After(INIT, es) && Enabled(s, AddBegin(c, delta))
    ensures var t, u := NewTimer(s, delta), Step(s, AddBegin(c, delta));
            && t.at.Valid() && t.at.Ms() == s.now.Ms() + delta
            && t.id != 0 && (forall x :: x in s.added ==> x.id != t.id)
            && Joins(s, u, t) && u.adder == Some(c)
  {
    AccountsKept(INIT, es);
    NewTimerIs(s, delta);
    AddJoins(s, c, delta);
  }

  lemma SignalWakes(m: M.State)
    requires M.Waiters(m, CV) == if M.StatusOf(m, D).Waiting? then [D] else []
    ensures !M.StatusOf(M.Step(m, M.Signal(CV)), D).Waiting?
  {
  }

  /** The end of add(): the mutex is free, and a sleeping dispatcher that is to be signalled is awake. */
  lemma AddReturns(es: seq<Event>, s: Sys, c: Tid)
    requires Runs(INIT, es) && s == After(INIT, es) && Enabled(s, AddEnd(c))
    ensures MonitorAllows(s, AddEnd(c))
    ensures var u := Step(s, AddEnd(c));
            && u == s.(mon := u.mon, adder := None, signalDue := false) && M.Holder(u.mon, MX).None?
            && (M.StatusOf(u.mon, D).Waiting? <==> M.StatusOf(s.mon, D).Waiting? && !s.signalDue)
  {
    AccountsKept(INIT, es);
    MonAllows(s, AddEnd(c));
    SignalWakes(s.mon);
  }

  lemma TakesBack(s: Sys, tid: TimerId)
    requires IdsOk(s) && SplitOk(s)
    ensures tid in s.timers ==>
              var ts := Without(s.timers, tid);
              && tid.id != 0 && tid !in ts && (forall x :: x != tid ==> (x in ts <==> x in s.timers)) && Sorted(ts)
  {
    if tid in s.timers {
      assert tid in s.added;
      WithoutSorted(s.timers, tid);
    }
  }

  /**
   * remove() of a pending timer takes it, and only it, out of the set and counts it as removed;
   * remove() of anything else changes nothing.
   */
  lemma RemoveTakesBack(es: seq<Event>, s: Sys, c: Tid, tid: TimerId)
    requires Runs(INIT, es) && s == After(INIT, es) && Enabled(s, Remove(c, tid))
    ensures var u := Step(s, Remove(c, tid));
            if tid in s.timers
            then && tid !in u.timers && (forall x :: x != tid ==> (x in u.timers <==> x in s.timers))
                 && Sorted(u.timers) && u == s.(timers := u.timers, removed := s.removed + {tid})
            else u == s
  {
    AccountsKept(INIT, es);
    TakesBack(s, tid);
  }

  lemma {:induction false} RemovedStays(s: Sys, es: seq<Event>, t: TimerId)
    requires Runs(s, es) && t in s.removed
    ensures t in After(s, es).removed
    decreases |es|
  {
    if es != [] { RemovedStays(Step(s, es[0]), es[1..], t); }
  }

  lemma RemovedIsOut(s: Sys, t: TimerId)
    requires SplitOk(s) && FiredOk(s) && t in s.removed
    ensures t !in s.timers && t !in s.taken && forall i :: 0 <= i < |s.fired| ==> s.fired[i].timer != t
  {
    forall i | 0 <= i < |s.fired| ensures s.fired[i].timer in s.taken {
      assert s.taken[i] == s.fired[i].timer;
    }
  }

  /** Once remove() has returned true, on_timer() is never called for that timer, whatever comes next. */
  lemma RemovedNeverFires(es: seq<Event>, s: Sys, c: Tid, tid: TimerId, rest: seq<Event>)
    requires Runs(INIT, es) && s == After(INIT, es) && Enabled(s, Remove(c, tid)) && tid in s.timers
    requires Runs(Step(s, Remove(c, tid)), rest)
    ensures var u := After(Step(s, Remove(c, tid)), rest);
            tid !in u.timers && tid !in u.taken && forall i :: 0 <= i < |u.fired| ==> u.fired[i].timer != tid
  {
    var r := Step(s, Remove(c, tid));
    AccountsKept(INIT, es);
    MonKept(s, Remove(c, tid));
    RemoveAccounts(s, c, tid);
    RemoveTakesBack(es, s, c, tid);
    RemovedStays(r, rest, tid);
    AccountsKept(r, rest);
    RemovedIsOut(After(r, rest), tid);
  }

  // ----- the dispatcher delivers

  function Calls(n: nat): seq<Event> {
    if n == 0 then [] else [Call] + Calls(n - 1)
  }

  /** on_timer() is called for all that is due, in order, and then the loop starts again. */
  lemma {:induction false} DueFire(s: Sys)
    requires s.phase.Calling? && s.adder != Some(D)
    ensures var es := Calls(|s.phase.due| + 1);
            && Runs(s, es)
            && var u := After(s, es);
               && Names(u.fired) == Names(s.fired) + s.phase.due
               && u == s.(phase := Top, fired := u.fired)
    decreases |s.phase.due|
  {
    var due := s.phase.due;
    if due == [] {
      assert Calls(1) == [Call] + [];
      RunOne(s, Call, []);
      assert Names(s.fired) + [] == Names(s.fired);
    } else {
      var t := Step(s, Call);
      DueFire(t);
      RunOne(s, Call, Calls(|due|));
      NamesMore(s.fired, Firing(due[0], s.now.Ms()), due[1..]);
      assert due == [due[0]] + due[1..];
    }
  }

  /** From waking to the end of a round: the scan, then the calls. */
  function Round(readings: seq<Stamp>, n: nat): seq<Event> { [Resume] + ([Scan(readings)] + Calls(n + 1)) }

  /** `es` is a run that fires the first n pending timers, leaves the others, and ends at the top of the loop. */
  ghost predicate Delivers(s: Sys, es: seq<Event>, n: nat) {
    && n <= |s.timers| && Runs(s, es)
    && var u := After(s, es);
       && u.phase.Top? && M.Holder(u.mon, MX).None? && u.timers == s.timers[n..]
       && Names(u.fired) == Names(s.fired) + s.timers[..n]
  }

  lemma RoundDelivers(s: Sys, readings: seq<Stamp>)
    requires MonInv(s) && AccountInv(s) && GoodReadings(s, readings) && s.timers != []
    requires s.phase.Blocked? && M.StatusOf(s.mon, D).Woken? && M.Holder(s.mon, MX).None?
    ensures Delivers(s, Round(readings, DueCount(s.timers, readings)), DueCount(s.timers, readings))
  {
    ScanBounds(s.timers, readings);
    var n := DueCount(s.timers, readings);
    var s1 := Step(s, Resume);
    MonKept(s, Resume);
    MonAllows(s1, Scan(readings));
    var s2 := Step(s1, Scan(readings));
    DueFire(s2);
    RunOne(s1, Scan(readings), Calls(n + 1));
    RunOne(s, Resume, [Scan(readings)] + Calls(n + 1));
  }

  lemma DeliversOneMore(s: Sys, e: Event, es: seq<Event>, n: nat)
    requires Enabled(s, e) && MonitorAllows(s, e)
    requires Step(s, e).timers == s.timers && Step(s, e).fired == s.fired && Delivers(Step(s, e), es, n)
    ensures Delivers(s, [e] + es, n)
  {
    RunOne(s, e, es);
  }

  /** A sleep with a timeout can end by itself. */
  lemma SleepEnds(s: Sys)
    requires MonInv(s) && AccountInv(s) && s.phase.Blocked? && M.StatusOf(s.mon, D).Waiting? && s.wakeMs.Some?
    ensures Enabled(s, Expire) && MonitorAllows(s, Expire)
    ensures var t := Step(s, Expire);
            && MonInv(t) && AccountInv(t) && t == s.(mon := t.mon)
            && M.StatusOf(t.mon, D).Woken? && M.Holder(t.mon, MX) == M.Holder(s.mon, MX)
  {
    MonKept(s, Expire);
    AccountKept(s, Expire);
  }

  lemma TimeoutDelivers(s: Sys, readings: seq<Stamp>)
    requires MonInv(s) && AccountInv(s) && GoodReadings(s, readings) && s.timers != []
    requires s.phase.Blocked? && M.StatusOf(s.mon, D).Waiting? && s.wakeMs.Some? && M.Holder(s.mon, MX).None?
    ensures var n := DueCount(s.timers, readings); Delivers(s, [Expire] + Round(readings, n), n)
  {
    SleepEnds(s);
    RoundDelivers(Step(s, Expire), readings);
    DeliversOneMore(s, Expire, Round(readings, DueCount(s.timers, readings)), DueCount(s.timers, readings));
  }

  function Waking(s: Sys): seq<Event> {
    if M.StatusOf(s.mon, D).Waiting? then [Expire] else []
  }

  lemma WakingDelivers(s: Sys, readings: seq<Stamp>)
    requires MonInv(s) && AccountInv(s) && GoodReadings(s, readings) && s.timers != []
    requires s.phase.Blocked? && (M.StatusOf(s.mon, D).Waiting? ==> s.wakeMs.Some?) && M.Holder(s.mon, MX).None?
    ensures var n := DueCount(s.timers, readings); Delivers(s, Waking(s) + Round(readings, n), n)
  {
    if M.StatusOf(s.mon, D).Waiting? {
      TimeoutDelivers(s, readings);
    } else {
      RoundDelivers(s, readings);
      var round := Round(readings, DueCount(s.timers, readings));
      assert [] + round == round;
    }
  }

  /**
   * In every reachable state in which the dispatcher sleeps with a timeout, or was woken, and the
   * mutex is free, its next round is possible, and delivers: on_timer() is called for exactly the
   * timers found expired, in order of their deadlines, and the others stay pending.
   */
  lemma DispatcherDelivers(es: seq<Event>, s: Sys, readings: seq<Stamp>)
    requires Runs(INIT, es) && s == After(INIT, es) && GoodReadings(s, readings) && s.timers != []
    requires s.phase.Blocked? && (M.StatusOf(s.mon, D).Waiting? ==> s.wakeMs.Some?) && M.Holder(s.mon, MX).None?
    ensures var n := DueCount(s.timers, readings); Delivers(s, Waking(s) + Round(readings, n), n)
  {
    AccountsKept(INIT, es);
    WakingDelivers(s, readings);
  }
}
