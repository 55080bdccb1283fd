/**
 * What the calls of the condition variable do, over every run: each thread stays in the call it
 * made, only a signal or a timeout it asked for ends it, a step touches nothing but its own
 * thread's affairs, and the thread objects lent to foreign threads come back.
 */
module NtCalls {
  import opened Common
  import opened Threads
  import opened NtCondition
  import NtRefinement
  import M = Monitor

  /** A run up to its last event, and that event. */
  lemma {:induction false} LastStep(s: Sys, es: seq<Event>)
    requires Runs(s, es) && es != []
    ensures var front, e := es[..|es| - 1], es[|es| - 1];
            Runs(s, front) && Enabled(After(s, front), e) && After(s, es) == Step(After(s, front), e)
    decreases |es|
  {
    if |es| > 1 {
      LastStep(Step(s, es[0]), es[1..]);
      assert es[..|es| - 1][1..] == es[1..][..|es| - 2];
    }
  }

  lemma Reachable(es: seq<Event>)
    requires Runs(INIT, es)
    ensures Inv(After(INIT, es))
  {
    InitOk();
    RunKeeps(INIT, es);
  }

  // ----- a thread stays in the call it made

  datatype Call = Call(cv: Cv, timed: bool)

  /** The call thread `t` is in after the events: the last one it entered, unless it has left it. */
  function CallOf(es: seq<Event>, t: Tid): Option<Call> {
    if es == [] then None
    else
      var e := es[|es| - 1];
      if e.Enter? && e.t == t then Some(Call(e.cv, e.timed))
      else if e == Leave(t) then None
      else CallOf(es[..|es| - 1], t)
  }

  /** Over every run a thread is inside exactly the call it entered last: the same condition variable, the same kind. */
  lemma {:induction false} CallIsKept(es: seq<Event>, t: Tid)
    requires Runs(INIT, es)
    ensures var p := PcOf(After(INIT, es), t);
            CallOf(es, t) == if p.Outside? then None else Some(Call(p.cv, p.timed))
  {
    if es != [] {
      LastStep(INIT, es);
      var front, e := es[..|es| - 1], es[|es| - 1];
      CallIsKept(front, t);
      if e.Signal? || e.Broadcast? || e.t != t {
        OthersUntouched(After(INIT, front), e, t);
      } else {
        StaysInCall(After(INIT, front), e);
      }
    }
  }

  lemma StaysInCall(s: Sys, e: Event)
    requires Enabled(s, e) && !e.Signal? && !e.Broadcast?
    ensures var p, q := PcOf(s, e.t), PcOf(Step(s, e), e.t);
            if e.Enter? then q.Entered? && q.cv == e.cv && q.timed == e.timed
            else if e.Leave? || p.Outside? then q.Outside?
            else !q.Outside? && q.cv == p.cv && q.timed == p.timed && q.obj == p.obj
  {
  }

  /** A step moves at most the thread that takes it; signal() and broadcast() move none. */
  lemma OthersUntouched(s: Sys, e: Event, u: Tid)
    requires Enabled(s, e) && (e.Signal? || e.Broadcast? || e.t != u)
    ensures PcOf(Step(s, e), u) == PcOf(s, u)
  {
    if e.Broadcast? { WakeEachMoves(s, e.cv); }
  }

  lemma {:induction false} WakeEachMoves(s: Sys, c: Cv)
    ensures var s' := WakeEach(s, c); s'.pc == s.pc && s'.holder == s.holder && s'.cache == s.cache
                                      && s'.made == s.made && s'.user == s.user
    decreases |Queue(s, c)|
  {
    if Queue(s, c) != [] { WakeEachMoves(WakeHead(s, c), c); }
  }

  /**
   * A call reports a timeout only when it was a timedwait(); what it waits for, and whether with a
   * timeout, is what the monitor sees.
   */
  lemma {:induction false} OnlyTimedWaitsTimeOut(es: seq<Event>, t: Tid)
    requires Runs(INIT, es)
    ensures var s := After(INIT, es); var p := PcOf(s, t);
            && ((p.Waking? || p.Leaving?) && !p.res ==> p.timed)
            && (p.TimedOut? || p.Draining? ==> p.timed)
            && (Enabled(s, Expire(t)) ==> CallOf(es, t).Some? && CallOf(es, t).value.timed)
            && (Enabled(s, Link(t)) ==>
                  match CallOf(es, t)
                  case None => false
                  case Some(c) => NtRefinement.Seen(s, Link(t)) == Some(M.Wait(t, c.cv, c.timed)))
  {
    CallIsKept(es, t);
    TimedOutIsTimed(es, t);
  }

  lemma {:induction false} TimedOutIsTimed(es: seq<Event>, t: Tid)
    requires Runs(INIT, es)
    ensures var p := PcOf(After(INIT, es), t);
            (p.TimedOut? || p.Draining? || ((p.Waking? || p.Leaving?) && !p.res)) ==> p.timed
  {
    if es != [] {
      LastStep(INIT, es);
      var front, e := es[..|es| - 1], es[|es| - 1];
      TimedOutIsTimed(front, t);
      if e.Signal? || e.Broadcast? || e.t != t { OthersUntouched(After(INIT, front), e, t); }
    }
  }

  // ----- mutexes

  /** A mutex changes hands only by Lock and Unlock, and by the release and the relock of a wait on it. */
  lemma MutexChanges(s: Sys, e: Event, m: nat)
    requires Inv(s) && Enabled(s, e)
    ensures HolderOf(Step(s, e), m) ==
            (match e
             case Lock(t, n) => if n == m then Some(t) else HolderOf(s, m)
             case Unlock(_, n) => if n == m then None else HolderOf(s, m)
             case Release(t) => if PcOf(s, t).cv.mutex == m then None else HolderOf(s, m)
             case Relock(t) => if PcOf(s, t).cv.mutex == m then Some(t) else HolderOf(s, m)
             case _ => HolderOf(s, m))
  {
    if e.Broadcast? { WakeEachMoves(s, e.cv); }
  }

  /** A call starts and ends holding its mutex, and in between gives it up: nobody else can be kept out. */
  lemma HeldAtTheEnds(es: seq<Event>, t: Tid)
    requires Runs(INIT, es)
    ensures var s := After(INIT, es); var p := PcOf(s, t);
            p.Entered? || p.Linked? || p.Leaving? ==> HolderOf(s, p.cv.mutex) == Some(t)
  {
    Reachable(es);
    assert ThreadOk(After(INIT, es), t);
  }

  // ----- signals

  /** A signal that finds waiters takes off the oldest, and only it, and gives it the token that ends its wait. */
  lemma SignalWakesOldest(es: seq<Event>, s: Sys, c: Cv)
    requires Runs(INIT, es) && s == After(INIT, es) && Queue(s, c) != []
    ensures var s', o := Step(s, Signal(c)), Queue(s, c)[0];
            && Queue(s', c) == Queue(s, c)[1..] && o !in s'.waiting
            && Sem(s, o) == 0 && Sem(s', o) == 1
            && (forall x :: x != o ==> Sem(s', x) == Sem(s, x) && (x in s'.waiting <==> x in s.waiting))
            && (forall d :: d != c ==> Queue(s', d) == Queue(s, d))
            && o in s.user
            && (PcOf(s, s.user[o]).Asleep? ==> Enabled(s', Take(s.user[o])))
  {
    Reachable(es);
    var o := Queue(s, c)[0];
    assert CvOk(s, c) && o in Queue(s, c) && ObjOk(s, o);
  }

  /** A broadcast takes off all waiters and gives each one token; nobody else is touched. */
  lemma BroadcastWakesAll(es: seq<Event>, s: Sys, c: Cv, x: Obj, d: Cv)
    requires Runs(INIT, es) && s == After(INIT, es)
    ensures var s' := Step(s, Broadcast(c));
            && Queue(s', c) == []
            && (d != c ==> Queue(s', d) == Queue(s, d))
            && Sem(s', x) == Sem(s, x) + (if x in Queue(s, c) then 1 else 0)
            && (x in s'.waiting <==> x in s.waiting && x !in Queue(s, c))
  {
    Reachable(es);
    EachIsWoken(s, c, x, d);
  }

  lemma {:induction false} EachIsWoken(s: Sys, c: Cv, x: Obj, d: Cv)
    requires Inv(s)
    ensures var s' := WakeEach(s, c);
            && Queue(s', c) == []
            && (d != c ==> Queue(s', d) == Queue(s, d))
            && Sem(s', x) == Sem(s, x) + (if x in Queue(s, c) then 1 else 0)
            && (x in s'.waiting <==> x in s.waiting && x !in Queue(s, c))
    decreases |Queue(s, c)|
  {
    var q := Queue(s, c);
    if q != [] {
      assert CvOk(s, c);
      assert x in q <==> x == q[0] || x in q[1..];
      WakeHeadKeeps(s, c);
      EachIsWoken(WakeHead(s, c), c, x, d);
    }
  }

  // ----- calls return

  lemma RunOne(s: Sys, e: Event, rest: seq<Event>)
    requires Enabled(s, e) && Runs(Step(s, e), rest)
    ensures Runs(s, [e] + rest) && After(s, [e] + rest) == After(Step(s, e), rest)
  {
    assert ([e] + rest)[1..] == rest;
  }

  /** The wait of thread `t` is over: it was signalled, or may time out. */
  predicate Over(s: Sys, t: Tid) {
    match PcOf(s, t)
    case Asleep(_, timed, o) => timed || o !in s.waiting
    case TimedOut(_, _, _) => true
    case Draining(_, _, _) => true
    case Waking(_, _, _, _) => true
    case _ => false
  }

  /** What it reports: true exactly when a signaller took it off the list. */
  predicate Reports(s: Sys, t: Tid)
    requires Over(s, t)
  {
    match PcOf(s, t)
    case Asleep(_, _, o) => o !in s.waiting
    case TimedOut(_, _, o) => o !in s.waiting
    case Draining(_, _, _) => true
    case Waking(_, _, _, res) => res
    case _ => false
  }

  /** The steps it takes until it holds its mutex again. */
  function WayBack(s: Sys, t: Tid): seq<Event>
    requires Over(s, t)
  {
    match PcOf(s, t)
    case Asleep(_, _, o) =>
      if o !in s.waiting then [Take(t)] + [Relock(t)] else [Expire(t)] + ([Recheck(t)] + [Relock(t)])
    case TimedOut(_, _, o) =>
      if o !in s.waiting then [Recheck(t)] + ([Drain(t)] + [Relock(t)]) else [Recheck(t)] + [Relock(t)]
    case Draining(_, _, _) => [Drain(t)] + [Relock(t)]
    case _ => [Relock(t)]
  }

  lemma RelockReturns(s: Sys, t: Tid)
    requires PcOf(s, t).Waking? && HolderOf(s, PcOf(s, t).cv.mutex).None?
    ensures var p := PcOf(s, t);
            Runs(s, [Relock(t)]) && PcOf(After(s, [Relock(t)]), t) == Leaving(p.cv, p.timed, p.obj, p.res)
  {
    RunOne(s, Relock(t), []);
    assert [Relock(t)] + [] == [Relock(t)];
  }

  lemma TakeReturns(s: Sys, t: Tid, e: Event)
    requires Enabled(s, e) && (e == Take(t) || e == Drain(t)) && HolderOf(s, PcOf(s, t).cv.mutex).None?
    ensures var p := PcOf(s, t);
            Runs(s, [e] + [Relock(t)])
            && PcOf(After(s, [e] + [Relock(t)]), t) == Leaving(p.cv, p.timed, p.obj, true)
  {
    RelockReturns(Step(s, e), t);
    RunOne(s, e, [Relock(t)]);
  }

  lemma RecheckReturns(s: Sys, t: Tid)
    requires Inv(s) && PcOf(s, t).TimedOut? && HolderOf(s, PcOf(s, t).cv.mutex).None?
    ensures var p := PcOf(s, t);
            Runs(s, WayBack(s, t))
            && PcOf(After(s, WayBack(s, t)), t) == Leaving(p.cv, p.timed, p.obj, p.obj !in s.waiting)
  {
    assert ThreadOk(s, t) && ObjOk(s, PcOf(s, t).obj);
    var u := Step(s, Recheck(t));
    if PcOf(s, t).obj in s.waiting {
      RelockReturns(u, t);
      RunOne(s, Recheck(t), [Relock(t)]);
    } else {
      TakeReturns(u, t, Drain(t));
      RunOne(s, Recheck(t), [Drain(t)] + [Relock(t)]);
    }
  }

  /**
   * In every reachable state, a thread whose wait is over and whose mutex is free can go all the way
   * to the end of its call by itself, and reports a timeout exactly when nobody has signalled it.
   */
  lemma CallReturns(es: seq<Event>, s: Sys, t: Tid)
    requires Runs(INIT, es) && s == After(INIT, es) && Over(s, t) && HolderOf(s, PcOf(s, t).cv.mutex).None?
    ensures var p := PcOf(s, t);
            Runs(s, WayBack(s, t))
            && PcOf(After(s, WayBack(s, t)), t) == Leaving(p.cv, p.timed, p.obj, Reports(s, t))
  {
    Reachable(es);
    var p := PcOf(s, t);
    assert ThreadOk(s, t) && ObjOk(s, p.obj);
    match p
    case Asleep(_, _, o) =>
      if o !in s.waiting {
        TakeReturns(s, t, Take(t));
      } else {
        StepKeeps(s, Expire(t));
        RecheckReturns(Step(s, Expire(t)), t);
        RunOne(s, Expire(t), [Recheck(t)] + [Relock(t)]);
      }
    case TimedOut(_, _, _) => RecheckReturns(s, t);
    case Draining(_, _, _) => TakeReturns(s, t, Drain(t));
    case _ => RelockReturns(s, t);
  }

  /** The beginning of a call: queued last, with no token, and the mutex given up. */
  lemma CallWaits(es: seq<Event>, s: Sys, t: Tid)
    requires Runs(INIT, es) && s == After(INIT, es) && PcOf(s, t).Entered?
    ensures var p := PcOf(s, t);
            && Runs(s, [Link(t)] + [Release(t)])
            && var u := After(s, [Link(t)] + [Release(t)]);
               && PcOf(u, t) == Asleep(p.cv, p.timed, p.obj) && HolderOf(u, p.cv.mutex).None?
               && Queue(u, p.cv) == Queue(s, p.cv) + [p.obj] && p.obj in u.waiting && Sem(u, p.obj) == 0
  {
    Reachable(es);
    assert ThreadOk(s, t) && ObjOk(s, PcOf(s, t).obj);
    var u := Step(s, Link(t));
    RunOne(u, Release(t), []);
    assert [Release(t)] + [] == [Release(t)];
    RunOne(s, Link(t), [Release(t)]);
  }

  // ----- the thread objects lent to foreign threads

  /** Every dummy made is either cached or in use, never both, and none is lost. */
  ghost predicate PoolOk(s: Sys) {
    forall i {:trigger Dummy(i)} :: 0 <= i < s.made ==> (Dummy(i) in s.cache <==> Dummy(i) !in s.user)
  }

  lemma PoolStep(s: Sys, e: Event)
    requires Inv(s) && PoolOk(s) && Enabled(s, e)
    ensures PoolOk(Step(s, e))
  {
    match e
    case Enter(t, cv, timed) =>
      assert s.cache != [] ==> forall o :: o in s.cache <==> o == s.cache[0] || o in s.cache[1..];
    case Leave(t) =>
      assert ThreadOk(s, t) && ObjOk(s, PcOf(s, t).obj);
      assert forall o :: o in [PcOf(s, t).obj] + s.cache <==> o == PcOf(s, t).obj || o in s.cache;
    case Broadcast(c) => WakeEachMoves(s, c);
    case _ =>
  }

  lemma {:induction false} DummiesComeBack(es: seq<Event>)
    requires Runs(INIT, es)
    ensures PoolOk(After(INIT, es))
  {
    if es != [] {
      LastStep(INIT, es);
      var front := es[..|es| - 1];
      DummiesComeBack(front);
      Reachable(front);
      PoolStep(After(INIT, front), es[|es| - 1]);
    }
  }

  /** How many foreign threads are inside a call. */
  function ForeignInside(es: seq<Event>): int {
    if es == [] then 0
    else
      var e := es[|es| - 1];
      ForeignInside(es[..|es| - 1])
      + if e.Enter? && e.t.Foreign? then 1 else if e.Leave? && e.t.Foreign? then -1 else 0
  }

  /** The most foreign threads that were ever inside a call at the same time. */
  function Peak(es: seq<Event>): int {
    if es == [] then 0
    else
      var p := Peak(es[..|es| - 1]);
      if ForeignInside(es) > p then ForeignInside(es) else p
  }

  /** A dummy is made only when none is cached: their number is the most that were ever needed at once. */
  lemma {:induction false} DummiesAreReused(es: seq<Event>)
    requires Runs(INIT, es)
    ensures var s := After(INIT, es); s.made == Peak(es) && |s.cache| == s.made - ForeignInside(es)
  {
    if es != [] {
      LastStep(INIT, es);
      var front, e := es[..|es| - 1], es[|es| - 1];
      DummiesAreReused(front);
      if e.Broadcast? { WakeEachMoves(After(INIT, front), e.cv); }
    }
  }
}
