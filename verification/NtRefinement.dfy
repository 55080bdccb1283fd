/**
 * The NT code implements the monitor. Linking onto the waiter list is where a wait takes
 * effect: from then on the monitor's mutex is free, although the thread keeps the real one until
 * its next step, which only delays others. Consuming a token and timing out in
 * the kernel are invisible; only the critical section after a timeout decides how it ends.
 */
module NtRefinement {
  import opened Common
  import opened Threads
  import opened NtCondition
  import M = Monitor

  /** What the monitor sees of a thread. */
  function StatusOf(s: Sys, t: Tid): M.Status {
    var p := PcOf(s, t);
    if p.Outside? || p.Entered? || p.Leaving? then M.Running
    else if p.Waking? then M.Woken(p.cv, p.res)
    else if p.obj in s.waiting then M.Waiting(p.cv, p.timed)
    else M.Woken(p.cv, true)
  }

  function HolderSeen(s: Sys, m: nat): Option<Tid> {
    var h := HolderOf(s, m);
    if h.Some? && PcOf(s, h.value).Linked? && PcOf(s, h.value).cv.mutex == m then None else h
  }

  function UserOf(s: Sys, o: Obj): Tid { Get(s.user, o, Native(0)) }

  function Users(s: Sys, q: seq<Obj>): seq<Tid> {
    seq(|q|, i requires 0 <= i < |q| => UserOf(s, q[i]))
  }

  function WaitersSeen(s: Sys, c: Cv): seq<Tid> { Users(s, Queue(s, c)) }

  ghost predicate Abs(s: Sys, a: M.State) {
    && (forall t :: M.StatusOf(a, t) == StatusOf(s, t))
    && (forall m :: M.Holder(a, m) == HolderSeen(s, m))
    && (forall c :: M.Waiters(a, c) == WaitersSeen(s, c))
  }

  /** The monitor event a step stands for; None for an invisible step. */
  function Seen(s: Sys, e: Event): Option<M.Event>
    requires Enabled(s, e)
  {
    match e
    case Lock(t, m) => Some(M.Lock(t, m))
    case Unlock(t, m) => Some(M.Unlock(t, m))
    case Link(t) => Some(M.Wait(t, PcOf(s, t).cv, PcOf(s, t).timed))
    case Recheck(t) => if PcOf(s, t).obj in s.waiting then Some(M.Expire(t)) else None
    case Relock(t) => Some(M.Resume(t))
    case Signal(c) => Some(M.Signal(c))
    case Broadcast(c) => Some(M.Broadcast(c))
    case _ => None
  }

  function AbsStep(a: M.State, e: Option<M.Event>): M.State
    requires e.Some? ==> M.Enabled(a, e.value)
  {
    if e.Some? then M.Step(a, e.value) else a
  }

  lemma SameUsers(s: Sys, s': Sys, c: Cv)
    requires Queue(s', c) == Queue(s, c)
    requires forall o :: o in Queue(s, c) ==> UserOf(s', o) == UserOf(s, o)
    ensures WaitersSeen(s', c) == WaitersSeen(s, c)
  {
  }

  lemma MutexEnabled(s: Sys, a: M.State, e: Event)
    requires Inv(s) && Abs(s, a) && Enabled(s, e) && (e.Lock? || e.Unlock? || e.Relock?)
    ensures M.Enabled(a, Seen(s, e).value)
  {
    var m := if e.Relock? then PcOf(s, e.t).cv.mutex else e.m;
    assert M.StatusOf(a, e.t) == StatusOf(s, e.t) && ThreadOk(s, e.t) && M.Holder(a, m) == HolderSeen(s, m);
  }

  lemma MutexHolder(s: Sys, a: M.State, e: Event, m: nat)
    requires Inv(s) && Abs(s, a) && Enabled(s, e) && (e.Lock? || e.Unlock? || e.Relock?)
    requires M.Enabled(a, Seen(s, e).value)
    ensures M.Holder(M.Step(a, Seen(s, e).value), m) == HolderSeen(Step(s, e), m)
  {
    assert M.Holder(a, m) == HolderSeen(s, m) && ThreadOk(s, e.t) && M.StatusOf(a, e.t) == StatusOf(s, e.t);
  }

  lemma SimulatesMutex(s: Sys, a: M.State, e: Event)
    requires Inv(s) && Abs(s, a) && Enabled(s, e) && (e.Lock? || e.Unlock? || e.Relock?)
    ensures M.Enabled(a, Seen(s, e).value) && Abs(Step(s, e), M.Step(a, Seen(s, e).value))
  {
    MutexEnabled(s, a, e);
    var s', a' := Step(s, e), M.Step(a, Seen(s, e).value);
    forall u ensures M.StatusOf(a', u) == StatusOf(s', u) { assert M.StatusOf(a, u) == StatusOf(s, u); }
    forall m ensures M.Holder(a', m) == HolderSeen(s', m) { MutexHolder(s, a, e, m); }
    forall c ensures M.Waiters(a', c) == WaitersSeen(s', c) {
      SameUsers(s, s', c);
      assert M.Waiters(a, c) == WaitersSeen(s, c);
    }
  }

  lemma InvisibleToOthers(s: Sys, e: Event, u: Tid)
    requires Inv(s) && Enabled(s, e) && Seen(s, e).None? && u != e.t
    ensures StatusOf(Step(s, e), u) == StatusOf(s, u)
  {
    assert PcOf(Step(s, e), u) == PcOf(s, u) && Step(s, e).waiting == s.waiting;
  }

  lemma InvisibleToItself(s: Sys, e: Event)
    requires Inv(s) && Enabled(s, e) && Seen(s, e).None?
    ensures StatusOf(Step(s, e), e.t) == StatusOf(s, e.t)
  {
    assert ThreadOk(s, e.t);
    if !PcOf(s, e.t).Outside? { assert ObjOk(s, PcOf(s, e.t).obj); }
  }

  lemma InvisibleStatus(s: Sys, e: Event, u: Tid)
    requires Inv(s) && Enabled(s, e) && Seen(s, e).None?
    ensures StatusOf(Step(s, e), u) == StatusOf(s, u)
  {
    if u == e.t { InvisibleToItself(s, e); } else { InvisibleToOthers(s, e, u); }
  }

  lemma InvisibleHolder(s: Sys, e: Event, m: nat)
    requires Inv(s) && Enabled(s, e) && Seen(s, e).None?
    ensures HolderSeen(Step(s, e), m) == HolderSeen(s, m)
  {
    assert ThreadOk(s, e.t);
  }

  lemma InvisibleWaiters(s: Sys, e: Event, c: Cv)
    requires Inv(s) && Enabled(s, e) && Seen(s, e).None?
    ensures WaitersSeen(Step(s, e), c) == WaitersSeen(s, c)
  {
    assert ThreadOk(s, e.t) && CvOk(s, c);
    if e.Enter? { EnterKeeps(s, e.t, e.cv, e.timed); }
    SameUsers(s, Step(s, e), c);
  }

  lemma SimulatesInvisible(s: Sys, a: M.State, e: Event)
    requires Inv(s) && Abs(s, a) && Enabled(s, e) && Seen(s, e).None?
    ensures Abs(Step(s, e), a)
  {
    forall u { InvisibleStatus(s, e, u); }
    forall m { InvisibleHolder(s, e, m); }
    forall c { InvisibleWaiters(s, e, c); }
  }

  lemma SimulatesLink(s: Sys, a: M.State, t: Tid)
    requires Inv(s) && Abs(s, a) && Enabled(s, Link(t))
    ensures M.Enabled(a, Seen(s, Link(t)).value) && Abs(Step(s, Link(t)), M.Step(a, Seen(s, Link(t)).value))
  {
    var e := Link(t);
    var p, s' := PcOf(s, t), Step(s, e);
    assert ThreadOk(s, t) && M.StatusOf(a, t) == StatusOf(s, t);
    assert M.Holder(a, p.cv.mutex) == HolderSeen(s, p.cv.mutex);
    var a' := M.Step(a, Seen(s, e).value);
    forall u ensures M.StatusOf(a', u) == StatusOf(s', u) {
      assert M.StatusOf(a, u) == StatusOf(s, u) && ThreadOk(s, u);
    }
    forall m ensures M.Holder(a', m) == HolderSeen(s', m) { assert M.Holder(a, m) == HolderSeen(s, m); }
    forall c ensures M.Waiters(a', c) == WaitersSeen(s', c) {
      assert M.Waiters(a, c) == WaitersSeen(s, c);
      if c == p.cv {
        assert WaitersSeen(s', c) == WaitersSeen(s, c) + [t];
      } else {
        SameUsers(s, s', c);
      }
    }
  }

  /** Users of the objects on one list are as distinct as the objects. */
  lemma WaitersDistinct(s: Sys, c: Cv)
    requires Inv(s)
    ensures NoDup(WaitersSeen(s, c))
    ensures forall i :: 0 <= i < |Queue(s, c)| ==>
              var p := PcOf(s, WaitersSeen(s, c)[i]); !p.Outside? && p.obj == Queue(s, c)[i]
  {
    assert CvOk(s, c);
    forall i | 0 <= i < |Queue(s, c)|
      ensures var p := PcOf(s, WaitersSeen(s, c)[i]); !p.Outside? && p.obj == Queue(s, c)[i]
    {
      assert Queue(s, c)[i] in Queue(s, c);
    }
  }

  lemma SimulatesUnlink(s: Sys, a: M.State, t: Tid)
    requires Inv(s) && Abs(s, a) && Enabled(s, Recheck(t)) && PcOf(s, t).obj in s.waiting
    ensures M.Enabled(a, M.Expire(t)) && Abs(Step(s, Recheck(t)), M.Step(a, M.Expire(t)))
  {
    var p, s' := PcOf(s, t), Step(s, Recheck(t));
    assert ThreadOk(s, t) && ObjOk(s, p.obj) && M.StatusOf(a, t) == StatusOf(s, t);
    var a' := M.Step(a, M.Expire(t));
    forall u ensures M.StatusOf(a', u) == StatusOf(s', u) {
      assert M.StatusOf(a, u) == StatusOf(s, u) && ThreadOk(s, u);
    }
    forall m ensures M.Holder(a', m) == HolderSeen(s', m) { assert M.Holder(a, m) == HolderSeen(s, m); }
    forall c ensures M.Waiters(a', c) == WaitersSeen(s', c) {
      assert M.Waiters(a, c) == WaitersSeen(s, c);
      if c == p.cv { UnlinkSeen(s, t); } else { SameUsers(s, s', c); }
    }
  }

  lemma UnlinkSeen(s: Sys, t: Tid)
    requires Inv(s) && Enabled(s, Recheck(t)) && PcOf(s, t).obj in s.waiting
    ensures WaitersSeen(Step(s, Recheck(t)), PcOf(s, t).cv) == Without(WaitersSeen(s, PcOf(s, t).cv), t)
  {
    var p := PcOf(s, t);
    var q, w := Queue(s, p.cv), WaitersSeen(s, p.cv);
    assert p.obj in q && NoDup(q) && UserOf(s, p.obj) == t by {
      assert ThreadOk(s, t) && ObjOk(s, p.obj) && CvOk(s, p.cv);
    }
    WaitersDistinct(s, p.cv);
    var i :| 0 <= i < |q| && q[i] == p.obj;
    UsersCut(s, q, w, i);
    assert WaitersSeen(Step(s, Recheck(t)), p.cv) == Users(s, Without(q, p.obj));
  }

  lemma UsersConcat(s: Sys, a: seq<Obj>, b: seq<Obj>)
    ensures Users(s, a + b) == Users(s, a) + Users(s, b)
  {
  }

  lemma UsersCut(s: Sys, q: seq<Obj>, w: seq<Tid>, i: nat)
    requires w == Users(s, q) && NoDup(q) && NoDup(w) && i < |q|
    ensures Users(s, Without(q, q[i])) == Without(w, w[i])
  {
    WithoutAt(q, i);
    WithoutAt(w, i);
    UsersConcat(s, q[..i], q[i + 1..]);
    assert Users(s, q[..i]) == w[..i];
    assert Users(s, q[i + 1..]) == w[i + 1..];
  }

  lemma SimulatesWake(s: Sys, a: M.State, c: Cv)
    requires Inv(s) && Abs(s, a)
    ensures Abs(WakeHead(s, c), M.WakeOldest(a, c))
  {
    var q, s', a' := Queue(s, c), WakeHead(s, c), M.WakeOldest(a, c);
    assert M.Waiters(a, c) == WaitersSeen(s, c) && CvOk(s, c);
    if q != [] {
      assert q[0] in q && ObjOk(s, q[0]);
      var t := WaitersSeen(s, c)[0];
      forall u ensures M.StatusOf(a', u) == StatusOf(s', u) {
        assert M.StatusOf(a, u) == StatusOf(s, u) && ThreadOk(s, u) && ThreadOk(s, t);
      }
      forall m ensures M.Holder(a', m) == HolderSeen(s', m) { assert M.Holder(a, m) == HolderSeen(s, m); }
      forall d ensures M.Waiters(a', d) == WaitersSeen(s', d) {
        assert M.Waiters(a, d) == WaitersSeen(s, d);
        if d == c {
          assert WaitersSeen(s', c) == WaitersSeen(s, c)[1..];
        } else {
          SameUsers(s, s', d);
        }
      }
    }
  }

  lemma {:induction false} SimulatesWakes(s: Sys, a: M.State, c: Cv)
    requires Inv(s) && Abs(s, a)
    ensures Abs(WakeEach(s, c), M.WakeAll(a, c))
    decreases |Queue(s, c)|
  {
    assert M.Waiters(a, c) == WaitersSeen(s, c);
    if Queue(s, c) != [] {
      SimulatesWake(s, a, c);
      WakeHeadKeeps(s, c);
      SimulatesWakes(WakeHead(s, c), M.WakeOldest(a, c), c);
    }
  }

  /** Forward simulation: every step of the code is one monitor step or none. */
  lemma Simulates(s: Sys, a: M.State, e: Event)
    requires Inv(s) && Abs(s, a) && Enabled(s, e)
    ensures Seen(s, e).Some? ==> M.Enabled(a, Seen(s, e).value)
    ensures Abs(Step(s, e), AbsStep(a, Seen(s, e)))
  {
    match e
    case Link(t) => SimulatesLink(s, a, t);
    case Signal(c) => SimulatesWake(s, a, c);
    case Broadcast(c) => SimulatesWakes(s, a, c);
    case Recheck(t) =>
      if PcOf(s, t).obj in s.waiting { SimulatesUnlink(s, a, t); } else { SimulatesInvisible(s, a, e); }
    case Lock(_, _) => SimulatesMutex(s, a, e);
    case Unlock(_, _) => SimulatesMutex(s, a, e);
    case Relock(_) => SimulatesMutex(s, a, e);
    case _ => SimulatesInvisible(s, a, e);
  }

  // ----- whole runs

  predicate MonitorRuns(a: M.State, es: seq<M.Event>)
    decreases |es|
  {
    es == [] || (M.Enabled(a, es[0]) && MonitorRuns(M.Step(a, es[0]), es[1..]))
  }

  function MonitorAfter(a: M.State, es: seq<M.Event>): M.State
    requires MonitorRuns(a, es)
    decreases |es|
  {
    if es == [] then a else MonitorAfter(M.Step(a, es[0]), es[1..])
  }

  function Trace(s: Sys, es: seq<Event>): seq<M.Event>
    requires Runs(s, es)
    decreases |es|
  {
    if es == [] then []
    else (if Seen(s, es[0]).Some? then [Seen(s, es[0]).value] else []) + Trace(Step(s, es[0]), es[1..])
  }

  lemma {:induction false} TraceRuns(s: Sys, a: M.State, es: seq<Event>)
    requires Inv(s) && Abs(s, a) && Runs(s, es)
    ensures MonitorRuns(a, Trace(s, es)) && Abs(After(s, es), MonitorAfter(a, Trace(s, es)))
    decreases |es|
  {
    if es != [] {
      var e := es[0];
      Simulates(s, a, e);
      StepKeeps(s, e);
      TraceRuns(Step(s, e), AbsStep(a, Seen(s, e)), es[1..]);
      if Seen(s, e).Some? {
        assert Trace(s, es)[1..] == Trace(Step(s, e), es[1..]);
      } else {
        assert Trace(s, es) == Trace(Step(s, e), es[1..]);
      }
    }
  }

  /** Every schedule of the NT code is a run of the monitor, and ends where the monitor ends. */
  lemma NtImplementsMonitor(es: seq<Event>)
    requires Runs(INIT, es)
    ensures MonitorRuns(M.INIT, Trace(INIT, es)) && Abs(After(INIT, es), MonitorAfter(M.INIT, Trace(INIT, es)))
  {
    InitOk();
    TraceRuns(INIT, M.INIT, es);
  }
}
