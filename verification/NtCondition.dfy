/**
 * The condition variable of omnithread/nt.cpp as an interleaved system: any number of threads,
 * condition variables and mutexes, one atomic step per critical section, one program point per
 * thread. A step that would block is a step whose guard is false.
 */
module NtCondition {
  import opened Common
  import opened Threads

  /** A thread object: a native thread's own one, or a dummy lent to a foreign thread. */
  datatype Obj = Own(id: nat) | Dummy(id: nat)

  /** Where a thread is inside wait() or timedwait(). */
  datatype Pc =
    | Outside
    | Entered(cv: Cv, timed: bool, obj: Obj)             // has a thread object, mutex held
    | Linked(cv: Cv, timed: bool, obj: Obj)              // on the waiter list, mutex still held
    | Asleep(cv: Cv, timed: bool, obj: Obj)              // mutex released, in the first wait
    | TimedOut(cv: Cv, timed: bool, obj: Obj)            // the first wait timed out
    | Draining(cv: Cv, timed: bool, obj: Obj)            // signalled after the timeout: second wait
    | Waking(cv: Cv, timed: bool, obj: Obj, res: bool)   // about to take the mutex again
    | Leaving(cv: Cv, timed: bool, obj: Obj, res: bool)  // mutex held, about to return res

  datatype Sys = Sys(
    pc: map<Tid, Pc>,
    holder: map<nat, Tid>,
    queue: map<Cv, seq<Obj>>,    // chain from waiting_head by cond_next; NtPointers has the pointers
    waiting: set<Obj>,           // cond_waiting
    sem: map<Obj, nat>,          // cond_semaphore
    cache: seq<Obj>,
    made: nat,                  // dummies created so far
    user: map<Obj, Tid>)         // who holds a thread object during a call

  datatype Event =
    | Lock(t: Tid, m: nat)
    | Unlock(t: Tid, m: nat)
    | Enter(t: Tid, cv: Cv, timed: bool)
    | Link(t: Tid)
    | Release(t: Tid)
    | Take(t: Tid)
    | Expire(t: Tid)
    | Recheck(t: Tid)
    | Drain(t: Tid)
    | Relock(t: Tid)
    | Leave(t: Tid)
    | Signal(cv: Cv)
    | Broadcast(cv: Cv)

  const INIT := Sys(map[], map[], map[], {}, map[], [], 0, map[])

  function PcOf(s: Sys, t: Tid): Pc { Get(s.pc, t, Outside) }

  function HolderOf(s: Sys, m: nat): Option<Tid> {
    if m in s.holder then Some(s.holder[m]) else None
  }

  function Queue(s: Sys, c: Cv): seq<Obj> { Get(s.queue, c, []) }

  function Sem(s: Sys, o: Obj): nat { Get(s.sem, o, 0) }

  /** On the list, or taken off it without having consumed the token. */
  predicate InWait(p: Pc) { p.Linked? || p.Asleep? || p.TimedOut? }

  // ----- steps

  /** The thread object the helper's constructor picks for a caller. */
  function Borrow(s: Sys, t: Tid): Obj {
    if t.Native? then Own(t.id) else if s.cache != [] then s.cache[0] else Dummy(s.made)
  }

  predicate Enabled(s: Sys, e: Event) {
    match e
    case Lock(t, m) => PcOf(s, t).Outside? && HolderOf(s, m).None?
    case Unlock(t, m) => PcOf(s, t).Outside? && HolderOf(s, m) == Some(t)
    case Enter(t, cv, _) => PcOf(s, t).Outside? && HolderOf(s, cv.mutex) == Some(t)
    case Link(t) => PcOf(s, t).Entered?
    case Release(t) => PcOf(s, t).Linked?
    case Take(t) => PcOf(s, t).Asleep? && Sem(s, PcOf(s, t).obj) > 0
    case Expire(t) => PcOf(s, t).Asleep? && PcOf(s, t).timed && Sem(s, PcOf(s, t).obj) == 0
    case Recheck(t) => PcOf(s, t).TimedOut?
    case Drain(t) => PcOf(s, t).Draining? && Sem(s, PcOf(s, t).obj) > 0
    case Relock(t) => PcOf(s, t).Waking? && HolderOf(s, PcOf(s, t).cv.mutex).None?
    case Leave(t) => PcOf(s, t).Leaving?
    case Signal(_) => true
    case Broadcast(_) => true
  }

  /** One turn of signal(): unlink the head, clear its flag, release its semaphore. */
  function WakeHead(s: Sys, c: Cv): Sys {
    var q := Queue(s, c);
    if q == [] then s
    else s.(queue := s.queue[c := q[1..]],
            waiting := s.waiting - {q[0]},
            sem := s.sem[q[0] := Sem(s, q[0]) + 1])
  }

  function WakeEach(s: Sys, c: Cv): Sys
    decreases |Queue(s, c)|
  {
    if Queue(s, c) == [] then s else WakeEach(WakeHead(s, c), c)
  }

  function Consume(s: Sys, t: Tid): Sys
    requires PcOf(s, t).Asleep? || PcOf(s, t).Draining?
    requires Sem(s, PcOf(s, t).obj) > 0
  {
    var p := PcOf(s, t);
    s.(sem := s.sem[p.obj := Sem(s, p.obj) - 1], pc := s.pc[t := Waking(p.cv, p.timed, p.obj, true)])
  }

  function Step(s: Sys, e: Event): Sys
    requires Enabled(s, e)
  {
    match e
    case Lock(t, m) => s.(holder := s.holder[m := t])
    case Unlock(t, m) => s.(holder := s.holder - {m})
    case Enter(t, cv, timed) =>
      var o := Borrow(s, t);
      s.(pc := s.pc[t := Entered(cv, timed, o)],
         user := s.user[o := t],
         cache := if t.Foreign? && s.cache != [] then s.cache[1..] else s.cache,
         made := if t.Foreign? && s.cache == [] then s.made + 1 else s.made)
    case Link(t) =>
      var p := PcOf(s, t);
      s.(queue := s.queue[p.cv := Queue(s, p.cv) + [p.obj]],
         waiting := s.waiting + {p.obj},
         pc := s.pc[t := Linked(p.cv, p.timed, p.obj)])
    case Release(t) =>
      var p := PcOf(s, t);
      s.(holder := s.holder - {p.cv.mutex}, pc := s.pc[t := Asleep(p.cv, p.timed, p.obj)])
    case Take(t) => Consume(s, t)
    case Expire(t) =>
      var p := PcOf(s, t);
      s.(pc := s.pc[t := TimedOut(p.cv, p.timed, p.obj)])
    case Recheck(t) =>
      var p := PcOf(s, t);
      if p.obj in s.waiting then
        s.(queue := s.queue[p.cv := Without(Queue(s, p.cv), p.obj)],
           waiting := s.waiting - {p.obj},
           pc := s.pc[t := Waking(p.cv, p.timed, p.obj, false)])
      else
        s.(pc := s.pc[t := Draining(p.cv, p.timed, p.obj)])
    case Drain(t) => Consume(s, t)
    case Relock(t) =>
      var p := PcOf(s, t);
      s.(holder := s.holder[p.cv.mutex := t], pc := s.pc[t := Leaving(p.cv, p.timed, p.obj, p.res)])
    case Leave(t) =>
      var p := PcOf(s, t);
      s.(pc := s.pc[t := Outside],
         user := s.user - {p.obj},
         cache := if t.Foreign? then [p.obj] + s.cache else s.cache)
    case Signal(cv) => WakeHead(s, cv)
    case Broadcast(cv) => WakeEach(s, cv)
  }

  // ----- what every step keeps

  predicate Fits(t: Tid, o: Obj) {
    if t.Native? then o == Own(t.id) else o.Dummy?
  }

  predicate ThreadOk(s: Sys, t: Tid) {
    var p := PcOf(s, t);
    !p.Outside? ==>
      && p.obj in s.user && s.user[p.obj] == t
      && Fits(t, p.obj)
      && (p.TimedOut? ==> p.timed)
      && (p.Entered? || p.Linked? || p.Leaving? ==> HolderOf(s, p.cv.mutex) == Some(t))
  }

  /** The semaphore law: 1 exactly between being unlinked by a signaller and consuming the token. */
  predicate ObjOk(s: Sys, o: Obj) {
    if o !in s.user then o !in s.waiting && Sem(s, o) == 0
    else
      var p := PcOf(s, s.user[o]);
      && !p.Outside? && p.obj == o
      && (o.Dummy? ==> o.id < s.made)
      && if InWait(p) then
           (if o in s.waiting then Sem(s, o) == 0 && o in Queue(s, p.cv) else Sem(s, o) == 1)
         else
           o !in s.waiting && Sem(s, o) == (if p.Draining? then 1 else 0)
  }

  ghost predicate CvOk(s: Sys, c: Cv) {
    && NoDup(Queue(s, c))
    && forall o :: o in Queue(s, c) ==>
         && o in s.waiting && o in s.user
         && InWait(PcOf(s, s.user[o])) && PcOf(s, s.user[o]).cv == c && PcOf(s, s.user[o]).obj == o
  }

  ghost predicate CacheOk(s: Sys) {
    && NoDup(s.cache)
    && forall o :: o in s.cache ==> o.Dummy? && o.id < s.made && o !in s.user
  }

  ghost predicate Inv(s: Sys) {
    && (forall t :: ThreadOk(s, t))
    && (forall o :: ObjOk(s, o))
    && (forall c :: CvOk(s, c))
    && CacheOk(s)
  }

  lemma EnterFree(s: Sys, t: Tid)
    requires Inv(s) && PcOf(s, t).Outside?
    ensures Borrow(s, t) !in s.user && Borrow(s, t) !in s.waiting && Sem(s, Borrow(s, t)) == 0
  {
    var o := Borrow(s, t);
    assert ObjOk(s, o);
    assert o in s.user ==> ThreadOk(s, s.user[o]);
  }

  lemma EnterKeeps(s: Sys, t: Tid, cv: Cv, timed: bool)
    requires Inv(s) && Enabled(s, Enter(t, cv, timed))
    ensures Inv(Step(s, Enter(t, cv, timed)))
    ensures Borrow(s, t) !in s.user && Borrow(s, t) !in s.waiting && Sem(s, Borrow(s, t)) == 0
  {
    var s' := Step(s, Enter(t, cv, timed));
    EnterFree(s, t);
    forall u ensures ThreadOk(s', u) { assert ThreadOk(s, u); }
    forall x ensures ObjOk(s', x) { EnterObj(s, t, cv, timed, x); }
    forall c ensures CvOk(s', c) { assert CvOk(s, c); }
    EnterCache(s, t, cv, timed);
  }

  lemma EnterObj(s: Sys, t: Tid, cv: Cv, timed: bool, x: Obj)
    requires Inv(s) && Enabled(s, Enter(t, cv, timed))
    ensures ObjOk(Step(s, Enter(t, cv, timed)), x)
  {
    EnterFree(s, t);
    assert ObjOk(s, x);
  }

  lemma EnterCache(s: Sys, t: Tid, cv: Cv, timed: bool)
    requires Inv(s) && Enabled(s, Enter(t, cv, timed))
    ensures CacheOk(Step(s, Enter(t, cv, timed)))
  {
    assert s.cache != [] ==> forall o :: o in s.cache <==> o == s.cache[0] || o in s.cache[1..];
  }

  lemma LinkKeeps(s: Sys, t: Tid)
    requires Inv(s) && Enabled(s, Link(t))
    ensures Inv(Step(s, Link(t)))
    ensures PcOf(s, t).obj !in s.waiting && Sem(s, PcOf(s, t).obj) == 0
  {
    var p, s' := PcOf(s, t), Step(s, Link(t));
    assert ThreadOk(s, t) && ObjOk(s, p.obj);
    forall u ensures ThreadOk(s', u) { assert ThreadOk(s, u); }
    forall x ensures ObjOk(s', x) { assert ObjOk(s, x); }
    forall c ensures CvOk(s', c) { assert CvOk(s, c); }
  }

  lemma WakeHeadKeeps(s: Sys, c: Cv)
    requires Inv(s)
    ensures Inv(WakeHead(s, c))
  {
    var q, s' := Queue(s, c), WakeHead(s, c);
    if q != [] {
      assert CvOk(s, c) && ObjOk(s, q[0]) && q[0] in q;
      assert forall o :: o in q[1..] <==> o in q && o != q[0];
      forall u ensures ThreadOk(s', u) { assert ThreadOk(s, u); }
      forall x ensures ObjOk(s', x) { assert ObjOk(s, x); }
      forall d ensures CvOk(s', d) { assert CvOk(s, d); }
    }
  }

  lemma {:induction false} WakeEachKeeps(s: Sys, c: Cv)
    requires Inv(s)
    ensures Inv(WakeEach(s, c))
    decreases |Queue(s, c)|
  {
    if Queue(s, c) != [] {
      WakeHeadKeeps(s, c);
      WakeEachKeeps(WakeHead(s, c), c);
    }
  }

  lemma RecheckKeeps(s: Sys, t: Tid)
    requires Inv(s) && Enabled(s, Recheck(t))
    ensures Inv(Step(s, Recheck(t)))
  {
    var p, s' := PcOf(s, t), Step(s, Recheck(t));
    assert ThreadOk(s, t) && ObjOk(s, p.obj) && CvOk(s, p.cv);
    WithoutKeeps(Queue(s, p.cv), p.obj);
    forall u ensures ThreadOk(s', u) { assert ThreadOk(s, u); }
    forall x ensures ObjOk(s', x) { assert ObjOk(s, x); }
    forall c ensures CvOk(s', c) { assert CvOk(s, c); }
  }

  lemma LeaveKeeps(s: Sys, t: Tid)
    requires Inv(s) && Enabled(s, Leave(t))
    ensures Inv(Step(s, Leave(t)))
  {
    var p, s' := PcOf(s, t), Step(s, Leave(t));
    assert ThreadOk(s, t) && ObjOk(s, p.obj);
    assert forall o :: o in s'.cache ==> o in s.cache || o == p.obj;
    forall u ensures ThreadOk(s', u) { assert ThreadOk(s, u); }
    forall x ensures ObjOk(s', x) { assert ObjOk(s, x); }
    forall c ensures CvOk(s', c) { assert CvOk(s, c); }
  }

  /** Steps that move one thread and at most touch a mutex or that thread's own semaphore. */
  predicate Local(e: Event) {
    e.Lock? || e.Unlock? || e.Release? || e.Take? || e.Expire? || e.Drain? || e.Relock?
  }

  lemma LocalThread(s: Sys, e: Event, u: Tid)
    requires Inv(s) && Enabled(s, e) && Local(e)
    ensures ThreadOk(Step(s, e), u)
  {
    assert ThreadOk(s, u) && ThreadOk(s, e.t);
  }

  lemma LocalObj(s: Sys, e: Event, o: Obj)
    requires Inv(s) && Enabled(s, e) && Local(e)
    ensures ObjOk(Step(s, e), o)
  {
    assert ObjOk(s, o) && ThreadOk(s, e.t);
    if !PcOf(s, e.t).Outside? { assert ObjOk(s, PcOf(s, e.t).obj); }
  }

  lemma LocalCv(s: Sys, e: Event, c: Cv)
    requires Inv(s) && Enabled(s, e) && Local(e)
    ensures CvOk(Step(s, e), c)
  {
    assert CvOk(s, c) && ThreadOk(s, e.t);
    if !PcOf(s, e.t).Outside? { assert ObjOk(s, PcOf(s, e.t).obj); }
  }

  lemma LocalKeeps(s: Sys, e: Event)
    requires Inv(s) && Enabled(s, e)
    requires Local(e)
    ensures Inv(Step(s, e))
  {
    var s' := Step(s, e);
    forall u ensures ThreadOk(s', u) { LocalThread(s, e, u); }
    forall x ensures ObjOk(s', x) { LocalObj(s, e, x); }
    forall c ensures CvOk(s', c) { LocalCv(s, e, c); }
  }

  lemma StepKeeps(s: Sys, e: Event)
    requires Inv(s) && Enabled(s, e)
    ensures Inv(Step(s, e))
  {
    match e
    case Enter(t, cv, timed) => EnterKeeps(s, t, cv, timed);
    case Link(t) => LinkKeeps(s, t);
    case Recheck(t) => RecheckKeeps(s, t);
    case Leave(t) => LeaveKeeps(s, t);
    case Signal(cv) => WakeHeadKeeps(s, cv);
    case Broadcast(cv) => WakeEachKeeps(s, cv);
    case _ => LocalKeeps(s, e);
  }

  // ----- whole runs

  /** `es` is a schedule the system can follow from `s`. */
  predicate Runs(s: Sys, es: seq<Event>)
    decreases |es|
  {
    es == [] || (Enabled(s, es[0]) && Runs(Step(s, es[0]), es[1..]))
  }

  function After(s: Sys, es: seq<Event>): Sys
    requires Runs(s, es)
    decreases |es|
  {
    if es == [] then s else After(Step(s, es[0]), es[1..])
  }

  lemma {:induction false} RunKeeps(s: Sys, es: seq<Event>)
    requires Inv(s) && Runs(s, es)
    ensures Inv(After(s, es))
    decreases |es|
  {
    if es != [] {
      StepKeeps(s, es[0]);
      RunKeeps(Step(s, es[0]), es[1..]);
    }
  }

  lemma InitOk()
    ensures Inv(INIT)
  {
    forall t ensures ThreadOk(INIT, t) {}
    forall o ensures ObjOk(INIT, o) {}
    forall c ensures CvOk(INIT, c) {}
  }

  /**
   * The semaphore law over every interleaving: a semaphore is 0 or 1, and 1 exactly while some
   * thread has been taken off its list by a signaller and has not consumed the token. So a wait
   * starts at 0, the second wait of timedwait() never blocks, and a cached dummy is clean.
   */
  lemma {:induction false} SemaphoreLaw(es: seq<Event>, o: Obj)
    requires Runs(INIT, es)
    ensures var s := After(INIT, es);
            && (Sem(s, o) == 0 || Sem(s, o) == 1)
            && (Sem(s, o) == 1 <==> o in s.user && o !in s.waiting
                                    && (InWait(PcOf(s, s.user[o])) || PcOf(s, s.user[o]).Draining?))
            && (o in s.cache ==> o !in s.user && o !in s.waiting && Sem(s, o) == 0)
    ensures var s := After(INIT, es);
            forall t :: (PcOf(s, t).Draining? ==> Enabled(s, Drain(t)))
                     && (PcOf(s, t).Entered? ==> Sem(s, PcOf(s, t).obj) == 0)
  {
    InitOk();
    RunKeeps(INIT, es);
    var s := After(INIT, es);
    assert ObjOk(s, o);
    forall t
      ensures (PcOf(s, t).Draining? ==> Enabled(s, Drain(t)))
           && (PcOf(s, t).Entered? ==> Sem(s, PcOf(s, t).obj) == 0)
    {
      assert ThreadOk(s, t);
      if !PcOf(s, t).Outside? { assert ObjOk(s, PcOf(s, t).obj); }
    }
  }

  /**
   * The waiter lists over every interleaving: no object is on a list twice or on two lists, and
   * cond_waiting is set exactly for the objects on a list.
   */
  lemma {:induction false} WaiterLists(es: seq<Event>, o: Obj, c: Cv, d: Cv)
    requires Runs(INIT, es)
    ensures var s := After(INIT, es);
            && NoDup(Queue(s, c))
            && (o in Queue(s, c) && o in Queue(s, d) ==> c == d)
            && (o in s.waiting <==> o in s.user && !PcOf(s, s.user[o]).Outside?
                                    && o in Queue(s, PcOf(s, s.user[o]).cv))
  {
    InitOk();
    RunKeeps(INIT, es);
    var s := After(INIT, es);
    assert ObjOk(s, o) && CvOk(s, c) && CvOk(s, d);
    if o in s.user { assert CvOk(s, PcOf(s, s.user[o]).cv); }
  }

  /**
   * No lost wakeup: a thread that gave up its mutex inside wait() or timedwait(), and neither
   * holds a token nor has left, is on the list, so a signal that finds the list empty
   * has nobody to miss.
   */
  lemma {:induction false} NoLostWakeup(es: seq<Event>, c: Cv, t: Tid)
    requires Runs(INIT, es)
    ensures var s := After(INIT, es); var p := PcOf(s, t);
            (p.Asleep? || p.TimedOut?) && p.cv == c && Queue(s, c) == [] ==> Sem(s, p.obj) == 1
    ensures var s := After(INIT, es); var p := PcOf(s, t);
            !p.Outside? && HolderOf(s, p.cv.mutex) != Some(t) ==>
              !p.Entered? && (p.obj in Queue(s, p.cv) || Sem(s, p.obj) == 1 || p.Waking?)
  {
    InitOk();
    RunKeeps(INIT, es);
    var s := After(INIT, es);
    assert ThreadOk(s, t);
    if !PcOf(s, t).Outside? { assert ObjOk(s, PcOf(s, t).obj); }
  }
}
