/**
 * The condition variables of omnithread/nt.cpp with their waiter lists as the code keeps them:
 * waiting_head and waiting_tail of every condition variable, cond_next and cond_prev of every
 * thread object. Any number of condition variables share the thread objects, and each critical
 * section is one step.
 */
module NtPointers {
  import opened Common
  import opened Threads
  import opened NtCondition

  /** A pointer that is not in its map is null. */
  datatype Heap = Heap(
    head: map<Cv, Option<Obj>>,
    tail: map<Cv, Option<Obj>>,
    next: map<Obj, Option<Obj>>,
    prev: map<Obj, Option<Obj>>)

  function Head(h: Heap, c: Cv): Option<Obj> { Get(h.head, c, None) }

  function Tail(h: Heap, c: Cv): Option<Obj> { Get(h.tail, c, None) }

  function Next(h: Heap, o: Obj): Option<Obj> { Get(h.next, o, None) }

  function Prev(h: Heap, o: Obj): Option<Obj> { Get(h.prev, o, None) }

  /** The first critical section of wait() and timedwait(). */
  function LinkLast(h: Heap, c: Cv, me: Obj): Heap {
    var tail := Tail(h, c);
    var g := h.(next := h.next[me := None], prev := h.prev[me := tail], tail := h.tail[c := Some(me)]);
    if Head(h, c).None? || tail.None? then g.(head := h.head[c := Some(me)])
    else g.(next := g.next[tail.value := Some(me)])
  }

  /** The critical section after a timeout, for a thread that is still waiting. */
  function Unlink(h: Heap, c: Cv, me: Obj): Heap {
    var next, prev := Next(h, me), Prev(h, me);
    var g := if prev.Some? then h.(next := h.next[prev.value := next]) else h.(head := h.head[c := next]);
    if next.Some? then g.(prev := g.prev[next.value := prev]) else g.(tail := g.tail[c := prev])
  }

  /** One turn of signal() and broadcast(): the head leaves. */
  function UnlinkHead(h: Heap, c: Cv): Heap
    requires Head(h, c).Some?
  {
    var head := Next(h, Head(h, c).value);
    var g := h.(head := h.head[c := head]);
    if head.None? then g.(tail := h.tail[c := None]) else g.(prev := h.prev[head.value := None])
  }

  /** The whole system: `rest` is everything but the lists, and its queues stay empty. */
  datatype Machine = Machine(rest: Sys, heap: Heap)

  const START := Machine(INIT, Heap(map[], map[], map[], map[]))

  function WakeTurn(m: Machine, c: Cv): Machine {
    var t := Head(m.heap, c);
    if t.None? then m
    else Machine(m.rest.(waiting := m.rest.waiting - {t.value}, sem := m.rest.sem[t.value := Sem(m.rest, t.value) + 1]),
                 UnlinkHead(m.heap, c))
  }

  /** The loop of broadcast(). It ends because each turn clears a flag; an unflagged head never occurs. */
  function WakeLoop(m: Machine, c: Cv): Machine
    decreases |m.rest.waiting|
  {
    var t := Head(m.heap, c);
    if t.None? || t.value !in m.rest.waiting then m else WakeLoop(WakeTurn(m, c), c)
  }

  function PointerStep(m: Machine, e: Event): Machine
    requires Enabled(m.rest, e)
  {
    match e
    case Link(t) =>
      var p := PcOf(m.rest, t);
      Machine(m.rest.(waiting := m.rest.waiting + {p.obj}, pc := m.rest.pc[t := Linked(p.cv, p.timed, p.obj)]),
              LinkLast(m.heap, p.cv, p.obj))
    case Recheck(t) =>
      var p := PcOf(m.rest, t);
      if p.obj in m.rest.waiting then
        Machine(m.rest.(waiting := m.rest.waiting - {p.obj}, pc := m.rest.pc[t := Waking(p.cv, p.timed, p.obj, false)]),
                Unlink(m.heap, p.cv, p.obj))
      else
        m.(rest := Step(m.rest, e))
    case Signal(cv) => WakeTurn(m, cv)
    case Broadcast(cv) => WakeLoop(m, cv)
    case _ => m.(rest := Step(m.rest, e))
  }

  // ----- chains

  /** From head by next the chain is `q`, it ends at tail, and prev is the exact inverse of next. */
  ghost predicate Spells(h: Heap, c: Cv, q: seq<Obj>) {
    && Head(h, c) == (if q == [] then None else Some(q[0]))
    && Tail(h, c) == (if q == [] then None else Some(q[|q| - 1]))
    && forall i :: 0 <= i < |q| ==> NodeOk(h, q, i)
  }

  ghost predicate NodeOk(h: Heap, q: seq<Obj>, i: nat)
    requires i < |q|
  {
    && Next(h, q[i]) == (if i + 1 < |q| then Some(q[i + 1]) else None)
    && Prev(h, q[i]) == (if i > 0 then Some(q[i - 1]) else None)
  }

  ghost predicate Apart(q: seq<Obj>, r: seq<Obj>) {
    forall o :: o in q ==> o !in r
  }

  lemma LinkSpells(h: Heap, c: Cv, q: seq<Obj>, me: Obj)
    requires Spells(h, c, q) && NoDup(q) && me !in q
    ensures Spells(LinkLast(h, c, me), c, q + [me])
  {
    var g, r := LinkLast(h, c, me), q + [me];
    forall i | 0 <= i < |r| ensures NodeOk(g, r, i) {
      if i < |q| { assert NodeOk(h, q, i) && r[i] == q[i]; }
    }
  }

  lemma LinkFrames(h: Heap, c: Cv, q: seq<Obj>, me: Obj, d: Cv, r: seq<Obj>)
    requires Spells(h, c, q) && Spells(h, d, r) && c != d && me !in r && Apart(q, r)
    ensures Spells(LinkLast(h, c, me), d, r)
  {
    var g := LinkLast(h, c, me);
    forall i | 0 <= i < |r| ensures NodeOk(g, r, i) { assert NodeOk(h, r, i) && r[i] in r; }
  }

  lemma UnlinkSpells(h: Heap, c: Cv, q: seq<Obj>, k: nat)
    requires Spells(h, c, q) && NoDup(q) && k < |q|
    ensures Spells(Unlink(h, c, q[k]), c, q[..k] + q[k + 1..])
  {
    var g, r := Unlink(h, c, q[k]), q[..k] + q[k + 1..];
    assert NodeOk(h, q, k);
    forall i | 0 <= i < |r| ensures NodeOk(g, r, i) {
      var j := if i < k then i else i + 1;
      assert NodeOk(h, q, j) && r[i] == q[j];
    }
  }

  lemma UnlinkFrames(h: Heap, c: Cv, q: seq<Obj>, k: nat, d: Cv, r: seq<Obj>)
    requires Spells(h, c, q) && Spells(h, d, r) && c != d && k < |q| && Apart(q, r)
    ensures Spells(Unlink(h, c, q[k]), d, r)
  {
    var g := Unlink(h, c, q[k]);
    assert NodeOk(h, q, k);
    forall i | 0 <= i < |r| ensures NodeOk(g, r, i) {
      assert NodeOk(h, r, i) && r[i] in r;
      assert k > 0 ==> q[k - 1] in q;
      assert k + 1 < |q| ==> q[k + 1] in q;
    }
  }

  lemma HeadLeaves(h: Heap, c: Cv, q: seq<Obj>)
    requires Spells(h, c, q) && NoDup(q) && q != []
    ensures Spells(UnlinkHead(h, c), c, q[1..])
  {
    var g, r := UnlinkHead(h, c), q[1..];
    assert NodeOk(h, q, 0);
    forall i | 0 <= i < |r| ensures NodeOk(g, r, i) { assert NodeOk(h, q, i + 1) && r[i] == q[i + 1]; }
  }

  lemma HeadFrames(h: Heap, c: Cv, q: seq<Obj>, d: Cv, r: seq<Obj>)
    requires Spells(h, c, q) && Spells(h, d, r) && c != d && q != [] && Apart(q, r)
    ensures Spells(UnlinkHead(h, c), d, r)
  {
    var g := UnlinkHead(h, c);
    assert NodeOk(h, q, 0);
    forall i | 0 <= i < |r| ensures NodeOk(g, r, i) {
      assert NodeOk(h, r, i) && r[i] in r;
      assert 1 < |q| ==> q[1] in q;
    }
  }

  // ----- the machine refines the queues of NtCondition

  ghost predicate AllSpelled(h: Heap, s: Sys) {
    forall c :: Spells(h, c, Queue(s, c))
  }

  ghost predicate Refines(m: Machine, s: Sys) {
    m.rest == s.(queue := map[]) && AllSpelled(m.heap, s)
  }

  lemma QueuesApart(s: Sys, c: Cv, d: Cv)
    requires Inv(s) && c != d
    ensures Apart(Queue(s, c), Queue(s, d))
  {
    assert CvOk(s, c) && CvOk(s, d);
  }

  lemma LinkRefines(m: Machine, s: Sys, t: Tid)
    requires Inv(s) && Refines(m, s) && Enabled(s, Link(t))
    ensures Refines(PointerStep(m, Link(t)), Step(s, Link(t)))
  {
    var p, s', h := PcOf(s, t), Step(s, Link(t)), LinkLast(m.heap, PcOf(s, t).cv, PcOf(s, t).obj);
    LinkKeeps(s, t);
    forall d ensures Spells(h, d, Queue(s', d)) {
      assert CvOk(s, p.cv) && CvOk(s, d) && Spells(m.heap, d, Queue(s, d)) && Spells(m.heap, p.cv, Queue(s, p.cv));
      if d == p.cv {
        LinkSpells(m.heap, d, Queue(s, d), p.obj);
      } else {
        QueuesApart(s, p.cv, d);
        LinkFrames(m.heap, p.cv, Queue(s, p.cv), p.obj, d, Queue(s, d));
      }
    }
  }

  lemma RecheckRefines(m: Machine, s: Sys, t: Tid)
    requires Inv(s) && Refines(m, s) && Enabled(s, Recheck(t)) && PcOf(s, t).obj in s.waiting
    ensures Refines(PointerStep(m, Recheck(t)), Step(s, Recheck(t)))
  {
    var p, s' := PcOf(s, t), Step(s, Recheck(t));
    var q := Queue(s, p.cv);
    assert ThreadOk(s, t) && ObjOk(s, p.obj) && CvOk(s, p.cv);
    var k :| 0 <= k < |q| && q[k] == p.obj;
    WithoutAt(q, k);
    forall d ensures Spells(Unlink(m.heap, p.cv, p.obj), d, Queue(s', d)) {
      assert Spells(m.heap, d, Queue(s, d)) && Spells(m.heap, p.cv, q);
      if d == p.cv {
        UnlinkSpells(m.heap, d, q, k);
      } else {
        QueuesApart(s, p.cv, d);
        UnlinkFrames(m.heap, p.cv, q, k, d, Queue(s, d));
      }
    }
  }

  lemma WakeRefines(m: Machine, s: Sys, c: Cv)
    requires Inv(s) && Refines(m, s)
    ensures Refines(WakeTurn(m, c), WakeHead(s, c))
    ensures Head(m.heap, c).Some? <==> Queue(s, c) != []
    ensures Queue(s, c) != [] ==> Head(m.heap, c).value in m.rest.waiting
  {
    var q, s' := Queue(s, c), WakeHead(s, c);
    assert Spells(m.heap, c, q) && CvOk(s, c);
    if q != [] {
      assert q[0] in q;
      forall d ensures Spells(UnlinkHead(m.heap, c), d, Queue(s', d)) {
        assert Spells(m.heap, d, Queue(s, d));
        if d == c {
          HeadLeaves(m.heap, c, q);
        } else {
          QueuesApart(s, c, d);
          HeadFrames(m.heap, c, q, d, Queue(s, d));
        }
      }
    }
  }

  lemma {:induction false} WakeAllRefines(m: Machine, s: Sys, c: Cv)
    requires Inv(s) && Refines(m, s)
    ensures Refines(WakeLoop(m, c), WakeEach(s, c)) && Head(WakeLoop(m, c).heap, c).None?
    decreases |Queue(s, c)|
  {
    WakeRefines(m, s, c);
    if Queue(s, c) != [] {
      WakeHeadKeeps(s, c);
      WakeAllRefines(WakeTurn(m, c), WakeHead(s, c), c);
    }
  }

  /** Steps that leave all lists alone. */
  lemma QuietRefines(m: Machine, s: Sys, e: Event)
    requires Refines(m, s) && Enabled(s, e) && !e.Link? && !e.Signal? && !e.Broadcast?
    requires e.Recheck? ==> PcOf(s, e.t).obj !in s.waiting
    ensures Refines(PointerStep(m, e), Step(s, e))
  {
    var s' := Step(s, e);
    assert s'.queue == s.queue;
    forall c ensures Spells(m.heap, c, Queue(s', c)) { assert Spells(m.heap, c, Queue(s, c)); }
  }

  /** Every critical section on the pointers is the step of NtCondition on the queues. */
  lemma StepRefines(m: Machine, s: Sys, e: Event)
    requires Inv(s) && Refines(m, s) && Enabled(s, e)
    ensures Enabled(m.rest, e) && Refines(PointerStep(m, e), Step(s, e))
  {
    match e
    case Link(t) => LinkRefines(m, s, t);
    case Recheck(t) => if PcOf(s, t).obj in s.waiting { RecheckRefines(m, s, t); } else { QuietRefines(m, s, e); }
    case Signal(cv) => WakeRefines(m, s, cv);
    case Broadcast(cv) => WakeAllRefines(m, s, cv);
    case _ => QuietRefines(m, s, e);
  }

  // ----- whole runs

  predicate PointerRuns(m: Machine, es: seq<Event>)
    decreases |es|
  {
    es == [] || (Enabled(m.rest, es[0]) && PointerRuns(PointerStep(m, es[0]), es[1..]))
  }

  function PointerAfter(m: Machine, es: seq<Event>): Machine
    requires PointerRuns(m, es)
    decreases |es|
  {
    if es == [] then m else PointerAfter(PointerStep(m, es[0]), es[1..])
  }

  lemma {:induction false} RunsRefine(m: Machine, s: Sys, es: seq<Event>)
    requires Inv(s) && Refines(m, s)
    ensures PointerRuns(m, es) <==> Runs(s, es)
    ensures Runs(s, es) ==> Refines(PointerAfter(m, es), After(s, es))
    decreases |es|
  {
    if es != [] && Enabled(s, es[0]) {
      StepRefines(m, s, es[0]);
      StepKeeps(s, es[0]);
      RunsRefine(PointerStep(m, es[0]), Step(s, es[0]), es[1..]);
    }
  }

  /**
   * The code on pointers has the same schedules as the system on queues, and along each of them the
   * lists of all condition variables spell the queues, so every result about the queues is one
   * about the code.
   */
  lemma PointersImplementQueues(es: seq<Event>)
    ensures PointerRuns(START, es) <==> Runs(INIT, es)
    ensures Runs(INIT, es) ==> Refines(PointerAfter(START, es), After(INIT, es))
  {
    InitOk();
    forall c ensures Spells(START.heap, c, Queue(INIT, c)) {}
    RunsRefine(START, INIT, es);
  }

  /**
   * In every reachable state the chain of each condition variable from waiting_head by cond_next is
   * finite and without repetition, ends at waiting_tail, has cond_prev as its exact inverse, and
   * holds exactly the thread objects that are flagged as waiting and in use for that variable.
   */
  lemma ChainsAreExact(es: seq<Event>, c: Cv) returns (chain: seq<Obj>)
    requires PointerRuns(START, es)
    ensures var m := PointerAfter(START, es);
      && Spells(m.heap, c, chain) && NoDup(chain)
      && forall o :: o in chain <==>
           o in m.rest.waiting && o in m.rest.user && !PcOf(m.rest, m.rest.user[o]).Outside?
           && PcOf(m.rest, m.rest.user[o]).cv == c
  {
    PointersImplementQueues(es);
    InitOk();
    RunKeeps(INIT, es);
    var s, m := After(INIT, es), PointerAfter(START, es);
    chain := Queue(s, c);
    assert Spells(m.heap, c, chain) && CvOk(s, c);
    forall o ensures o in chain <==>
      o in s.waiting && o in s.user && !PcOf(s, s.user[o]).Outside? && PcOf(s, s.user[o]).cv == c
    {
      assert ObjOk(s, o);
    }
  }
}
