/**
 * What a run of the NT condition variable has done, kept beside its state. The n-th waiter
 * linked on a condition variable holds ticket n-1 of that variable.
 */
module NtHistory {
  import opened Common
  import opened Threads
  import opened NtCondition

  datatype Hist = Hist(
    ticket: map<Obj, nat>,          // of the current or last call made with this object
    linked: map<Cv, nat>,           // tickets handed out
    woken: map<Cv, seq<nat>>,       // tickets signallers took off the list, in that order
    expired: map<Cv, set<nat>>,     // tickets that took themselves off after a timeout
    taken: map<Cv, nat>)            // tokens consumed

  const BLANK := Hist(map[], map[], map[], map[], map[])

  function Ticket(h: Hist, o: Obj): nat { Get(h.ticket, o, 0) }
  function LinkedOn(h: Hist, c: Cv): nat { Get(h.linked, c, 0) }
  function Woken(h: Hist, c: Cv): seq<nat> { Get(h.woken, c, []) }
  function Expired(h: Hist, c: Cv): set<nat> { Get(h.expired, c, {}) }
  function Taken(h: Hist, c: Cv): nat { Get(h.taken, c, 0) }

  function RecordWake(s: Sys, h: Hist, c: Cv): Hist {
    var q := Queue(s, c);
    if q == [] then h else h.(woken := h.woken[c := Woken(h, c) + [Ticket(h, q[0])]])
  }

  function RecordWakes(s: Sys, h: Hist, c: Cv): Hist
    decreases |Queue(s, c)|
  {
    if Queue(s, c) == [] then h else RecordWakes(WakeHead(s, c), RecordWake(s, h, c), c)
  }

  function Record(s: Sys, h: Hist, e: Event): Hist
    requires Enabled(s, e)
  {
    match e
    case Link(t) =>
      var p := PcOf(s, t);
      h.(ticket := h.ticket[p.obj := LinkedOn(h, p.cv)], linked := h.linked[p.cv := LinkedOn(h, p.cv) + 1])
    case Recheck(t) =>
      var p := PcOf(s, t);
      if p.obj in s.waiting then h.(expired := h.expired[p.cv := Expired(h, p.cv) + {Ticket(h, p.obj)}]) else h
    case Take(t) => var c := PcOf(s, t).cv; h.(taken := h.taken[c := Taken(h, c) + 1])
    case Drain(t) => var c := PcOf(s, t).cv; h.(taken := h.taken[c := Taken(h, c) + 1])
    case Signal(c) => RecordWake(s, h, c)
    case Broadcast(c) => RecordWakes(s, h, c)
    case _ => h
  }

  function HistAfter(s: Sys, h: Hist, es: seq<Event>): Hist
    requires Runs(s, es)
    decreases |es|
  {
    if es == [] then h else HistAfter(Step(s, es[0]), Record(s, h, es[0]), es[1..])
  }

  // ----- tickets that did not expire, in the order they were handed out

  function Survivors(n: nat, gone: set<nat>): seq<nat> {
    if n == 0 then []
    else if n - 1 in gone then Survivors(n - 1, gone)
    else Survivors(n - 1, gone) + [n - 1]
  }

  lemma {:induction false} SurvivorsAre(n: nat, gone: set<nat>)
    ensures forall k :: k in Survivors(n, gone) <==> 0 <= k < n && k !in gone
    ensures NoDup(Survivors(n, gone))
  {
    if n > 0 { SurvivorsAre(n - 1, gone); }
  }

  lemma {:induction false} SurvivorsAbove(n: nat, gone: set<nat>, k: nat)
    requires k >= n
    ensures Survivors(n, gone + {k}) == Survivors(n, gone)
  {
    if n > 0 { SurvivorsAbove(n - 1, gone, k); }
  }

  lemma {:induction false} WithoutInFront<T>(s: seq<T>, x: T, k: T)
    requires x != k
    ensures Without(s + [x], k) == Without(s, k) + [x]
  {
    if s == [] {
      assert s + [x] == [x];
    } else {
      assert (s + [x])[0] == s[0] && (s + [x])[1..] == s[1..] + [x];
      if s[0] != k {
        WithoutInFront(s[1..], x, k);
      }
    }
  }

  lemma WithoutLast<T>(s: seq<T>, k: T)
    requires k !in s
    ensures Without(s + [k], k) == s
  {
    if s == [] {
      assert s + [k] == [k];
    } else {
      assert (s + [k])[0] == s[0] && (s + [k])[1..] == s[1..] + [k];
      WithoutLast(s[1..], k);
    }
  }

  lemma {:induction false} SurvivorsLose(n: nat, gone: set<nat>, k: nat)
    requires k < n && k !in gone
    ensures Survivors(n, gone + {k}) == Without(Survivors(n, gone), k)
  {
    var a := Survivors(n - 1, gone);
    if k == n - 1 {
      SurvivorsAbove(n - 1, gone, k);
      SurvivorsAre(n - 1, gone);
      WithoutLast(a, k);
    } else {
      SurvivorsLose(n - 1, gone, k);
      WithoutInFront<nat>(a, n - 1, k);
    }
  }

  // ----- the history invariant

  function Tickets(h: Hist, q: seq<Obj>): seq<nat> {
    seq(|q|, i requires 0 <= i < |q| => Ticket(h, q[i]))
  }

  predicate Owes(s: Sys, c: Cv, o: Obj) {
    o in s.user && Sem(s, o) == 1 && !PcOf(s, s.user[o]).Outside? && PcOf(s, s.user[o]).cv == c
  }

  /** Objects of condition variable `c` whose token has been issued and not consumed. */
  function Outstanding(s: Sys, c: Cv): set<Obj> {
    set o | o in s.user && Owes(s, c, o)
  }

  lemma AsMany(s: Sys, s': Sys, c: Cv)
    requires forall o :: Owes(s', c, o) == Owes(s, c, o)
    ensures |Outstanding(s', c)| == |Outstanding(s, c)|
  {
    assert Outstanding(s', c) == Outstanding(s, c);
  }

  lemma OneMore(s: Sys, s': Sys, c: Cv, x: Obj)
    requires forall o :: Owes(s', c, o) == (Owes(s, c, o) || o == x)
    requires !Owes(s, c, x)
    ensures |Outstanding(s', c)| == |Outstanding(s, c)| + 1
  {
    assert Owes(s', c, x);
    assert Outstanding(s', c) == Outstanding(s, c) + {x};
  }

  predicate CallOk(s: Sys, h: Hist, o: Obj) {
    o in s.user ==>
      var p := PcOf(s, s.user[o]);
      (p.Draining? || (InWait(p) && o !in s.waiting) ==> Ticket(h, o) in Woken(h, p.cv))
      && (p.Waking? || p.Leaving? ==>
            if p.res then Ticket(h, o) in Woken(h, p.cv) else Ticket(h, o) in Expired(h, p.cv))
  }

  /** First in, first out: the tickets still in the game are the woken ones, then the queue. */
  ghost predicate OrderOk(s: Sys, h: Hist, c: Cv) {
    && (forall k :: k in Expired(h, c) ==> k < LinkedOn(h, c))
    && Survivors(LinkedOn(h, c), Expired(h, c)) == Woken(h, c) + Tickets(h, Queue(s, c))
  }

  predicate CountOk(s: Sys, h: Hist, c: Cv) {
    |Woken(h, c)| == Taken(h, c) + |Outstanding(s, c)|
  }

  ghost predicate HistInv(s: Sys, h: Hist) {
    && Inv(s)
    && (forall o :: CallOk(s, h, o))
    && (forall c :: OrderOk(s, h, c))
    && (forall c :: CountOk(s, h, c))
  }

  /** Events that change no queue, no semaphore and no record. */
  predicate Quiet(s: Sys, e: Event)
    requires Enabled(s, e)
  {
    e.Lock? || e.Unlock? || e.Enter? || e.Release? || e.Expire? || e.Relock? || e.Leave?
    || (e.Recheck? && PcOf(s, e.t).obj !in s.waiting)
  }

  lemma EnterOwes(s: Sys, e: Event, c: Cv, o: Obj)
    requires Inv(s) && Enabled(s, e) && e.Enter?
    ensures Owes(Step(s, e), c, o) == Owes(s, c, o)
  {
    EnterFree(s, e.t);
    assert ObjOk(s, o);
  }

  lemma QuietOwes(s: Sys, e: Event, c: Cv, o: Obj)
    requires Inv(s) && Enabled(s, e) && Quiet(s, e)
    ensures Owes(Step(s, e), c, o) == Owes(s, c, o)
  {
    if e.Enter? {
      EnterOwes(s, e, c, o);
    } else {
      assert ThreadOk(s, e.t) && ObjOk(s, o);
      if !PcOf(s, e.t).Outside? { assert ObjOk(s, PcOf(s, e.t).obj); }
    }
  }

  lemma QuietCall(s: Sys, h: Hist, e: Event, o: Obj)
    requires Inv(s) && Enabled(s, e) && Quiet(s, e) && CallOk(s, h, o)
    ensures CallOk(Step(s, e), h, o)
  {
    assert ThreadOk(s, e.t) && ObjOk(s, o);
    if !PcOf(s, e.t).Outside? { assert ObjOk(s, PcOf(s, e.t).obj); }
  }

  lemma QuietKeeps(s: Sys, h: Hist, e: Event)
    requires HistInv(s, h) && Enabled(s, e) && Quiet(s, e)
    ensures HistInv(Step(s, e), Record(s, h, e))
  {
    var s' := Step(s, e);
    StepKeeps(s, e);
    forall o ensures CallOk(s', h, o) { assert CallOk(s, h, o); QuietCall(s, h, e, o); }
    forall c ensures OrderOk(s', h, c) && CountOk(s', h, c) {
      assert OrderOk(s, h, c) && CountOk(s, h, c);
      forall o ensures Owes(s', c, o) == Owes(s, c, o) { QuietOwes(s, e, c, o); }
      AsMany(s, s', c);
    }
  }

  lemma LinkCall(s: Sys, h: Hist, t: Tid, o: Obj)
    requires Inv(s) && Enabled(s, Link(t)) && CallOk(s, h, o)
    ensures CallOk(Step(s, Link(t)), Record(s, h, Link(t)), o)
  {
    assert ThreadOk(s, t) && ObjOk(s, o);
  }

  lemma LinkOwes(s: Sys, t: Tid, c: Cv, o: Obj)
    requires Inv(s) && Enabled(s, Link(t))
    ensures Owes(Step(s, Link(t)), c, o) == Owes(s, c, o)
  {
    assert ThreadOk(s, t) && ObjOk(s, o);
  }

  lemma LinkOrder(s: Sys, h: Hist, t: Tid, c: Cv)
    requires Inv(s) && Enabled(s, Link(t)) && OrderOk(s, h, c)
    ensures OrderOk(Step(s, Link(t)), Record(s, h, Link(t)), c)
  {
    var p, h', q := PcOf(s, t), Record(s, h, Link(t)), Queue(s, c);
    assert p.obj !in q by { assert ThreadOk(s, t) && ObjOk(s, p.obj) && CvOk(s, c); }
    assert Tickets(h', q) == Tickets(h, q);
    if c == p.cv {
      assert Tickets(h', q + [p.obj]) == Tickets(h', q) + [LinkedOn(h, c)];
    }
  }

  lemma LinkRecords(s: Sys, h: Hist, t: Tid)
    requires HistInv(s, h) && Enabled(s, Link(t))
    ensures HistInv(Step(s, Link(t)), Record(s, h, Link(t)))
  {
    var s', h' := Step(s, Link(t)), Record(s, h, Link(t));
    LinkKeeps(s, t);
    forall o ensures CallOk(s', h', o) { assert CallOk(s, h, o); LinkCall(s, h, t, o); }
    forall c ensures OrderOk(s', h', c) && CountOk(s', h', c) {
      assert OrderOk(s, h, c) && CountOk(s, h, c);
      LinkOrder(s, h, t, c);
      forall o ensures Owes(s', c, o) == Owes(s, c, o) { LinkOwes(s, t, c, o); }
      AsMany(s, s', c);
    }
  }

  lemma ConsumeCall(s: Sys, h: Hist, e: Event, o: Obj)
    requires Inv(s) && Enabled(s, e) && (e.Take? || e.Drain?)
    requires CallOk(s, h, o) && CallOk(s, h, PcOf(s, e.t).obj)
    ensures CallOk(Step(s, e), Record(s, h, e), o)
  {
    assert ThreadOk(s, e.t) && ObjOk(s, o) && ObjOk(s, PcOf(s, e.t).obj);
  }

  lemma ConsumeOwes(s: Sys, e: Event, c: Cv, o: Obj)
    requires Inv(s) && Enabled(s, e) && (e.Take? || e.Drain?)
    ensures Owes(s, PcOf(s, e.t).cv, PcOf(s, e.t).obj)
    ensures Owes(Step(s, e), c, o) == (Owes(s, c, o) && o != PcOf(s, e.t).obj)
  {
    assert ThreadOk(s, e.t) && ObjOk(s, o) && ObjOk(s, PcOf(s, e.t).obj);
  }

  lemma ConsumeCount(s: Sys, h: Hist, e: Event, c: Cv)
    requires Inv(s) && Enabled(s, e) && (e.Take? || e.Drain?) && CountOk(s, h, c)
    ensures CountOk(Step(s, e), Record(s, h, e), c)
  {
    var p, s' := PcOf(s, e.t), Step(s, e);
    forall o ensures Owes(s', c, o) == (Owes(s, c, o) && o != p.obj) { ConsumeOwes(s, e, c, o); }
    ConsumeOwes(s, e, c, p.obj);
    if c == p.cv { OneMore(s', s, c, p.obj); } else { AsMany(s, s', c); }
  }

  lemma ConsumeRecords(s: Sys, h: Hist, e: Event)
    requires HistInv(s, h) && Enabled(s, e) && (e.Take? || e.Drain?)
    ensures HistInv(Step(s, e), Record(s, h, e))
  {
    var p, s', h' := PcOf(s, e.t), Step(s, e), Record(s, h, e);
    LocalKeeps(s, e);
    forall o ensures CallOk(s', h', o) {
      assert CallOk(s, h, o) && CallOk(s, h, p.obj);
      ConsumeCall(s, h, e, o);
    }
    forall c ensures OrderOk(s', h', c) && CountOk(s', h', c) {
      assert OrderOk(s, h, c) && CountOk(s, h, c);
      ConsumeCount(s, h, e, c);
    }
  }

  lemma WakeCall(s: Sys, h: Hist, c: Cv, o: Obj)
    requires Inv(s) && Queue(s, c) != [] && CallOk(s, h, o)
    ensures CallOk(WakeHead(s, c), RecordWake(s, h, c), o)
  {
    assert Queue(s, c)[0] in Queue(s, c);
    assert ObjOk(s, o) && CvOk(s, c);
  }

  lemma WakeOwes(s: Sys, c: Cv, d: Cv, o: Obj)
    requires Inv(s) && Queue(s, c) != []
    ensures Owes(WakeHead(s, c), d, o) == (Owes(s, d, o) || (d == c && o == Queue(s, c)[0]))
    ensures !Owes(s, c, Queue(s, c)[0])
  {
    assert Queue(s, c)[0] in Queue(s, c);
    assert ObjOk(s, o) && ObjOk(s, Queue(s, c)[0]) && CvOk(s, c);
  }

  lemma WakeOrder(s: Sys, h: Hist, c: Cv, d: Cv)
    requires Queue(s, c) != [] && OrderOk(s, h, d)
    ensures OrderOk(WakeHead(s, c), RecordWake(s, h, c), d)
  {
    var q, h' := Queue(s, c), RecordWake(s, h, c);
    if d == c {
      var t, rest := [Ticket(h, q[0])], Tickets(h, q[1..]);
      assert Tickets(h, q) == t + rest;
      assert Woken(h, c) + (t + rest) == Woken(h, c) + t + rest;
    }
  }

  lemma WakeCount(s: Sys, h: Hist, c: Cv, d: Cv)
    requires Inv(s) && Queue(s, c) != [] && CountOk(s, h, d)
    ensures CountOk(WakeHead(s, c), RecordWake(s, h, c), d)
  {
    var x, s' := Queue(s, c)[0], WakeHead(s, c);
    forall o ensures Owes(s', d, o) == (Owes(s, d, o) || (d == c && o == x)) { WakeOwes(s, c, d, o); }
    WakeOwes(s, c, d, x);
    if d == c { OneMore(s, s', c, x); } else { AsMany(s, s', d); }
  }

  lemma WakeRecords(s: Sys, h: Hist, c: Cv)
    requires HistInv(s, h)
    ensures HistInv(WakeHead(s, c), RecordWake(s, h, c))
  {
    var q, s', h' := Queue(s, c), WakeHead(s, c), RecordWake(s, h, c);
    WakeHeadKeeps(s, c);
    if q != [] {
      forall o ensures CallOk(s', h', o) { assert CallOk(s, h, o); WakeCall(s, h, c, o); }
      forall d ensures OrderOk(s', h', d) && CountOk(s', h', d) {
        assert OrderOk(s, h, d) && CountOk(s, h, d);
        WakeOrder(s, h, c, d);
        WakeCount(s, h, c, d);
      }
    }
  }

  lemma {:induction false} WakesRecord(s: Sys, h: Hist, c: Cv)
    requires HistInv(s, h)
    ensures HistInv(WakeEach(s, c), RecordWakes(s, h, c))
    decreases |Queue(s, c)|
  {
    if Queue(s, c) != [] {
      WakeRecords(s, h, c);
      WakesRecord(WakeHead(s, c), RecordWake(s, h, c), c);
    }
  }

  /** Unlinking position `i` of the queue removes exactly its ticket from the game. */
  lemma TicketLeaves(woken: seq<nat>, ticks: seq<nat>, i: nat, n: nat, gone: set<nat>)
    requires i < |ticks| && Survivors(n, gone) == woken + ticks
    ensures ticks[i] < n && ticks[i] !in gone
    ensures Survivors(n, gone + {ticks[i]}) == woken + (ticks[..i] + ticks[i + 1..])
  {
    var all := woken + ticks;
    SurvivorsAre(n, gone);
    assert all[|woken| + i] == ticks[i];
    assert ticks[i] in all;
    SurvivorsLose(n, gone, ticks[i]);
    WithoutAt(all, |woken| + i);
    assert forall j :: 0 <= j < |ticks| ==> all[|woken| + j] == ticks[j];
    assert all[..|woken| + i] + all[|woken| + i + 1..] == woken + (ticks[..i] + ticks[i + 1..]);
  }

  lemma UnlinkCall(s: Sys, h: Hist, t: Tid, o: Obj)
    requires Inv(s) && Enabled(s, Recheck(t)) && PcOf(s, t).obj in s.waiting && CallOk(s, h, o)
    ensures CallOk(Step(s, Recheck(t)), Record(s, h, Recheck(t)), o)
  {
    assert ThreadOk(s, t) && ObjOk(s, o);
  }

  lemma UnlinkOwes(s: Sys, t: Tid, c: Cv, o: Obj)
    requires Inv(s) && Enabled(s, Recheck(t)) && PcOf(s, t).obj in s.waiting
    ensures Owes(Step(s, Recheck(t)), c, o) == Owes(s, c, o)
  {
    assert ThreadOk(s, t) && ObjOk(s, o) && ObjOk(s, PcOf(s, t).obj);
  }

  lemma TicketsCut(h: Hist, q: seq<Obj>, i: nat)
    requires i < |q|
    ensures Tickets(h, q[..i] + q[i + 1..]) == Tickets(h, q)[..i] + Tickets(h, q)[i + 1..]
  {
  }

  lemma UnlinkedTickets(h: Hist, q: seq<Obj>, i: nat)
    requires NoDup(q) && i < |q|
    ensures Tickets(h, Without(q, q[i])) == Tickets(h, q)[..i] + Tickets(h, q)[i + 1..]
  {
    WithoutAt(q, i);
    TicketsCut(h, q, i);
  }

  lemma ExpireOrder(h: Hist, q: seq<Obj>, i: nat, woken: seq<nat>, n: nat, gone: set<nat>)
    requires NoDup(q) && i < |q| && Survivors(n, gone) == woken + Tickets(h, q)
    ensures Ticket(h, q[i]) < n
    ensures Survivors(n, gone + {Ticket(h, q[i])}) == woken + Tickets(h, Without(q, q[i]))
  {
    UnlinkedTickets(h, q, i);
    TicketLeaves(woken, Tickets(h, q), i, n, gone);
  }

  lemma UnlinkOrderHere(s: Sys, h: Hist, t: Tid)
    requires Inv(s) && Enabled(s, Recheck(t)) && PcOf(s, t).obj in s.waiting && OrderOk(s, h, PcOf(s, t).cv)
    ensures OrderOk(Step(s, Recheck(t)), Record(s, h, Recheck(t)), PcOf(s, t).cv)
  {
    var p, h' := PcOf(s, t), Record(s, h, Recheck(t));
    var c := p.cv;
    var q := Queue(s, c);
    assert p.obj in q && NoDup(q) by { assert ThreadOk(s, t) && ObjOk(s, p.obj) && CvOk(s, c); }
    var i :| 0 <= i < |q| && q[i] == p.obj;
    ExpireOrder(h, q, i, Woken(h, c), LinkedOn(h, c), Expired(h, c));
    assert Tickets(h', Without(q, p.obj)) == Tickets(h, Without(q, p.obj));
  }

  lemma UnlinkOrder(s: Sys, h: Hist, t: Tid, c: Cv)
    requires Inv(s) && Enabled(s, Recheck(t)) && PcOf(s, t).obj in s.waiting && OrderOk(s, h, c)
    ensures OrderOk(Step(s, Recheck(t)), Record(s, h, Recheck(t)), c)
  {
    if c == PcOf(s, t).cv {
      UnlinkOrderHere(s, h, t);
    } else {
      assert Tickets(Record(s, h, Recheck(t)), Queue(s, c)) == Tickets(h, Queue(s, c));
    }
  }

  lemma UnlinkRecords(s: Sys, h: Hist, t: Tid)
    requires HistInv(s, h) && Enabled(s, Recheck(t)) && PcOf(s, t).obj in s.waiting
    ensures HistInv(Step(s, Recheck(t)), Record(s, h, Recheck(t)))
  {
    var s', h' := Step(s, Recheck(t)), Record(s, h, Recheck(t));
    RecheckKeeps(s, t);
    forall o ensures CallOk(s', h', o) { assert CallOk(s, h, o); UnlinkCall(s, h, t, o); }
    forall c ensures OrderOk(s', h', c) && CountOk(s', h', c) {
      assert OrderOk(s, h, c) && CountOk(s, h, c);
      UnlinkOrder(s, h, t, c);
      forall o ensures Owes(s', c, o) == Owes(s, c, o) { UnlinkOwes(s, t, c, o); }
      AsMany(s, s', c);
    }
  }

  lemma RecordKeeps(s: Sys, h: Hist, e: Event)
    requires HistInv(s, h) && Enabled(s, e)
    ensures HistInv(Step(s, e), Record(s, h, e))
  {
    match e
    case Link(t) => LinkRecords(s, h, t);
    case Take(_) => ConsumeRecords(s, h, e);
    case Drain(_) => ConsumeRecords(s, h, e);
    case Signal(c) => WakeRecords(s, h, c);
    case Broadcast(c) => WakesRecord(s, h, c);
    case Recheck(t) => if PcOf(s, t).obj in s.waiting { UnlinkRecords(s, h, t); } else { QuietKeeps(s, h, e); }
    case _ => QuietKeeps(s, h, e);
  }

  lemma {:induction false} HistKept(s: Sys, h: Hist, es: seq<Event>)
    requires HistInv(s, h) && Runs(s, es)
    ensures HistInv(After(s, es), HistAfter(s, h, es))
    decreases |es|
  {
    if es != [] {
      RecordKeeps(s, h, es[0]);
      HistKept(Step(s, es[0]), Record(s, h, es[0]), es[1..]);
    }
  }

  lemma FromInit(es: seq<Event>)
    requires Runs(INIT, es)
    ensures HistInv(After(INIT, es), HistAfter(INIT, BLANK, es))
  {
    InitOk();
    forall o ensures CallOk(INIT, BLANK, o) {}
    forall c ensures OrderOk(INIT, BLANK, c) && CountOk(INIT, BLANK, c) {
      assert Outstanding(INIT, c) == {};
    }
    HistKept(INIT, BLANK, es);
  }

  /**
   * Tokens go out in the order the waiters were linked: the tickets handed out, less the ones
   * that expired, are the woken tickets in the order they were woken, followed by the queue.
   */
  lemma TokensAreFifo(es: seq<Event>, c: Cv)
    requires Runs(INIT, es)
    ensures var s, h := After(INIT, es), HistAfter(INIT, BLANK, es);
            Survivors(LinkedOn(h, c), Expired(h, c)) == Woken(h, c) + Tickets(h, Queue(s, c))
  {
    FromInit(es);
    assert OrderOk(After(INIT, es), HistAfter(INIT, BLANK, es), c);
  }

  /** Every removal by a signaller is a consumed token or a token still in a semaphore. */
  lemma TokensAreConserved(es: seq<Event>, c: Cv)
    requires Runs(INIT, es)
    ensures var s, h := After(INIT, es), HistAfter(INIT, BLANK, es);
            |Woken(h, c)| == Taken(h, c) + |Outstanding(s, c)|
  {
    FromInit(es);
    assert CountOk(After(INIT, es), HistAfter(INIT, BLANK, es), c);
  }

  /**
   * The result of a call tells what happened: 0 exactly when the thread took itself off the
   * list, 1 exactly when a signaller did; never both.
   */
  lemma ResultIsTruthful(es: seq<Event>, t: Tid)
    requires Runs(INIT, es)
    ensures var s, h := After(INIT, es), HistAfter(INIT, BLANK, es); var p := PcOf(s, t);
            p.Leaving? ==>
              && (p.res <==> Ticket(h, p.obj) in Woken(h, p.cv))
              && (!p.res <==> Ticket(h, p.obj) in Expired(h, p.cv))
  {
    FromInit(es);
    var s, h := After(INIT, es), HistAfter(INIT, BLANK, es);
    var p := PcOf(s, t);
    if p.Leaving? {
      assert ThreadOk(s, t) && CallOk(s, h, p.obj) && OrderOk(s, h, p.cv);
      SurvivorsAre(LinkedOn(h, p.cv), Expired(h, p.cv));
      assert forall k :: k in Woken(h, p.cv) ==> k in Woken(h, p.cv) + Tickets(h, Queue(s, p.cv));
    }
  }
}
