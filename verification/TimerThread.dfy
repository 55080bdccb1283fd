/**
 * The timer thread and its clients, interleaved over the monitor: the dispatcher loop of
 * run_undetached(), and add() and remove() from any other thread or from within on_timer().
 */
module TimerThread {
  import opened Arithmetic
  import opened Common
  import opened Threads
  import opened Clock
  import opened Timer
  import M = Monitor

  const D := Native(0)      // the dispatcher
  const MX: nat := 0        // m_mutex
  const CV := Cv(0, MX)     // m_condition

  /** Where the dispatcher is in its loop. */
  datatype Phase =
    | Top                             // about to lock
    | Holding                         // mutex held, has not waited yet
    | Blocked                         // inside wait() or timedwait()
    | Scanning                        // woken, mutex held again
    | Calling(due: seq<TimerId>)      // mutex released, on_timer() still to be called for these

  datatype Firing = Firing(timer: TimerId, atMs: nat)

  datatype Sys = Sys(
    mon: M.State,
    phase: Phase,
    wakeMs: Option<nat>,         // when the kernel ends the sleep; None: never
    timers: seq<TimerId>,
    counter: nat,
    now: Stamp,
    adder: Option<Tid>,          // a thread between insertion and the end of add()
    signalDue: bool,             // ... that found its timer to be the first
    added: set<TimerId>,
    removed: set<TimerId>,       // remove() returned true
    taken: seq<TimerId>,         // moved to due_timers
    fired: seq<Firing>)

  datatype Event =
    | Tick(to: Stamp)
    | Grab
    | Sleep
    | Expire
    | Resume
    | Scan(readings: seq<Stamp>)
    | Call
    | AddBegin(c: Tid, delta: nat)
    | AddEnd(c: Tid)
    | Remove(c: Tid, tid: TimerId)

  const INIT := Sys(M.INIT, Top, None, [], 0, Stamp(0, 0), None, false, {}, {}, [], [])

  /** The dispatcher may run client code only while it is calling on_timer(). */
  predicate MayCall(s: Sys, c: Tid) {
    (c == D ==> s.phase.Calling?) && s.adder != Some(c)
  }

  ghost predicate GoodReadings(s: Sys, readings: seq<Stamp>) {
    && |readings| == |s.timers| + 1
    && AllWhole(readings) && Monotone(readings) && s.now.Ms() <= readings[0].Ms()
  }

  ghost predicate Enabled(s: Sys, e: Event) {
    match e
    case Tick(to) => to.Valid() && to.WholeMs() && s.now.Ms() <= to.Ms()
    case Grab => s.phase.Top? && M.Enabled(s.mon, M.Lock(D, MX))
    case Sleep => s.phase.Holding?
    case Expire => s.phase.Blocked? && M.Enabled(s.mon, M.Expire(D))
    case Resume => s.phase.Blocked? && M.Enabled(s.mon, M.Resume(D))
    case Scan(readings) => s.phase.Scanning? && GoodReadings(s, readings)
    case Call => s.phase.Calling? && s.adder != Some(D)
    case AddBegin(c, delta) =>
      && MayCall(s, c) && M.Enabled(s.mon, M.Lock(c, MX))
      && delta < U32 && s.now.Ms() + delta < 1000 * U32    // an unsigned delay; the clock has not wrapped
      && s.counter + 1 < U32                               // fewer than 2^32 adds
    case AddEnd(c) => s.adder == Some(c)
    case Remove(c, _) => MayCall(s, c) && M.Enabled(s.mon, M.Lock(c, MX))
  }

  function SleepTimeout(s: Sys): nat
    requires s.timers != []
  {
    TimeoutMs(s.timers[0].at, s.now)
  }

  /** When a sleep begun now will end: wait() never ends, nor does timedwait() with INFINITE. */
  function SleepEnd(s: Sys): Option<nat> {
    if s.timers == [] || SleepTimeout(s) == INFINITE then None else Some(s.now.Ms() + SleepTimeout(s))
  }

  function NewTimer(s: Sys, delta: nat): TimerId {
    TimerId(Deadline(s.now, delta), NextId(s.counter))
  }

  ghost predicate MonitorAllows(s: Sys, e: Event) {
    match e
    case Sleep => M.Enabled(s.mon, M.Wait(D, CV, SleepEnd(s).Some?))
    case Scan(_) => M.Enabled(s.mon, M.Unlock(D, MX))
    case AddEnd(c) => M.Enabled(M.WakeOldest(s.mon, CV), M.Unlock(c, MX)) && M.Enabled(s.mon, M.Unlock(c, MX))
    case _ => true
  }

  /** The scan, with one clock reading per look and one more for the unlock after it. */
  function Scanned(s: Sys, readings: seq<Stamp>): Sys
    requires |readings| == |s.timers| + 1 && M.Enabled(s.mon, M.Unlock(D, MX))
  {
    var n := DueCount(s.timers, readings);
    ScanBounds(s.timers, readings);
    s.(mon := M.Step(s.mon, M.Unlock(D, MX)),
       now := readings[|readings| - 1],
       phase := if s.timers == [] then Top else Calling(s.timers[..n]),
       timers := s.timers[n..],
       taken := s.taken + s.timers[..n])
  }

  ghost function Step(s: Sys, e: Event): Sys
    requires Enabled(s, e) && MonitorAllows(s, e)
  {
    match e
    case Tick(to) => s.(now := to)
    case Grab => s.(mon := M.Step(s.mon, M.Lock(D, MX)), phase := Holding)
    case Sleep =>
      s.(mon := M.Step(s.mon, M.Wait(D, CV, SleepEnd(s).Some?)), wakeMs := SleepEnd(s), phase := Blocked)
    case Expire => s.(mon := M.Step(s.mon, M.Expire(D)))
    case Resume => s.(mon := M.Step(s.mon, M.Resume(D)), phase := Scanning)
    case Scan(readings) => Scanned(s, readings)
    case Call =>
      if s.phase.due == [] then s.(phase := Top)
      else s.(fired := s.fired + [Firing(s.phase.due[0], s.now.Ms())], phase := Calling(s.phase.due[1..]))
    case AddBegin(c, delta) =>
      var t := NewTimer(s, delta);
      s.(mon := M.Step(s.mon, M.Lock(c, MX)),
         counter := s.counter + 1,
         timers := Insert(s.timers, t),
         added := s.added + {t},
         adder := Some(c),
         signalDue := s.timers == [] || Less(t, s.timers[0]))
    case AddEnd(c) =>
      var woken := if s.signalDue then M.Step(s.mon, M.Signal(CV)) else s.mon;
      s.(mon := M.Step(woken, M.Unlock(c, MX)), adder := None, signalDue := false)
    case Remove(_, tid) =>
      if tid.id != 0 && tid in s.timers then
        s.(timers := Without(s.timers, tid), removed := s.removed + {tid})
      else s
  }

  lemma {:induction false} ScanBounds(ts: seq<TimerId>, readings: seq<Stamp>)
    requires |readings| >= |ts|
    ensures DueCount(ts, readings) <= |ts|
  {
    if ts != [] && Expired(ts[0], readings[0]) { ScanBounds(ts[1..], readings[1..]); }
  }

  // ----- the dispatcher and the monitor

  ghost predicate MonInv(s: Sys) {
    var d := M.StatusOf(s.mon, D);
    && (forall t :: t != D ==> M.StatusOf(s.mon, t).Running?)
    && (s.phase.Blocked? <==> !d.Running?)
    && (d.Running? || d.cv == CV)
    && (d.Waiting? ==> d.timed == s.wakeMs.Some?)
    && M.Waiters(s.mon, CV) == (if d.Waiting? then [D] else [])
    && (s.phase.Holding? || s.phase.Scanning? ==> M.Holder(s.mon, MX) == Some(D) && s.adder.None?)
    && (s.adder.Some? ==> M.Holder(s.mon, MX) == s.adder && (s.adder.value == D ==> s.phase.Calling?))
    && (s.signalDue ==> s.adder.Some?)
  }

  lemma MonAllows(s: Sys, e: Event)
    requires MonInv(s) && Enabled(s, e)
    ensures MonitorAllows(s, e)
  {
    if e.AddEnd? {
      assert M.StatusOf(s.mon, e.c).Running?;
      assert M.Waiters(s.mon, CV) != [] ==> M.Waiters(s.mon, CV)[0] == D && e.c != D;
    }
  }

  lemma MonKept(s: Sys, e: Event)
    requires MonInv(s) && Enabled(s, e)
    ensures MonitorAllows(s, e) && MonInv(Step(s, e))
  {
    MonAllows(s, e);
    var s' := Step(s, e);
    if e.Expire? { assert Without([D], D) == []; }
    if e.AddEnd? { assert M.StatusOf(s.mon, e.c).Running?; }
    forall t | t != D ensures M.StatusOf(s'.mon, t).Running? {
      assert M.StatusOf(s.mon, t).Running?;
    }
  }

  // ----- every timer is accounted for exactly once

  function Due(s: Sys): seq<TimerId> {
    if s.phase.Calling? then s.phase.due else []
  }

  function Names(fs: seq<Firing>): seq<TimerId> {
    seq(|fs|, i requires 0 <= i < |fs| => fs[i].timer)
  }

  ghost predicate IdsOk(s: Sys) {
    && s.counter < U32
    && (forall t :: t in s.added ==> 1 <= t.id <= s.counter && t.at.Valid() && t.at.WholeMs())
    && (forall a, b :: a in s.added && b in s.added && a.id == b.id ==> a == b)
  }

  /** Pending, removed and taken split what was added. */
  ghost predicate SplitOk(s: Sys) {
    && (forall t :: t in s.added <==> t in s.timers || t in s.removed || t in s.taken)
    && (forall t :: t in s.timers ==> t !in s.removed && t !in s.taken)
    && (forall t :: t in s.removed ==> t !in s.taken)
    && NoDup(s.taken)
    && Sorted(s.timers)
  }

  /** What was taken has fired, each once and in order and not early, or is about to. */
  ghost predicate FiredOk(s: Sys) {
    && s.taken == Names(s.fired) + Due(s)
    && Sorted(Due(s))
    && (forall i :: 0 <= i < |s.fired| ==> s.fired[i].timer.at.Ms() <= s.fired[i].atMs)
    && (forall i :: 0 <= i < |Due(s)| ==> Due(s)[i].at.Ms() <= s.now.Ms())
  }

  ghost predicate ClockOk(s: Sys) {
    s.now.Valid() && s.now.WholeMs()
  }

  ghost predicate AccountInv(s: Sys) {
    ClockOk(s) && IdsOk(s) && SplitOk(s) && FiredOk(s)
  }

  lemma PendingMs(s: Sys)
    requires AccountInv(s)
    ensures AllMs(s.timers)
  {
    forall i | 0 <= i < |s.timers| ensures s.timers[i].at.Valid() && s.timers[i].at.WholeMs() {
      assert s.timers[i] in s.timers;
    }
  }

  lemma AddAccounts(s: Sys, c: Tid, delta: nat)
    requires AccountInv(s) && Enabled(s, AddBegin(c, delta))
    ensures AccountInv(Step(s, AddBegin(c, delta)))
  {
    AddIds(s, c, delta);
    AddSplits(s, c, delta);
  }

  lemma AddIds(s: Sys, c: Tid, delta: nat)
    requires ClockOk(s) && IdsOk(s) && Enabled(s, AddBegin(c, delta))
    ensures IdsOk(Step(s, AddBegin(c, delta))) && NewTimer(s, delta) !in s.added
  {
    DeadlineIsExact(s.now, delta);
    assert NewTimer(s, delta).id == s.counter + 1;
  }

  lemma AddSplits(s: Sys, c: Tid, delta: nat)
    requires SplitOk(s) && NewTimer(s, delta) !in s.added && Enabled(s, AddBegin(c, delta))
    ensures SplitOk(Step(s, AddBegin(c, delta)))
  {
    InsertSorts(s.timers, NewTimer(s, delta));
    InsertMembers(s.timers, NewTimer(s, delta));
  }

  lemma RemoveAccounts(s: Sys, c: Tid, tid: TimerId)
    requires AccountInv(s) && Enabled(s, Remove(c, tid))
    ensures AccountInv(Step(s, Remove(c, tid)))
  {
    if tid.id != 0 && tid in s.timers { WithoutSorted(s.timers, tid); }
  }

  lemma NamesMore(fs: seq<Firing>, f: Firing, due: seq<TimerId>)
    ensures Names(fs) + ([f.timer] + due) == Names(fs + [f]) + due
  {
  }

  lemma CallFires(s: Sys)
    requires FiredOk(s) && Enabled(s, Call)
    ensures FiredOk(Step(s, Call))
  {
    var due := s.phase.due;
    if due != [] {
      NamesMore(s.fired, Firing(due[0], s.now.Ms()), due[1..]);
      assert due == [due[0]] + due[1..];
    }
  }

  lemma CallAccounts(s: Sys)
    requires AccountInv(s) && Enabled(s, Call)
    ensures AccountInv(Step(s, Call))
  {
    CallFires(s);
  }

  lemma ScanMoves(s: Sys, n: nat)
    requires SplitOk(s) && n <= |s.timers|
    ensures SplitOk(s.(timers := s.timers[n..], taken := s.taken + s.timers[..n]))
  {
    var front, back := s.timers[..n], s.timers[n..];
    SortedNoDup(s.timers);
    assert s.timers == front + back;
    forall i | 0 <= i < |front| ensures front[i] in s.timers && front[i] !in back { assert s.timers[i] == front[i]; }
    forall i | 0 <= i < |back| ensures back[i] in s.timers && back[i] !in front { assert s.timers[n + i] == back[i]; }
    forall t ensures t in s.timers <==> t in front || t in back {}
    forall t ensures t in s.taken + front <==> t in s.taken || t in front {}
    assert NoDup(s.taken + front);
  }

  lemma ScanFires(s: Sys, readings: seq<Stamp>)
    requires s.phase.Scanning? && Sorted(s.timers) && AllMs(s.timers) && FiredOk(s)
    requires GoodReadings(s, readings) && M.Enabled(s.mon, M.Unlock(D, MX))
    ensures FiredOk(Scanned(s, readings))
  {
    var n, s' := DueCount(s.timers, readings), Scanned(s, readings);
    ScanIsExact(s.timers, readings);
    assert Due(s') == s.timers[..n];
    assert s.taken == Names(s.fired);
    forall i | 0 <= i < n ensures Due(s')[i].at.Ms() <= s'.now.Ms() {
      assert readings[i].Ms() <= readings[|readings| - 1].Ms();
    }
  }

  lemma ScanAccounts(s: Sys, readings: seq<Stamp>)
    requires AccountInv(s) && s.phase.Scanning?
    requires GoodReadings(s, readings) && M.Enabled(s.mon, M.Unlock(D, MX))
    ensures AccountInv(Scanned(s, readings))
  {
    PendingMs(s);
    ScanBounds(s.timers, readings);
    ScanMoves(s, DueCount(s.timers, readings));
    ScanFires(s, readings);
  }

  lemma AccountKept(s: Sys, e: Event)
    requires AccountInv(s) && Enabled(s, e) && MonitorAllows(s, e)
    ensures AccountInv(Step(s, e))
  {
    match e
    case AddBegin(c, delta) => AddAccounts(s, c, delta);
    case Remove(c, tid) => RemoveAccounts(s, c, tid);
    case Call => CallAccounts(s);
    case Scan(readings) => ScanAccounts(s, readings);
    case _ =>
  }

  // ----- no deadline is slept through

  /** Every pending delay is one that a 32-bit timeout can express. */
  ghost predicate Expressible(s: Sys) {
    forall t :: t in s.timers ==> t.at.Ms() - s.now.Ms() < INFINITE
  }

  /**
   * Asleep and not signalled, the dispatcher will be up by the earliest pending deadline (or at
   * once, when that has passed); it sleeps for ever only with nothing pending.
   */
  ghost predicate SleepOk(s: Sys) {
    s.phase.Blocked? && M.StatusOf(s.mon, D).Waiting? && !s.signalDue && s.timers != [] ==>
      s.wakeMs.Some? && (s.wakeMs.value <= s.timers[0].at.Ms() || s.wakeMs.value <= s.now.Ms())
  }

  predicate ShortDelay(e: Event) {
    e.AddBegin? ==> e.delta < INFINITE
  }

  lemma ExpressibleKept(s: Sys, e: Event)
    requires AccountInv(s) && Expressible(s) && Enabled(s, e) && MonitorAllows(s, e) && ShortDelay(e)
    ensures Expressible(Step(s, e))
  {
    match e
    case AddBegin(c, delta) =>
      DeadlineIsExact(s.now, delta);
      InsertMembers(s.timers, NewTimer(s, delta));
    case Remove(_, tid) => if tid.id != 0 && tid in s.timers { WithoutSorted(s.timers, tid); }
    case _ =>
  }

  lemma SleepBegins(s: Sys)
    requires AccountInv(s) && Expressible(s) && s.timers != []
    ensures SleepEnd(s).Some?
    ensures SleepEnd(s).value <= s.timers[0].at.Ms() || SleepEnd(s).value <= s.now.Ms()
  {
    assert s.timers[0] in s.timers;
    SleepTimeoutIs(s);
  }

  lemma SleepKept(s: Sys, e: Event)
    requires MonInv(s) && AccountInv(s) && Expressible(s) && SleepOk(s)
    requires Enabled(s, e) && MonitorAllows(s, e)
    ensures SleepOk(Step(s, e))
  {
    match e
    case Sleep => if s.timers != [] { SleepBegins(s); }
    case AddBegin(c, delta) => InsertMembers(s.timers, NewTimer(s, delta));
    case Remove(_, tid) => if tid in s.timers && Without(s.timers, tid) != [] { RemoveLater(s, tid); }
    case _ =>
  }

  /** Removing a timer never moves the first deadline forward. */
  lemma RemoveLater(s: Sys, tid: TimerId)
    requires AccountInv(s) && tid in s.timers && Without(s.timers, tid) != []
    ensures s.timers[0].at.Ms() <= Without(s.timers, tid)[0].at.Ms()
  {
    WithoutSorted(s.timers, tid);
    PendingMs(s);
    var t := Without(s.timers, tid)[0];
    assert t in Without(s.timers, tid);
    var i :| 0 <= i < |s.timers| && s.timers[i] == t;
    if i > 0 { LessMs(s.timers[0], t); }
  }

  // ----- whole runs

  ghost predicate Runs(s: Sys, es: seq<Event>)
    decreases |es|
  {
    es == [] || (Enabled(s, es[0]) && MonitorAllows(s, es[0]) && Runs(Step(s, es[0]), es[1..]))
  }

  ghost function After(s: Sys, es: seq<Event>): Sys
    requires Runs(s, es)
    decreases |es|
  {
    if es == [] then s else After(Step(s, es[0]), es[1..])
  }

  lemma {:induction false} AccountsKept(s: Sys, es: seq<Event>)
    requires MonInv(s) && AccountInv(s) && Runs(s, es)
    ensures MonInv(After(s, es)) && AccountInv(After(s, es))
    decreases |es|
  {
    if es != [] {
      MonKept(s, es[0]);
      AccountKept(s, es[0]);
      AccountsKept(Step(s, es[0]), es[1..]);
    }
  }

  lemma {:induction false} SleepsKept(s: Sys, es: seq<Event>)
    requires MonInv(s) && AccountInv(s) && Expressible(s) && SleepOk(s) && Runs(s, es)
    requires forall i :: 0 <= i < |es| ==> ShortDelay(es[i])
    ensures SleepOk(After(s, es))
    decreases |es|
  {
    if es != [] {
      MonKept(s, es[0]);
      AccountKept(s, es[0]);
      ExpressibleKept(s, es[0]);
      SleepKept(s, es[0]);
      SleepsKept(Step(s, es[0]), es[1..]);
    }
  }

  /**
   * Over every interleaving of adds, removes, clock ticks and dispatcher steps, as long as no
   * delay is 2^32 - 1 ms, a sleeping dispatcher that nobody has signalled or is about to signal
   * will wake by the earliest pending deadline.
   */
  lemma NoDeadlineSleptThrough(es: seq<Event>)
    requires Runs(INIT, es) && forall i :: 0 <= i < |es| ==> ShortDelay(es[i])
    ensures SleepOk(After(INIT, es))
  {
    SleepsKept(INIT, es);
  }

  // ----- exactly when a deadline is slept through

  /** Every pending delay is one that add() can be given: an unsigned number of milliseconds. */
  ghost predicate Unsigned(s: Sys) {
    forall t :: t in s.timers ==> t.at.Ms() - s.now.Ms() < U32
  }

  ghost predicate Asleep(s: Sys) {
    s.phase.Blocked? && M.StatusOf(s.mon, D).Waiting? && !s.signalDue && s.timers != []
  }

  /** A sleep that ends at all ends in time. */
  ghost predicate WakeOk(s: Sys) {
    Asleep(s) && s.wakeMs.Some? ==> s.wakeMs.value <= s.timers[0].at.Ms() || s.wakeMs.value <= s.now.Ms()
  }

  /** A sleep for ever with a timer pending. */
  ghost predicate Lost(s: Sys) {
    Asleep(s) && s.wakeMs.None?
  }

  /** Going to sleep when the first deadline is exactly 2^32 - 1 ms away. */
  ghost predicate BadSleep(s: Sys, e: Event) {
    e.Sleep? && s.timers != [] && s.timers[0].at.Ms() - s.now.Ms() == INFINITE
  }

  /** What ends a sleep for ever: adding a timer that is the first, or removing the last one. */
  predicate Rouses(s: Sys, e: Event) {
    match e
    case AddBegin(_, delta) => s.timers != [] && Less(NewTimer(s, delta), s.timers[0])
    case Remove(_, tid) => tid.id != 0 && s.timers == [tid]
    case _ => false
  }

  lemma UnsignedKept(s: Sys, e: Event)
    requires AccountInv(s) && Unsigned(s) && Enabled(s, e) && MonitorAllows(s, e)
    ensures Unsigned(Step(s, e))
  {
    match e
    case AddBegin(c, delta) =>
      DeadlineIsExact(s.now, delta);
      InsertMembers(s.timers, NewTimer(s, delta));
    case Remove(_, tid) => if tid.id != 0 && tid in s.timers { WithoutSorted(s.timers, tid); }
    case _ =>
  }

  lemma SleepTimeoutIs(s: Sys)
    requires AccountInv(s) && Unsigned(s) && s.timers != []
    ensures var d := s.timers[0].at.Ms() - s.now.Ms(); SleepTimeout(s) == if d <= 0 then 0 else d
  {
    assert s.timers[0] in s.timers;
    PendingMs(s);
    TimeoutIsDistance(s.timers[0].at, s.now);
  }

  lemma WakeKept(s: Sys, e: Event)
    requires MonInv(s) && AccountInv(s) && Unsigned(s) && WakeOk(s) && Enabled(s, e) && MonitorAllows(s, e)
    ensures WakeOk(Step(s, e))
  {
    match e
    case Sleep => if s.timers != [] { SleepTimeoutIs(s); }
    case AddBegin(c, delta) => InsertMembers(s.timers, NewTimer(s, delta));
    case Remove(_, tid) => if tid in s.timers && Without(s.timers, tid) != [] { RemoveLater(s, tid); }
    case _ =>
  }

  /** When a sleep begins: it is one for ever, with a timer pending, exactly at that distance. */
  lemma SleepLosesExactly(s: Sys)
    requires MonInv(s) && AccountInv(s) && Unsigned(s) && Enabled(s, Sleep) && MonitorAllows(s, Sleep)
    ensures Lost(Step(s, Sleep)) <==> BadSleep(s, Sleep)
  {
    if s.timers != [] { SleepTimeoutIs(s); }
  }

  lemma WithoutOnly(ts: seq<TimerId>, t: TimerId)
    requires Sorted(ts) && t in ts
    ensures Without(ts, t) == [] <==> ts == [t]
  {
    SortedNoDup(ts);
    var i :| 0 <= i < |ts| && ts[i] == t;
    WithoutAt(ts, i);
  }

  /** One event: a dispatcher becomes lost exactly by such a sleep, and stays so exactly until roused. */
  lemma LostExactly(s: Sys, e: Event)
    requires MonInv(s) && AccountInv(s) && Unsigned(s) && Enabled(s, e) && MonitorAllows(s, e)
    ensures Lost(Step(s, e)) <==> if Lost(s) then !Rouses(s, e) else BadSleep(s, e)
  {
    match e
    case Sleep => SleepLosesExactly(s);
    case AddBegin(c, delta) => InsertMembers(s.timers, NewTimer(s, delta));
    case Remove(_, tid) => if tid in s.timers { WithoutOnly(s.timers, tid); }
    case _ =>
  }

  ghost predicate Roused(s: Sys, es: seq<Event>)
    requires Runs(s, es)
    decreases |es|
  {
    es != [] && (Rouses(s, es[0]) || Roused(Step(s, es[0]), es[1..]))
  }

  /** Every sleep at that distance is followed by an event that ends it. */
  ghost predicate BadSleepsEnd(s: Sys, es: seq<Event>)
    requires Runs(s, es)
    decreases |es|
  {
    es != [] ==>
      && (BadSleep(s, es[0]) ==> Roused(Step(s, es[0]), es[1..]))
      && BadSleepsEnd(Step(s, es[0]), es[1..])
  }

  lemma {:induction false} LostAfter(s: Sys, es: seq<Event>)
    requires MonInv(s) && AccountInv(s) && Unsigned(s) && WakeOk(s) && Runs(s, es)
    ensures WakeOk(After(s, es)) && Unsigned(After(s, es))
    ensures !Lost(After(s, es)) <==> BadSleepsEnd(s, es) && (Lost(s) ==> Roused(s, es))
    decreases |es|
  {
    if es != [] {
      MonKept(s, es[0]);
      AccountKept(s, es[0]);
      UnsignedKept(s, es[0]);
      WakeKept(s, es[0]);
      LostExactly(s, es[0]);
      LostAfter(Step(s, es[0]), es[1..]);
    }
  }

  /**
   * For every run, whatever the delays: a sleeping dispatcher that nobody has signalled or is about
   * to signal will wake by the earliest pending deadline if and only if every time it went to sleep
   * with that deadline exactly 2^32 - 1 ms away, an add of an earlier timer or the removal of the
   * last one followed.
   */
  lemma SleptThroughExactlyWhen(es: seq<Event>)
    requires Runs(INIT, es)
    ensures SleepOk(After(INIT, es)) <==> BadSleepsEnd(INIT, es)
  {
    LostAfter(INIT, es);
  }

  /** In every reachable state in which the dispatcher goes to sleep. */
  lemma SleepIsOkExactlyWhen(es: seq<Event>, s: Sys)
    requires Runs(INIT, es) && s == After(INIT, es) && Enabled(s, Sleep)
    ensures MonitorAllows(s, Sleep)
    ensures SleepOk(Step(s, Sleep)) <==> s.timers == [] || s.timers[0].at.Ms() - s.now.Ms() != 0xFFFF_FFFF
  {
    Reachable(es);
    MonAllows(s, Sleep);
    SleepBeginsOk(s);
  }

  lemma Reachable(es: seq<Event>)
    requires Runs(INIT, es)
    ensures var s := After(INIT, es); MonInv(s) && AccountInv(s) && Unsigned(s) && WakeOk(s)
  {
    AccountsKept(INIT, es);
    LostAfter(INIT, es);
  }

  lemma SleepBeginsOk(s: Sys)
    requires MonInv(s) && AccountInv(s) && Unsigned(s) && WakeOk(s) && Enabled(s, Sleep) && MonitorAllows(s, Sleep)
    ensures SleepOk(Step(s, Sleep)) <==> s.timers == [] || s.timers[0].at.Ms() - s.now.Ms() != INFINITE
  {
    WakeKept(s, Sleep);
    SleepLosesExactly(s);
  }

  lemma RunOne(s: Sys, e: Event, rest: seq<Event>)
    requires Enabled(s, e) && MonitorAllows(s, e) && Runs(Step(s, e), rest)
    ensures Runs(s, [e] + rest) && After(s, [e] + rest) == After(Step(s, e), rest)
  {
    assert ([e] + rest)[1..] == rest;
  }

  lemma LongAdd(c: Tid)
    requires c != D
    ensures Enabled(INIT, AddBegin(c, INFINITE))
    ensures var s1 := Step(INIT, AddBegin(c, INFINITE));
            && Enabled(s1, AddEnd(c)) && MonitorAllows(s1, AddEnd(c))
            && var s2 := Step(s1, AddEnd(c));
               && s2.phase.Top? && s2.timers == [NewTimer(INIT, INFINITE)] && s2.now == INIT.now && !s2.signalDue
               && M.Enabled(s2.mon, M.Lock(D, MX)) && M.Waiters(s2.mon, CV) == []
  {
    var s1 := Step(INIT, AddBegin(c, INFINITE));
    assert s1.timers == [NewTimer(INIT, INFINITE)];
  }

  lemma LongTimeout()
    ensures TimeoutMs(NewTimer(INIT, INFINITE).at, INIT.now) == INFINITE
  {
    DeadlineIsExact(INIT.now, INFINITE);
    TimeoutIsDistance(NewTimer(INIT, INFINITE).at, INIT.now);
  }

  lemma LongSleepBegins(s: Sys)
    requires s.phase.Holding? && s.timers == [NewTimer(INIT, INFINITE)] && s.now == INIT.now && !s.signalDue
    requires M.Enabled(s.mon, M.Wait(D, CV, false))
    ensures MonitorAllows(s, Sleep)
    ensures var s' := Step(s, Sleep); s'.wakeMs.None? && !SleepOk(s')
  {
    LongTimeout();
  }

  lemma LongSleep(s: Sys)
    requires s.phase.Top? && s.timers == [NewTimer(INIT, INFINITE)] && s.now == INIT.now && !s.signalDue
    requires M.Enabled(s.mon, M.Lock(D, MX)) && M.Waiters(s.mon, CV) == []
    ensures Runs(s, [Grab] + ([Sleep] + []))
    ensures var s' := After(s, [Grab] + ([Sleep] + [])); s'.wakeMs.None? && !SleepOk(s')
  {
    var s1 := Step(s, Grab);
    LongSleepBegins(s1);
    RunOne(s1, Sleep, []);
    RunOne(s, Grab, [Sleep] + []);
  }

  /** The excluded delay does fail: added first, it puts the dispatcher to sleep for ever. */
  lemma LongestDelayIsSleptThrough(c: Tid)
    requires c != D
    ensures var es := [AddBegin(c, INFINITE)] + ([AddEnd(c)] + ([Grab] + ([Sleep] + [])));
            Runs(INIT, es) && !SleepOk(After(INIT, es)) && After(INIT, es).wakeMs.None?
  {
    LongAdd(c);
    var s1 := Step(INIT, AddBegin(c, INFINITE));
    var s2 := Step(s1, AddEnd(c));
    LongSleep(s2);
    RunOne(s1, AddEnd(c), [Grab] + ([Sleep] + []));
    RunOne(INIT, AddBegin(c, INFINITE), [AddEnd(c)] + ([Grab] + ([Sleep] + [])));
  }

  /**
   * Every timer ever added is in exactly one of pending, removed and taken; those taken fire once
   * each, in the order they were taken, never before their deadline, and those removed never do.
   */
  lemma TimersAreAccountedFor(es: seq<Event>, t: TimerId)
    requires Runs(INIT, es)
    ensures var s := After(INIT, es);
            && (t in s.added <==> t in s.timers || t in s.removed || t in s.taken)
            && !(t in s.timers && t in s.removed) && !(t in s.timers && t in s.taken)
            && !(t in s.removed && t in s.taken)
            && NoDup(s.taken) && s.taken == Names(s.fired) + Due(s)
            && forall i :: 0 <= i < |s.fired| ==> s.fired[i].timer.at.Ms() <= s.fired[i].atMs
  {
    AccountsKept(INIT, es);
  }

  lemma ScanShape(s: Sys, readings: seq<Stamp>)
    requires |readings| == |s.timers| + 1 && s.phase.Scanning? && M.Enabled(s.mon, M.Unlock(D, MX))
    ensures var s', n := Scanned(s, readings), DueCount(s.timers, readings);
            n <= |s.timers| && Due(s') == s.timers[..n] && s'.timers == s.timers[n..]
  {
    ScanBounds(s.timers, readings);
  }

  /**
   * A scan splits the pending timers: a batch handed to on_timer() in deadline order, and a rest
   * of which nothing had expired at the scan's last look at the clock.
   */
  lemma ScanLeavesNoneExpired(es: seq<Event>, s: Sys, readings: seq<Stamp>)
    requires Runs(INIT, es) && s == After(INIT, es) && Enabled(s, Scan(readings))
    ensures MonitorAllows(s, Scan(readings)) && DueCount(s.timers, readings) <= |s.timers|
    ensures var s', n := Scanned(s, readings), DueCount(s.timers, readings);
            && Due(s') == s.timers[..n] && Sorted(s.timers[..n])
            && s'.timers == s.timers[n..]
            && forall t :: t in s.timers[n..] ==> readings[n].Ms() < t.at.Ms()
  {
    AccountsKept(INIT, es);
    MonAllows(s, Scan(readings));
    ScanShape(s, readings);
    PendingMs(s);
    Timer.ScanSplits(s.timers, readings);
  }
}
