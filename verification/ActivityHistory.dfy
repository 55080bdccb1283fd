/** What the events of an activity do to its molecules, one by one and over whole runs. */
module ActivityHistory {
  import opened Common
  import opened Scheduler

  // ----- where every molecule ends up

  function RemovedBy(s: Sys, e: Event): seq<nat>
    requires e.EvRemove? ==> e.i < |s.act.list|
  {
    if e.EvRemove? && !s.act.list[e.i].active then [s.act.list[e.i].serial] else []
  }

  /** The completed molecule, when it is at its end or finds the activity stopping. */
  ghost function FinishedBy(s: Sys, e: Event): seq<nat>
    requires Enabled(s, e)
  {
    if e.EvCompleted? && (s.act.state.Stopping? || Done(s.act.list[e.i], e.msecs, e.growing).1)
    then [s.act.list[e.i].serial] else []
  }

  ghost function FailedBy(s: Sys, e: Event): seq<nat>
    requires Enabled(s, e)
  {
    if e.EvCompleted? then Failed(s.act, e.i, e.msecs, e.growing, e.closing, e.envs) else []
  }

  datatype Gone = Gone(removed: seq<nat>, finished: seq<nat>, failed: seq<nat>)

  /** All that left the activity during a run. */
  ghost function Departed(s: Sys, es: seq<Event>): Gone
    requires Runs(s, es)
    decreases |es|
  {
    if es == [] then Gone([], [], [])
    else
      var g := Departed(Step(s, es[0]), es[1..]);
      Gone(RemovedBy(s, es[0]) + g.removed, FinishedBy(s, es[0]) + g.finished, FailedBy(s, es[0]) + g.failed)
  }

  function Times(ns: seq<nat>, n: nat): nat { multiset(ns)[n] }

  function Listed(list: seq<Molecule>, n: nat): nat { Times(Serials(list), n) }

  function Places(g: Gone, n: nat): nat { Times(g.removed, n) + Times(g.finished, n) + Times(g.failed, n) }

  lemma ListedAppend(a: seq<Molecule>, b: seq<Molecule>, n: nat)
    ensures Listed(a + b, n) == Listed(a, n) + Listed(b, n)
  {
    assert Serials(a + b) == Serials(a) + Serials(b);
  }

  lemma ListedOne(m: Molecule, n: nat)
    ensures Listed([m], n) == if m.serial == n then 1 else 0
  {
    assert Serials([m]) == [m.serial];
  }

  lemma ListedSplit(list: seq<Molecule>, i: nat, n: nat)
    requires i < |list|
    ensures Listed(list, n) == Listed(Delete(list, i), n) + if list[i].serial == n then 1 else 0
  {
    assert list == list[..i] + ([list[i]] + list[i + 1..]);
    ListedAppend(list[..i], [list[i]] + list[i + 1..], n);
    ListedAppend([list[i]], list[i + 1..], n);
    ListedAppend(list[..i], list[i + 1..], n);
    ListedOne(list[i], n);
  }

  lemma ListedReplace(list: seq<Molecule>, i: nat, m: Molecule, n: nat)
    requires i < |list| && m.serial == list[i].serial
    ensures Listed(list[i := m], n) == Listed(list, n)
  {
    assert Serials(list[i := m]) == Serials(list);
  }

  lemma ListedInsert(list: seq<Molecule>, i: nat, m: Molecule, n: nat)
    requires i <= |list|
    ensures Listed(InsertAt(list, i, m), n) == Listed(list, n) + if m.serial == n then 1 else 0
  {
    ListedSplit(InsertAt(list, i, m), i, n);
    assert Delete(InsertAt(list, i, m), i) == list;
  }

  lemma ListedHead(m: Molecule, rest: seq<Molecule>, n: nat)
    ensures Listed([m] + rest, n) == Listed(rest, n) + if m.serial == n then 1 else 0
  {
    ListedAppend([m], rest, n);
    ListedOne(m, n);
  }

  /** Reporting the first k molecules and putting `m` for the next one. */
  lemma ListedFrom(list: seq<Molecule>, k: nat, m: Molecule, n: nat)
    requires k < |list| && m.serial == list[k].serial
    ensures Listed(list, n) == Listed([m] + list[k + 1..], n) + Times(Serials(list[..k]), n)
  {
    assert list == list[..k] + ([list[k]] + list[k + 1..]);
    ListedAppend(list[..k], [list[k]] + list[k + 1..], n);
    ListedHead(list[k], list[k + 1..], n);
    ListedHead(m, list[k + 1..], n);
  }

  lemma SameSerial(m: Molecule, env: Media)
    ensures StartMolecule(m, env).0.serial == m.serial
  {
  }

  /** start() keeps a molecule listed or reports it. */
  lemma ListedStart(list: seq<Molecule>, envs: seq<Media>, n: nat)
    requires |envs| >= |list|
    ensures var (l, failed) := StartFirst(list, envs); Listed(list, n) == Listed(l, n) + Times(failed, n)
  {
    StartDropsFailing(list, envs);
    var k := Failing(list, envs);
    if k < |list| {
      SameSerial(list[k], envs[k]);
      ListedFrom(list, k, StartMolecule(list[k], envs[k]).0, n);
    } else {
      assert list[..k] == list;
    }
  }

  lemma CompletedList(a: Activity, i: nat, msecs: nat, growing: bool, closing: bool, envs: seq<Media>)
    requires i < |a.list| && a.list[i].current.Some? && |envs| >= |a.list|
    ensures var left := Left(a, i, msecs, growing);
            Completed(a, i, msecs, growing, closing, envs).list == if closing then left else StartFirst(left, envs).0
  {
    var d := Done(a.list[i], msecs, growing).0;
    assert Delete(a.list[i := d], i) == Delete(a.list, i);
  }

  lemma LeftBalances(a: Activity, i: nat, msecs: nat, growing: bool, n: nat)
    requires i < |a.list| && a.list[i].current.Some?
    ensures Listed(a.list, n) ==
            Listed(Left(a, i, msecs, growing), n)
            + if (a.state.Stopping? || Done(a.list[i], msecs, growing).1) && a.list[i].serial == n then 1 else 0
  {
    ListedReplace(a.list, i, Done(a.list[i], msecs, growing).0, n);
    ListedSplit(a.list, i, n);
  }

  lemma CompletedBalances(s: Sys, e: Event, n: nat)
    requires Enabled(s, e) && e.EvCompleted?
    ensures Listed(s.act.list, n) ==
            Listed(Step(s, e).act.list, n) + Times(FinishedBy(s, e), n) + Times(FailedBy(s, e), n)
  {
    CompletedList(s.act, e.i, e.msecs, e.growing, e.closing, e.envs);
    LeftBalances(s.act, e.i, e.msecs, e.growing, n);
    if !e.closing { ListedStart(Left(s.act, e.i, e.msecs, e.growing), e.envs, n); }
  }

  /** One event: a molecule stays listed or leaves in one way, and add() lists a new one. */
  lemma StepBalances(s: Sys, e: Event, n: nat)
    requires Enabled(s, e)
    ensures Listed(s.act.list, n) + (if s.next <= n < Step(s, e).next then 1 else 0) ==
            Listed(Step(s, e).act.list, n)
            + Times(RemovedBy(s, e), n) + Times(FinishedBy(s, e), n) + Times(FailedBy(s, e), n)
  {
    var list := s.act.list;
    match e
    case EvAdd(priority, mode, atoms, length, env) =>
      var m := NewMolecule(s.next, priority, mode, atoms, length);
      if list == [] {
        ListedOne(StartMolecule(m, env).0, n);
      } else {
        var h := StopMolecule(list[0], Stopped);
        ListedReplace(list, 0, h, n);
        ListedInsert(list, Place(list, priority), m, n);
        ListedInsert(list[0 := h], Place(list, priority), m, n);
      }
    case EvRemove(i) =>
      ListedReplace(list, i, StopMolecule(list[i], Stopped), n);
      ListedSplit(list, i, n);
    case EvStop(status, _) => if list != [] { ListedReplace(list, 0, StopMolecule(list[0], status), n); }
    case EvDtmf(_) => if list != [] { ListedReplace(list, 0, StopMolecule(list[0], StoppedDtmf), n); }
    case EvCompleted(_, _, _, _, _) => CompletedBalances(s, e, n);
  }

  lemma {:induction false} RunBalances(s: Sys, es: seq<Event>, n: nat)
    requires Runs(s, es)
    ensures s.next <= After(s, es).next
    ensures Listed(s.act.list, n) + (if s.next <= n < After(s, es).next then 1 else 0) ==
            Listed(After(s, es).act.list, n) + Places(Departed(s, es), n)
    decreases |es|
  {
    if es != [] {
      StepBalances(s, es[0], n);
      RunBalances(Step(s, es[0]), es[1..], n);
    }
  }

  /**
   * Over every run, each molecule ever added is in exactly one place, once: in the list, removed,
   * finished, or reported because its start failed. Nothing else is in any of them.
   */
  lemma EveryMoleculeInOnePlace(es: seq<Event>, n: nat)
    requires Runs(EMPTY, es)
    ensures var s := After(EMPTY, es);
            Listed(s.act.list, n) + Places(Departed(EMPTY, es), n) == if n < s.next then 1 else 0
  {
    assert Serials(EMPTY.act.list) == [];
    RunBalances(EMPTY, es, n);
  }

  // ----- completion

  lemma {:induction false} ListedPositive(list: seq<Molecule>, i: nat)
    requires i < |list|
    ensures Listed(list, list[i].serial) > 0
  {
    assert Serials(list)[i] == list[i].serial;
  }

  /**
   * In every reachable state, a molecule that is finished, or whose completion finds the activity
   * stopping, leaves the list; in a disconnect or close nothing is started after it.
   */
  lemma FinishedLeaves(es: seq<Event>, s: Sys, e: Event)
    requires Runs(EMPTY, es) && s == After(EMPTY, es) && Enabled(s, e) && e.EvCompleted?
    ensures var m, t := s.act.list[e.i], Step(s, e);
            && (s.act.state.Stopping? || Done(m, e.msecs, e.growing).1 ==>
                  forall j :: 0 <= j < |t.act.list| ==> t.act.list[j].serial != m.serial)
            && (e.closing ==> t.act.state.Idle? && NoneActive(t.act.list))
  {
    RunKeeps(EMPTY, es);
    var _ := CompletedStart(s, e);
    var m, list := s.act.list[e.i], Step(s, e).act.list;
    EveryMoleculeInOnePlace(es, m.serial);
    CompletedBalances(s, e, m.serial);
    forall j | 0 <= j < |list| ensures Listed(list, list[j].serial) > 0 { ListedPositive(list, j); }
  }

  // ----- interruption

  /** `m` as an interruption leaves it. */
  function Interrupted(m: Molecule, status: Status): Molecule { m.(stopped := true, status := status) }

  /**
   * stop() marks the head as stopped, for the reason given, unless its mode forbids interruption
   * and does not make an exception for DTMF; the other molecules stay as they are. The activity
   * is idle at once when the head's current atom stops, else stopping.
   */
  lemma StopMarksHead(s: Sys, e: Event)
    requires Enabled(s, e) && e.EvStop?
    ensures var list, t := s.act.list, Step(s, e);
            if list == [] then t == s.(act := Activity([], Stopping))
            else
              var h := list[0];
              var stops := !h.mode.dontInterrupt || (h.mode.dtmfStop && e.status == StoppedDtmf);
              && t.act.list == (if stops then [Interrupted(h, e.status)] + list[1..] else list)
              && t.act.state == (if stops && h.current.Some? && e.atomStops then Idle else Stopping)
              && t.next == s.next
  {
  }

  /** A digit stops exactly a head with dtmf_stop, even one that forbids interruption. */
  lemma DigitStopsHead(s: Sys, e: Event)
    requires Enabled(s, e) && e.EvDtmf?
    ensures var list, t := s.act.list, Step(s, e);
            if list != [] && list[0].mode.dtmfStop
            then && t.act.list == [Interrupted(list[0], StoppedDtmf)] + list[1..]
                 && t.act.state == (if list[0].current.Some? && e.atomStops then Idle else Stopping)
            else t == s
  {
  }

  /** A head with dtmf_stop that is playing when a digit arrives leaves with its next completion. */
  lemma DigitEndsHead(es: seq<Event>, s: Sys, e: Event, f: Event)
    requires Runs(EMPTY, es) && s == After(EMPTY, es) && s.act.list != [] && s.act.list[0].mode.dtmfStop
    requires e.EvDtmf? && f.EvCompleted? && f.i == 0 && Enabled(Step(s, e), f)
    ensures var list := Step(Step(s, e), f).act.list;
            forall j :: 0 <= j < |list| ==> list[j].serial != s.act.list[0].serial
  {
    DigitStopsHead(s, e);
    AppendRun(EMPTY, es, e);
    FinishedLeaves(es + [e], Step(s, e), f);
  }

  lemma {:induction false} AppendRun(s: Sys, es: seq<Event>, e: Event)
    requires Runs(s, es) && Enabled(After(s, es), e)
    ensures Runs(s, es + [e]) && After(s, es + [e]) == Step(After(s, es), e)
    decreases |es|
  {
    if es == [] {
      assert es + [e] == [e] && [e][1..] == [];
    } else {
      AppendRun(Step(s, es[0]), es[1..], e);
      assert (es + [e])[1..] == es[1..] + [e];
    }
  }

  /** The list add() puts the new molecule into: the head is interrupted by a higher priority if it allows that. */
  function Yielding(list: seq<Molecule>, priority: nat): seq<Molecule> {
    if list != [] && priority > list[0].priority && !list[0].mode.dontInterrupt
    then [Interrupted(list[0], Stopped)] + list[1..] else list
  }

  /**
   * In every reachable state: add() to an empty activity starts the molecule there and then, and
   * keeps it if that fails. Otherwise the new molecule waits behind exactly those of the same or a
   * higher priority, the head is interrupted exactly when the new one has a higher priority and
   * the head allows it, and nothing else changes.
   */
  lemma AddWaitsOrInterrupts(es: seq<Event>, s: Sys, e: Event)
    requires Runs(EMPTY, es) && s == After(EMPTY, es) && Enabled(s, e) && e.EvAdd?
    ensures var list, t, m := s.act.list, Step(s, e), NewMolecule(s.next, e.priority, e.mode, e.atoms, e.length);
            && t.next == s.next + 1 && m.pos == 0 && m.current.None?
            && if list == [] then
                 && t.act.list == [m.(current := Some(0), active := e.env.atomStarts)]
                 && t.act.state == (if e.env.atomStarts then Active else s.act.state)
               else
                 var n := Place(list, e.priority);
                 && t.act.state == s.act.state
                 && t.act.list == Yielding(list, e.priority)[..n] + [m] + Yielding(list, e.priority)[n..]
                 && forall i :: 0 <= i < |list| ==> (i < n <==> list[i].priority >= e.priority)
  {
    RunKeeps(EMPTY, es);
    var list := s.act.list;
    var n := Place(list, e.priority);
    assert list != [] ==> list[0 := Interrupted(list[0], Stopped)] == [Interrupted(list[0], Stopped)] + list[1..];
    forall i | 0 <= i < |list| ensures i < n <==> list[i].priority >= e.priority {
      if n < i { assert Before(list[n], list[i]); }
    }
  }

  /** remove(): a playing molecule is marked as stopped if it allows that; any other one leaves. */
  lemma RemoveLeavesOrStops(s: Sys, e: Event)
    requires Enabled(s, e) && e.EvRemove?
    ensures var list, m, t := s.act.list, s.act.list[e.i], Step(s, e);
            if m.active
            then t == (if m.mode.dontInterrupt then s
                       else s.(act := s.act.(list := list[..e.i] + [Interrupted(m, Stopped)] + list[e.i + 1..])))
            else && t.act.list == list[..e.i] + list[e.i + 1..]
                 && t.act.state == (if |list| == 1 then Idle else s.act.state)
  {
    var list, i := s.act.list, e.i;
    assert list[i := list[i]] == list;
    var m := Interrupted(list[i], Stopped);
    assert list[i := m] == list[..i] + [m] + list[i + 1..];
  }
}
