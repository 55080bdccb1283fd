/**
 * Molecules and the Activity that schedules them, on values: the flags and the current atom of
 * a molecule, the priority list, interruption, completion and restart. Whether an atom starts or
 * stops, and where setPos() ends up, is the environment's choice.
 */
module Scheduler {
  import opened Arithmetic
  import opened Common

  datatype Mode = Mode(discard: bool, pause: bool, mute: bool, restart: bool,
                       dontInterrupt: bool, loop: bool, dtmfStop: bool)

  datatype Status = Ok | Stopped | StoppedDtmf

  /** `serial` is the order of creation; `current` indexes the atoms. */
  datatype Molecule = Molecule(
    serial: nat, priority: nat, mode: Mode,
    active: bool, needRewind: bool, stopped: bool,
    atoms: nat, current: Option<nat>, pos: nat, length: nat, status: Status)

  function NewMolecule(serial: nat, priority: nat, mode: Mode, atoms: nat, length: nat): Molecule {
    Molecule(serial, priority, mode, false, false, false, atoms, None, 0, length, Ok)
  }

  /** What the media do with one start(): where setPos() leads, and whether the atom starts. */
  datatype Media = Media(seekOk: bool, seekAtom: Option<nat>, seekPos: nat, atomStarts: bool)

  function First(m: Molecule): Option<nat> {
    if m.atoms > 0 then Some(0) else None
  }

  function Sought(m: Molecule, env: Media): Molecule {
    m.(current := if env.seekAtom.Some? then env.seekAtom else m.current, pos := env.seekPos)
  }

  /** Where a start() begins playing: None when mute finds nothing left to play. */
  function Positioned(m: Molecule, env: Media): Option<Molecule> {
    if !m.stopped then Some(if m.current.Some? then m else m.(current := First(m)))
    else if m.mode.restart then Some(m.(current := First(m)))
    else if m.mode.mute then (if env.seekOk then Some(Sought(m, env)) else None)
    else if m.mode.pause then Some(Sought(m, env))
    else Some(m)
  }

  function StartMolecule(m: Molecule, env: Media): (Molecule, bool) {
    var p := Positioned(m, env);
    if p.None? then (Sought(m, env).(stopped := false), false)
    else
      var started := p.value.current.Some? && env.atomStarts;
      (p.value.(stopped := false, active := m.active || started), started)
  }

  /** stop() on a molecule; dont_interrupt holds against all but a DTMF stop it asked for. */
  predicate Stoppable(m: Molecule, status: Status) {
    !m.mode.dontInterrupt || (m.mode.dtmfStop && status == StoppedDtmf)
  }

  function StopMolecule(m: Molecule, status: Status): Molecule {
    if Stoppable(m, status) then m.(stopped := true, status := status) else m
  }

  /** done(): the current atom has completed; the flag tells whether the molecule is finished. */
  function Done(m: Molecule, msecs: nat, growing: bool): (Molecule, bool)
    requires m.current.Some?
  {
    var d := m.(length := if growing then (m.length + msecs) % U32 else m.length,
                pos := (m.pos + msecs) % U32,
                active := false);
    if m.stopped then (d, m.mode.discard || (m.mode.dtmfStop && m.status == StoppedDtmf))
    else if m.current.value + 1 < m.atoms then (d.(current := Some(m.current.value + 1)), false)
    else if m.mode.loop then
      (d.(needRewind := m.needRewind || d.pos >= d.length, pos := 0, current := First(m)), false)
    else (d.(current := None), true)
  }

  // ----- the activity

  datatype ActState = Idle | Active | Stopping

  datatype Activity = Activity(list: seq<Molecule>, state: ActState)

  /** Where add() puts a molecule: behind all of the same or a higher priority at the front. */
  function Place(list: seq<Molecule>, priority: nat): (n: nat)
    ensures n <= |list|
    ensures forall i :: 0 <= i < n ==> list[i].priority >= priority
    ensures n < |list| ==> list[n].priority < priority
  {
    if list == [] || list[0].priority < priority then 0 else 1 + Place(list[1..], priority)
  }

  function InsertAt(list: seq<Molecule>, n: nat, m: Molecule): seq<Molecule>
    requires n <= |list|
  {
    list[..n] + [m] + list[n..]
  }

  function Add(a: Activity, m: Molecule, env: Media): Activity {
    if a.list == [] then
      var (m', started) := StartMolecule(m, env);
      Activity([m'], if started then Active else a.state)
    else
      var n, last := Place(a.list, m.priority), a.list[0];
      var interrupt := m.priority > last.priority && !last.mode.dontInterrupt;
      var list := if interrupt then a.list[0 := StopMolecule(last, Stopped)] else a.list;
      a.(list := InsertAt(list, n, m))
  }

  function Delete(list: seq<Molecule>, i: nat): seq<Molecule>
    requires i < |list|
  {
    list[..i] + list[i + 1..]
  }

  /** remove(): an active molecule is only stopped. */
  function Remove(a: Activity, i: nat): Activity
    requires i < |a.list|
  {
    if a.list[i].active then a.(list := a.list[i := StopMolecule(a.list[i], Stopped)])
    else
      var list := Delete(a.list, i);
      Activity(list, if list == [] then Idle else a.state)
  }

  /** start(): tries the molecules from the head; those that fail are reported and removed. */
  function StartFirst(list: seq<Molecule>, envs: seq<Media>): (seq<Molecule>, seq<nat>)
    requires |envs| >= |list|
    decreases |list|
  {
    if list == [] then ([], [])
    else
      var (m, started) := StartMolecule(list[0], envs[0]);
      if started then ([m] + list[1..], [])
      else
        var (rest, reported) := StartFirst(list[1..], envs[1..]);
        (rest, [list[0].serial] + reported)
  }

  function Start(a: Activity, envs: seq<Media>): Activity
    requires |envs| >= |a.list|
  {
    var (list, _) := StartFirst(a.list, envs);
    Activity(list, if list == [] then Idle else Active)
  }

  /** stop(): always aimed at the head; `atomStops` is the answer of its current atom. */
  function Stop(a: Activity, status: Status, atomStops: bool): Activity {
    if a.list == [] then a.(state := Stopping)
    else
      var h := a.list[0];
      Activity(a.list[0 := StopMolecule(h, status)],
               if Stoppable(h, status) && h.current.Some? && atomStops then Idle else Stopping)
  }

  function Dtmf(a: Activity, atomStops: bool): Activity {
    if a.list != [] && a.list[0].mode.dtmfStop then Stop(a, StoppedDtmf, atomStops) else a
  }

  /** Sequencer::completed() for molecule i; `closing` is any of the disconnect or close conditions. */
  function Completed(a: Activity, i: nat, msecs: nat, growing: bool, closing: bool, envs: seq<Media>): Activity
    requires i < |a.list| && a.list[i].current.Some? && |envs| >= |a.list|
  {
    var (d, finished) := Done(a.list[i], msecs, growing);
    var b := a.(list := a.list[i := d]);
    var c := if a.state.Stopping? || finished then Remove(b, i) else b;
    if closing then c.(state := Idle) else Start(c, envs)
  }

  /** What a completion leaves listed, before start(). */
  function Left(a: Activity, i: nat, msecs: nat, growing: bool): (list: seq<Molecule>)
    requires i < |a.list| && a.list[i].current.Some?
    ensures |list| <= |a.list|
  {
    var (d, finished) := Done(a.list[i], msecs, growing);
    if a.state.Stopping? || finished then Delete(a.list, i) else a.list[i := d]
  }

  /** The molecules reported to the client because their start fails after that completion. */
  function Failed(a: Activity, i: nat, msecs: nat, growing: bool, closing: bool, envs: seq<Media>): seq<nat>
    requires i < |a.list| && a.list[i].current.Some? && |envs| >= |a.list|
  {
    if closing then [] else StartFirst(Left(a, i, msecs, growing), envs).1
  }

  // ----- start() in closed form

  predicate Starts(m: Molecule, env: Media) { StartMolecule(m, env).1 }

  function Serials(list: seq<Molecule>): seq<nat> {
    seq(|list|, i requires 0 <= i < |list| => list[i].serial)
  }

  /** How many molecules at the front fail to start. */
  function Failing(list: seq<Molecule>, envs: seq<Media>): (n: nat)
    requires |envs| >= |list|
    ensures n <= |list|
    ensures forall i :: 0 <= i < n ==> !Starts(list[i], envs[i])
    ensures n < |list| ==> Starts(list[n], envs[n])
  {
    if list == [] || Starts(list[0], envs[0]) then 0 else 1 + Failing(list[1..], envs[1..])
  }

  /**
   * start() drops exactly the longest prefix of molecules that fail to start, reports each of them
   * once and in order, and leaves the first one that starts at the head, or nothing.
   */
  lemma {:induction false} StartDropsFailing(list: seq<Molecule>, envs: seq<Media>)
    requires |envs| >= |list|
    ensures var n := Failing(list, envs);
            StartFirst(list, envs) ==
            (if n < |list| then [StartMolecule(list[n], envs[n]).0] + list[n + 1..] else [], Serials(list[..n]))
    decreases |list|
  {
    assert Serials(list[..0]) == [];
    if list != [] && !Starts(list[0], envs[0]) {
      StartDropsFailing(list[1..], envs[1..]);
      var n := Failing(list, envs);
      assert list[1..][..n - 1] == list[..n][1..];
      assert Serials(list[..n]) == [list[0].serial] + Serials(list[..n][1..]);
      if n < |list| { assert list[1..][n - 1] == list[n] && list[1..][n..] == list[n + 1..]; }
    }
  }

  /** start() ends with nothing and idle, or with an active head and active. */
  lemma StartEnds(a: Activity, envs: seq<Media>)
    requires |envs| >= |a.list|
    ensures var b := Start(a, envs);
            && (b.list == [] <==> Failing(a.list, envs) == |a.list|)
            && if b.list == [] then b.state.Idle? else b.state.Active? && b.list[0].active
  {
    StartDropsFailing(a.list, envs);
  }

  // ----- what every event keeps

  /** Higher priority first; among equals, the older first. */
  predicate Before(x: Molecule, y: Molecule) {
    x.priority > y.priority || (x.priority == y.priority && x.serial < y.serial)
  }

  ghost predicate Ordered(list: seq<Molecule>) {
    forall i, j :: 0 <= i < j < |list| ==> Before(list[i], list[j])
  }

  predicate Sound(m: Molecule, next: nat) {
    && m.serial < next && m.atoms > 0
    && (m.current.Some? ==> m.current.value < m.atoms)
    && (m.active ==> m.current.Some?)
  }

  ghost predicate AllSound(list: seq<Molecule>, next: nat) {
    forall i :: 0 <= i < |list| ==> Sound(list[i], next)
  }

  ghost predicate NoneActive(list: seq<Molecule>) {
    forall i :: 0 <= i < |list| ==> !list[i].active
  }

  ghost predicate OneActive(list: seq<Molecule>) {
    forall i, j :: 0 <= i < j < |list| ==> !(list[i].active && list[j].active)
  }

  datatype Sys = Sys(act: Activity, next: nat)

  ghost predicate Inv(s: Sys) {
    Ordered(s.act.list) && AllSound(s.act.list, s.next) && OneActive(s.act.list)
  }

  datatype Event =
    | EvAdd(priority: nat, mode: Mode, atoms: nat, length: nat, env: Media)
    | EvRemove(i: nat)
    | EvStop(status: Status, atomStops: bool)
    | EvDtmf(atomStops: bool)
    | EvCompleted(i: nat, msecs: nat, growing: bool, closing: bool, envs: seq<Media>)

  /** setPos() only ever selects one of the molecule's atoms. */
  predicate Fair(m: Molecule, env: Media) {
    env.seekAtom.Some? ==> env.seekAtom.value < m.atoms
  }

  /** A molecule has at least one atom; completion is reported for the running molecule only. */
  ghost predicate Enabled(s: Sys, e: Event) {
    match e
    case EvAdd(_, _, atoms, _, env) => atoms > 0 && (env.seekAtom.Some? ==> env.seekAtom.value < atoms)
    case EvRemove(i) => i < |s.act.list|
    case EvStop(_, _) => true
    case EvDtmf(_) => true
    case EvCompleted(i, _, _, _, envs) =>
      && i < |s.act.list| && s.act.list[i].active && s.act.list[i].current.Some?
      && |envs| >= |s.act.list|
      && forall j, k :: 0 <= j < |s.act.list| && 0 <= k < |envs| ==> Fair(s.act.list[j], envs[k])
  }

  ghost function Step(s: Sys, e: Event): Sys
    requires Enabled(s, e)
  {
    match e
    case EvAdd(priority, mode, atoms, length, env) =>
      Sys(Add(s.act, NewMolecule(s.next, priority, mode, atoms, length), env), s.next + 1)
    case EvRemove(i) => s.(act := Remove(s.act, i))
    case EvStop(status, atomStops) => s.(act := Stop(s.act, status, atomStops))
    case EvDtmf(atomStops) => s.(act := Dtmf(s.act, atomStops))
    case EvCompleted(i, msecs, growing, closing, envs) =>
      s.(act := Completed(s.act, i, msecs, growing, closing, envs))
  }

  /** Two molecules that differ in nothing the order or soundness looks at. */
  predicate Alike(x: Molecule, y: Molecule) {
    x.serial == y.serial && x.priority == y.priority && x.atoms == y.atoms
  }

  lemma Replace(list: seq<Molecule>, i: nat, m: Molecule, next: nat)
    requires Ordered(list) && AllSound(list, next) && OneActive(list) && i < |list|
    requires Alike(m, list[i]) && Sound(m, next) && (m.active ==> list[i].active)
    ensures var l := list[i := m]; Ordered(l) && AllSound(l, next) && OneActive(l)
  {
  }

  lemma DeleteKeeps(list: seq<Molecule>, i: nat, next: nat)
    requires Ordered(list) && AllSound(list, next) && OneActive(list) && i < |list|
    ensures var l := Delete(list, i); Ordered(l) && AllSound(l, next) && OneActive(l)
    ensures NoneActive(list) ==> NoneActive(Delete(list, i))
  {
  }

  lemma InsertOrders(list: seq<Molecule>, n: nat, m: Molecule)
    requires Ordered(list) && n <= |list|
    requires forall i :: 0 <= i < n ==> Before(list[i], m)
    requires forall i :: n <= i < |list| ==> Before(m, list[i])
    ensures Ordered(InsertAt(list, n, m))
  {
    var l := InsertAt(list, n, m);
    forall i, j | 0 <= i < j < |l| ensures Before(l[i], l[j]) {
      if i != n && j != n {
        assert Before(list[if i < n then i else i - 1], list[if j < n then j else j - 1]);
      }
    }
  }

  lemma InsertRest(list: seq<Molecule>, n: nat, m: Molecule, next: nat)
    requires AllSound(list, next) && OneActive(list) && n <= |list| && Sound(m, next + 1) && !m.active
    ensures var l := InsertAt(list, n, m); AllSound(l, next + 1) && OneActive(l)
  {
    var l := InsertAt(list, n, m);
    forall i | 0 <= i < |l| ensures Sound(l[i], next + 1) {
      if i != n { assert Sound(list[if i < n then i else i - 1], next); }
    }
    forall i, j | 0 <= i < j < |l| && i != n && j != n ensures !(l[i].active && l[j].active) {
      var i', j' := if i < n then i else i - 1, if j < n then j else j - 1;
      assert !(list[i'].active && list[j'].active);
    }
  }

  lemma InsertKeeps(list: seq<Molecule>, m: Molecule, next: nat)
    requires Ordered(list) && AllSound(list, next) && OneActive(list)
    requires m.serial == next && Sound(m, next + 1) && !m.active
    ensures var l := InsertAt(list, Place(list, m.priority), m); Ordered(l) && AllSound(l, next + 1) && OneActive(l)
  {
    var n := Place(list, m.priority);
    forall i | n <= i < |list| ensures Before(m, list[i]) {
      if n < i { assert Before(list[n], list[i]); }
    }
    forall i | 0 <= i < n ensures Before(list[i], m) { assert Sound(list[i], next); }
    InsertOrders(list, n, m);
    InsertRest(list, n, m, next);
  }

  /** A list whose head stands for position `n` of another and whose rest is what followed it. */
  lemma SuffixKeeps(list: seq<Molecule>, n: nat, m: Molecule, next: nat)
    requires n < |list| && Ordered(list) && AllSound(list, next) && NoneActive(list)
    requires Alike(m, list[n]) && Sound(m, next)
    ensures var l := [m] + list[n + 1..];
            Ordered(l) && AllSound(l, next) && OneActive(l) && forall i :: 1 <= i < |l| ==> !l[i].active
  {
    var l := [m] + list[n + 1..];
    forall i | 1 <= i < |l| ensures l[i] == list[n + i] && !l[i].active && Sound(l[i], next) {}
    forall i, j | 0 <= i < j < |l| ensures Before(l[i], l[j]) { assert Before(list[n + i], list[n + j]); }
  }

  lemma StartKeeps(list: seq<Molecule>, envs: seq<Media>, next: nat)
    requires |envs| >= |list| && Ordered(list) && AllSound(list, next) && NoneActive(list)
    requires forall j, k :: 0 <= j < |list| && 0 <= k < |envs| ==> Fair(list[j], envs[k])
    ensures var l := StartFirst(list, envs).0;
            && Ordered(l) && AllSound(l, next) && OneActive(l)
            && (l != [] ==> l[0].active) && (forall i :: 1 <= i < |l| ==> !l[i].active)
  {
    StartDropsFailing(list, envs);
    var n := Failing(list, envs);
    if n < |list| {
      assert Fair(list[n], envs[n]) && Sound(list[n], next);
      SuffixKeeps(list, n, StartMolecule(list[n], envs[n]).0, next);
    }
  }

  lemma AddKeeps(s: Sys, e: Event)
    requires Inv(s) && Enabled(s, e) && e.EvAdd?
    ensures Inv(Step(s, e))
  {
    var m := NewMolecule(s.next, e.priority, e.mode, e.atoms, e.length);
    var list := s.act.list;
    if list != [] {
      if m.priority > list[0].priority && !list[0].mode.dontInterrupt {
        Replace(list, 0, StopMolecule(list[0], Stopped), s.next);
        var l := list[0 := StopMolecule(list[0], Stopped)];
        SamePlace(list, l, m.priority);
        InsertKeeps(l, m, s.next);
      } else {
        InsertKeeps(list, m, s.next);
      }
    }
  }

  lemma {:induction false} SamePlace(list: seq<Molecule>, l: seq<Molecule>, priority: nat)
    requires |l| == |list| && forall i :: 0 <= i < |l| ==> l[i].priority == list[i].priority
    ensures Place(l, priority) == Place(list, priority)
  {
    if list != [] { SamePlace(list[1..], l[1..], priority); }
  }

  lemma CompletedStart(s: Sys, e: Event) returns (c: Activity)
    requires Inv(s) && Enabled(s, e) && e.EvCompleted?
    ensures Ordered(c.list) && AllSound(c.list, s.next) && NoneActive(c.list) && |c.list| <= |s.act.list|
    ensures forall j, k :: 0 <= j < |c.list| && 0 <= k < |e.envs| ==> Fair(c.list[j], e.envs[k])
    ensures Step(s, e).act == if e.closing then c.(state := Idle) else Start(c, e.envs)
  {
    var a, i := s.act, e.i;
    var (d, finished) := Done(a.list[i], e.msecs, e.growing);
    var b := a.(list := a.list[i := d]);
    Replace(a.list, i, d, s.next);
    assert NoneActive(b.list) by {
      forall j | 0 <= j < |b.list| ensures !b.list[j].active {
        assert j < i ==> !a.list[j].active;
        assert i < j ==> !a.list[j].active;
      }
    }
    assert forall j, k :: 0 <= j < |b.list| && 0 <= k < |e.envs| ==>
                            Fair(a.list[j], e.envs[k]) && Fair(b.list[j], e.envs[k]);
    c := if a.state.Stopping? || finished then Remove(b, i) else b;
    DeleteKeeps(b.list, i, s.next);
  }

  lemma StepKeeps(s: Sys, e: Event)
    requires Inv(s) && Enabled(s, e)
    ensures Inv(Step(s, e))
  {
    var list := s.act.list;
    match e
    case EvAdd(_, _, _, _, _) => AddKeeps(s, e);
    case EvRemove(i) =>
      if list[i].active {
        Replace(list, i, StopMolecule(list[i], Stopped), s.next);
      } else {
        DeleteKeeps(list, i, s.next);
      }
    case EvStop(status, _) => if list != [] { Replace(list, 0, StopMolecule(list[0], status), s.next); }
    case EvDtmf(_) => if list != [] { Replace(list, 0, StopMolecule(list[0], StoppedDtmf), s.next); }
    case EvCompleted(_, _, _, closing, envs) =>
      var c := CompletedStart(s, e);
      if !closing { StartKeeps(c.list, envs, s.next); }
  }

  ghost predicate Runs(s: Sys, es: seq<Event>)
    decreases |es|
  {
    es == [] || (Enabled(s, es[0]) && Runs(Step(s, es[0]), es[1..]))
  }

  ghost function After(s: Sys, es: seq<Event>): Sys
    requires Runs(s, es)
    decreases |es|
  {
    if es == [] then s else After(Step(s, es[0]), es[1..])
  }

  const EMPTY := Sys(Activity([], Idle), 0)

  lemma {:induction false} RunKeeps(s: Sys, es: seq<Event>)
    requires Inv(s) && Runs(s, es)
    ensures Inv(After(s, es))
    decreases |es|
  {
    if es != [] {
      StepKeeps(s, es[0]);
      RunKeeps(Step(s, es[0]), es[1..]);
    }
  }

  /**
   * Over every run the list is sorted by non-increasing priority with ties in order of arrival,
   * and at most one molecule is active.
   */
  lemma ListStaysOrdered(es: seq<Event>)
    requires Runs(EMPTY, es)
    ensures Ordered(After(EMPTY, es).act.list) && OneActive(After(EMPTY, es).act.list)
  {
    RunKeeps(EMPTY, es);
  }

  predicate ActiveIn(list: seq<Molecule>, serial: nat) {
    exists i :: 0 <= i < |list| && list[i].serial == serial && list[i].active
  }

  /**
   * Whatever an event starts is at the head of the list it leaves, which by the order is the
   * oldest of the highest priority present. A completed molecule counts as started again.
   */
  lemma StartedIsFirst(es: seq<Event>, s: Sys, e: Event, k: nat)
    requires Runs(EMPTY, es) && s == After(EMPTY, es) && Enabled(s, e)
    requires var list := Step(s, e).act.list;
             && k < |list| && list[k].active
             && (ActiveIn(s.act.list, list[k].serial) ==> e.EvCompleted?)
    ensures k == 0
    ensures forall j :: 0 < j < |Step(s, e).act.list| ==> Before(Step(s, e).act.list[0], Step(s, e).act.list[j])
  {
    RunKeeps(EMPTY, es);
    StepKeeps(s, e);
    assert Ordered(Step(s, e).act.list);
    StartedAtHead(s, e, k);
  }

  lemma InsertedActive(list: seq<Molecule>, n: nat, m: Molecule, k: nat)
    requires n <= |list| && !m.active && k <= |list| && InsertAt(list, n, m)[k].active
    ensures ActiveIn(list, InsertAt(list, n, m)[k].serial)
  {
    var i := if k < n then k else k - 1;
    assert k != n && list[i] == InsertAt(list, n, m)[k];
  }

  lemma ReplacedActive(list: seq<Molecule>, i: nat, m: Molecule, serial: nat)
    requires i < |list| && m.serial == list[i].serial && m.active == list[i].active
    requires ActiveIn(list[i := m], serial)
    ensures ActiveIn(list, serial)
  {
    var k :| 0 <= k < |list| && list[i := m][k].serial == serial && list[i := m][k].active;
    assert list[k].serial == serial && list[k].active;
  }

  lemma DeletedActive(list: seq<Molecule>, i: nat, k: nat)
    requires i < |list| && k < |list| - 1 && Delete(list, i)[k].active
    ensures ActiveIn(list, Delete(list, i)[k].serial)
  {
    assert list[if k < i then k else k + 1] == Delete(list, i)[k];
  }

  /** Apart from completion, only add() to an empty activity makes anything active. */
  lemma ActiveBefore(s: Sys, e: Event, k: nat)
    requires Enabled(s, e) && !e.EvCompleted?
    requires k < |Step(s, e).act.list| && Step(s, e).act.list[k].active
    ensures ActiveIn(s.act.list, Step(s, e).act.list[k].serial) || (s.act.list == [] && k == 0)
  {
    var list, serial := s.act.list, Step(s, e).act.list[k].serial;
    if list != [] {
      assert ActiveIn(Step(s, e).act.list, serial);
      match e
      case EvAdd(priority, mode, atoms, length, _) =>
        var h, m := StopMolecule(list[0], Stopped), NewMolecule(s.next, priority, mode, atoms, length);
        if priority > list[0].priority && !list[0].mode.dontInterrupt {
          InsertedActive(list[0 := h], Place(list, priority), m, k);
          ReplacedActive(list, 0, h, serial);
        } else {
          InsertedActive(list, Place(list, priority), m, k);
        }
      case EvRemove(i) =>
        if list[i].active {
          ReplacedActive(list, i, StopMolecule(list[i], Stopped), serial);
        } else {
          DeletedActive(list, i, k);
        }
      case EvStop(status, _) => ReplacedActive(list, 0, StopMolecule(list[0], status), serial);
      case EvDtmf(_) =>
        if list[0].mode.dtmfStop { ReplacedActive(list, 0, StopMolecule(list[0], StoppedDtmf), serial); }
    }
  }

  lemma StartedAtHead(s: Sys, e: Event, k: nat)
    requires Inv(s) && Enabled(s, e)
    requires var list := Step(s, e).act.list;
             && k < |list| && list[k].active
             && (ActiveIn(s.act.list, list[k].serial) ==> e.EvCompleted?)
    ensures k == 0
  {
    if e.EvCompleted? {
      var c := CompletedStart(s, e);
      if !e.closing { StartKeeps(c.list, e.envs, s.next); }
    } else {
      ActiveBefore(s, e, k);
    }
  }

  // ----- when an activity that has molecules runs one

  /** An activity that has molecules is running one of them. */
  ghost predicate Works(a: Activity) {
    a.list != [] ==> !NoneActive(a.list)
  }

  /**
   * The events that leave molecules behind with none of them running: add() to an empty activity
   * when the start fails, and a completion in a disconnect or close that leaves any molecule.
   */
  predicate Stalls(s: Sys, e: Event)
    requires e.EvCompleted? ==> e.i < |s.act.list| && s.act.list[e.i].current.Some?
  {
    var list := s.act.list;
    || (e.EvAdd? && list == [] && !e.env.atomStarts)
    || (e.EvCompleted? && e.closing
        && (|list| > 1 || !(s.act.state.Stopping? || Done(list[e.i], e.msecs, e.growing).1)))
  }

  lemma InsertStaysActive(list: seq<Molecule>, n: nat, m: Molecule)
    requires n <= |list| && !NoneActive(list)
    ensures !NoneActive(InsertAt(list, n, m))
  {
    var k :| 0 <= k < |list| && list[k].active;
    assert InsertAt(list, n, m)[if k < n then k else k + 1].active;
  }

  lemma ReplaceStaysActive(list: seq<Molecule>, i: nat, m: Molecule)
    requires i < |list| && !NoneActive(list) && m.active == list[i].active
    ensures !NoneActive(list[i := m])
  {
    var k :| 0 <= k < |list| && list[k].active;
    assert list[i := m][k].active;
  }

  lemma DeleteStaysActive(list: seq<Molecule>, i: nat)
    requires i < |list| && !NoneActive(list) && !list[i].active
    ensures !NoneActive(Delete(list, i))
  {
    var k :| 0 <= k < |list| && list[k].active;
    assert Delete(list, i)[if k < i then k else k - 1].active;
  }

  lemma StaysActive(s: Sys, e: Event)
    requires Enabled(s, e) && !e.EvCompleted? && s.act.list != [] && !NoneActive(s.act.list)
    ensures !NoneActive(Step(s, e).act.list)
  {
    var list := s.act.list;
    match e
    case EvAdd(priority, mode, atoms, length, _) =>
      var l := list[0 := StopMolecule(list[0], Stopped)];
      var n, m := Place(list, priority), NewMolecule(s.next, priority, mode, atoms, length);
      ReplaceStaysActive(list, 0, StopMolecule(list[0], Stopped));
      InsertStaysActive(l, n, m);
      InsertStaysActive(list, n, m);
    case EvRemove(i) =>
      if list[i].active {
        ReplaceStaysActive(list, i, StopMolecule(list[i], Stopped));
      } else {
        DeleteStaysActive(list, i);
      }
    case EvStop(status, _) => ReplaceStaysActive(list, 0, StopMolecule(list[0], status));
    case EvDtmf(_) => ReplaceStaysActive(list, 0, StopMolecule(list[0], StoppedDtmf));
  }

  lemma CompletionWorks(s: Sys, e: Event)
    requires Inv(s) && Enabled(s, e) && e.EvCompleted?
    ensures Works(Step(s, e).act) <==> !Stalls(s, e)
  {
    var c := CompletedStart(s, e);
    if e.closing {
      var a, i := s.act, e.i;
      var (d, finished) := Done(a.list[i], e.msecs, e.growing);
      assert |c.list| == if a.state.Stopping? || finished then |a.list| - 1 else |a.list|;
    } else {
      StartKeeps(c.list, e.envs, s.next);
    }
  }

  /** One event: a working activity goes on working exactly unless the event is one that stalls it. */
  lemma WorksUnlessStalled(s: Sys, e: Event)
    requires Inv(s) && Enabled(s, e) && Works(s.act)
    ensures Works(Step(s, e).act) <==> !Stalls(s, e)
  {
    if e.EvCompleted? {
      CompletionWorks(s, e);
    } else if s.act.list != [] {
      StaysActive(s, e);
    } else if e.EvAdd? {
      assert Step(s, e).act.list[0].active <==> e.env.atomStarts;
    }
  }

  /** One event: a stalled activity works again exactly when its last molecule is removed; nothing stalls it again. */
  lemma StalledUntilEmpty(s: Sys, e: Event)
    requires Inv(s) && Enabled(s, e) && !Works(s.act)
    ensures !Stalls(s, e)
    ensures Works(Step(s, e).act) <==> e.EvRemove? && |s.act.list| == 1
    ensures Works(Step(s, e).act) <==> Step(s, e).act.list == []
    ensures e.EvRemove? ==> |Step(s, e).act.list| == |s.act.list| - 1
  {
    if e.EvRemove? {
      DeleteKeeps(s.act.list, e.i, s.next);
    }
  }

  /** At some moment of the run, its start included, there is no molecule left. */
  ghost predicate Empties(s: Sys, es: seq<Event>)
    requires Runs(s, es)
    decreases |es|
  {
    s.act.list == [] || (es != [] && Empties(Step(s, es[0]), es[1..]))
  }

  /** After every event of the run that stalls, there comes a moment with no molecule left. */
  ghost predicate StallsEnd(s: Sys, es: seq<Event>)
    requires Runs(s, es)
    decreases |es|
  {
    es != [] ==>
      && (Stalls(s, es[0]) ==> Empties(Step(s, es[0]), es[1..]))
      && StallsEnd(Step(s, es[0]), es[1..])
  }

  lemma {:induction false} WorksAfter(s: Sys, es: seq<Event>)
    requires Inv(s) && Runs(s, es)
    ensures Works(After(s, es).act) <==> StallsEnd(s, es) && (Works(s.act) || Empties(s, es))
    decreases |es|
  {
    if es != [] {
      StepKeeps(s, es[0]);
      WorksAfter(Step(s, es[0]), es[1..]);
      if Works(s.act) {
        WorksUnlessStalled(s, es[0]);
      } else {
        StalledUntilEmpty(s, es[0]);
      }
    }
  }

  /**
   * After any run, an activity that has molecules is running one of them if and only if every
   * stall on the way was followed by a moment with no molecule left.
   */
  lemma WorksExactlyWhen(es: seq<Event>)
    requires Runs(EMPTY, es)
    ensures Works(After(EMPTY, es).act) <==> StallsEnd(EMPTY, es)
  {
    WorksAfter(EMPTY, es);
  }
}
