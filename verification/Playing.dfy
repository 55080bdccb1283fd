/** What one molecule plays over a whole life: its atoms in order, loops, interruptions and resumption. */
module Playing {
  import opened Arithmetic
  import opened Common
  import opened Scheduler

  /** A start for which the media have no objection; without interruption nothing is sought. */
  const WILLING := Media(false, None, 0, true)

  predicate Uninterrupted(m: Molecule) {
    m.atoms > 0 && !m.stopped && !m.active && (m.current.Some? ==> m.current.value < m.atoms)
  }

  /** The atom the next start plays. */
  function NextAtom(m: Molecule): nat {
    if m.current.Some? then m.current.value else 0
  }

  /** Start and completion in turn, one for each of `spans`, as long as the molecule is not finished. */
  function Play(m: Molecule, spans: seq<nat>, growing: bool): (Molecule, seq<nat>, bool)
    requires Uninterrupted(m)
    decreases |spans|
  {
    if spans == [] then (m, [], false)
    else
      var s := StartMolecule(m, WILLING).0;
      var (d, finished) := Done(s, spans[0], growing);
      if finished then (d, [s.current.value], true)
      else
        var (e, played, end) := Play(d, spans[1..], growing);
        (e, [s.current.value] + played, end)
  }

  function Sum(spans: seq<nat>): nat {
    if spans == [] then 0 else spans[0] + Sum(spans[1..])
  }

  /** One start and one completion. */
  lemma OneAtom(m: Molecule, msecs: nat, growing: bool)
    requires Uninterrupted(m)
    ensures var (s, started) := StartMolecule(m, WILLING);
      && started && s.active && s.current == Some(NextAtom(m)) && s.pos == m.pos
      && var (d, finished) := Done(s, msecs, growing);
        && !d.active && !d.stopped && d.atoms == m.atoms && d.mode == m.mode
        && d.length == (if growing then (m.length + msecs) % U32 else m.length)
        && if NextAtom(m) + 1 < m.atoms
           then !finished && d.current == Some(NextAtom(m) + 1) && d.pos == (m.pos + msecs) % U32
           else if m.mode.loop
           then && !finished && d.current == Some(0) && d.pos == 0
                && (d.needRewind <==> m.needRewind || (m.pos + msecs) % U32 >= d.length)
           else finished && d.current == None && d.pos == (m.pos + msecs) % U32
  {
  }

  /**
   * Uninterrupted and not looping, a molecule plays its remaining atoms once each and in order, is
   * finished with the last one and not before, and its position is the time played.
   */
  lemma {:induction false} PlaysOnce(m: Molecule, spans: seq<nat>, growing: bool)
    requires Uninterrupted(m) && !m.mode.loop && |spans| <= m.atoms - NextAtom(m)
    ensures var (e, played, finished) := Play(m, spans, growing);
      && |played| == |spans| && (forall i :: 0 <= i < |played| ==> played[i] == NextAtom(m) + i)
      && (finished <==> |spans| == m.atoms - NextAtom(m))
      && (spans != [] ==> e.pos == (m.pos + Sum(spans)) % U32)
    decreases |spans|
  {
    if spans != [] {
      OneAtom(m, spans[0], growing);
      var (d, finished) := Done(StartMolecule(m, WILLING).0, spans[0], growing);
      if finished {
        assert spans[1..] == [];
      } else {
        PlaysOnce(d, spans[1..], growing);
        WrapEarly(m.pos + spans[0], Sum(spans[1..]));
      }
    }
  }

  /** Uninterrupted and looping, a molecule never finishes and plays its atoms round and round. */
  lemma LoopsForEver(m: Molecule, spans: seq<nat>, growing: bool)
    requires Uninterrupted(m) && m.mode.loop
    ensures var (e, played, finished) := Play(m, spans, growing);
      && !finished && |played| == |spans|
      && forall i :: 0 <= i < |played| ==> played[i] == (NextAtom(m) + i) % m.atoms
  {
    LoopGoesOn(m, spans, growing);
    forall i | 0 <= i < |spans| ensures Play(m, spans, growing).1[i] == (NextAtom(m) + i) % m.atoms {
      LoopAt(m, spans, growing, i);
    }
  }

  lemma {:induction false} LoopGoesOn(m: Molecule, spans: seq<nat>, growing: bool)
    requires Uninterrupted(m) && m.mode.loop
    ensures !Play(m, spans, growing).2 && |Play(m, spans, growing).1| == |spans|
    decreases |spans|
  {
    if spans != [] {
      OneAtom(m, spans[0], growing);
      LoopGoesOn(Done(StartMolecule(m, WILLING).0, spans[0], growing).0, spans[1..], growing);
    }
  }

  lemma {:induction false} LoopAt(m: Molecule, spans: seq<nat>, growing: bool, i: nat)
    requires Uninterrupted(m) && m.mode.loop && i < |spans|
    ensures |Play(m, spans, growing).1| == |spans| && Play(m, spans, growing).1[i] == (NextAtom(m) + i) % m.atoms
    decreases |spans|
  {
    LoopGoesOn(m, spans, growing);
    OneAtom(m, spans[0], growing);
    RoundAt(NextAtom(m), i, m.atoms);
    if i > 0 {
      LoopAt(Done(StartMolecule(m, WILLING).0, spans[0], growing).0, spans[1..], growing, i - 1);
    }
  }

  /** i places on from a, round a circle of n. */
  lemma RoundAt(a: nat, i: nat, n: nat)
    requires a < n
    ensures (a + i) % n == if i == 0 then a else ((if a + 1 < n then a + 1 else 0) + (i - 1)) % n
  {
    if i > 0 && a + 1 == n {
      Round(i - 1, n);
    }
  }

  /**
   * An interruption ends the molecule exactly when it is to be discarded, or stops on DTMF and was
   * stopped so. Otherwise the next start plays the first atom again in restart mode, the
   * interrupted one with no mode set, and the one sought in pause mode, or in mute mode if there
   * is one. Restarting does not take the position back. A molecule that forbids the interruption
   * plays on as if there had been none.
   */
  lemma InterruptedResumes(m: Molecule, status: Status, msecs: nat, growing: bool, env: Media)
    requires m.atoms > 0 && m.active && !m.stopped && m.current.Some? && m.current.value < m.atoms
    ensures !Stoppable(m, status) ==> StopMolecule(m, status) == m
    ensures Stoppable(m, status) ==>
      var (d, finished) := Done(StopMolecule(m, status), msecs, growing);
      var (s, started) := StartMolecule(d, env);
      && !d.active && d.stopped
      && (finished <==> m.mode.discard || (m.mode.dtmfStop && status == StoppedDtmf))
      && !s.stopped && s.active == started
      && d.pos == (m.pos + msecs) % U32
      && (m.mode.restart ==> s.current == Some(0) && s.pos == d.pos)
      && (!m.mode.restart && !m.mode.mute && !m.mode.pause ==> s.current == m.current && s.pos == d.pos)
      && (!m.mode.restart && (m.mode.mute || m.mode.pause) ==>
            s.current == (if env.seekAtom.Some? then env.seekAtom else m.current) && s.pos == env.seekPos)
      && (started <==> env.atomStarts && (m.mode.mute && !m.mode.restart ==> env.seekOk))
  {
  }
}
