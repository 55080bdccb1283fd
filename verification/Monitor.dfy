/** Names of threads and condition variables. */
module Threads {
  /** A thread is a native one (it has an omni_thread object) or a foreign one (it has none). */
  datatype Tid = Native(id: nat) | Foreign(id: nat)

  /** A condition variable is bound to one mutex for life. */
  datatype Cv = Cv(id: nat, mutex: nat)
}

/**
 * The monitor a client of a condition variable may rely on: waiting gives up the mutex and
 * joins the waiters in one step, a signal wakes the oldest waiter, and a woken thread runs
 * again only once it holds the mutex. This is the interface that IEEE Std 1003.1 gives
 * pthread_cond_timedwait(); NtRefinement shows that the NT code implements it.
 */
module Monitor {
  import opened Common
  import opened Threads

  datatype Status =
    | Running
    | Waiting(cv: Cv, timed: bool)
    | Woken(cv: Cv, signalled: bool)

  datatype State = State(
    status: map<Tid, Status>,
    holder: map<nat, Tid>,
    waiters: map<Cv, seq<Tid>>)

  datatype Event =
    | Lock(t: Tid, m: nat)
    | Unlock(t: Tid, m: nat)
    | Wait(t: Tid, cv: Cv, timed: bool)
    | Expire(t: Tid)
    | Signal(cv: Cv)
    | Broadcast(cv: Cv)
    | Resume(t: Tid)

  const INIT := State(map[], map[], map[])

  function StatusOf(s: State, t: Tid): Status {
    Get(s.status, t, Running)
  }

  function Holder(s: State, m: nat): Option<Tid> {
    if m in s.holder then Some(s.holder[m]) else None
  }

  function Waiters(s: State, c: Cv): seq<Tid> {
    Get(s.waiters, c, [])
  }

  predicate Enabled(s: State, e: Event) {
    match e
    case Lock(t, m) => StatusOf(s, t).Running? && Holder(s, m).None?
    case Unlock(t, m) => StatusOf(s, t).Running? && Holder(s, m) == Some(t)
    case Wait(t, cv, _) => StatusOf(s, t).Running? && Holder(s, cv.mutex) == Some(t)
    case Expire(t) => StatusOf(s, t).Waiting? && StatusOf(s, t).timed
    case Signal(_) => true
    case Broadcast(_) => true
    case Resume(t) => StatusOf(s, t).Woken? && Holder(s, StatusOf(s, t).cv.mutex).None?
  }

  function WakeOldest(s: State, c: Cv): State {
    var w := Waiters(s, c);
    if w == [] then s
    else s.(status := s.status[w[0] := Woken(c, true)], waiters := s.waiters[c := w[1..]])
  }

  function WakeAll(s: State, c: Cv): State
    decreases |Waiters(s, c)|
  {
    if Waiters(s, c) == [] then s else WakeAll(WakeOldest(s, c), c)
  }

  function Step(s: State, e: Event): State
    requires Enabled(s, e)
  {
    match e
    case Lock(t, m) => s.(holder := s.holder[m := t])
    case Unlock(t, m) => s.(holder := s.holder - {m})
    case Wait(t, cv, timed) =>
      State(s.status[t := Waiting(cv, timed)], s.holder - {cv.mutex}, s.waiters[cv := Waiters(s, cv) + [t]])
    case Expire(t) =>
      var cv := StatusOf(s, t).cv;
      s.(status := s.status[t := Woken(cv, false)], waiters := s.waiters[cv := Without(Waiters(s, cv), t)])
    case Signal(cv) => WakeOldest(s, cv)
    case Broadcast(cv) => WakeAll(s, cv)
    case Resume(t) =>
      s.(status := s.status[t := Running], holder := s.holder[StatusOf(s, t).cv.mutex := t])
  }
}
