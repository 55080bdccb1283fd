/** Conference handles of sequencer/conference.cpp, over a handle space 0..N-1 of any size. */
module Conferences {
  import opened Common

  /** Of a conference itself only its handle and the flag that its handle has been closed. */
  class Conference {
    const handle: nat
    var closed: bool

    constructor (handle: nat)
      ensures this.handle == handle && !closed
    {
      this.handle := handle;
      closed := false;
    }
  }

  /** ++m_handle: unsigned increment in a space of n values. */
  function Succ(h: nat, n: nat): nat
    requires h < n
  {
    if h + 1 == n then 0 else h + 1
  }

  /** The first free handle at or cyclically after `start`, looking at `left` handles. */
  function FirstFree(live: set<nat>, start: nat, n: nat, left: nat): Option<nat>
    requires start < n
    decreases left
  {
    if left == 0 then None
    else if start !in live then Some(start)
    else FirstFree(live, Succ(start, n), n, left - 1)
  }

  /** Where create() begins to look: the next handle, with 0 skipped. */
  function FirstTry(handle: nat, n: nat): nat
    requires handle < n && n > 1
  {
    var h := Succ(handle, n);
    if h == 0 then 1 else h
  }

  function Plus(h: nat, d: nat, n: nat): nat
    requires h < n && d <= n
  {
    if h + d < n then h + d else h + d - n
  }

  lemma {:induction false} FirstFreeIs(live: set<nat>, start: nat, n: nat, left: nat)
    requires start < n && left <= n
    ensures match FirstFree(live, start, n, left)
            case None => forall d :: 0 <= d < left ==> Plus(start, d, n) in live
            case Some(h) =>
              && h < n && h !in live
              && exists d :: 0 <= d < left && h == Plus(start, d, n)
                   && forall e :: 0 <= e < d ==> Plus(start, e, n) in live
    decreases left
  {
    if left > 0 {
      assert Plus(start, 0, n) == start;
      if start in live {
        var next := Succ(start, n);
        assert next == Plus(start, 1, n);
        FirstFreeIs(live, next, n, left - 1);
        assert forall d :: 0 <= d < left - 1 ==> Plus(next, d, n) == Plus(start, d + 1, n);
        match FirstFree(live, next, n, left - 1)
        case None =>
          forall d | 0 <= d < left ensures Plus(start, d, n) in live {
            if d > 0 { assert Plus(next, d - 1, n) in live; }
          }
        case Some(h) =>
          var d :| 0 <= d < left - 1 && h == Plus(next, d, n) && forall e :: 0 <= e < d ==> Plus(next, e, n) in live;
          forall e | 0 <= e < d + 1 ensures Plus(start, e, n) in live {
            if e > 0 { assert Plus(next, e - 1, n) in live; }
          }
          assert h == Plus(start, d + 1, n);
      }
    }
  }

  /** A whole cycle fails exactly when every handle is live. */
  lemma OutOfHandles(live: set<nat>, start: nat, n: nat)
    requires start < n
    ensures FirstFree(live, start, n, n).None? <==> forall h :: 0 <= h < n ==> h in live
  {
    FirstFreeIs(live, start, n, n);
    if FirstFree(live, start, n, n).None? {
      forall h | 0 <= h < n ensures h in live {
        assert h == Plus(start, if h >= start then h - start else h + n - start, n);
      }
    }
  }

  /**
   * create() hands out handle 0 exactly when every handle from where it begins to look to the end
   * of the space is live and 0 is not; so a handle need not be non-zero after wrap-around.
   */
  lemma ZeroIsHandedOut(live: set<nat>, start: nat, n: nat)
    requires 0 < start < n
    ensures FirstFree(live, start, n, n) == Some(0) <==> 0 !in live && forall h :: start <= h < n ==> h in live
  {
    FirstFreeIs(live, start, n, n);
    var zero := n - start;
    assert Plus(start, zero, n) == 0;
    if FirstFree(live, start, n, n) == Some(0) {
      var d :| 0 <= d < n && 0 == Plus(start, d, n) && forall e :: 0 <= e < d ==> Plus(start, e, n) in live;
      assert d == zero;
      forall h | start <= h < n ensures h in live { assert Plus(start, h - start, n) == h; }
    }
    if 0 !in live && forall h :: start <= h < n ==> h in live {
      FirstFreeFinds(live, start, n, n, zero);
    }
  }

  lemma {:induction false} FirstFreeFinds(live: set<nat>, start: nat, n: nat, left: nat, d: nat)
    requires start < n && d < left <= n && Plus(start, d, n) !in live
    requires forall e :: 0 <= e < d ==> Plus(start, e, n) in live
    ensures FirstFree(live, start, n, left) == Some(Plus(start, d, n))
    decreases left
  {
    if d > 0 {
      assert Plus(start, 0, n) == start;
      var next := Succ(start, n);
      assert forall e :: 0 <= e < d ==> Plus(next, e, n) == Plus(start, e + 1, n);
      FirstFreeFinds(live, next, n, left - 1, d - 1);
    }
  }

  function Upto(low: nat, high: int): (r: set<nat>)
    ensures forall h :: h in r <==> low <= h <= high
    decreases high - low
  {
    if high < low then {} else Upto(low, high - 1) + {high}
  }

  /** The handles in use and the last one, after k calls of create() and none of close(). */
  function AfterCreates(k: nat, n: nat): (r: (set<nat>, nat))
    requires n > 1
    ensures r.1 < n
  {
    if k == 0 then ({}, 0)
    else
      var (live, last) := AfterCreates(k - 1, n);
      FirstFreeIs(live, FirstTry(last, n), n, n);
      var h := FirstFree(live, FirstTry(last, n), n, n);
      if h.None? then (live, FirstTry(last, n)) else (live + {h.value}, h.value)
  }

  /** From an empty map: n - 1 calls of create() hand out 1, 2, 3 and so on, the next one 0, and then all are live. */
  lemma {:induction false} HandlesInOrder(k: nat, n: nat)
    requires n > 1 && k <= n
    ensures AfterCreates(k, n) == if k < n then (Upto(1, k), k) else (Upto(0, n - 1), 0)
  {
    if k == 0 {
      assert Upto(1, 0) == {};
    } else {
      HandlesInOrder(k - 1, n);
      var live := Upto(1, k - 1);
      if k < n {
        assert Plus(k, 0, n) == k;
        FirstFreeFinds(live, k, n, n, 0);
        assert live + {k} == Upto(1, k);
      } else {
        ZeroIsHandedOut(live, 1, n);
        assert live + {0} == Upto(0, n - 1);
      }
    }
  }

  ghost predicate LeastFree(live: set<nat>, low: nat, high: nat, h: nat) {
    low <= h < high && h !in live && forall x :: low <= x < h ==> x in live
  }

  /**
   * What create() hands out, whatever is live: the least free handle behind the last one (behind the
   * end of the space: from 1 on); only if there is none, the least free one before; only if there is
   * none either, none.
   */
  lemma NextHandle(live: set<nat>, last: nat, n: nat)
    requires last < n && n > 1
    ensures var low := if last + 1 < n then last + 1 else 1;
            match FirstFree(live, FirstTry(last, n), n, n)
            case None => forall h :: 0 <= h < n ==> h in live
            case Some(h) =>
              || LeastFree(live, low, n, h)
              || (LeastFree(live, 0, low, h) && forall x :: low <= x < n ==> x in live)
  {
    var low := FirstTry(last, n);
    FirstFreeIs(live, low, n, n);
    OutOfHandles(live, low, n);
    if FirstFree(live, low, n, n).Some? {
      var h := FirstFree(live, low, n, n).value;
      var d :| 0 <= d < n && h == Plus(low, d, n) && forall e :: 0 <= e < d ==> Plus(low, e, n) in live;
      forall x | low <= x < n && x < low + d ensures x in live { assert Plus(low, x - low, n) == x; }
      forall x | 0 <= x < h < low ensures x in live { assert Plus(low, n - low + x, n) == x; }
    }
  }

  // ----- iterators of a std::map

  function KeyAfter(keys: set<nat>, k: nat, n: nat): Option<nat>
    decreases n - k
  {
    if k + 1 >= n then None else if k + 1 in keys then Some(k + 1) else KeyAfter(keys, k + 1, n)
  }

  function FirstKey(keys: set<nat>, n: nat): Option<nat> {
    if n > 0 && 0 in keys then Some(0) else KeyAfter(keys, 0, n)
  }

  lemma {:induction false} KeyAfterIs(keys: set<nat>, k: nat, n: nat)
    ensures KeyAfter(keys, k, n).Some? ==> KeyAfter(keys, k, n).value in keys && k < KeyAfter(keys, k, n).value < n
    ensures forall x :: x in keys && k < x < n ==>
              KeyAfter(keys, k, n).Some? && KeyAfter(keys, k, n).value <= x
    decreases n - k
  {
    if k + 1 < n && k + 1 !in keys { KeyAfterIs(keys, k + 1, n); }
  }

  class Conferences {
    const n: nat
    var handle: nat
    var conferences: map<nat, Conference>

    /** A handle that is live is that of an open conference. */
    ghost predicate Valid()
      reads this, conferences.Values
    {
      && n > 1 && handle < n
      && forall h :: h in conferences ==> h < n && conferences[h].handle == h && !conferences[h].closed
    }

    constructor (n: nat)
      requires n > 1
      ensures Valid() && this.n == n && conferences == map[] && handle == 0
    {
      this.n := n;
      handle, conferences := 0, map[];
    }

    /** ++iterator with wrap-around at the end of the map. */
    function StepIterator(p: nat): nat
      reads this
    {
      var next := KeyAfter(conferences.Keys, p, n);
      if next.Some? then next.value
      else var first := FirstKey(conferences.Keys, n); if first.Some? then first.value else p
    }

    /** The iterator meets the next handle exactly when that handle is live. */
    lemma Lockstep(p: nat)
      requires Valid() && p in conferences && p < n
      ensures StepIterator(p) in conferences
      ensures StepIterator(p) == Succ(p, n) <==> Succ(p, n) in conferences
    {
      KeyAfterIs(conferences.Keys, p, n);
      KeyAfterIs(conferences.Keys, 0, n);
    }

    /** None stands for the exception, which leaves the counter where the search began. */
    method Create() returns (r: Option<Conference>)
      requires Valid()
      modifies this
      ensures Valid()
      ensures var free := FirstFree(old(conferences).Keys, FirstTry(old(handle), n), n, n);
              if free.None? then r.None? && conferences == old(conferences) && handle == FirstTry(old(handle), n)
              else
                && r.Some? && fresh(r.value) && r.value.handle == free.value
                && conferences == old(conferences)[free.value := r.value] && handle == free.value
    {
      handle := Succ(handle, n);
      if handle == 0 {
        handle := 1;
      }
      if handle in conferences {
        var i := handle;
        Search();
        if handle == i {
          return None;
        }
      }
      var c := new Conference(handle);
      r := Some(c);
      conferences := conferences[handle := c];
    }

    /** The search from a live handle, until a hole is found or the handle is met again. */
    method Search()
      requires Valid() && handle in conferences
      modifies this`handle
      ensures Valid()
      ensures var free := FirstFree(conferences.Keys, old(handle), n, n);
              handle == if free.None? then old(handle) else free.value
      ensures handle == old(handle) <==> FirstFree(conferences.Keys, old(handle), n, n).None?
    {
      FirstFreeIs(conferences.Keys, handle, n, n);
      var i, p := handle, handle;
      ghost var left := n - 1;
      handle := Succ(handle, n);
      while handle != i
        invariant Valid()
        invariant p in conferences && p < n && handle == Succ(p, n)
        invariant 0 <= left < n && i == Plus(handle, left, n)
        invariant FirstFree(conferences.Keys, i, n, n) == FirstFree(conferences.Keys, handle, n, left)
        decreases left
      {
        Lockstep(p);
        p := StepIterator(p);
        if p != handle {
          break;
        }
        handle := Succ(handle, n);
        left := left - 1;
      }
    }

    /** The handle is free again, and its conference marked as closed. */
    method Close(h: nat) returns (found: bool)
      requires Valid()
      modifies this`conferences, conferences.Values
      ensures Valid()
      ensures found <==> h in old(conferences)
      ensures found ==> old(conferences)[h].closed
      ensures conferences == old(conferences) - {h}
    {
      found := h in conferences;
      if found {
        var c := conferences[h];
        conferences := conferences - {h};
        c.closed := true;
      }
    }

    function At(h: nat): Option<Conference>
      reads this
    {
      if h in conferences then Some(conferences[h]) else None
    }
  }
}
