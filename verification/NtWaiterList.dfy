/**
 * The waiter list of omni_condition, in place: the chain from waiting_head by cond_next, its
 * inverse by cond_prev, the cond_waiting flags and the per-thread semaphores. Each method is one
 * critical section of one condition variable; NtPointers interleaves those of any number of them.
 */
module NtWaiterList {
  import opened Common

  class OmniThread {
    var condNext: OmniThread?
    var condPrev: OmniThread?
    var condWaiting: bool
    var condSemaphore: nat

    constructor ()
      ensures condNext == null && condPrev == null && !condWaiting && condSemaphore == 0
    {
      condNext, condPrev, condWaiting, condSemaphore := null, null, false, 0;
    }
  }

  class OmniCondition {
    var waitingHead: OmniThread?
    var waitingTail: OmniThread?
    ghost var Chain: seq<OmniThread>

    ghost predicate NodeOk(i: nat)
      requires i < |Chain|
      reads this, Chain[i]
    {
      && Chain[i].condWaiting
      && Chain[i].condNext == (if i + 1 < |Chain| then Chain[i + 1] else null)
      && Chain[i].condPrev == (if i > 0 then Chain[i - 1] else null)
    }

    /** The list is exactly Chain, in both directions, and its members are flagged. */
    ghost predicate Valid()
      reads this, Chain
    {
      && NoDup(Chain)
      && waitingHead == (if Chain == [] then null else Chain[0])
      && waitingTail == (if Chain == [] then null else Chain[|Chain| - 1])
      && forall i :: 0 <= i < |Chain| ==> NodeOk(i)
    }

    constructor ()
      ensures Valid() && Chain == []
    {
      waitingHead, waitingTail, Chain := null, null, [];
    }

    /** A thread that is not flagged as waiting is on no condition variable's list. */
    lemma UnflaggedIsFree(me: OmniThread)
      requires Valid() && !me.condWaiting
      ensures me !in Chain
    {
      forall i | 0 <= i < |Chain| ensures Chain[i] != me { assert NodeOk(i); }
    }

    /** First critical section of wait() and timedwait(); a caller is not waiting already. */
    method LinkSelf(me: OmniThread)
      requires Valid() && !me.condWaiting
      modifies this, me, Chain
      ensures Valid() && Chain == old(Chain) + [me]
      ensures me.condSemaphore == old(me.condSemaphore)
      ensures forall t :: t in old(Chain) ==> t.condSemaphore == old(t.condSemaphore)
    {
      UnflaggedIsFree(me);
      ghost var c := Chain;
      me.condNext := null;
      me.condPrev := waitingTail;
      if waitingHead == null {
        waitingHead := me;
      } else {
        waitingTail.condNext := me;
      }
      waitingTail := me;
      me.condWaiting := true;
      Chain := Chain + [me];
      forall i | 0 <= i < |Chain| ensures NodeOk(i) {
        if i < |c| { assert old(NodeOk(i)) && Chain[i] == c[i] && c[i] != me; }
      }
    }

    /** Unlinks a waiter from wherever it is in the chain. */
    method Unlink(me: OmniThread, ghost k: nat)
      requires Valid() && k < |Chain| && Chain[k] == me
      modifies this, Chain
      ensures Valid() && Chain == old(Chain)[..k] + old(Chain)[k + 1..]
      ensures !me.condWaiting
      ensures forall t :: t in old(Chain) ==> t.condSemaphore == old(t.condSemaphore)
    {
      ghost var c := Chain;
      assert NodeOk(k) && (k > 0 ==> NodeOk(k - 1)) && (k + 1 < |c| ==> NodeOk(k + 1));
      if me.condPrev != null {
        me.condPrev.condNext := me.condNext;
      } else {
        waitingHead := me.condNext;
      }
      if me.condNext != null {
        me.condNext.condPrev := me.condPrev;
      } else {
        waitingTail := me.condPrev;
      }
      me.condWaiting := false;
      Chain := c[..k] + c[k + 1..];
      forall i | 0 <= i < |Chain| ensures NodeOk(i) {
        ghost var j := if i < k then i else i + 1;
        assert old(NodeOk(j)) && Chain[i] == c[j] && c[j] != me;
      }
    }

    /**
     * Critical section after a timeout: a thread that is still waiting unlinks itself and reports
     * the timeout; one that was signalled meanwhile changes nothing.
     */
    method UnlinkSelf(me: OmniThread) returns (timedOut: bool)
      requires Valid() && (me.condWaiting ==> me in Chain)
      modifies this, me, Chain
      ensures Valid()
      ensures timedOut <==> old(me.condWaiting)
      ensures Chain == if timedOut then Without(old(Chain), me) else old(Chain)
      ensures me !in Chain && !me.condWaiting
      ensures forall t :: t in old(Chain) || t == me ==> t.condSemaphore == old(t.condSemaphore)
    {
      timedOut := me.condWaiting;
      if timedOut {
        ghost var k :| 0 <= k < |Chain| && Chain[k] == me;
        WithoutAt(Chain, k);
        WithoutKeeps(Chain, me);
        Unlink(me, k);
      } else {
        assert forall i :: 0 <= i < |Chain| ==> NodeOk(i) && Chain[i] != me;
      }
    }

    /** The code signal() and each turn of broadcast() share. */
    method WakeHead()
      requires Valid() && Chain != []
      modifies this, Chain
      ensures Valid() && Chain == old(Chain)[1..]
      ensures !old(Chain)[0].condWaiting && old(Chain)[0].condSemaphore == old(Chain[0].condSemaphore) + 1
      ensures forall t :: t in Chain ==> t.condSemaphore == old(t.condSemaphore)
    {
      assert NodeOk(0);
      ghost var c := Chain;
      var t := waitingHead;
      waitingHead := t.condNext;
      if waitingHead == null {
        waitingTail := null;
      } else {
        assert c[1] == waitingHead;
        waitingHead.condPrev := null;
      }
      t.condWaiting := false;
      t.condSemaphore := t.condSemaphore + 1;
      Chain := Chain[1..];
      forall i | 0 <= i < |Chain| ensures NodeOk(i) {
        assert old(NodeOk(i + 1)) && Chain[i] == c[i + 1] && c[i + 1] != c[0];
      }
    }

    /** signal(): the oldest waiter, if any, leaves the list and gets one token. */
    method Signal()
      requires Valid()
      modifies this, Chain
      ensures Valid()
      ensures old(Chain) == [] ==> Chain == []
      ensures old(Chain) != [] ==>
                && Chain == old(Chain)[1..]
                && !old(Chain)[0].condWaiting
                && old(Chain)[0].condSemaphore == old(Chain[0].condSemaphore) + 1
      ensures forall t :: t in Chain ==> t.condSemaphore == old(t.condSemaphore)
    {
      if waitingHead != null {
        WakeHead();
      }
    }

    /** broadcast(): the list empties, and each waiter gets exactly one token. */
    method Broadcast()
      requires Valid()
      modifies this, Chain
      ensures Valid() && Chain == []
      ensures forall t :: t in old(Chain) ==> !t.condWaiting && t.condSemaphore == old(t.condSemaphore) + 1
    {
      ghost var all := Chain;
      ghost var done := 0;
      while waitingHead != null
        invariant Valid()
        invariant 0 <= done <= |all| && Chain == all[done..]
        invariant forall i :: 0 <= i < done ==>
                    !all[i].condWaiting && all[i].condSemaphore == old(all[i].condSemaphore) + 1
        invariant forall i :: done <= i < |all| ==> all[i].condSemaphore == old(all[i].condSemaphore)
        decreases |all| - done
      {
        assert all[done] == Chain[0];
        WakeHead();
        done := done + 1;
      }
    }
  }
}
