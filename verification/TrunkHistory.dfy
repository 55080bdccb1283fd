/** First in, first out, exactly once: the trunk's queues over every history of calls. */
module TrunkHistory {
  import opened Common
  import opened ClientQueue
  import opened Trunk

  /** The items enqueued at key k, in order. */
  function PutAt(ops: seq<Op>, k: string): seq<Item> {
    if ops == [] then []
    else
      var before, op := PutAt(ops[..|ops| - 1], k), ops[|ops| - 1];
      if op.Put? && op.addr == k && AllDigits(k) then before + [op.item] else before
  }

  /** The items that dequeue() handed out from the queue at k, in order. */
  function ServedAt(ops: seq<Op>, k: string): seq<Item> {
    if ops == [] then []
    else
      var front, op := ops[..|ops| - 1], ops[|ops| - 1];
      var before, v := ServedAt(front, k), AfterOps(front);
      if op.Take? && Serves(v.Keys, op.addr) == Some(k) && Dequeued(v, op.addr).0.Taken?
      then before + [Dequeued(v, op.addr).0.item]
      else before
  }

  /** What removeClient() takes out of a queue. */
  function Matching(s: seq<Item>, iface: nat, id: Option<string>): seq<Item> {
    if s == [] then []
    else
      var front, x := Matching(s[..|s| - 1], iface, id), s[|s| - 1];
      if Matches(x, iface, id) then front + [x] else front
  }

  function DroppedAt(ops: seq<Op>, k: string): seq<Item> {
    if ops == [] then []
    else
      var front, op := ops[..|ops| - 1], ops[|ops| - 1];
      var before := DroppedAt(front, k);
      if op.Drop? then before + Matching(QueueAt(front, k), op.iface, op.id) else before
  }

  function QueueAt(ops: seq<Op>, k: string): seq<Item> { Get(AfterOps(ops), k, []) }

  /** `a` is `b` with some elements left out. */
  predicate PartOf(a: seq<Item>, b: seq<Item>) {
    a == [] || (b != [] && (PartOf(a, b[..|b| - 1])
                            || (a[|a| - 1] == b[|b| - 1] && PartOf(a[..|a| - 1], b[..|b| - 1]))))
  }

  lemma {:induction false} PartOfItself(a: seq<Item>)
    ensures PartOf(a, a)
  {
    if a != [] { PartOfItself(a[..|a| - 1]); }
  }

  lemma PartOfGrows(a: seq<Item>, b: seq<Item>, x: Item)
    requires PartOf(a, b)
    ensures PartOf(a, b + [x]) && PartOf(a + [x], b + [x])
  {
    assert (b + [x])[..|b|] == b && (a + [x])[..|a|] == a;
  }

  lemma {:induction false} PartOfTransitive(a: seq<Item>, b: seq<Item>, c: seq<Item>)
    requires PartOf(a, b) && PartOf(b, c)
    ensures PartOf(a, c)
    decreases |b| + |c|
  {
    if a != [] {
      var b', c' := b[..|b| - 1], c[..|c| - 1];
      if PartOf(b, c') {
        PartOfTransitive(a, b, c');
      } else if PartOf(a, b') {
        PartOfTransitive(a, b', c');
      } else {
        PartOfTransitive(a[..|a| - 1], b', c');
      }
    }
  }

  lemma {:induction false} KeepIsPart(p: seq<Item>, s: seq<Item>, iface: nat, id: Option<string>)
    ensures PartOf(p + Keep(s, iface, id), p + s)
  {
    if s == [] {
      PartOfItself(p + s);
    } else {
      var t, x := s[..|s| - 1], s[|s| - 1];
      assert s == t + [x] && p + s == p + t + [x];
      KeepIsPart(p, t, iface, id);
      PartOfGrows(p + Keep(t, iface, id), p + t, x);
      assert p + (Keep(t, iface, id) + [x]) == p + Keep(t, iface, id) + [x];
    }
  }

  lemma {:induction false} KeepOrMatch(s: seq<Item>, iface: nat, id: Option<string>)
    ensures multiset(s) == multiset(Keep(s, iface, id)) + multiset(Matching(s, iface, id))
  {
    if s != [] {
      assert s == s[..|s| - 1] + [s[|s| - 1]];
      KeepOrMatch(s[..|s| - 1], iface, id);
    }
  }

  /**
   * What was enqueued is, each item once, what was served, what was taken out and what is queued;
   * and what was served, then what is queued, are in the order of arrival.
   */
  ghost predicate Account(put: seq<Item>, served: seq<Item>, dropped: seq<Item>, queued: seq<Item>) {
    && multiset(put) == multiset(served) + multiset(dropped) + multiset(queued)
    && PartOf(served + queued, put)
  }

  lemma AccountPut(put: seq<Item>, served: seq<Item>, dropped: seq<Item>, queued: seq<Item>, x: Item)
    requires Account(put, served, dropped, queued)
    ensures Account(put + [x], served, dropped, queued + [x])
  {
    PartOfGrows(served + queued, put, x);
    assert served + (queued + [x]) == served + queued + [x];
  }

  lemma AccountTake(put: seq<Item>, served: seq<Item>, dropped: seq<Item>, queued: seq<Item>)
    requires Account(put, served, dropped, queued) && queued != []
    ensures Account(put, served + [queued[0]], dropped, queued[1..])
  {
    assert queued == [queued[0]] + queued[1..];
    assert served + [queued[0]] + queued[1..] == served + queued;
  }

  lemma AccountDrop(put: seq<Item>, served: seq<Item>, dropped: seq<Item>, queued: seq<Item>,
                    iface: nat, id: Option<string>)
    requires Account(put, served, dropped, queued)
    ensures Account(put, served, dropped + Matching(queued, iface, id), Keep(queued, iface, id))
  {
    KeepOrMatch(queued, iface, id);
    KeepIsPart(served, queued, iface, id);
    PartOfTransitive(served + Keep(queued, iface, id), served + queued, put);
  }

  lemma PutChanges(v: View, addr: string, x: Item, k: string)
    ensures Get(Enqueued(v, addr, x), k, []) == Get(v, k, []) + if addr == k && AllDigits(k) then [x] else []
  {
    EnqueuedAppends(v, addr, x);
  }

  lemma TakeChanges(v: View, addr: string, k: string)
    requires "" in v
    ensures var (r, w) := Dequeued(v, addr);
            if Serves(v.Keys, addr) == Some(k) && r.Taken?
            then Get(v, k, []) == [r.item] + Get(w, k, [])
            else Get(w, k, []) == Get(v, k, [])
  {
    DequeuedTakesFirst(v, addr);
  }

  ghost predicate Conserved(ops: seq<Op>, k: string) {
    Account(PutAt(ops, k), ServedAt(ops, k), DroppedAt(ops, k), QueueAt(ops, k))
  }

  lemma PutRecords(ops: seq<Op>, k: string)
    requires ops != [] && ops[|ops| - 1].Put?
    ensures var front, op := ops[..|ops| - 1], ops[|ops| - 1];
            var more := if op.addr == k && AllDigits(k) then [op.item] else [];
            && PutAt(ops, k) == PutAt(front, k) + more && QueueAt(ops, k) == QueueAt(front, k) + more
            && ServedAt(ops, k) == ServedAt(front, k) && DroppedAt(ops, k) == DroppedAt(front, k)
  {
    var front, op := ops[..|ops| - 1], ops[|ops| - 1];
    PutChanges(AfterOps(front), op.addr, op.item, k);
  }

  lemma PutConserves(ops: seq<Op>, k: string)
    requires ops != [] && ops[|ops| - 1].Put? && Conserved(ops[..|ops| - 1], k)
    ensures Conserved(ops, k)
  {
    var front, op := ops[..|ops| - 1], ops[|ops| - 1];
    PutRecords(ops, k);
    AccountPut(PutAt(front, k), ServedAt(front, k), DroppedAt(front, k), QueueAt(front, k), op.item);
  }

  lemma TakeConserves(ops: seq<Op>, k: string)
    requires ops != [] && ops[|ops| - 1].Take? && Conserved(ops[..|ops| - 1], k)
    ensures Conserved(ops, k)
  {
    var front, op := ops[..|ops| - 1], ops[|ops| - 1];
    TakeChanges(AfterOps(front), op.addr, k);
    if Serves(AfterOps(front).Keys, op.addr) == Some(k) && Dequeued(AfterOps(front), op.addr).0.Taken? {
      AccountTake(PutAt(front, k), ServedAt(front, k), DroppedAt(front, k), QueueAt(front, k));
    }
  }

  lemma DropConserves(ops: seq<Op>, k: string)
    requires ops != [] && ops[|ops| - 1].Drop? && Conserved(ops[..|ops| - 1], k)
    ensures Conserved(ops, k)
  {
    var front, op := ops[..|ops| - 1], ops[|ops| - 1];
    AccountDrop(PutAt(front, k), ServedAt(front, k), DroppedAt(front, k), QueueAt(front, k), op.iface, op.id);
  }

  /** Over every history of calls, with removeClient() among them, and at every key. */
  lemma {:induction false} ItemsAreConserved(ops: seq<Op>, k: string)
    ensures Account(PutAt(ops, k), ServedAt(ops, k), DroppedAt(ops, k), QueueAt(ops, k))
  {
    if ops != [] {
      ItemsAreConserved(ops[..|ops| - 1], k);
      match ops[|ops| - 1]
      case Put(_, _) => PutConserves(ops, k);
      case Take(_) => TakeConserves(ops, k);
      case Drop(_, _) => DropConserves(ops, k);
    }
  }

  /** Without removeClient() the queues are first in, first out: served, then queued, is what was enqueued. */
  lemma {:induction false} FirstInFirstOut(ops: seq<Op>, k: string)
    requires forall i :: 0 <= i < |ops| ==> !ops[i].Drop?
    ensures PutAt(ops, k) == ServedAt(ops, k) + QueueAt(ops, k)
  {
    if ops != [] {
      var front, op := ops[..|ops| - 1], ops[|ops| - 1];
      FirstInFirstOut(front, k);
      if op.Put? {
        PutChanges(AfterOps(front), op.addr, op.item, k);
        assert ServedAt(front, k) + (QueueAt(front, k) + [op.item]) == PutAt(front, k) + [op.item];
      } else {
        TakeChanges(AfterOps(front), op.addr, k);
        if Serves(AfterOps(front).Keys, op.addr) == Some(k) && Dequeued(AfterOps(front), op.addr).0.Taken? {
          var x := Dequeued(AfterOps(front), op.addr).0.item;
          assert ServedAt(front, k) + ([x] + QueueAt(ops, k)) == ServedAt(front, k) + [x] + QueueAt(ops, k);
        }
      }
    }
  }
}
