/** The client side of AculabPRITrunkConfiguration: a map from digit strings to FIFO queues. */
module Trunk {
  import opened Common
  import opened DoublyLinked
  import opened ClientQueue
  import opened DigitTrie
  import opened TrieIterator

  type View = map<string, seq<Item>>

  datatype Taken = Taken(item: Item) | Nobody | BadAddress

  /** The map after create(addr): new keys come with empty queues, old ones keep theirs. */
  function Extended(v: View, addr: string): View {
    map k | k in Created(v.Keys, addr) :: Get(v, k, [])
  }

  /** The null address is the empty one: both name the root. */
  function Key(addr: Option<string>): string {
    if addr.None? then "" else addr.value
  }

  lemma RootOnly(keys: set<string>)
    requires "" in keys
    ensures Created(keys, "") == keys
  {
  }

  /** enqueue() on the map; a bad address leaves only new keys. */
  function Enqueued(v: View, k: string, x: Item): View {
    if AllDigits(k) then Extended(v, k)[k := Get(v, k, []) + [x]] else Extended(v, k)
  }

  /** Appending at key k, if it is one: the item is the last there, and no other queue changes. */
  ghost predicate Appends(v: View, k: string, x: Item, w: View) {
    && w.Keys == Created(v.Keys, k)
    && (AllDigits(k) ==> k in w && w[k] == Get(v, k, []) + [x])
    && forall j :: j in w && !(AllDigits(k) && j == k) ==> w[j] == Get(v, j, [])
  }

  lemma EnqueuedAppends(v: View, k: string, x: Item)
    ensures Appends(v, k, x, Enqueued(v, k, x))
  {
    if AllDigits(k) {
      assert k == k[..DigitRun(k)];
    }
  }

  /** dequeue() on the map: from the address's queue if it is a key, else from the root's. */
  function Dequeued(v: View, addr: string): (Taken, View)
    requires "" in v
  {
    var w := Walk(v.Keys, addr, 0);
    if w == Bad then (BadAddress, v) else Popped(v, if w == Hit && addr in v then addr else "")
  }

  function Popped(v: View, k: string): (Taken, View)
    requires k in v
  {
    if v[k] == [] then (Nobody, v) else (Taken.Taken(v[k][0]), v[k := v[k][1..]])
  }

  /** Taking from queue k: its first item leaves, if there is one, and no other queue changes. */
  ghost predicate TakesFirst(v: View, k: string, r: Taken, w: View) {
    && k in v && w.Keys == v.Keys
    && (forall j :: j in v && j != k ==> w[j] == v[j])
    && if |v[k]| == 0 then r == Nobody && w[k] == []
       else r == Taken.Taken(v[k][0]) && [v[k][0]] + w[k] == v[k]
  }

  /** The queue dequeue() serves: that of the address if it is a key, else the root's; none for a bad address. */
  function Serves(keys: set<string>, addr: string): Option<string> {
    match Walk(keys, addr, 0)
    case Hit => Some(addr)
    case Miss => Some("")
    case Bad => None
  }

  lemma {:induction false} HitIsKey(keys: set<string>, k: string, i: nat)
    requires i <= |k| && k[..i] in keys && Walk(keys, k, i) == Hit
    ensures k in keys
    decreases |k| - i
  {
    if i == |k| {
      assert k[..i] == k;
    } else {
      HitIsKey(keys, k, i + 1);
    }
  }

  /** dequeue() takes the first item, and only that, of the queue it serves. */
  lemma DequeuedTakesFirst(v: View, addr: string)
    requires "" in v
    ensures var (r, w) := Dequeued(v, addr);
            match Serves(v.Keys, addr)
            case None => r == BadAddress && w == v
            case Some(k) => TakesFirst(v, k, r, w)
  {
    if Walk(v.Keys, addr, 0) == Hit {
      assert addr[..0] == "";
      HitIsKey(v.Keys, addr, 0);
    }
  }

  /** removeClient() on the map. */
  function Removed(v: View, iface: nat, id: Option<string>): View {
    map k | k in v :: Keep(v[k], iface, id)
  }

  // ----- histories of calls

  datatype Op = Put(addr: string, item: Item) | Take(addr: string) | Drop(iface: nat, id: Option<string>)

  function Apply(v: View, op: Op): View
    requires "" in v
  {
    match op
    case Put(addr, item) => Enqueued(v, addr, item)
    case Take(addr) => Dequeued(v, addr).1
    case Drop(iface, id) => Removed(v, iface, id)
  }

  function AfterOps(ops: seq<Op>): (v: View)
    ensures "" in v
  {
    if ops == [] then map["" := []] else Apply(AfterOps(ops[..|ops| - 1]), ops[|ops| - 1])
  }

  /** The addresses enqueue() was called with. */
  function Addresses(ops: seq<Op>): seq<string> {
    if ops == [] then []
    else
      var front, op := Addresses(ops[..|ops| - 1]), ops[|ops| - 1];
      if op.Put? then front + [op.addr] else front
  }

  lemma {:induction false} KeysAfter(ops: seq<Op>)
    ensures AfterOps(ops).Keys == AllCreated(Addresses(ops)) && PrefixClosed(AfterOps(ops).Keys)
  {
    if ops != [] {
      var front, op := ops[..|ops| - 1], ops[|ops| - 1];
      KeysAfter(front);
      if op.Put? {
        CreatedClosed(AfterOps(front).Keys, op.addr);
        var a := Addresses(front);
        assert (a + [op.addr])[..|a|] == a;
        if AllDigits(op.addr) { assert op.addr == op.addr[..DigitRun(op.addr)]; }
      }
    }
  }

  /** Some address enqueue() was called with begins with these digits. */
  ghost predicate Known(ops: seq<Op>, digits: string) {
    digits == "" || exists i :: 0 <= i < |Addresses(ops)| && digits <= Addresses(ops)[i]
  }

  lemma KnownIsKey(ops: seq<Op>, p: string)
    ensures p in AfterOps(ops).Keys <==> AllDigits(p) && Known(ops, p)
  {
    KeysAfter(ops);
    FoundArePrefixes(Addresses(ops), p);
  }

  lemma ServesKey(keys: set<string>, addr: string)
    requires PrefixClosed(keys) && (addr in keys ==> AllDigits(addr))
    ensures Serves(keys, addr) ==
            if addr[..DigitRun(addr)] !in keys then Some("") else if AllDigits(addr) then Some(addr) else None
  {
    assert addr[..0] == "";
    if AllDigits(addr) {
      assert addr[..DigitRun(addr)] == addr;
      WalkFinds(keys, addr, 0);
    } else {
      WalkThrows(keys, addr, 0);
      if Walk(keys, addr, 0) == Hit { HitIsKey(keys, addr, 0); }
    }
  }

  /**
   * Over any history of calls, with good addresses or bad: dequeue() serves the queue of a digit
   * address that is empty or begins an enqueued one, and the root's for any other. A bad address is
   * refused if its digits begin an enqueued one, else it is served from the root too.
   */
  lemma DequeueServes(ops: seq<Op>, addr: string)
    ensures var v, digits := AfterOps(ops), addr[..DigitRun(addr)];
            var (r, w) := Dequeued(v, addr);
            if !Known(ops, digits) then TakesFirst(v, "", r, w)
            else if AllDigits(addr) then TakesFirst(v, addr, r, w)
            else r == BadAddress && w == v
  {
    KeysAfter(ops);
    KnownIsKey(ops, addr[..DigitRun(addr)]);
    KnownIsKey(ops, addr);
    ServesKey(AfterOps(ops).Keys, addr);
    DequeuedTakesFirst(AfterOps(ops), addr);
  }

  /** The queues at the keys `done` filtered one after the other. */
  function FilterEach(v: View, done: seq<string>, iface: nat, id: Option<string>): View {
    if done == [] then v
    else
      var w, k := FilterEach(v, done[..|done| - 1], iface, id), done[|done| - 1];
      w[k := Keep(Get(w, k, []), iface, id)]
  }

  lemma FilterOneMore(v: View, done: seq<string>, k: string, iface: nat, id: Option<string>)
    ensures var w := FilterEach(v, done, iface, id);
            FilterEach(v, done + [k], iface, id) == w[k := Keep(Get(w, k, []), iface, id)]
  {
    assert (done + [k])[..|done|] == done;
  }

  lemma {:induction false} FilterEachIs(v: View, done: seq<string>, iface: nat, id: Option<string>)
    requires NoDup(done) && forall k :: k in done ==> k in v
    ensures var w := FilterEach(v, done, iface, id);
            w.Keys == v.Keys && forall k :: k in v ==> w[k] == if k in done then Keep(v[k], iface, id) else v[k]
  {
    if done != [] {
      var front, k := done[..|done| - 1], done[|done| - 1];
      assert done == front + [k];
      FilterEachIs(v, front, iface, id);
      assert k !in front;
    }
  }

  /** After the keys `done` of the walk, with the iterator at `current`, `q` is what became of `v`. */
  ghost predicate Progress(v: View, q: View, done: seq<string>, current: Option<string>,
                           iface: nat, id: Option<string>)
  {
    WalkSoFar(v.Keys, done, current) && q.Keys == v.Keys && q == FilterEach(v, done, iface, id)
  }

  lemma ProgressOneMore(v: View, q: View, done: seq<string>, k: string, next: Option<string>,
                        iface: nat, id: Option<string>)
    requires Progress(v, q, done, Some(k), iface, id) && k in q
    requires if next.None? then IsLast(q.Keys, k) else IsNext(q.Keys, k, next.value)
    ensures |done| < |v.Keys| && Progress(v, q[k := Keep(q[k], iface, id)], done + [k], next, iface, id)
  {
    WalkOneMore(v.Keys, done, k, next);
    FilterOneMore(v, done, k, iface, id);
  }

  /** Filtering along a whole walk of the iterator filters every queue, once. */
  lemma WalkRemoves(v: View, done: seq<string>, iface: nat, id: Option<string>)
    requires TrieKeys(v.Keys) && IsWalk(v.Keys, done)
    ensures FilterEach(v, done, iface, id) == Removed(v, iface, id)
  {
    WalkVisitsAll(v.Keys, done);
    FilterEachIs(v, done, iface, id);
  }

  function Rest(s: seq<Item>): seq<Item> {
    if s == [] then [] else s[1..]
  }

  ghost predicate AllIn(s: seq<Link<Item>>, repr: set<object>) {
    forall i :: 0 <= i < |s| ==> s[i] in repr
  }

  lemma WithinIsIn(s: seq<Link<Item>>, c: seq<Link<Item>>, repr: set<object>)
    requires Within(s, c) && AllIn(c, repr)
    ensures AllIn(s, repr)
  {
  }

  lemma OneMoreIsIn(s: seq<Link<Item>>, l: Link<Item>, repr: set<object>)
    requires AllIn(s, repr)
    ensures AllIn(s + [l], repr + {l})
  {
  }

  ghost predicate Apart(a: DList<Item>, b: DList<Item>)
    reads a, b
  {
    a != b && forall i, j :: 0 <= i < |a.Links| && 0 <= j < |b.Links| ==> a.Links[i] != b.Links[j]
  }

  class Trunk {
    const ddis: DDIs
    ghost var queues: View               // the contents of the queue at each key
    ghost var repr: set<object>          // at least the queues and the links in them

    ghost predicate Valid()
      reads this, ddis, ddis.nodes.Values,
            (set k | k in ddis.nodes :: ddis.nodes[k].queue),
            (set k, i | k in ddis.nodes && 0 <= i < |ddis.nodes[k].queue.Links| :: ddis.nodes[k].queue.Links[i])
    {
      && ddis.Valid() && queues.Keys == ddis.nodes.Keys
      && forall k :: k in ddis.nodes ==> Holds(k, queues[k], repr)
    }

    ghost predicate Holds(k: string, items: seq<Item>, repr: set<object>)
      requires k in ddis.nodes
      reads ddis, ddis.nodes[k].queue, ddis.nodes[k].queue.Links
    {
      var q := ddis.nodes[k].queue;
      q.Valid() && q.place == k && q.Contents() == items && q in repr && AllIn(q.Links, repr)
    }

    constructor ()
      ensures Valid() && queues == map["" := []] && fresh(repr)
    {
      ddis := new DDIs();
      queues := map["" := []];
      new;
      repr := {ddis.root.queue};
    }

    /** Queues of different nodes share neither a list object nor a link. */
    lemma Separate(k: string, x: string)
      requires Valid() && k in ddis.nodes && x in ddis.nodes && x != k
      ensures Apart(ddis.nodes[x].queue, ddis.nodes[k].queue)
    {
      assert Holds(k, queues[k], repr) && Holds(x, queues[x], repr);
      var a, b := ddis.nodes[x].queue, ddis.nodes[k].queue;
      forall i, j | 0 <= i < |a.Links| && 0 <= j < |b.Links| ensures a.Links[i] != b.Links[j] {
        assert a.NodeOk(i) && b.NodeOk(j);
      }
    }

    ghost method Restate(v: View, more: set<object>)
      requires ddis.Valid() && v.Keys == ddis.nodes.Keys
      requires forall y :: y in ddis.nodes ==> Holds(y, v[y], more)
      modifies this
      ensures Valid() && queues == v && repr == more
    {
      queues, repr := v, more;
    }

    /** Brings the ghost state up to date after create(key) on the trie alone. */
    ghost method RecordKeys(key: string, more: set<object>)
      requires ddis.Valid() && ddis.nodes.Keys == Created(queues.Keys, key)
      requires forall x :: x in queues ==> Holds(x, queues[x], more)
      requires forall x :: x in ddis.nodes && x !in queues ==> Holds(x, [], more)
      modifies this
      ensures Valid() && queues == Extended(old(queues), key) && repr == more
    {
      Restate(Extended(queues, key), more);
    }

    /** create() under the trunk's invariant: existing queues are untouched, new ones empty. */
    method MakeNode(addr: Option<string>) returns (r: Outcome)
      requires Valid()
      modifies this, ddis, ddis.nodes.Values
      ensures Valid() && queues == Extended(old(queues), Key(addr)) && fresh(repr - old(repr))
      ensures if AllDigits(Key(addr)) then Key(addr) in ddis.nodes && r == Found(ddis.nodes[Key(addr)])
              else r == InvalidKey
    {
      ghost var before := ddis.nodes;
      r := ddis.Create(addr);
      assert ddis.nodes.Keys == Created(queues.Keys, Key(addr)) by { RootOnly(before.Keys); }
      ghost var made := set y | y in ddis.nodes && y !in before :: ddis.nodes[y].queue;
      forall x | x in before ensures Holds(x, queues[x], repr + made) {
        assert old(Holds(x, queues[x], repr)) && ddis.nodes[x] == before[x];
      }
      forall x | x in ddis.nodes && x !in before ensures Holds(x, [], repr + made) { assert ddis.nodes[x].Blank(x); }
      RecordKeys(Key(addr), repr + made);
    }

    /** Brings the ghost state up to date after one queue has changed. */
    ghost method Record(k: string, items: seq<Item>, more: set<object>)
      requires ddis.Valid() && queues.Keys == ddis.nodes.Keys && k in ddis.nodes && Holds(k, items, more)
      requires forall y :: y in ddis.nodes && y != k ==> Holds(y, queues[y], repr)
      requires repr <= more
      modifies this
      ensures Valid() && queues == old(queues)[k := items] && repr == more
    {
      forall y | y in ddis.nodes && y != k ensures Holds(y, queues[y], more) { assert Holds(y, queues[y], repr); }
      Restate(queues[k := items], more);
    }

    method Append(q: DList<Item>, x: Item, ghost k: string)
      requires Valid() && k in ddis.nodes && q == ddis.nodes[k].queue
      modifies this, q, q.Links
      ensures Valid() && queues == old(queues)[k := old(queues)[k] + [x]]
      ensures fresh(repr - old(repr))
    {
      assert Holds(k, queues[k], repr);
      forall y | y in ddis.nodes && y != k ensures Apart(ddis.nodes[y].queue, q) { Separate(k, y); }
      ghost var before := q.Links;
      ClientQueue.Enqueue(q, x);
      ghost var last := q.Links[|q.Links| - 1];
      ghost var more := repr + {last};
      assert ddis.Valid();
      OneMoreIsIn(before, last, repr);
      assert Holds(k, queues[k] + [x], more);
      forall y | y in ddis.nodes && y != k ensures Holds(y, queues[y], repr) {
        assert old(Apart(ddis.nodes[y].queue, q)) && old(Holds(y, queues[y], repr));
      }
      Record(k, queues[k] + [x], more);
    }

    method PopFront(q: DList<Item>, ghost k: string) returns (r: Option<Item>)
      requires Valid() && k in ddis.nodes && q == ddis.nodes[k].queue
      modifies this, q, q.Links
      ensures Valid() && repr == old(repr) && queues == old(queues)[k := Rest(old(queues)[k])]
      ensures var s := old(queues)[k]; r == if s == [] then None else Some(s[0])
    {
      assert Holds(k, queues[k], repr);
      forall y | y in ddis.nodes && y != k ensures Apart(ddis.nodes[y].queue, q) { Separate(k, y); }
      var link;
      r, link := ClientQueue.Dequeue(q);
      assert ddis.Valid();
      assert q.Contents() == Rest(queues[k]);
      assert AllIn(q.Links, repr);
      forall y | y in ddis.nodes && y != k ensures Holds(y, queues[y], repr) {
        assert old(Apart(ddis.nodes[y].queue, q)) && old(Holds(y, queues[y], repr));
      }
      Record(k, Rest(queues[k]), repr);
    }

    method Filter(q: DList<Item>, ghost k: string, iface: nat, id: Option<string>)
      requires Valid() && k in ddis.nodes && q == ddis.nodes[k].queue
      modifies this, q, q.Links
      ensures Valid() && queues == old(queues)[k := Keep(old(queues)[k], iface, id)]
      ensures repr == old(repr)
    {
      assert Holds(k, queues[k], repr);
      forall y | y in ddis.nodes && y != k ensures Apart(ddis.nodes[y].queue, q) { Separate(k, y); }
      ghost var before := q.Links;
      RemoveMatching(q, iface, id);
      WithinIsIn(q.Links, before, repr);
      assert ddis.Valid() && Holds(k, Keep(queues[k], iface, id), repr);
      forall y | y in ddis.nodes && y != k ensures Holds(y, queues[y], repr) {
        assert old(Apart(ddis.nodes[y].queue, q)) && old(Holds(y, queues[y], repr));
      }
      Record(k, Keep(queues[k], iface, id), repr);
    }

    method Enqueue(addr: Option<string>, x: Item) returns (ok: bool)
      requires Valid()
      modifies this, ddis, ddis.nodes.Values,
               repr
      ensures Valid() && (ok <==> AllDigits(Key(addr)))
      ensures queues == Enqueued(old(queues), Key(addr), x)
      ensures Appends(old(queues), Key(addr), x, queues)
    {
      EnqueuedAppends(queues, Key(addr), x);
      var r := MakeNode(addr);
      if r.InvalidKey? {
        return false;
      }
      assert Holds(Key(addr), queues[Key(addr)], repr);
      Append(r.node.queue, x, Key(addr));
      return true;
    }

    method Pop(q: DList<Item>, ghost k: string) returns (r: Taken)
      requires Valid() && k in ddis.nodes && q == ddis.nodes[k].queue
      modifies this, repr
      ensures Valid() && (r, queues) == Popped(old(queues), k)
      ensures repr == old(repr)
    {
      assert Holds(k, queues[k], repr);
      assert queues[k] == [] ==> queues[k := Rest(queues[k])] == queues;
      var item := PopFront(q, k);
      r := if item.None? then Nobody else Taken.Taken(item.value);
    }

    /** The node dequeue() serves: that of the address if there is one, else the root. */
    method NodeFor(addr: Option<string>) returns (node: Node?, ghost k: string)
      requires Valid()
      ensures Valid() && (node != null ==> k in ddis.nodes && node == ddis.nodes[k])
      ensures Dequeued(queues, Key(addr)) == if node == null then (BadAddress, queues) else Popped(queues, k)
    {
      k := "";
      var found := ddis.Find(addr);
      if found.InvalidKey? {
        return null, k;
      }
      if found.Absent? {
        found := ddis.Find(None);
      } else {
        k := Key(addr);
      }
      node := found.node;
    }

    /**
     * dequeue(): the node of the address if there is one, else the root, even when that node's
     * queue is empty and the root's is not.
     */
    method Dequeue(addr: Option<string>) returns (r: Taken)
      requires Valid()
      modifies this, repr
      ensures Valid() && (r, queues) == Dequeued(old(queues), Key(addr))
      ensures match Serves(old(queues).Keys, Key(addr))
              case None => r == BadAddress && queues == old(queues)
              case Some(k) => TakesFirst(old(queues), k, r, queues)
    {
      DequeuedTakesFirst(queues, Key(addr));
      var node, k := NodeFor(addr);
      if node == null {
        r := BadAddress;
      } else {
        r := Pop(node.queue, k);
      }
    }

    method FilterAt(it: DDIIterator, iface: nat, id: Option<string>)
      requires Valid() && it.Valid() && it.ddis == ddis && it.node != null
      modifies this, it.node.queue, it.node.queue.Links
      ensures Valid() && queues == old(queues)[it.key := Keep(old(queues)[it.key], iface, id)]
      ensures it.Valid() && it.node == old(it.node) && it.key == old(it.key)
      ensures it.key in old(queues) && queues.Keys == old(queues.Keys)
      ensures repr == old(repr)
    {
      var q := it.node.queue;
      assert forall i :: 0 <= i < |q.Links| ==> q.Links[i] as object != it;
      Filter(q, it.key, iface, id);
    }

    method Advance(it: DDIIterator)
      requires Valid() && it.Valid() && it.ddis == ddis && it.node != null
      requires forall k :: k in ddis.nodes ==> |k| <= KEY_MAX
      modifies it
      ensures Valid() && it.Valid()
      ensures if it.node == null then IsLast(queues.Keys, old(it.key)) else IsNext(queues.Keys, old(it.key), it.key)
      ensures repr == old(repr)
    {
      var _ := it.Next();
    }

    /** One turn of removeClient(): filter the current node's queue, then step the iterator. */
    method FilterAndStep(it: DDIIterator, iface: nat, id: Option<string>)
      requires Valid() && it.Valid() && it.ddis == ddis && it.node != null
      requires forall k :: k in ddis.nodes ==> |k| <= KEY_MAX
      modifies this, it, it.node.queue, it.node.queue.Links
      ensures Valid() && it.Valid() && old(it.key) in queues && queues.Keys == old(queues.Keys)
      ensures queues == old(queues)[old(it.key) := Keep(old(queues)[old(it.key)], iface, id)]
      ensures if it.node == null then IsLast(old(queues.Keys), old(it.key))
              else IsNext(old(queues.Keys), old(it.key), it.key)
      ensures repr == old(repr)
    {
      ghost var k, v := it.key, queues;
      FilterAt(it, iface, id);
      ghost var w := queues;
      assert k in v && w == v[k := Keep(v[k], iface, id)] && w.Keys == v.Keys;
      Advance(it);
      assert queues == w;
    }

    function Current(it: DDIIterator): Option<string>
      reads it
    {
      if it.node == null then None else Some(it.key)
    }

    /** The same turn, seen from the walk. */
    method Turn(it: DDIIterator, iface: nat, id: Option<string>, ghost v: View, ghost done: seq<string>)
      requires Valid() && it.Valid() && it.ddis == ddis && it.node != null
      requires forall k :: k in ddis.nodes ==> |k| <= KEY_MAX
      requires Progress(v, queues, done, Some(it.key), iface, id)
      modifies this, it, it.node.queue, it.node.queue.Links
      ensures Valid() && it.Valid() && repr == old(repr)
      ensures |done| < |v.Keys| && Progress(v, queues, done + [old(it.key)], Current(it), iface, id)
    {
      ghost var k, q := it.key, queues;
      FilterAndStep(it, iface, id);
      ProgressOneMore(v, q, done, k, Current(it), iface, id);
    }

    /** Both removeClient() overloads: every queue of the trie is filtered, and nothing else changes. */
    method RemoveClient(iface: nat, id: Option<string>)
      requires Valid() && forall k :: k in ddis.nodes ==> |k| <= KEY_MAX
      modifies this, repr
      ensures Valid() && queues == Removed(old(queues), iface, id)
      ensures queues.Keys == old(queues).Keys
      ensures forall k :: k in queues ==> queues[k] == Keep(old(queues)[k], iface, id)
    {
      ghost var v, all := queues, repr;
      ghost var done: seq<string> := [];
      var it := new DDIIterator(ddis);
      while it.node != null
        invariant Valid() && it.Valid() && it.ddis == ddis && fresh(it) && repr == all
        invariant Progress(v, queues, done, Current(it), iface, id)
        decreases |v.Keys| - |done|
      {
        ghost var k := it.key;
        assert Holds(k, queues[k], repr);
        Turn(it, iface, id, v, done);
        done := done + [k];
      }
      WalkRemoves(v, done, iface, id);
    }
  }
}
