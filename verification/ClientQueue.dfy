/** The FIFO of listening clients that hangs off each trie node. */
module ClientQueue {
  import opened Common
  import opened DoublyLinked

  datatype Item = Item(id: string, details: string, iface: nat)

  /** remove(iface) drops every item of the interface, remove(iface, id) only those with the id. */
  predicate Matches(x: Item, iface: nat, id: Option<string>) {
    x.iface == iface && (id.None? || x.id == id.value)
  }

  /** `s` with exactly the matching items filtered out. */
  function Keep(s: seq<Item>, iface: nat, id: Option<string>): seq<Item> {
    if s == [] then []
    else
      var front, x := Keep(s[..|s| - 1], iface, id), s[|s| - 1];
      if Matches(x, iface, id) then front else front + [x]
  }

  lemma {:induction false} KeepAppends(s: seq<Item>, t: seq<Item>, iface: nat, id: Option<string>)
    ensures Keep(s + t, iface, id) == Keep(s, iface, id) + Keep(t, iface, id)
  {
    if t == [] {
      assert s + t == s;
    } else {
      assert (s + t)[..|s + t| - 1] == s + t[..|t| - 1];
      KeepAppends(s, t[..|t| - 1], iface, id);
    }
  }

  /** Keep removes all that match and loses nothing else. */
  lemma {:induction false} KeepFilters(s: seq<Item>, iface: nat, id: Option<string>, x: Item)
    ensures multiset(Keep(s, iface, id))[x] ==
            if x.iface == iface && id in {None, Some(x.id)} then 0 else multiset(s)[x]
  {
    if s != [] {
      assert s == s[..|s| - 1] + [s[|s| - 1]];
      KeepFilters(s[..|s| - 1], iface, id, x);
    }
  }

  method Enqueue(q: DList<Item>, x: Item)
    requires q.Valid()
    modifies q, q.Links
    ensures q.Valid() && q.Contents() == old(q.Contents()) + [x]
    ensures fresh(q.Links[|q.Links| - 1]) && q.Links == old(q.Links) + [q.Links[|q.Links| - 1]]
  {
    var link := new Link(x);
    q.AddLast(link);
  }

  method Dequeue(q: DList<Item>) returns (r: Option<Item>, link: Link?<Item>)
    requires q.Valid()
    modifies q, q.Links
    ensures q.Valid()
    ensures old(q.Contents()) == [] ==> r.None? && link == null && q.Links == []
    ensures old(q.Contents()) != [] ==>
              && r == Some(old(q.Contents())[0]) && link == old(q.Links)[0] && link.owner == null
              && link.value == r.value && q.Links == old(q.Links)[1..] && q.Contents() == old(q.Contents())[1..]
  {
    link := q.RemoveFirst();
    r := if link == null then None else Some(link.value);
  }

  /** Item::requeue: a dequeued item goes back to the front of its queue. */
  method Requeue(q: DList<Item>, link: Link<Item>)
    requires q.Valid() && link.owner == null
    modifies q, q.Links, link
    ensures q.Valid() && q.Contents() == [old(link.value)] + old(q.Contents())
  {
    q.AddFirst(link);
  }

  /** Requeuing what was just dequeued leaves the queue as it was. */
  method DequeueThenRequeue(q: DList<Item>)
    requires q.Valid()
    modifies q, q.Links
    ensures q.Valid() && q.Contents() == old(q.Contents())
  {
    var r, link := Dequeue(q);
    if link != null {
      Requeue(q, link);
    }
  }

  /** The iterator's state: kept items passed, `current` and `nextLink` the first two of the rest. */
  ghost predicate At(q: DList<Item>, kept: seq<Link<Item>>, rest: seq<Link<Item>>,
                     current: Link?<Item>, nextLink: Link?<Item>)
    reads q, q.Links
  {
    && q.Valid() && q.Links == kept + rest
    && current == (if rest == [] then null else rest[0])
    && nextLink == (if |rest| < 2 then null else rest[1])
  }

  method DropIfMatching(q: DList<Item>, current: Link<Item>, iface: nat, id: Option<string>,
                        ghost kept: seq<Link<Item>>, ghost rest: seq<Link<Item>>)
    returns (ghost kept': seq<Link<Item>>)
    requires q.Valid() && q.Links == kept + [current] + rest
    modifies q, q.Links
    ensures kept' == if Matches(old(current.value), iface, id) then kept else kept + [current]
    ensures q.Valid() && q.Links == kept' + rest && Within(q.Links, old(q.Links))
    ensures Values(kept) == old(Values(kept)) && Values([current] + rest) == old(Values([current] + rest))
  {
    if Matches(current.value, iface, id) {
      assert q.Links[|kept|] == current;
      q.Remove(current, |kept|);
      kept' := kept;
    } else {
      kept' := kept + [current];
    }
  }

  lemma KeepOneMore(vs: seq<Item>, i: nat, iface: nat, id: Option<string>)
    requires i < |vs|
    ensures var k := Keep(vs[..i], iface, id);
            Keep(vs[..i + 1], iface, id) == if Matches(vs[i], iface, id) then k else k + [vs[i]]
  {
    assert vs[..i + 1][..i] == vs[..i];
  }

  /** So far the kept items are the filtered front of the old contents `vs`; the rest is untouched. */
  ghost predicate Done(vs: seq<Item>, kept: seq<Link<Item>>, rest: seq<Link<Item>>, iface: nat, id: Option<string>)
    reads kept, rest
  {
    && |rest| <= |vs|
    && Values(kept) == Keep(vs[..|vs| - |rest|], iface, id)
    && Values(rest) == vs[|vs| - |rest|..]
  }

  lemma DoneOneMore(vs: seq<Item>, kept: seq<Link<Item>>, rest: seq<Link<Item>>, iface: nat,
                    id: Option<string>, kept': seq<Link<Item>>)
    requires rest != [] && Done(vs, kept, rest, iface, id)
    requires kept' == if Matches(rest[0].value, iface, id) then kept else kept + [rest[0]]
    ensures Done(vs, kept', rest[1..], iface, id)
  {
    var i := |vs| - |rest|;
    assert Values(rest)[0] == vs[i];
    KeepOneMore(vs, i, iface, id);
    assert Values(rest[1..]) == Values(rest)[1..];
  }

  /** One turn of the removal loop, iterator step included: the current item goes if it matches. */
  method Turn(q: DList<Item>, current: Link<Item>, nextLink: Link?<Item>, iface: nat, id: Option<string>,
              ghost kept: seq<Link<Item>>, ghost rest: seq<Link<Item>>, ghost vs: seq<Item>)
    returns (current': Link?<Item>, nextLink': Link?<Item>, ghost kept': seq<Link<Item>>)
    requires rest != [] && At(q, kept, rest, current, nextLink) && Done(vs, kept, rest, iface, id)
    modifies q, q.Links
    ensures At(q, kept', rest[1..], current', nextLink') && Within(q.Links, old(q.Links))
    ensures Done(vs, kept', rest[1..], iface, id)
  {
    assert rest == [current] + rest[1..];
    assert Values([current] + rest[1..])[0] == current.value;
    kept' := DropIfMatching(q, current, iface, id, kept, rest[1..]);
    assert Values([current] + rest[1..])[0] == current.value;
    DoneOneMore(vs, kept, rest, iface, id, kept');
    current', nextLink' := nextLink, nextLink;
    if nextLink != null {
      assert q.Links[|kept'|] == nextLink && q.NodeOk(|kept'|);
      nextLink' := nextLink.next;
    }
  }

  lemma DoneAtEnd(q: DList<Item>, vs: seq<Item>, kept: seq<Link<Item>>, rest: seq<Link<Item>>,
                  nextLink: Link?<Item>, iface: nat, id: Option<string>)
    requires At(q, kept, rest, null, nextLink) && Done(vs, kept, rest, iface, id)
    ensures q.Contents() == Keep(vs, iface, id)
  {
    assert rest == [] && kept + rest == kept && vs[..|vs|] == vs;
  }

  /** The ListIter constructor. */
  method Start(q: DList<Item>, iface: nat, id: Option<string>) returns (current: Link?<Item>, nextLink: Link?<Item>)
    requires q.Valid()
    ensures At(q, [], q.Links, current, nextLink) && Done(q.Contents(), [], q.Links, iface, id)
  {
    current, nextLink := q.head, null;
    if current != null {
      assert q.NodeOk(0);
      nextLink := current.next;
    }
  }

  /** Both remove() overloads: deletion from the list while iterating over it. */
  method RemoveMatching(q: DList<Item>, iface: nat, id: Option<string>)
    requires q.Valid()
    modifies q, q.Links
    ensures q.Valid() && Within(q.Links, old(q.Links))
    ensures q.Contents() == Keep(old(q.Contents()), iface, id)
  {
    ghost var c, vs, rest := q.Links, q.Contents(), q.Links;
    ghost var kept: seq<Link<Item>> := [];
    var current, nextLink := Start(q, iface, id);
    while current != null
      invariant At(q, kept, rest, current, nextLink) && Done(vs, kept, rest, iface, id) && Within(q.Links, c)
      decreases |rest|
    {
      ghost var before := q.Links;
      current, nextLink, kept := Turn(q, current, nextLink, iface, id, kept, rest, vs);
      WithinTransitive(q.Links, before, c);
      rest := rest[1..];
    }
    DoneAtEnd(q, vs, kept, rest, nextLink, iface, id);
  }
}
