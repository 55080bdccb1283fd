/** The intrusive doubly linked list of collect/list.cpp and include/list.h. */
module DoublyLinked {
  import opened Common

  /** A DLink; `value` stands for the fields the embedding class adds. */
  class Link<T> {
    var next: Link?<T>
    var prev: Link?<T>
    var value: T
    ghost var owner: DList?<T>    // the list it is in, if any

    constructor (value: T)
      ensures this.value == value && owner == null && prev == null && next == null
    {
      this.value := value;
      next, prev, owner := null, null, null;
    }
  }

  class DList<T> {
    var head: Link?<T>
    var tail: Link?<T>
    var size: nat
    ghost var Links: seq<Link<T>>
    ghost const place: string     // names the place the list is embedded in

    ghost predicate NodeOk(i: nat)
      requires i < |Links|
      reads this, Links[i]
    {
      && Links[i].owner == this
      && Links[i].next == (if i + 1 < |Links| then Links[i + 1] else null)
      && Links[i].prev == (if i > 0 then Links[i - 1] else null)
    }

    /** head, tail, next and prev spell Links, prev being the exact inverse of next. */
    ghost predicate Valid()
      reads this, Links
    {
      && NoDup(Links)
      && size == |Links|
      && head == (if Links == [] then null else Links[0])
      && tail == (if Links == [] then null else Links[|Links| - 1])
      && forall i :: 0 <= i < |Links| ==> NodeOk(i)
    }

    ghost function Contents(): seq<T>
      reads this, Links
    {
      Values(Links)
    }

    constructor (ghost place: string)
      ensures Valid() && Links == [] && this.place == place
    {
      head, tail, size, Links := null, null, 0, [];
      this.place := place;
    }

    /** The embedding object changes its own fields. */
    method SetValue(link: Link<T>, value: T, ghost k: nat)
      requires Valid() && k < |Links| && Links[k] == link
      modifies link
      ensures Valid() && Links == old(Links) && Contents() == old(Contents())[k := value]
    {
      link.value := value;
      forall i | 0 <= i < |Links| ensures NodeOk(i) { assert old(NodeOk(i)); }
    }

    method AddFirst(link: Link<T>)
      requires Valid() && link.owner == null
      modifies this, link, Links
      ensures Valid() && Links == [link] + old(Links)
      ensures forall l :: l in Links ==> l.value == old(l.value)
    {
      ghost var c := Links;
      forall i | 0 <= i < |c| ensures c[i] != link { assert NodeOk(i); }
      if tail == null {
        tail := link;
      }
      link.prev := null;
      link.next := head;
      if link.next != null {
        assert c[0] == head;
        link.next.prev := link;
      }
      head := link;
      size := size + 1;
      Links, link.owner := [link] + Links, this;
      forall i | 0 <= i < |Links| ensures NodeOk(i) {
        if i > 0 { assert old(NodeOk(i - 1)) && Links[i] == c[i - 1] && c[i - 1] != link; }
      }
    }

    /** A link that goes into an empty list keeps the prev it comes with: it spoils the list unless that is null. */
    method AddLast(link: Link<T>)
      requires Valid() && link.owner == null
      modifies this, link, Links
      ensures Links == old(Links) + [link]
      ensures Valid() <==> old(Links) != [] || old(link.prev) == null
      ensures forall l :: l in Links ==> l.value == old(l.value)
    {
      ghost var c := Links;
      forall i | 0 <= i < |c| ensures c[i] != link { assert NodeOk(i); }
      if tail != null {
        assert c[|c| - 1] == tail && NodeOk(|c| - 1);
        link.prev := tail;
        link.next := tail.next;
        tail.next := link;
      } else {
        head := link;
      }
      tail := link;
      tail.next := null;
      size := size + 1;
      Links, link.owner := Links + [link], this;
      assert Links[|c|] == link && (NodeOk(|c|) <==> c != [] || old(link.prev) == null);
      forall i | 0 <= i < |c| ensures NodeOk(i) { assert old(NodeOk(i)) && Links[i] == c[i] && c[i] != link; }
    }

    /**
     * A link taken out of the middle of one list and put into an empty one: dRemove leaves its prev,
     * addLast does not clear it, and the list is not well-formed.
     */
    method MoveToEmpty(empty: DList<T>, at: Link<T>, ghost k: nat) returns (moved: Link<T>)
      requires Valid() && empty.Valid() && empty != this && empty.Links == []
      requires k + 1 < |Links| && Links[k] == at
      modifies this, Links, empty
      ensures Valid() && Links == old(Links)[..k + 1] + old(Links)[k + 2..]
      ensures empty.Links == [moved] && moved == old(Links)[k + 1] && !empty.Valid()
    {
      moved := RemoveAfter(at, k);
      empty.AddLast(moved);
    }

    /** DLink::dAddAfter. */
    method LinkBehind(at: Link<T>, link: Link<T>)
      requires at != link && at.next != link
      modifies at`next, link`next, link`prev, (if at.next == null then {} else {at.next})`prev
      ensures at.next == link && link.prev == at && link.next == old(at.next)
      ensures old(at.next) != null ==> old(at.next).prev == link
    {
      link.prev := at;
      link.next := at.next;
      if at.next != null {
        at.next.prev := link;
      }
      at.next := link;
    }

    /** As NodeOk, with `link` spliced in behind position `k`. */
    ghost predicate SplicedOk(i: nat, k: nat, link: Link<T>)
      requires i < |Links|
      reads this, Links[i]
    {
      && Links[i].owner == this
      && Links[i].next == (if i == k then link else if i + 1 < |Links| then Links[i + 1] else null)
      && Links[i].prev == (if i == k + 1 then link else if i > 0 then Links[i - 1] else null)
    }

    ghost method Record(link: Link<T>, k: nat)
      requires NoDup(Links) && link !in Links && k < |Links| && size == |Links| + 1
      requires head == Links[0] && tail == if k + 1 < |Links| then Links[|Links| - 1] else link
      requires link.prev == Links[k] && link.next == if k + 1 < |Links| then Links[k + 1] else null
      requires forall i :: 0 <= i < |Links| ==> SplicedOk(i, k, link)
      modifies this`Links, link`owner
      ensures Valid() && Links == old(Links)[..k + 1] + [link] + old(Links)[k + 1..]
    {
      ghost var c := Links;
      Links, link.owner := c[..k + 1] + [link] + c[k + 1..], this;
      InsertedDistinct(c, k + 1, link);
      forall i | 0 <= i <= k ensures NodeOk(i) { assert old(SplicedOk(i, k, link)) && Links[i] == c[i]; }
      forall i | k + 1 < i < |Links| ensures NodeOk(i) {
        assert old(SplicedOk(i - 1, k, link)) && Links[i] == c[i - 1];
      }
      assert NodeOk(k + 1);
    }

    /** DList::addAfter; `k` is the position of `at`. */
    method AddAfter(at: Link<T>, link: Link<T>, ghost k: nat)
      requires Valid() && link.owner == null && k < |Links| && Links[k] == at
      modifies this, link, Links
      ensures Valid() && Links == old(Links)[..k + 1] + [link] + old(Links)[k + 1..]
      ensures forall l :: l in Links ==> l.value == old(l.value)
    {
      forall i | 0 <= i < |Links| ensures Links[i] != link { assert NodeOk(i); }
      assert NodeOk(k);
      LinkBehind(at, link);
      if at == tail {
        tail := link;
      }
      size := size + 1;
      forall i | 0 <= i < |Links| ensures SplicedOk(i, k, link) { assert old(NodeOk(i)); }
      Record(link, k);
    }

    method RemoveFirst() returns (r: Link?<T>)
      requires Valid()
      modifies this, Links
      ensures Valid()
      ensures old(Links) == [] ==> r == null && Links == []
      ensures old(Links) != [] ==> r == old(Links)[0] && r.owner == null && Links == old(Links)[1..]
      ensures forall l :: l in old(Links) ==> l.value == old(l.value)
    {
      ghost var c := Links;
      r := head;
      if r != null {
        assert NodeOk(0) && (1 < |c| ==> NodeOk(1));
        if head.next != null {
          head.next.prev := head.prev;
        }
        head := head.next;
        size := size - 1;
        Links, r.owner := c[1..], null;
        forall i | 0 <= i < |Links| ensures NodeOk(i) {
          assert old(NodeOk(i + 1)) && Links[i] == c[i + 1] && c[i + 1] != c[0];
        }
      }
      if head == null {
        tail := null;
      }
    }

    method RemoveAfter(at: Link<T>, ghost k: nat) returns (r: Link?<T>)
      requires Valid() && k < |Links| && Links[k] == at
      modifies this, Links
      ensures Valid()
      ensures k + 1 == |old(Links)| ==> r == null && Links == old(Links)
      ensures k + 1 < |old(Links)| ==>
                && r == old(Links)[k + 1] && r.owner == null && r.prev == at
                && Links == old(Links)[..k + 1] + old(Links)[k + 2..]
      ensures forall l :: l in old(Links) ==> l.value == old(l.value)
    {
      ghost var c := Links;
      assert NodeOk(k);
      r := at.next;
      if r != null {
        assert r == c[k + 1] && NodeOk(k + 1) && (k + 2 < |c| ==> NodeOk(k + 2));
        r.prev.next := r.next;
        if r.next != null {
          r.next.prev := r.prev;
        }
        if tail == r {
          tail := at;
        }
        size := size - 1;
        Links, r.owner := c[..k + 1] + c[k + 2..], null;
        forall i | 0 <= i < |Links| ensures NodeOk(i) {
          ghost var j := if i <= k then i else i + 1;
          assert old(NodeOk(j)) && Links[i] == c[j] && c[j] != r;
        }
      }
    }

    method Remove(link: Link<T>, ghost k: nat)
      requires Valid() && k < |Links| && Links[k] == link
      modifies this, Links
      ensures Valid() && Links == old(Links)[..k] + old(Links)[k + 1..] && link.owner == null
      ensures forall l :: l in old(Links) ==> l.value == old(l.value)
    {
      assert NodeOk(k);
      if link.prev == null {
        var _ := RemoveFirst();
      } else {
        var _ := RemoveAfter(link.prev, k - 1);
      }
    }
  }

  lemma InsertedDistinct<T>(c: seq<T>, n: nat, x: T)
    requires n <= |c| && NoDup(c) && x !in c
    ensures NoDup(c[..n] + [x] + c[n..])
  {
    var r := c[..n] + [x] + c[n..];
    assert forall i :: 0 <= i < |r| ==> r[i] == if i < n then c[i] else if i == n then x else c[i - 1];
  }

  ghost function Values<T>(ls: seq<Link<T>>): seq<T>
    reads ls
  {
    seq(|ls|, i requires 0 <= i < |ls| reads ls => ls[i].value)
  }
}
