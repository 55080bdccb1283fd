/** The ring buffer of include/ringbuffer.h: the most recent pushes, in place, with both iterators. */
module RingBuffer {
  import opened Arithmetic

  /** What a buffer of capacity n keeps: the last n elements. */
  function Recent<T>(s: seq<T>, n: nat): seq<T> {
    if |s| <= n then s else s[|s| - n..]
  }

  /** Pushing one by one keeps the last n of everything pushed since the buffer held `s`. */
  function Pushed<T>(s: seq<T>, xs: seq<T>, n: nat): seq<T>
    decreases |xs|
  {
    if xs == [] then s else Pushed(Recent(s + [xs[0]], n), xs[1..], n)
  }

  lemma {:induction false} PushedKeepsRecent<T>(s: seq<T>, xs: seq<T>, n: nat)
    requires |s| <= n
    ensures Pushed(s, xs, n) == Recent(s + xs, n)
    decreases |xs|
  {
    if xs == [] {
      assert s + xs == s;
    } else {
      PushedKeepsRecent(Recent(s + [xs[0]], n), xs[1..], n);
      RecentTwice(s + [xs[0]], xs[1..], n);
      assert s + xs == s + [xs[0]] + xs[1..];
    }
  }

  lemma RecentTwice<T>(s: seq<T>, t: seq<T>, n: nat)
    ensures Recent(Recent(s, n) + t, n) == Recent(s + t, n)
  {
    if |s| > n {
      var front, back := s[..|s| - n], s[|s| - n..];
      assert s == front + back;
      Reassociate(front, back, t);
      RecentOfEnd(front, back + t, n);
    }
  }

  lemma Reassociate<T>(a: seq<T>, b: seq<T>, c: seq<T>)
    ensures a + b + c == a + (b + c)
  {
  }

  /** What lies before the last n elements does not matter. */
  lemma RecentOfEnd<T>(front: seq<T>, s: seq<T>, n: nat)
    requires |s| >= n
    ensures Recent(front + s, n) == Recent(s, n) == s[|s| - n..]
  {
    var all := front + s;
    var k := |s| - n;
    assert |all| - n == |front| + k;
    assert s == s[..k] + s[k..];
    assert all[|front| + k..] == s[k..];
    assert Recent(s, n) == s[k..];
    assert Recent(all, n) == all[|front| + k..];
  }

  function Reversed<T>(s: seq<T>): seq<T> {
    if s == [] then [] else Reversed(s[1..]) + [s[0]]
  }

  lemma {:induction false} ReversedAt<T>(s: seq<T>)
    ensures |Reversed(s)| == |s|
    ensures forall k :: 0 <= k < |s| ==> Reversed(s)[k] == s[|s| - 1 - k]
  {
    if s != [] {
      ReversedAt(s[1..]);
    }
  }

  /** The position d places on from x, in a buffer of n places. */
  function Around(x: nat, d: nat, n: nat): nat
    requires x < n && d <= n
  {
    if x + d < n then x + d else x + d - n
  }

  /** The place of the last of `size` elements from x; the place before x when there are none. */
  function Last(x: nat, size: nat, n: nat): nat
    requires x < n && size <= n
  {
    if size > 0 then Around(x, size - 1, n) else if x == 0 then n - 1 else x - 1
  }

  lemma AroundIsMod(x: nat, d: nat, n: nat)
    requires x < n && d <= n
    ensures Around(x, d, n) == (x + d) % n
  {
    DivIs(x + d, n, if x + d < n then 0 else 1, Around(x, d, n));
  }

  lemma LastIsMod(x: nat, size: nat, n: nat)
    requires x < n && size <= n
    ensures Last(x, size, n) == (x + size + n - 1) % n
  {
    var turns := if x + size == 0 then 0 else if x + size - 1 < n then 1 else 2;
    DivIs(x + size + n - 1, n, turns, Last(x, size, n));
  }

  /** `size` elements from place f on, around the end of the buffer. */
  function Window<T>(buf: seq<T>, f: nat, size: nat): (s: seq<T>)
    requires f < |buf| && size <= |buf|
    ensures |s| == size
  {
    seq(size, i requires 0 <= i < size => buf[Around(f, i, |buf|)])
  }

  lemma WindowMoves<T>(buf: seq<T>, f: nat, size: nat, x: T)
    requires f < |buf| && size <= |buf|
    ensures var n := |buf|;
      var b := Around(f, size, n);
      && (size < n ==> Window(buf[b := x], f, size + 1) == Window(buf, f, size) + [x])
      && (size == n ==> b == f && Window(buf[b := x], Around(f, 1, n), n) == Window(buf, f, n)[1..] + [x])
  {
    var n := |buf|;
    if size == n {
      var w := Window(buf[f := x], Around(f, 1, n), n);
      assert w[n - 1] == x;
      assert forall i :: 0 <= i < n - 1 ==> w[i] == Window(buf, f, n)[i + 1];
    }
  }

  class RingBuffer<T(0)> {
    var buffer: array<T>
    var maxSize: nat
    var size: nat
    var front: nat
    var back: nat

    ghost predicate Valid()
      reads this
    {
      && 0 < maxSize == buffer.Length
      && size <= maxSize && front < maxSize
      && back == Last(front, size, maxSize)
    }

    /** Oldest first. */
    ghost function Contents(): (s: seq<T>)
      requires Valid()
      reads this, buffer
    {
      Window(buffer[..], front, size)
    }

    constructor (capacity: nat)
      requires capacity > 0
      ensures Valid() && fresh(buffer) && maxSize == capacity && Contents() == []
    {
      buffer := new T[capacity];
      maxSize := capacity;
      size := 0;
      front := 0;
      back := capacity - 1;
    }

    method Clear()
      requires Valid()
      modifies this`size, this`front, this`back
      ensures Valid() && Contents() == []
    {
      size := 0;
      front := 0;
      back := maxSize - 1;
    }

    function Inc(x: nat): nat
      reads this
    {
      if x + 1 == maxSize then 0 else x + 1
    }

    function Dec(x: nat): nat
      requires maxSize > 0
      reads this
    {
      if x == 0 then maxSize - 1 else x - 1
    }

    /** push(): makes room at the back, holding whatever was left in that place; the oldest goes when full. */
    method MakeRoom()
      requires Valid()
      modifies this`size, this`front, this`back
      ensures Valid() && buffer == old(buffer) && maxSize == old(maxSize)
      ensures back == Around(old(front), old(size), maxSize)
      ensures old(size) < maxSize ==> front == old(front) && size == old(size) + 1
      ensures old(size) == maxSize ==> front == Around(old(front), 1, maxSize) && size == maxSize
      ensures Contents() == Recent(old(Contents()) + [buffer[back]], maxSize)
    {
      ghost var b := Around(front, size, maxSize);
      WindowMoves(buffer[..], front, size, buffer[b]);
      assert buffer[..][b := buffer[b]] == buffer[..];
      back := Inc(back);
      if size == maxSize {
        front := Inc(front);
      } else {
        size := size + 1;
      }
    }

    method Push(x: T)
      requires Valid()
      modifies this`size, this`front, this`back, buffer
      ensures Valid() && buffer == old(buffer) && maxSize == old(maxSize)
      ensures Contents() == Recent(old(Contents()) + [x], maxSize)
    {
      WindowMoves(buffer[..], front, size, x);
      MakeRoom();
      buffer[back] := x;
      assert buffer[..] == old(buffer[..])[back := x];
    }

    method Pop()
      requires Valid()
      modifies this`size, this`front
      ensures Valid() && Contents() == if old(size) == 0 then [] else old(Contents())[1..]
    {
      if size > 0 {
        size := size - 1;
        front := Inc(front);
      }
    }

    method Front() returns (x: T)
      requires Valid() && size > 0
      ensures x == Contents()[0]
    {
      x := buffer[front];
    }

    method Back() returns (x: T)
      requires Valid() && size > 0
      ensures x == Contents()[size - 1]
    {
      x := buffer[back];
    }

    method BackErase(n: nat)
      requires Valid()
      modifies this`size, this`front, this`back
      ensures Valid() && Contents() == if n >= old(size) then [] else old(Contents())[..old(size) - n]
    {
      if n >= size {
        Clear();
      } else {
        size := size - n;
        AroundIsMod(front, size - 1, maxSize);
        back := (front + size - 1) % maxSize;
      }
    }

    method FrontErase(n: nat)
      requires Valid()
      modifies this`size, this`front, this`back
      ensures Valid() && Contents() == if n >= old(size) then [] else old(Contents())[n..]
    {
      if n >= size {
        Clear();
      } else {
        AroundIsMod(front, n, maxSize);
        size := size - n;
        front := (front + n) % maxSize;
      }
    }

    // ---- iteration ----

    /** `it` has made k steps from begin(). */
    ghost predicate Forward(it: Iterator<T>, k: nat)
      requires Valid()
      reads this, it
    {
      && it.base == this && k <= size
      && it.position == Around(front, k, maxSize) && it.begin == (k == 0 && size > 0)
    }

    /** `it` has made k steps from rbegin(). */
    ghost predicate Backward(it: ReverseIterator<T>, k: nat)
      requires Valid()
      reads this, it
    {
      && it.base == this && k <= size
      && it.position == Last(front, size - k, maxSize) && it.begin == (k == 0 && size > 0)
    }

    /** begin() and end() may share a place; m_begin tells them apart: only size() steps lead to end(). */
    method Begin() returns (it: Iterator<T>)
      requires Valid()
      ensures fresh(it) && Forward(it, 0)
    {
      it := new Iterator(this, front, size > 0);
    }

    method End() returns (end: Iterator<T>)
      requires Valid()
      ensures fresh(end) && Forward(end, size)
      ensures forall it: Iterator<T>, k :: Forward(it, k) ==> (it.Equals(end) <==> k == size)
    {
      end := new Iterator(this, Inc(back), false);
    }

    method RBegin() returns (it: ReverseIterator<T>)
      requires Valid()
      ensures fresh(it) && Backward(it, 0)
    {
      it := new ReverseIterator(this, back, size > 0);
    }

    method REnd() returns (end: ReverseIterator<T>)
      requires Valid()
      ensures fresh(end) && Backward(end, size)
      ensures forall it: ReverseIterator<T>, k :: Backward(it, k) ==> (it.Equals(end) <==> k == size)
    {
      end := new ReverseIterator(this, Dec(front), false);
    }

    /** for (i = begin(); i != end(); ++i) */
    method Traverse() returns (xs: seq<T>)
      requires Valid()
      ensures xs == Contents()
    {
      xs := [];
      var it := Begin();
      var end := End();
      while !it.Equals(end)
        invariant fresh(it) && fresh(end) && it != end && Forward(end, size)
        invariant Forward(it, |xs|)
        invariant xs == Contents()[..|xs|]
        decreases size - |xs|
      {
        var x := it.Get();
        xs := xs + [x];
        it.Next();
      }
    }

    /** for (i = rbegin(); i != rend(); ++i) */
    method TraverseBack() returns (xs: seq<T>)
      requires Valid()
      ensures xs == Reversed(Contents())
    {
      ReversedAt(Contents());
      xs := [];
      var it := RBegin();
      var end := REnd();
      while !it.Equals(end)
        invariant fresh(it) && fresh(end) && it != end && Backward(end, size)
        invariant Backward(it, |xs|)
        invariant forall k :: 0 <= k < |xs| ==> xs[k] == Contents()[size - 1 - k]
        decreases size - |xs|
      {
        var x := it.Get();
        xs := xs + [x];
        it.Next();
      }
    }
  }

  class Iterator<T(0)> {
    const base: RingBuffer<T>
    var position: nat
    var begin: bool

    constructor (base: RingBuffer<T>, position: nat, begin: bool)
      ensures this.base == base && this.position == position && this.begin == begin
    {
      this.base := base;
      this.position := position;
      this.begin := begin;
    }

    predicate Equals(a: Iterator<T>)
      reads this, a
    {
      position == a.position && begin == a.begin && base == a.base
    }

    method Get() returns (x: T)
      requires position < base.buffer.Length
      ensures x == base.buffer[position]
    {
      x := base.buffer[position];
    }

    method Next()
      requires base.maxSize > 0
      modifies this
      ensures position == base.Inc(old(position)) && !begin
    {
      position := base.Inc(position);
      begin := false;
    }
  }

  class ReverseIterator<T(0)> {
    const base: RingBuffer<T>
    var position: nat
    var begin: bool

    constructor (base: RingBuffer<T>, position: nat, begin: bool)
      ensures this.base == base && this.position == position && this.begin == begin
    {
      this.base := base;
      this.position := position;
      this.begin := begin;
    }

    predicate Equals(a: ReverseIterator<T>)
      reads this, a
    {
      position == a.position && begin == a.begin && base == a.base
    }

    method Get() returns (x: T)
      requires position < base.buffer.Length
      ensures x == base.buffer[position]
    {
      x := base.buffer[position];
    }

    method Next()
      requires base.maxSize > 0
      modifies this
      ensures position == base.Dec(old(position)) && !begin
    {
      position := base.Dec(position);
      begin := false;
    }
  }
}
