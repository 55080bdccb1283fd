/** DDIIterator: a walk over the trie that remembers only the current key and re-finds parents. */
module TrieIterator {
  import opened Common
  import opened DigitTrie

  /** Lexicographic order, a prefix before its extensions. */
  predicate Less(a: string, b: string) {
    b != "" && (a == "" || a[0] < b[0] || (a[0] == b[0] && Less(a[1..], b[1..])))
  }

  lemma {:induction false} LessTransitive(a: string, b: string, c: string)
    requires Less(a, b) && Less(b, c)
    ensures Less(a, c)
  {
    if a != "" && a[0] == b[0] == c[0] { LessTransitive(a[1..], b[1..], c[1..]); }
  }

  lemma {:induction false} LessIrreflexive(a: string)
    ensures !Less(a, a)
  {
    if a != "" { LessIrreflexive(a[1..]); }
  }

  lemma {:induction false} LessTotal(a: string, b: string)
    ensures a == b || Less(a, b) || Less(b, a)
  {
    if a != "" && b != "" && a[0] == b[0] {
      LessTotal(a[1..], b[1..]);
      assert a == [a[0]] + a[1..] && b == [b[0]] + b[1..];
    }
  }

  lemma {:induction false} CommonPrefix(p: string, a: string, b: string)
    ensures Less(p + a, p + b) <==> Less(a, b)
  {
    if p == "" {
      assert p + a == a && p + b == b;
    } else {
      assert (p + a)[1..] == p[1..] + a && (p + b)[1..] == p[1..] + b;
      CommonPrefix(p[1..], a, b);
    }
  }

  /** Once x has left the prefix p behind, it is above everything with that prefix. */
  lemma {:induction false} Diverges(p: string, a: string, x: string, b: string)
    requires Less(p + a, x) && !(p <= x)
    ensures Less(p + b, x)
  {
    assert p != "";
    assert (p + a)[0] == p[0] && (p + b)[0] == p[0];
    assert (p + a)[1..] == p[1..] + a && (p + b)[1..] == p[1..] + b;
    if p[0] == x[0] {
      assert x == [x[0]] + x[1..] && p == [p[0]] + p[1..];
      Diverges(p[1..], a, x[1..], b);
    }
  }

  // ----- successors among the keys of a trie

  ghost predicate IsNext(keys: set<string>, a: string, b: string) {
    b in keys && Less(a, b) && forall x :: x in keys && Less(a, x) ==> x == b || Less(b, x)
  }

  ghost predicate IsLast(keys: set<string>, a: string) {
    forall x :: x in keys ==> !Less(a, x)
  }

  ghost predicate TrieKeys(keys: set<string>) {
    PrefixClosed(keys) && forall k :: k in keys ==> AllDigits(k)
  }

  /** Nothing below prefix `p` of `orig` is still to come after `orig`. */
  ghost predicate Exhausted(keys: set<string>, orig: string, p: string) {
    p <= orig && forall x :: x in keys && p <= x ==> !Less(orig, x)
  }

  /** No child of `p` has a digit from `lo` up to, not including, `hi`. */
  ghost predicate NoChild(keys: set<string>, p: string, lo: nat, hi: nat) {
    forall d :: lo <= d < hi <= 10 ==> p + [Digit(d)] !in keys
  }

  lemma Below(keys: set<string>, p: string, x: string)
    requires TrieKeys(keys) && x in keys && p <= x && x != p
    ensures IsDigit(x[|p|]) && p + [x[|p|]] in keys && p + [x[|p|]] <= x
    ensures forall lo: nat, hi: nat :: lo <= Value(x[|p|]) < hi <= 10 ==> !NoChild(keys, p, lo, hi)
  {
    assert AllDigits(x) && p + [x[|p|]] == x[..|p| + 1];
    PrefixesIn(keys, x, p + [x[|p|]]);
    assert Digit(Value(x[|p|])) == x[|p|];
  }

  /** A child `d` of `p` precedes every other key below `p` that starts with `d` or a later digit. */
  lemma ChildFirst(keys: set<string>, p: string, d: nat, x: string)
    requires d < 10 && p <= x && |x| > |p| && Digit(d) <= x[|p|]
    ensures x == p + [Digit(d)] || Less(p + [Digit(d)], x)
  {
    var y := x[|p|..];
    assert x == p + y;
    CommonPrefix(p, [Digit(d)], y);
    if Digit(d) == y[0] && |y| > 1 { assert Less([Digit(d)][1..], y[1..]); }
    if |y| == 1 { assert y == [y[0]]; }
  }

  lemma FirstChildIsNext(keys: set<string>, k: string, d: nat)
    requires TrieKeys(keys) && d < 10 && k + [Digit(d)] in keys && NoChild(keys, k, 0, d)
    ensures IsNext(keys, k, k + [Digit(d)])
  {
    CommonPrefix(k, "", [Digit(d)]);
    assert k + "" == k;
    forall x | x in keys && Less(k, x) ensures x == k + [Digit(d)] || Less(k + [Digit(d)], x) {
      if k <= x {
        LessIrreflexive(k);
        Below(keys, k, x);
        ChildFirst(keys, k, d, x);
      } else {
        Diverges(k, "", x, [Digit(d)]);
      }
    }
  }

  lemma NoChildrenExhausts(keys: set<string>, k: string)
    requires TrieKeys(keys) && NoChild(keys, k, 0, 10)
    ensures Exhausted(keys, k, k)
  {
    forall x | x in keys && k <= x ensures !Less(k, x) {
      LessIrreflexive(k);
      if x != k {
        Below(keys, k, x);
      }
    }
  }

  /** Where keys below q that come after orig = q + c... can lie, once q + c is exhausted. */
  lemma AboveSibling(keys: set<string>, orig: string, q: string, c: char, x: string)
    requires TrieKeys(keys) && Exhausted(keys, orig, q + [c]) && x in keys && q <= x && Less(orig, x)
    ensures x != q && c < x[|q|] && IsDigit(x[|q|])
    ensures forall lo: nat, hi: nat :: lo <= Value(x[|q|]) < hi <= 10 ==> !NoChild(keys, q, lo, hi)
  {
    var o, y := orig[|q|..], x[|q|..];
    assert orig == q + o && x == q + y && o[0] == c;
    CommonPrefix(q, o, y);
    Below(keys, q, x);
    assert y[0] == c ==> q + [c] <= x;
  }

  lemma SiblingIsNext(keys: set<string>, orig: string, q: string, c: char, d: nat)
    requires TrieKeys(keys) && IsDigit(c) && Exhausted(keys, orig, q + [c])
    requires Value(c) < d < 10 && q + [Digit(d)] in keys && NoChild(keys, q, Value(c) + 1, d)
    ensures IsNext(keys, orig, q + [Digit(d)])
  {
    var o := orig[|q|..];
    assert orig == q + o && o[0] == c;
    CommonPrefix(q, o, [Digit(d)]);
    forall x | x in keys && Less(orig, x) ensures x == q + [Digit(d)] || Less(q + [Digit(d)], x) {
      if q <= x {
        AboveSibling(keys, orig, q, c, x);
        ChildFirst(keys, q, d, x);
      } else {
        Diverges(q, o, x, [Digit(d)]);
      }
    }
  }

  lemma NoSiblingExhausts(keys: set<string>, orig: string, q: string, c: char)
    requires TrieKeys(keys) && IsDigit(c) && Exhausted(keys, orig, q + [c])
    requires NoChild(keys, q, Value(c) + 1, 10)
    ensures Exhausted(keys, orig, q)
  {
    forall x | x in keys && q <= x ensures !Less(orig, x) {
      if Less(orig, x) {
        AboveSibling(keys, orig, q, c, x);
      }
    }
  }

  // ----- a whole walk

  /** `vs` is what the iterator delivers: it starts at the root, takes successors, and ends at the last key. */
  ghost predicate IsWalk(keys: set<string>, vs: seq<string>) {
    && |vs| > 0 && vs[0] == ""
    && Chain(keys, vs)
    && IsLast(keys, vs[|vs| - 1])
  }

  /** The walk has delivered `done` and stands at `current`, or has ended. */
  ghost predicate WalkSoFar(keys: set<string>, done: seq<string>, current: Option<string>) {
    if current.None? then IsWalk(keys, done)
    else
      && (done + [current.value])[0] == "" && "" in keys && current.value in keys
      && Chain(keys, done + [current.value])
  }

  /** Each of `vs` is the successor of the one before. */
  ghost predicate Chain(keys: set<string>, vs: seq<string>) {
    |vs| < 2 || (Chain(keys, vs[..|vs| - 1]) && IsNext(keys, vs[|vs| - 2], vs[|vs| - 1]))
  }

  lemma {:induction false} ChainAt(keys: set<string>, vs: seq<string>, i: nat)
    requires Chain(keys, vs) && i + 1 < |vs|
    ensures IsNext(keys, vs[i], vs[i + 1])
  {
    if i + 2 < |vs| { ChainAt(keys, vs[..|vs| - 1], i); }
  }

  /** One step of the iterator prolongs the walk, and there are only |keys| steps. */
  lemma WalkOneMore(keys: set<string>, done: seq<string>, current: string, next: Option<string>)
    requires WalkSoFar(keys, done, Some(current))
    requires if next.None? then IsLast(keys, current) else IsNext(keys, current, next.value)
    ensures WalkSoFar(keys, done + [current], next)
    ensures |done| < |keys|
  {
    var vs := done + [current];
    if next.Some? {
      var ws := vs + [next.value];
      assert ws[..|ws| - 1] == vs;
    }
    forall i, j | 0 <= i < j < |vs| ensures vs[i] != vs[j] {
      WalkIncreases(keys, vs, i, j);
      LessIrreflexive(vs[i]);
    }
    forall i | 0 <= i < |vs| ensures vs[i] in keys {
      if i > 0 { ChainAt(keys, vs, i - 1); }
    }
    DistinctFit(vs, keys);
  }

  lemma {:induction false} DistinctFit(vs: seq<string>, keys: set<string>)
    requires NoDup(vs) && forall i :: 0 <= i < |vs| ==> vs[i] in keys
    ensures |vs| <= |keys|
  {
    if vs != [] {
      DistinctFit(vs[1..], keys - {vs[0]});
    }
  }

  lemma {:induction false} WalkIncreases(keys: set<string>, vs: seq<string>, i: nat, j: nat)
    requires Chain(keys, vs)
    requires i < j < |vs|
    ensures Less(vs[i], vs[j])
  {
    ChainAt(keys, vs, j - 1);
    if i < j - 1 {
      WalkIncreases(keys, vs, i, j - 1);
      LessTransitive(vs[i], vs[j - 1], vs[j]);
    }
  }

  lemma {:induction false} WalkReaches(keys: set<string>, vs: seq<string>, i: nat, x: string)
    requires IsWalk(keys, vs) && i < |vs| && x in keys && (x == vs[i] || Less(vs[i], x))
    ensures x in vs[i..]
    decreases |vs| - i
  {
    if x != vs[i] {
      if i == |vs| - 1 {
        assert false;
      } else {
        ChainAt(keys, vs, i);
        WalkReaches(keys, vs, i + 1, x);
        assert vs[i + 1..] == vs[i..][1..];
      }
    }
  }

  /** A walk visits every key exactly once, in lexicographic order. */
  lemma WalkVisitsAll(keys: set<string>, vs: seq<string>)
    requires TrieKeys(keys) && IsWalk(keys, vs)
    ensures forall i, j :: 0 <= i < j < |vs| ==> Less(vs[i], vs[j])
    ensures NoDup(vs) && forall x :: x in vs <==> x in keys
  {
    forall i, j | 0 <= i < j < |vs| ensures Less(vs[i], vs[j]) && vs[i] != vs[j] {
      WalkIncreases(keys, vs, i, j);
      LessIrreflexive(vs[i]);
    }
    forall i | 0 <= i < |vs| ensures vs[i] in keys {
      if i > 0 { ChainAt(keys, vs, i - 1); }
    }
    forall x | x in keys ensures x in vs {
      WalkReaches(keys, vs, 0, x);
      assert vs[0..] == vs;
    }
  }

  // ----- the iterator

  const KEY_MAX := 31    // char key[32], terminator included

  class DDIIterator {
    const ddis: DDIs
    var node: Node?
    var key: string

    /** The key always spells the path to the current node, and leaves room for its terminator. */
    ghost predicate Valid()
      reads this, ddis, ddis.nodes.Values
    {
      && ddis.Valid() && |key| <= KEY_MAX
      && (node != null ==> key in ddis.nodes && ddis.nodes[key] == node)
    }

    constructor (ddis: DDIs)
      requires ddis.Valid()
      ensures Valid() && this.ddis == ddis && node == ddis.root && key == ""
    {
      this.ddis := ddis;
      node, key := ddis.root, "";
    }

    /** The search for the first child with index `from` or more; 10 when there is none. */
    method ScanChildren(n: Node, from: nat, ghost k: string) returns (index: nat)
      requires ddis.Valid() && k in ddis.nodes && ddis.nodes[k] == n && from <= 10
      ensures from <= index <= 10 && NoChild(ddis.nodes.Keys, k, from, index)
      ensures index < 10 ==>
                && |n.children| == 10 && k + [Digit(index)] in ddis.nodes
                && n.children[index] == ddis.nodes[k + [Digit(index)]]
    {
      assert ddis.NodeOk(k);
      index := from;
      while index < 10
        invariant from <= index <= 10 && NoChild(ddis.nodes.Keys, k, from, index)
      {
        if n.children[index] != null {
          return;
        }
        index := index + 1;
      }
    }

    /** Drops the last digit and finds the parent again from the root. */
    method Pop() returns (c: char)
      requires ddis.Valid() && key in ddis.nodes && key != ""
      modifies this
      ensures IsDigit(c) && key + [c] == old(key) && key == Parent(old(key))
      ensures key in ddis.nodes && node == ddis.nodes[key]
    {
      assert AllDigits(key);
      c := key[|key| - 1];
      key := Parent(key);
      WalkFinds(ddis.nodes.Keys, key, 0);
      var parent := ddis.Find(Some(key));
      node := parent.node;
    }

    /** One turn of the backtracking loop: back to the parent, then on to its next child, if any. */
    method Backtrack(ghost orig: string) returns (found: bool)
      requires ddis.Valid() && key in ddis.nodes && key != "" && |key| <= KEY_MAX
      requires Exhausted(ddis.nodes.Keys, orig, key)
      modifies this
      ensures found ==> Valid() && node != null && IsNext(ddis.nodes.Keys, orig, key)
      ensures !found ==> key == Parent(old(key)) && key in ddis.nodes && Exhausted(ddis.nodes.Keys, orig, key)
    {
      var c := Pop();
      var index := ScanChildren(node, Value(c) + 1, key);
      found := index < 10;
      if found {
        SiblingIsNext(ddis.nodes.Keys, orig, key, c, index);
        node := node.children[index];
        key := key + [Digit(index)];
      } else {
        NoSiblingExhausts(ddis.nodes.Keys, orig, key, c);
      }
    }

    method Descend() returns (found: bool)
      requires Valid() && node != null && forall k :: k in ddis.nodes ==> |k| <= KEY_MAX
      modifies this
      ensures found ==> Valid() && node != null && IsNext(ddis.nodes.Keys, old(key), key)
      ensures !found ==> key == old(key) && node == old(node) && Exhausted(ddis.nodes.Keys, key, key)
    {
      var index := ScanChildren(node, 0, key);
      found := index < 10;
      if found {
        FirstChildIsNext(ddis.nodes.Keys, key, index);
        node := node.children[index];
        key := key + [Digit(index)];
      } else {
        NoChildrenExhausts(ddis.nodes.Keys, key);
      }
    }

    /** Steps to the least key above the current one, or reports that there is none. */
    method Next() returns (r: Node?)
      requires Valid() && forall k :: k in ddis.nodes ==> |k| <= KEY_MAX
      modifies this
      ensures Valid() && r == node
      ensures old(node) == null ==> node == null
      ensures old(node) != null && node != null ==> IsNext(ddis.nodes.Keys, old(key), key)
      ensures old(node) != null && node == null ==> IsLast(ddis.nodes.Keys, old(key))
    {
      if node == null {
        return null;
      }
      ghost var orig := key;
      var found := Descend();
      while !found && |key| > 0
        invariant found ==> Valid() && node != null && IsNext(ddis.nodes.Keys, orig, key)
        invariant !found ==> key in ddis.nodes && |key| <= KEY_MAX && Exhausted(ddis.nodes.Keys, orig, key)
        decreases !found, |key|
      {
        found := Backtrack(orig);
      }
      if !found {
        node := null;
      }
      return node;
    }
  }
}
