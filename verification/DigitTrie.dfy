/** The 10-way trie DDIs: no parent pointers, one client queue per node. */
module DigitTrie {
  import opened Common
  import opened DoublyLinked
  import opened ClientQueue

  function Parent(k: string): string
    requires k != ""
  {
    k[..|k| - 1]
  }

  // ----- the keys a trie holds

  ghost predicate PrefixClosed(keys: set<string>) {
    "" in keys && forall k {:trigger Parent(k)} :: k in keys && k != "" ==> Parent(k) in keys
  }

  lemma {:induction false} PrefixesIn(keys: set<string>, k: string, p: string)
    requires PrefixClosed(keys) && k in keys && p <= k
    ensures p in keys
    decreases |k|
  {
    if p != k { PrefixesIn(keys, Parent(k), p); }
  }

  datatype Verdict = Hit | Miss | Bad

  /** The walk of find() from position `i`: a missing child ends it before a later bad character. */
  function Walk(keys: set<string>, k: string, i: nat): Verdict
    requires i <= |k|
    decreases |k| - i
  {
    if i == |k| then Hit
    else if !IsDigit(k[i]) then Bad
    else if k[..i + 1] !in keys then Miss
    else Walk(keys, k, i + 1)
  }

  /** How far create() gets: up to the first character that is no digit. */
  function DigitRun(k: string): (n: nat)
    ensures n <= |k| && AllDigits(k[..n]) && (n < |k| ==> !IsDigit(k[n]))
  {
    if k == "" || !IsDigit(k[0]) then 0 else
      assert forall n :: 0 <= n < |k| ==> k[..n + 1] == [k[0]] + k[1..][..n];
      1 + DigitRun(k[1..])
  }

  function CreatedTo(keys: set<string>, k: string, n: nat): set<string>
    requires n <= |k|
  {
    keys + set i | 0 <= i <= n :: k[..i]
  }

  /** The keys after create(k): the digits k starts with, and all their prefixes, are added. */
  function Created(keys: set<string>, k: string): set<string> {
    CreatedTo(keys, k, DigitRun(k))
  }

  lemma CreatedOneMore(keys: set<string>, k: string, n: nat)
    requires n < |k|
    ensures CreatedTo(keys, k, n + 1) == CreatedTo(keys, k, n) + {k[..n + 1]}
  {
  }

  /** For digit keys find() succeeds exactly on the keys of the trie, and never throws. */
  lemma {:induction false} WalkFinds(keys: set<string>, k: string, i: nat)
    requires PrefixClosed(keys) && AllDigits(k) && i <= |k| && k[..i] in keys
    ensures Walk(keys, k, i) == if k in keys then Hit else Miss
    decreases |k| - i
  {
    if i == |k| {
      assert k[..i] == k;
    } else if k[..i + 1] in keys {
      WalkFinds(keys, k, i + 1);
    } else if k in keys {
      PrefixesIn(keys, k, k[..i + 1]);
    }
  }

  /** For any key: find() throws exactly when the digits before the first bad character are a key. */
  lemma {:induction false} WalkThrows(keys: set<string>, k: string, i: nat)
    requires PrefixClosed(keys) && i <= DigitRun(k) && k[..i] in keys
    ensures Walk(keys, k, i) == Bad <==> DigitRun(k) < |k| && k[..DigitRun(k)] in keys
    decreases |k| - i
  {
    var n := DigitRun(k);
    if i < n {
      assert IsDigit(k[..n][i]);
      if k[..i + 1] in keys {
        WalkThrows(keys, k, i + 1);
      } else if k[..n] in keys {
        PrefixesIn(keys, k[..n], k[..i + 1]);
      }
    }
  }

  lemma CreatedClosed(keys: set<string>, k: string)
    requires PrefixClosed(keys)
    ensures PrefixClosed(Created(keys, k))
  {
    forall x | x in Created(keys, k) && x != "" ensures Parent(x) in Created(keys, k) {
      if x !in keys {
        var i :| 0 <= i <= DigitRun(k) && x == k[..i];
        assert Parent(x) == k[..i - 1];
      }
    }
  }

  function AllCreated(ks: seq<string>): set<string> {
    if ks == [] then {""} else Created(AllCreated(ks[..|ks| - 1]), ks[|ks| - 1])
  }

  lemma {:induction false} RunIsLongest(k: string, n: nat)
    requires n <= |k| && AllDigits(k[..n])
    ensures n <= DigitRun(k)
  {
    if n > 0 {
      assert k[..n][0] == k[0];
      assert k[1..][..n - 1] == k[..n][1..];
      RunIsLongest(k[1..], n - 1);
    }
  }

  lemma CreatedAre(keys: set<string>, k: string, p: string)
    ensures p in Created(keys, k) <==> p in keys || (AllDigits(p) && p <= k)
  {
    var n := DigitRun(k);
    if AllDigits(p) && p <= k {
      assert p == k[..|p|];
      RunIsLongest(k, |p|);
    }
    if p in Created(keys, k) && p !in keys {
      var i :| 0 <= i <= n && p == k[..i];
      assert forall j :: 0 <= j < i ==> p[j] == k[..n][j];
    }
  }

  /** After any creates, with good keys or bad, the keys found are the digit strings that begin one of them, and "". */
  lemma {:induction false} FoundArePrefixes(ks: seq<string>, p: string)
    ensures p in AllCreated(ks) <==> p == "" || (AllDigits(p) && exists i :: 0 <= i < |ks| && p <= ks[i])
  {
    if ks != [] {
      var front, k := ks[..|ks| - 1], ks[|ks| - 1];
      FoundArePrefixes(front, p);
      CreatedAre(AllCreated(front), k, p);
      if p <= k { assert ks[|ks| - 1] == k; }
      if exists i :: 0 <= i < |front| && p <= front[i] {
        var i :| 0 <= i < |front| && p <= front[i];
        assert ks[i] == front[i];
      }
    }
  }

  lemma OnlyRoot(keys: set<string>)
    requires PrefixClosed(keys) && (forall k :: k in keys ==> AllDigits(k))
    requires forall d :: 0 <= d < 10 ==> "" + [Digit(d)] !in keys
    ensures forall k :: k in keys ==> k == ""
  {
    forall k | k in keys ensures k == "" {
      if k != "" {
        FirstDigit(k);
        PrefixesIn(keys, k, k[..1]);
      }
    }
  }

  lemma FirstDigit(k: string)
    requires k != "" && AllDigits(k)
    ensures k[..1] == "" + [Digit(Value(k[0]))]
  {
  }

  // ----- the structure

  class Node {
    var children: seq<Node?>
    const queue: DList<Item>
    ghost const key: string

    /** A node's queue when the node is new. */
    ghost predicate Blank(place: string)
      reads queue, queue.Links
    {
      queue.Valid() && queue.Links == [] && queue.place == place
    }

    constructor (ghost key: string)
      ensures children == seq(10, _ => null) && this.key == key
      ensures fresh(queue) && Blank(key)
    {
      children := seq(10, _ => null);
      queue := new DList(key);
      this.key := key;
    }
  }

  datatype Outcome = Found(node: Node) | Absent | InvalidKey

  class DDIs {
    const root: Node
    ghost var nodes: map<string, Node>

    ghost predicate NodeOk(k: string)
      requires k in nodes
      reads this, nodes[k]
    {
      && nodes[k].key == k && |nodes[k].children| == 10
      && forall d {:trigger nodes[k].children[d]} :: 0 <= d < 10 ==>
           nodes[k].children[d] == (if k + [Digit(d)] in nodes then nodes[k + [Digit(d)]] else null)
    }

    /** The child arrays spell exactly the keys of `nodes`. */
    ghost predicate Valid()
      reads this, nodes.Values
    {
      && PrefixClosed(nodes.Keys)
      && nodes[""] == root
      && (forall k :: k in nodes ==> AllDigits(k))
      && forall k {:trigger NodeOk(k)} :: k in nodes ==> NodeOk(k)
    }

    constructor ()
      ensures Valid() && nodes.Keys == {""} && fresh(root) && fresh(root.queue)
      ensures root.Blank("")
    {
      root := new Node("");
      new;
      nodes := map["" := root];
      assert NodeOk("");
    }

    method SubKey(node: Node, c: char, ghost k: string) returns (bad: bool, child: Node?)
      requires Valid() && k in nodes && nodes[k] == node
      ensures bad <==> !IsDigit(c)
      ensures !bad ==> child == (if k + [c] in nodes then nodes[k + [c]] else null)
    {
      assert NodeOk(k);
      bad := c > '9' || c < '0';
      child := if bad then null else node.children[Value(c)];
    }

    /** find(): None is the null pointer. */
    method Find(key: Option<string>) returns (r: Outcome)
      requires Valid()
      ensures key.None? ==> r == Found(root)
      ensures key.Some? ==>
                match Walk(nodes.Keys, key.value, 0)
                case Hit => key.value in nodes && r == Found(nodes[key.value])
                case Miss => r == Absent
                case Bad => r == InvalidKey
    {
      if key.None? {
        return Found(root);
      }
      var k, node, index := key.value, root, 0;
      while index < |k|
        invariant 0 <= index <= |k| && k[..index] in nodes && nodes[k[..index]] == node
        invariant Walk(nodes.Keys, k, 0) == Walk(nodes.Keys, k, index)
      {
        var bad, child := SubKey(node, k[index], k[..index]);
        assert k[..index] + [k[index]] == k[..index + 1];
        if bad {
          return InvalidKey;
        }
        if child == null {
          return Absent;
        }
        node := child;
        index := index + 1;
      }
      assert k[..index] == k;
      return Found(node);
    }

    /**
     * isSubKey(): null is no sub-key, "" is one when any other key exists, and anything else is one
     * when it is a key. None stands for the exception.
     */
    method IsSubKey(key: Option<string>) returns (r: Option<bool>)
      requires Valid()
      ensures key.None? ==> r == Some(false)
      ensures key == Some("") ==> r == Some(exists k :: k in nodes && k != "")
      ensures key.Some? && key.value != "" ==>
                r == match Walk(nodes.Keys, key.value, 0)
                     case Hit => Some(true)
                     case Miss => Some(false)
                     case Bad => None
    {
      if key.None? {
        return Some(false);
      }
      if key.value == "" {
        assert NodeOk("");
        var index := 0;
        while index < 10
          invariant 0 <= index <= 10
          invariant forall d :: 0 <= d < index ==> "" + [Digit(d)] !in nodes
        {
          if root.children[index] != null {
            assert "" + [Digit(index)] in nodes;
            return Some(true);
          }
          index := index + 1;
        }
        OnlyRoot(nodes.Keys);
        return Some(false);
      }
      var found := Find(key);
      match found
      case Found(_) => r := Some(true);
      case Absent => r := Some(false);
      case InvalidKey => r := None;
    }

    /** setSubKey() with a new node: the trie gains the key `k` + `c` and nothing else changes. */
    method Graft(node: Node, c: char, ghost k: string) returns (child: Node)
      requires Valid() && k in nodes && nodes[k] == node && IsDigit(c) && k + [c] !in nodes
      modifies this, node
      ensures Valid() && nodes == old(nodes)[k + [c] := child] && fresh(child)
      ensures fresh(child.queue) && child.Blank(k + [c])
    {
      ghost var key, before := k + [c], nodes;
      child := new Node(key);
      assert NodeOk(k);
      node.children := node.children[Value(c) := child];
      nodes := nodes[key := child];
      assert Parent(key) == k;
      forall x | x in nodes ensures NodeOk(x) {
        if x == key {
          forall d | 0 <= d < 10 ensures key + [Digit(d)] !in nodes { assert Parent(key + [Digit(d)]) == key; }
        } else {
          assert old(NodeOk(x)) && (x != k ==> nodes[x] != node);
          forall d | 0 <= d < 10 ensures x + [Digit(d)] == key <==> x == k && Digit(d) == c {
            assert Parent(x + [Digit(d)]) == x;
          }
        }
      }
    }

    /** One turn of create(). */
    method Descend(node: Node, c: char, ghost k: string) returns (bad: bool, child: Node)
      requires Valid() && k in nodes && nodes[k] == node
      modifies this, node
      ensures Valid() && (bad <==> !IsDigit(c))
      ensures bad ==> nodes == old(nodes)
      ensures !bad ==> k + [c] in nodes && nodes[k + [c]] == child
      ensures !bad ==> nodes == old(nodes)[k + [c] := child] && (k + [c] in old(nodes) ==> nodes == old(nodes))
      ensures !bad && k + [c] !in old(nodes) ==>
                fresh(child) && fresh(child.queue) && child.Blank(k + [c])
    {
      var wrong, next := SubKey(node, c, k);
      bad, child := wrong, node;
      if !bad {
        if next == null {
          next := Graft(node, c, k);
        }
        child := next;
      }
    }

    /**
     * create(): finds or makes the node of `key` and all nodes on the way to it. A bad character
     * stops it, after the nodes of the digits before have been made.
     */
    method Create(key: Option<string>) returns (r: Outcome)
      requires Valid()
      modifies this, nodes.Values
      ensures Valid()
      ensures key.None? ==> r == Found(root) && nodes == old(nodes)
      ensures key.Some? ==>
                && nodes.Keys == Created(old(nodes.Keys), key.value)
                && (AllDigits(key.value) ==> key.value in nodes && r == Found(nodes[key.value]))
                && (!AllDigits(key.value) ==> r == InvalidKey)
      ensures forall x :: x in old(nodes) ==> x in nodes && nodes[x] == old(nodes)[x]
      ensures forall x :: x in nodes && x !in old(nodes) ==>
                fresh(nodes[x]) && fresh(nodes[x].queue) && nodes[x].Blank(x)
    {
      if key.None? {
        return Found(root);
      }
      var k, node, index := key.value, root, 0;
      ghost var before, keys := nodes, nodes.Keys;
      assert k[..0] == "" && CreatedTo(keys, k, 0) == keys;
      while index < |k|
        invariant Valid() && 0 <= index <= DigitRun(k)
        invariant k[..index] in nodes && nodes[k[..index]] == node
        invariant nodes.Keys == CreatedTo(keys, k, index)
        invariant forall x :: x in nodes ==>
                    if x in before then nodes[x] == before[x]
                    else fresh(nodes[x]) && fresh(nodes[x].queue) && nodes[x].Blank(x)
      {
        assert k[..index] + [k[index]] == k[..index + 1];
        var bad, child := Descend(node, k[index], k[..index]);
        if bad {
          return InvalidKey;
        }
        CreatedOneMore(keys, k, index);
        node := child;
        index := index + 1;
      }
      assert k[..index] == k;
      return Found(node);
    }
  }
}
