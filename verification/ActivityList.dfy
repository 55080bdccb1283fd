/** The code of Activity: the molecules of Scheduler kept in an intrusive list. */
module ActivityList {
  import opened DoublyLinked
  import S = Scheduler

  class Activity {
    const list: DList<S.Molecule>
    var state: S.ActState
    var reported: seq<nat>    // molecules whose start failure was sent to the client

    ghost predicate Valid()
      reads this, list, list.Links
    {
      list.Valid()
    }

    ghost function View(): S.Activity
      reads this, list, list.Links
    {
      S.Activity(list.Contents(), state)
    }

    constructor ()
      ensures Valid() && View() == S.EMPTY.act && reported == []
    {
      list := new DList("");
      state, reported := S.Idle, [];
    }

    /** The search for the place of a molecule: an iterator that keeps the link before the current one. */
    method FindPlace(priority: nat) returns (previous: Link?<S.Molecule>, ghost n: nat)
      requires Valid()
      ensures n == S.Place(list.Contents(), priority)
      ensures previous == (if n == 0 then null else list.Links[n - 1])
    {
      ghost var c := list.Contents();
      var current := list.head;
      previous, n := null, 0;
      while current != null && current.value.priority >= priority
        invariant 0 <= n <= |c| && |c| == |list.Links|
        invariant current == (if n < |c| then list.Links[n] else null)
        invariant previous == (if n == 0 then null else list.Links[n - 1])
        invariant S.Place(c, priority) == n + S.Place(c[n..], priority)
        decreases |c| - n
      {
        assert list.NodeOk(n) && c[n] == current.value && c[n..][1..] == c[n + 1..];
        previous := current;
        current := current.next;
        n := n + 1;
      }
      assert n < |c| ==> c[n] == current.value;
    }

    method Link(link: Link<S.Molecule>, previous: Link?<S.Molecule>, ghost n: nat)
      requires Valid() && link.owner == null && n <= |list.Links|
      requires previous == (if n == 0 then null else list.Links[n - 1])
      modifies list, list.Links, link
      ensures Valid() && n < |list.Links| && list.Links[n] == link
      ensures list.Links == old(list.Links)[..n] + [link] + old(list.Links)[n..]
      ensures list.Contents() == S.InsertAt(old(list.Contents()), n, old(link.value))
    {
      ghost var c, v, m := list.Links, list.Contents(), link.value;
      forall i | 0 <= i < |c| ensures c[i] != link { assert list.NodeOk(i); }
      if previous != null {
        list.AddAfter(previous, link, n - 1);
      } else {
        list.AddFirst(link);
      }
      forall i | 0 <= i <= |c| ensures list.Contents()[i] == S.InsertAt(v, n, m)[i] {
        assert list.Links[i] in list.Links;
      }
    }

    /** add(): a molecule of higher priority stops the head it comes before, unless that forbids it. */
    method Add(link: Link<S.Molecule>, env: S.Media)
      requires Valid() && link.owner == null
      modifies this, list, list.Links, link
      ensures Valid() && View() == S.Add(old(View()), old(link.value), env) && reported == old(reported)
    {
      ghost var c, m := list.Contents(), link.value;
      var last := list.head;
      var previous, n := FindPlace(link.value.priority);
      Link(link, previous, n);
      assert list.Contents()[n] == link.value == m;
      if last == null {
        var (started', started) := S.StartMolecule(link.value, env);
        list.SetValue(link, started', 0);
        if started {
          state := S.Active;
        }
      } else {
        Interrupt(link, last, n, c, m);
      }
    }

    method Interrupt(link: Link<S.Molecule>, last: Link<S.Molecule>, ghost n: nat, ghost c: seq<S.Molecule>,
                     ghost m: S.Molecule)
      requires Valid() && c != [] && n == S.Place(c, m.priority) && list.Contents() == S.InsertAt(c, n, m)
      requires list.Links[n] == link && last == list.Links[if n == 0 then 1 else 0]
      modifies list.Links
      ensures Valid() && list.Links == old(list.Links)
      ensures var interrupt := m.priority > c[0].priority && !c[0].mode.dontInterrupt;
              list.Contents() == S.InsertAt(if interrupt then c[0 := S.StopMolecule(c[0], S.Stopped)] else c, n, m)
    {
      assert list.Contents()[if n == 0 then 1 else 0] == c[0] == last.value && list.Contents()[n] == m == link.value;
      if link.value.priority > last.value.priority && !last.value.mode.dontInterrupt {
        assert n == 0;
        list.SetValue(last, S.StopMolecule(last.value, S.Stopped), 1);
      }
    }

    /** remove(): an active molecule is stopped, any other one leaves the list. */
    method Remove(link: Link<S.Molecule>, ghost k: nat)
      requires Valid() && k < |list.Links| && list.Links[k] == link
      modifies this, list, list.Links
      ensures Valid() && View() == S.Remove(old(View()), k) && reported == old(reported)
      ensures !old(link.value).active ==> list.Links == old(list.Links)[..k] + old(list.Links)[k + 1..]
    {
      assert list.Contents()[k] == link.value;
      if link.value.active {
        list.SetValue(link, S.StopMolecule(link.value, S.Stopped), k);
        return;
      }
      ghost var c := list.Contents();
      list.Remove(link, k);
      assert list.Contents() == S.Delete(c, k);
      if list.size == 0 {
        state := S.Idle;
      }
    }

    /** One turn of start(): the head starts, or is reported and removed. */
    method TryHead(env: S.Media) returns (started: bool)
      requires Valid() && list.Links != [] && !list.Links[0].value.active
      modifies this, list, list.Links
      ensures Valid()
      ensures var c := old(list.Contents());
              && started == S.Starts(c[0], env)
              && list.Contents() == (if started then c[0 := S.StartMolecule(c[0], env).0] else c[1..])
              && reported == old(reported) + (if started then [] else [c[0].serial])
      ensures !started ==> list.Links == old(list.Links)[1..]
    {
      ghost var c := list.Contents();
      var head := list.head;
      assert c[0] == head.value;
      var (m, ok) := S.StartMolecule(head.value, env);
      started := ok;
      list.SetValue(head, m, 0);
      if !started {
        reported := reported + [m.serial];
        assert head.value == list.Contents()[0] == m && S.Delete(list.Contents(), 0) == c[1..];
        Remove(head, 0);
      }
    }

    /** The same, seen from the loop: what start() comes to stays the same. */
    method TryNext(envs: seq<S.Media>, tried: nat, ghost c: seq<S.Molecule>) returns (started: bool)
      requires Valid() && list.Links != [] && !list.Links[0].value.active
      requires tried < |c| <= |envs| && list.Contents() == c[tried..]
      modifies this, list, list.Links
      ensures Valid()
      ensures var goal := Outcome(c[tried..], envs[tried..], old(reported));
              if started then (list.Contents(), reported) == goal && list.Contents() != []
              else list.Contents() == c[tried + 1..] && Outcome(c[tried + 1..], envs[tried + 1..], reported) == goal
      ensures !started ==> list.Links == old(list.Links)[1..]
    {
      OneTry(c, envs, tried, reported);
      started := TryHead(envs[tried]);
    }

    /** start(): `envs[i]` is what the media do with the molecule now at position i. */
    method Start(envs: seq<S.Media>) returns (started: bool)
      requires Valid() && |envs| >= |list.Links| && S.NoneActive(list.Contents())
      modifies this, list, list.Links
      ensures Valid() && View() == S.Start(old(View()), envs)
      ensures reported == old(reported) + S.StartFirst(old(list.Contents()), envs).1
      ensures started <==> state.Active?
    {
      ghost var c, all, goal := list.Contents(), list.Links, Outcome(list.Contents(), envs, reported);
      started := false;
      var tried := 0;
      while list.head != null && !started
        invariant Valid() && 0 <= tried <= |c| == |all| <= |envs|
        invariant !started ==> list.Links == all[tried..] && list.Contents() == c[tried..]
        invariant !started ==> Outcome(c[tried..], envs[tried..], reported) == goal
        invariant started ==> (list.Contents(), reported) == goal && list.Contents() != []
        decreases |c| - tried, !started
      {
        assert list.Contents()[0] == list.Links[0].value == c[tried];
        started := TryNext(envs, tried, c);
        if !started {
          tried := tried + 1;
        }
      }
      state := if started then S.Active else S.Idle;
    }

    method Stop(status: S.Status, atomStops: bool) returns (stopped: bool)
      requires Valid()
      modifies this, list.Links
      ensures Valid() && list.Links == old(list.Links) && reported == old(reported)
      ensures View() == S.Stop(old(View()), status, atomStops)
      ensures var c := old(list.Contents());
              stopped <==> c != [] && S.Stoppable(c[0], status) && c[0].current.Some? && atomStops
      ensures stopped <==> state.Idle?
    {
      ghost var c := list.Contents();
      state, stopped := S.Stopping, false;
      if list.head != null {
        var h := list.head.value;
        assert c[0] == h;
        if S.Stoppable(h, status) {
          list.SetValue(list.head, S.StopMolecule(h, status), 0);
          stopped := h.current.Some? && atomStops;
        }
        assert c[0 := c[0]] == c;
      }
      if stopped {
        state := S.Idle;
      }
    }

    method Dtmf(atomStops: bool)
      requires Valid()
      modifies this, list.Links
      ensures Valid() && list.Links == old(list.Links) && reported == old(reported)
      ensures View() == S.Dtmf(old(View()), atomStops)
    {
      if list.head != null {
        assert list.Contents()[0] == list.head.value;
        if list.head.value.mode.dtmfStop {
          var _ := Stop(S.StoppedDtmf, atomStops);
        }
      }
    }

    /** What Sequencer::completed() does with the activity when the running molecule's atom is done. */
    method Completed(link: Link<S.Molecule>, ghost k: nat, msecs: nat, growing: bool, closing: bool, envs: seq<S.Media>)
      requires Valid() && k < |list.Links| && list.Links[k] == link && link.value.current.Some?
      requires |envs| >= |list.Links| && link.value.active && S.OneActive(list.Contents())
      modifies this, list, list.Links
      ensures Valid() && View() == S.Completed(old(View()), k, msecs, growing, closing, envs)
      ensures reported == old(reported) + S.Failed(old(View()), k, msecs, growing, closing, envs)
    {
      ghost var c := list.Contents();
      assert c[k] == link.value;
      var (d, finished) := S.Done(link.value, msecs, growing);
      list.SetValue(link, d, k);
      NoneLeft(c, k, d);
      assert list.Contents()[k] == link.value == d;
      if state.Stopping? || finished {
        Remove(link, k);
      }
      if closing {
        state := S.Idle;
      } else {
        var _ := Start(envs);
      }
    }
  }

  lemma NoneLeft(c: seq<S.Molecule>, k: nat, d: S.Molecule)
    requires k < |c| && c[k].active && S.OneActive(c) && !d.active
    ensures S.NoneActive(c[k := d]) && S.NoneActive(S.Delete(c[k := d], k))
  {
    forall j | 0 <= j < |c| && j != k ensures !c[j].active {
      assert j < k ==> !c[j].active;
      assert k < j ==> !c[j].active;
    }
  }

  /** The list start() leaves and all that has been reported, given what had been before. */
  function Outcome(list: seq<S.Molecule>, envs: seq<S.Media>, reported: seq<nat>): (seq<S.Molecule>, seq<nat>)
    requires |envs| >= |list|
  {
    var (l, r) := S.StartFirst(list, envs);
    (l, reported + r)
  }

  lemma OneTry(c: seq<S.Molecule>, envs: seq<S.Media>, i: nat, reported: seq<nat>)
    requires i < |c| <= |envs|
    ensures var goal := Outcome(c[i..], envs[i..], reported);
            if S.Starts(c[i], envs[i])
            then goal == (c[i..][0 := S.StartMolecule(c[i], envs[i]).0], reported)
            else goal == Outcome(c[i + 1..], envs[i + 1..], reported + [c[i].serial]) && c[i..][1..] == c[i + 1..]
  {
    assert c[i..][1..] == c[i + 1..] && envs[i..][1..] == envs[i + 1..];
    var m := S.StartMolecule(c[i], envs[i]).0;
    assert c[i..][0 := m] == [m] + c[i + 1..];
    assert reported + [] == reported;
    var r := S.StartFirst(c[i + 1..], envs[i + 1..]).1;
    assert reported + ([c[i].serial] + r) == reported + [c[i].serial] + r;
  }
}
