/** What each call of the transport achieves in every reachable state, at its own end and at the peer. */
module TransportCalls {
  import opened Transport

  /** Some run leads to `s`, seen from the end that now makes the call, and the call to `t`. */
  ghost predicate Calls(s: Sys, c: Call, t: Sys) {
    exists es :: Runs(START, es)
      && ((After(START, es) == s && t == Step(s, CallA(c)))
          || (After(START, es) == Swap(s) && t == Swap(Step(Swap(s), CallB(c)))))
  }

  lemma CallsKeep(s: Sys, c: Call, t: Sys)
    requires Calls(s, c, t)
    ensures Inv(s) && t.b == s.b && t.a == AfterCall(s.a, c) && Inv(t)
  {
    var es :| Runs(START, es)
      && ((After(START, es) == s && t == Step(s, CallA(c)))
          || (After(START, es) == Swap(s) && t == Swap(Step(Swap(s), CallB(c)))));
    RunKeeps(START, es);
    CallKeeps(s.a, s.b, c);
  }

  /** The end has no connection any more. */
  predicate Gone(e: End) { e.state.Idle? && !e.open }

  /** A peer that is still in the connection becomes idle by reading what is in flight. */
  predicate PeerFollows(s: Sys) {
    s.b.open ==> Gone(Drained(s.b, s.a).a)
  }

  lemma LeftAlone(x: End, y: End)
    requires Inv(Sys(x, y)) && Gone(x)
    ensures PeerFollows(Sys(x, y))
  {
    if y.open {
      var s := Received(y, x);
      ReceiveKeeps(y, x);
      if y.state.Calling? {
        if Established(s.a) { DrainEnds(s.a, s.b); DrainKeeps(s.a, s.b); }
      } else {
        DrainEnds(y, x);
        DrainKeeps(y, x);
      }
    }
  }

  lemma {:induction false} DrainKeeps(x: End, y: End)
    requires Inv(Sys(x, y))
    ensures Inv(Drained(x, y))
    decreases |y.out|
  {
    if CanReceive(x, y) {
      var s := Received(x, y);
      ReceiveKeeps(x, y);
      DrainKeeps(s.a, s.b);
    }
  }

  // ----- leaving

  /** abort(): the end is idle, its last words are an abort and end-of-stream, and the peer follows. */
  lemma AbortEnds(s: Sys, t: Sys)
    requires Calls(s, DoAbort, t) && s.a.state.Connected?
    ensures Gone(t.a) && t.a.out == s.a.out + [Abort, Eof] && t.b == s.b && PeerFollows(t)
  {
    CallsKeep(s, DoAbort, t);
    LeftAlone(t.a, t.b);
  }

  /** disconnectAccept(), and disconnect() of an end that was asked to disconnect or asked itself. */
  lemma DisconnectIsConfirmed(s: Sys, c: Call, t: Sys)
    requires Calls(s, c, t) && s.a.state.Disconnecting? && (c.DisconnectAccept? || c.Disconnect?)
    ensures Gone(t.a) && t.a.out == s.a.out + [DisconnectConfirm, Eof] && t.b == s.b && PeerFollows(t)
  {
    CallsKeep(s, c, t);
    LeftAlone(t.a, t.b);
  }

  /** reject(): the caller's connect() fails. */
  lemma RejectRefuses(s: Sys, t: Sys)
    requires Calls(s, Reject, t) && s.a.state.Connecting?
    ensures Gone(t.a) && t.a.out == [ConnectReject, Eof] && t.b == s.b
    ensures CanReceive(t.b, t.a) && Gone(Received(t.b, t.a).a)
  {
    CallsKeep(s, Reject, t);
  }

  /** disconnect() instead of accept() or reject() only closes, which fails the caller's connect() as well. */
  lemma HangingUpRefuses(s: Sys, t: Sys)
    requires Calls(s, Disconnect, t) && s.a.state.Connecting?
    ensures Gone(t.a) && t.a.out == [Eof] && t.b == s.b
    ensures CanReceive(t.b, t.a) && Gone(Received(t.b, t.a).a)
  {
    CallsKeep(s, Disconnect, t);
  }

  /** stopListening(), and disconnect() of a listening end; a caller that is just connecting fails. */
  lemma ListeningStops(s: Sys, c: Call, t: Sys)
    requires Calls(s, c, t) && s.a.state.Listening? && (c.StopListening? || c.Disconnect?)
    ensures Gone(t.a) && t.a.out == (if s.a.open then [Eof] else s.a.out) && t.b == s.b
    ensures s.a.open ==> CanReceive(t.b, t.a) && Gone(Received(t.b, t.a).a)
  {
    CallsKeep(s, c, t);
  }

  // ----- staying

  /** accept(): once the caller reads the answer both ends are connected and nothing is in flight. */
  lemma AcceptConnects(s: Sys, t: Sys)
    requires Calls(s, Accept, t) && s.a.state.Connecting?
    ensures t.a == End(Connected, true, [ConnectConfirm]) && t.b == s.b
    ensures CanReceive(t.b, t.a) && Received(t.b, t.a) == BOTH_CONNECTED
  {
    CallsKeep(s, Accept, t);
  }

  lemma ListenListens(s: Sys, t: Sys)
    requires Calls(s, Listen, t) && s.a.state.Idle?
    ensures t.a == End(Listening, false, s.a.out) && t.b == s.b
  {
    CallsKeep(s, Listen, t);
  }

  /** What an established end does not act on. */
  predicate Ignored(m: Message) { m == Data || m == Message.DisconnectReject }

  lemma {:induction false} IgnoredLast(x: End, y: End, z: End, m: Message)
    requires x.open && Established(x) && Body(y.out) && Ignored(m) && z.out == y.out + [m]
    ensures Drained(x, z).a == Drained(x, y).a
    decreases |y.out|
  {
    if y.out == [] {
      assert z.out[1..] == [];
    } else {
      var s, t := Received(x, y), Received(x, z);
      assert t.b.out == s.b.out + [m];
      if Established(s.a) { IgnoredLast(s.a, s.b, t.b, m); }
    }
  }

  /** What an established end says last and the peer ignores leaves the peer where it would end anyhow. */
  lemma PeerIgnores(x: End, y: End, z: End, m: Message)
    requires Inv(Sys(x, y)) && Established(x) && y.open && Ignored(m) && z.out == x.out + [m]
    ensures Drained(y, z).a == Drained(y, x).a
  {
    if y.state.Calling? {
      var s, t := Received(y, x), Received(y, z);
      assert t.b.out == s.b.out + [m];
      IgnoredLast(s.a, s.b, t.b, m);
    } else {
      IgnoredLast(y, x, z, m);
    }
  }

  /** send(): one more packet on its way, which moves neither end. */
  lemma SendSends(s: Sys, t: Sys)
    requires Calls(s, SendData, t) && s.a.state.Connected?
    ensures t == Sys(End(Connected, true, s.a.out + [Data]), s.b)
    ensures s.b.open ==> Drained(t.b, t.a).a == Drained(s.b, s.a).a
  {
    CallsKeep(s, SendData, t);
    if s.b.open { PeerIgnores(s.a, s.b, t.a, Data); }
  }

  /** disconnectReject(): this end is connected again; the peer reads the rejection and ignores it. */
  lemma RejectionReturns(s: Sys, t: Sys)
    requires Calls(s, Call.DisconnectReject, t) && s.a.state.Disconnecting?
    ensures t == Sys(End(Connected, true, s.a.out + [Message.DisconnectReject]), s.b)
    ensures s.b.open ==> Drained(t.b, t.a).a == Drained(s.b, s.a).a
  {
    CallsKeep(s, Call.DisconnectReject, t);
    if s.b.open { PeerIgnores(s.a, s.b, t.a, Message.DisconnectReject); }
  }

  lemma {:induction false} RequestLast(x: End, y: End, z: End)
    requires x.open && Established(x) && Body(y.out) && Requests(y.out) == 0 && z.out == y.out + [DisconnectRequest]
    ensures var s := Drained(x, z);
            s.b.out == [] && s.a == if x.state.Connected? then Become(x, Disconnecting) else AcceptDisconnect(x)
    decreases |y.out|
  {
    var t := Received(x, z);
    if y.out == [] {
      assert t.b.out == [];
    } else {
      var s := Received(x, y);
      assert t.b.out == s.b.out + [DisconnectRequest];
      RequestLast(x, s.b, t.b);
    }
  }

  /**
   * disconnect(): this end waits for an answer. A peer with no earlier request unread is asked
   * once it reads it: from connected it becomes disconnecting; one that asked itself confirms.
   */
  lemma DisconnectAsks(s: Sys, t: Sys)
    requires Calls(s, Disconnect, t) && s.a.state.Connected?
    ensures t == Sys(End(Disconnecting, true, s.a.out + [DisconnectRequest]), s.b)
    ensures s.b.open && Requests(s.a.out) == 0 ==>
              var u := Drained(t.b, t.a);
              u.b.out == [] && u.a == if s.b.state.Disconnecting? then AcceptDisconnect(s.b)
                                      else Become(s.b, Disconnecting)
  {
    CallsKeep(s, Disconnect, t);
    var x, y := s.a, s.b;
    if y.open && Requests(x.out) == 0 {
      if y.state.Calling? {
        var u, v := Received(y, x), Received(y, t.a);
        assert v.b.out == u.b.out + [DisconnectRequest];
        RequestLast(u.a, u.b, v.b);
      } else {
        RequestLast(y, x, t.a);
      }
    }
  }

  // ----- everything else

  /** The states the calls are meant for. */
  function MeantFor(c: Call): set<State> {
    match c
    case Listen => {Idle}
    case StopListening => {Listening}
    case Accept | Reject => {Connecting}
    case Disconnect => {Listening, Connecting, Connected, Disconnecting}
    case DisconnectAccept | DisconnectReject => {Disconnecting}
    case DoAbort | SendData => {Connected}
  }

  /** A call changes something if and only if the end is in a state it is meant for. */
  lemma OtherCallsDoNothing(s: Sys, c: Call, t: Sys)
    requires Calls(s, c, t)
    ensures t == s <==> s.a.state !in MeantFor(c)
  {
    CallsKeep(s, c, t);
  }
}
