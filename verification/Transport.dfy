/**
 * The transport protocol of tcp/tcp.cpp between two ends joined by FIFO channels with
 * end-of-stream. Handshake timeouts are infinite, the network does not fail, and nobody calls
 * stopConnecting(); sockets of a new connection are new channels.
 */
module Transport {
  datatype State = Idle | Calling | Listening | Connecting | Connected | Disconnecting

  /** What can arrive: the control packets, a packet without control data, and end-of-stream. */
  datatype Message =
    | ConnectRequest | ConnectConfirm | ConnectReject
    | DisconnectRequest | DisconnectConfirm | DisconnectReject
    | Abort | Data | Eof

  /** One end: its state, whether it has a connection, and what it sent that the peer has not read. */
  datatype End = End(state: State, open: bool, out: seq<Message>)

  /** The calls a client makes on its end. */
  datatype Call =
    | Listen | StopListening | Accept | Reject | Disconnect
    | DisconnectAccept | DisconnectReject | DoAbort | SendData

  function Send(e: End, m: Message): End {
    if e.open then e.(out := e.out + [m]) else e
  }

  function Close(e: End): End {
    if e.open then e.(open := false, out := e.out + [Eof]) else e
  }

  function Become(e: End, s: State): End { e.(state := s) }

  function AcceptDisconnect(e: End): End {
    Close(Send(Become(e, Idle), DisconnectConfirm))
  }

  /** A call in a state it is not meant for throws, or does nothing; either way the end stays as it is. */
  function AfterCall(e: End, c: Call): End {
    match (c, e.state)
    case (Listen, Idle) => Become(e, Listening)
    case (StopListening, Listening) => Close(Become(e, Idle))
    case (Accept, Connecting) => Send(Become(e, Connected), ConnectConfirm)
    case (Reject, Connecting) => Close(Send(Become(e, Idle), ConnectReject))
    case (Disconnect, Listening) => Close(Become(e, Idle))
    case (Disconnect, Connecting) => Close(Become(e, Idle))
    case (Disconnect, Connected) => Send(Become(e, Disconnecting), DisconnectRequest)
    case (Disconnect, Disconnecting) => AcceptDisconnect(e)
    case (DisconnectAccept, Disconnecting) => AcceptDisconnect(e)
    case (DisconnectReject, Disconnecting) => Send(Become(e, Connected), Message.DisconnectReject)
    case (DoAbort, Connected) => Close(Send(Become(e, Idle), Abort))
    case (SendData, Connected) => Send(e, Data)
    case _ => e
  }

  /** doConnect() calls fatal() on any control packet that answers no connect request. */
  predicate Unexpected(e: End, m: Message) {
    e.state.Calling? && m != ConnectConfirm && m != ConnectReject && m != Data && m != Eof
  }

  /** Reading one message, in the state the end is in. */
  function AfterReceive(e: End, m: Message): End {
    match e.state
    case Calling =>
      if m == ConnectConfirm then Become(e, Connected)
      else if Unexpected(e, m) then e
      else Close(Become(e, Idle))
    case Listening =>
      if m == ConnectRequest then Become(e, Connecting) else Close(e)
    case Connected =>
      if m == DisconnectRequest then Become(e, Disconnecting)
      else if m == DisconnectConfirm || m == Abort || m == Eof then Close(Become(e, Idle))
      else e
    case Disconnecting =>
      if m == DisconnectRequest then AcceptDisconnect(e)
      else if m == DisconnectConfirm || m == Abort then Close(Become(e, Idle))
      else e
    case _ => e
  }

  // ----- two ends

  datatype Sys = Sys(a: End, b: End)

  datatype Event =
    | CallA(c: Call) | CallB(c: Call)
    | ReceiveA | ReceiveB
    | ConnectA | ConnectB      // connect() of this end to the other

  const START := Sys(End(Idle, false, []), End(Idle, false, []))

  function Swap(s: Sys): Sys { Sys(s.b, s.a) }

  predicate CanReceive(x: End, y: End) { x.open && y.out != [] }

  predicate CanConnect(x: End, y: End) { x.state.Idle? && y.state.Listening? && !y.open }

  function Received(x: End, y: End): Sys
    requires CanReceive(x, y)
  {
    Sys(AfterReceive(x, y.out[0]), y.(out := y.out[1..]))
  }

  function Joined(x: End, y: End): Sys {
    Sys(End(Calling, true, [ConnectRequest]), End(Listening, true, []))
  }

  predicate Enabled(s: Sys, e: Event) {
    match e
    case CallA(_) => true
    case CallB(_) => true
    case ReceiveA => CanReceive(s.a, s.b)
    case ReceiveB => CanReceive(s.b, s.a)
    case ConnectA => CanConnect(s.a, s.b)
    case ConnectB => CanConnect(s.b, s.a)
  }

  function Step(s: Sys, e: Event): Sys
    requires Enabled(s, e)
  {
    match e
    case CallA(c) => s.(a := AfterCall(s.a, c))
    case CallB(c) => s.(b := AfterCall(s.b, c))
    case ReceiveA => Received(s.a, s.b)
    case ReceiveB => Swap(Received(s.b, s.a))
    case ConnectA => Joined(s.a, s.b)
    case ConnectB => Swap(Joined(s.b, s.a))
  }

  // ----- what every step keeps

  predicate Established(e: End) { e.state.Connected? || e.state.Disconnecting? }

  predicate Plain(m: Message) { m == Data || m == DisconnectRequest || m == Message.DisconnectReject }

  /** Traffic of a connection both ends still have. */
  predicate Body(q: seq<Message>) { forall i :: 0 <= i < |q| ==> Plain(q[i]) }

  /** Traffic of an end that has left an established connection: its last word comes before end-of-stream. */
  predicate Ending(q: seq<Message>) {
    && |q| >= 2 && q[|q| - 1] == Eof
    && (q[|q| - 2] == DisconnectConfirm || q[|q| - 2] == Abort)
    && Body(q[..|q| - 2])
  }

  predicate OpenOk(e: End) {
    && (e.state.Idle? ==> !e.open)
    && (!e.open ==> e.state.Idle? || e.state.Listening?)
  }

  /** What x has in flight, given what y is waiting for. */
  predicate Half(x: End, y: End) {
    y.open ==>
      match y.state
      case Listening => x.state.Calling? && x.out == [ConnectRequest] && y.out == []
      case Connecting => x.state.Calling? && x.out == [] && y.out == []
      case Calling =>
        if x.open then
          if Established(x) then |x.out| > 0 && x.out[0] == ConnectConfirm && Body(x.out[1..])
          else (x.state.Listening? || x.state.Connecting?) && x.out == []
        else
          x.out == [Eof] || x.out == [ConnectReject, Eof]
          || (|x.out| > 0 && x.out[0] == ConnectConfirm && Ending(x.out[1..]))
      case _ =>
        if x.open then (Established(x) && Body(x.out)) || (x.state.Calling? && x.out == [])
        else Ending(x.out)
  }

  predicate Inv(s: Sys) {
    OpenOk(s.a) && OpenOk(s.b) && Half(s.a, s.b) && Half(s.b, s.a)
  }

  lemma Ends(q: seq<Message>, m: Message)
    requires Body(q) && (m == DisconnectConfirm || m == Abort)
    ensures Ending(q + [m] + [Eof])
  {
    assert (q + [m] + [Eof])[..|q|] == q;
  }

  /** An established end that sends its last word and closes. */
  lemma LeavingKeeps(x: End, y: End, m: Message)
    requires Inv(Sys(x, y)) && Established(x) && (m == DisconnectConfirm || m == Abort)
    ensures Inv(Sys(Close(Send(Become(x, Idle), m)), y))
  {
    var q := x.out;
    if y.open {
      if y.state.Calling? {
        Ends(q[1..], m);
        assert (q + [m] + [Eof])[1..] == q[1..] + [m] + [Eof];
      } else {
        Ends(q, m);
      }
    }
  }

  /** An established end that stays established and may send something plain. */
  lemma StayingKeeps(x: End, y: End, x': End)
    requires Inv(Sys(x, y)) && Established(x) && Established(x') && x'.open == x.open
    requires x'.out == x.out
          || (|x'.out| > 0 && x'.out == x.out + [x'.out[|x'.out| - 1]] && Plain(x'.out[|x'.out| - 1]))
    ensures Inv(Sys(x', y))
  {
    var q := x.out;
    if x'.out != q && q != [] {
      var m := x'.out[|x'.out| - 1];
      assert (q + [m])[1..] == q[1..] + [m];
    }
  }

  lemma CallKeeps(x: End, y: End, c: Call)
    requires Inv(Sys(x, y))
    ensures Inv(Sys(AfterCall(x, c), y))
  {
    var x' := AfterCall(x, c);
    if Established(x) {
      if Established(x') {
        StayingKeeps(x, y, x');
      } else {
        LeavingKeeps(x, y, if c.DoAbort? then Abort else DisconnectConfirm);
      }
    }
  }

  lemma ReceiveEstablished(x: End, y: End)
    requires Inv(Sys(x, y)) && CanReceive(x, y) && Established(x)
    ensures Inv(Received(x, y)) && y.out[0] != Eof
  {
    var q, y' := y.out, y.(out := y.out[1..]);
    if !y.open && Plain(q[0]) {
      assert |q| > 2 && q[1..][..|q| - 3] == q[..|q| - 2][1..];
    }
    if y.open || Plain(q[0]) {
      assert Inv(Sys(x, y'));
      if x.state.Disconnecting? && q[0] == DisconnectRequest { LeavingKeeps(x, y', DisconnectConfirm); }
    }
  }

  lemma ReceiveKeeps(x: End, y: End)
    requires Inv(Sys(x, y)) && CanReceive(x, y)
    ensures Inv(Received(x, y)) && !Unexpected(x, y.out[0])
  {
    if Established(x) { ReceiveEstablished(x, y); }
  }

  lemma StepKeeps(s: Sys, e: Event)
    requires Inv(s) && Enabled(s, e)
    ensures Inv(Step(s, e))
  {
    match e
    case CallA(c) => CallKeeps(s.a, s.b, c);
    case CallB(c) => CallKeeps(s.b, s.a, c);
    case ReceiveA => ReceiveKeeps(s.a, s.b);
    case ReceiveB => ReceiveKeeps(s.b, s.a);
    case _ =>
  }

  predicate Runs(s: Sys, es: seq<Event>)
    decreases |es|
  {
    es == [] || (Enabled(s, es[0]) && Runs(Step(s, es[0]), es[1..]))
  }

  function After(s: Sys, es: seq<Event>): Sys
    requires Runs(s, es)
    decreases |es|
  {
    if es == [] then s else After(Step(s, es[0]), es[1..])
  }

  lemma {:induction false} RunKeeps(s: Sys, es: seq<Event>)
    requires Inv(s) && Runs(s, es)
    ensures Inv(After(s, es))
    decreases |es|
  {
    if es != [] {
      StepKeeps(s, es[0]);
      RunKeeps(Step(s, es[0]), es[1..]);
    }
  }

  /**
   * Over every run, however requests cross and whoever rejects or aborts: as long as one end is
   * still in a connection the other has left, there is something in flight that it has not read.
   * So with both inboxes drained it never happens that one end is idle and the other is not.
   */
  lemma NoHalfOpenConnection(es: seq<Event>)
    requires Runs(START, es)
    ensures var s := After(START, es);
            && (!s.a.open && Established(s.b) ==> s.a.out != [])
            && (!s.b.open && Established(s.a) ==> s.b.out != [])
            && (s.a.state.Idle? ==> !s.a.open) && (s.b.state.Idle? ==> !s.b.open)
  {
    RunKeeps(START, es);
  }

  /** No answer to connect() is unexpected, and an established end never runs into end-of-stream. */
  lemma NothingUnexpected(es: seq<Event>)
    requires Runs(START, es)
    ensures var s := After(START, es);
            && (CanReceive(s.a, s.b) ==> !Unexpected(s.a, s.b.out[0]) && !(Established(s.a) && s.b.out[0] == Eof))
            && (CanReceive(s.b, s.a) ==> !Unexpected(s.b, s.a.out[0]) && !(Established(s.b) && s.a.out[0] == Eof))
  {
    RunKeeps(START, es);
    var s := After(START, es);
    if CanReceive(s.a, s.b) { ReceiveKeeps(s.a, s.b); }
    if CanReceive(s.b, s.a) { ReceiveKeeps(s.b, s.a); }
  }

  // ----- draining

  /** x reads, until it has no connection or nothing is left. */
  function Drained(x: End, y: End): Sys
    decreases |y.out|
  {
    if CanReceive(x, y) then var s := Received(x, y); Drained(s.a, s.b) else Sys(x, y)
  }

  lemma {:induction false} DrainEnds(x: End, y: End)
    requires Inv(Sys(x, y)) && Established(x) && !y.open
    ensures Drained(x, y).a.state.Idle?
    decreases |y.out|
  {
    var s := Received(x, y);
    ReceiveKeeps(x, y);
    if Established(s.a) { DrainEnds(s.a, s.b); }
  }

  /**
   * After one end has left, in any reachable state, the other needs only read what is in flight
   * to become idle too.
   */
  lemma ReadingIsEnough(es: seq<Event>)
    requires Runs(START, es)
    ensures var s := After(START, es);
            && (!s.b.open && Established(s.a) ==> Drained(s.a, s.b).a.state.Idle?)
            && (!s.a.open && Established(s.b) ==> Drained(s.b, s.a).a.state.Idle?)
  {
    RunKeeps(START, es);
    var s := After(START, es);
    if !s.b.open && Established(s.a) { DrainEnds(s.a, s.b); }
    if !s.a.open && Established(s.b) { DrainEnds(s.b, s.a); }
  }

  // ----- what a rejected disconnect leaves behind

  lemma RunOne(s: Sys, e: Event, rest: seq<Event>)
    requires Enabled(s, e) && Runs(Step(s, e), rest)
    ensures Runs(s, [e] + rest) && After(s, [e] + rest) == After(Step(s, e), rest)
  {
    assert ([e] + rest)[1..] == rest;
  }

  const BOTH_CONNECTED := Sys(End(Connected, true, []), End(Connected, true, []))

  function Handshake(rest: seq<Event>): seq<Event> {
    [CallB(Listen)] + ([ConnectA] + ([ReceiveB] + ([CallB(Accept)] + ([ReceiveA] + rest))))
  }

  lemma HandshakeConnects(rest: seq<Event>)
    requires Runs(BOTH_CONNECTED, rest)
    ensures Runs(START, Handshake(rest)) && After(START, Handshake(rest)) == After(BOTH_CONNECTED, rest)
  {
    var s1 := Step(START, CallB(Listen));
    var s2 := Step(s1, ConnectA);
    var s3 := Step(s2, ReceiveB);
    var s4 := Step(s3, CallB(Accept));
    assert Step(s4, ReceiveA) == BOTH_CONNECTED;
    RunOne(s4, ReceiveA, rest);
    RunOne(s3, CallB(Accept), [ReceiveA] + rest);
    RunOne(s2, ReceiveB, [CallB(Accept)] + ([ReceiveA] + rest));
    RunOne(s1, ConnectA, [ReceiveB] + ([CallB(Accept)] + ([ReceiveA] + rest)));
    RunOne(START, CallB(Listen), [ConnectA] + ([ReceiveB] + ([CallB(Accept)] + ([ReceiveA] + rest))));
  }

  /** The end that asked for the disconnect ignores its rejection and stays disconnecting. */
  lemma RejectionIsIgnored()
    ensures exists es :: Runs(START, es)
              && After(START, es) == Sys(End(Disconnecting, true, []), End(Connected, true, []))
  {
    var s1 := Step(BOTH_CONNECTED, CallA(Disconnect));
    var s2 := Step(s1, ReceiveB);
    var s3 := Step(s2, CallB(Call.DisconnectReject));
    RunOne(s3, ReceiveA, []);
    RunOne(s2, CallB(Call.DisconnectReject), [ReceiveA] + []);
    RunOne(s1, ReceiveB, [CallB(Call.DisconnectReject)] + ([ReceiveA] + []));
    var es := [CallA(Disconnect)] + ([ReceiveB] + ([CallB(Call.DisconnectReject)] + ([ReceiveA] + [])));
    RunOne(BOTH_CONNECTED, CallA(Disconnect), [ReceiveB] + ([CallB(Call.DisconnectReject)] + ([ReceiveA] + [])));
    HandshakeConnects(es);
  }

  // ----- when two established ends agree

  function Disconnects(e: End): nat { if e.state.Disconnecting? then 1 else 0 }

  /** Disconnect requests not read yet. */
  function Requests(q: seq<Message>): nat {
    if q == [] then 0 else (if q[0] == DisconnectRequest then 1 else 0) + Requests(q[1..])
  }

  /** How many disconnects have been rejected in the current connection, given how many before `e`. */
  function Rejected(s: Sys, e: Event, n: nat): nat {
    match e
    case CallA(c) => if c.DisconnectReject? && s.a.state.Disconnecting? then n + 1 else n
    case CallB(c) => if c.DisconnectReject? && s.b.state.Disconnecting? then n + 1 else n
    case ConnectA => 0
    case ConnectB => 0
    case _ => n
  }

  function Rejections(s: Sys, es: seq<Event>, n: nat): nat
    requires Runs(s, es)
    decreases |es|
  {
    if es == [] then n else Rejections(Step(s, es[0]), es[1..], Rejected(s, es[0], n))
  }

  /** Each end and each request on its way counts once, and every rejection flips one end. */
  predicate Even(x: End, y: End, n: nat) {
    x.open && y.open ==> (Disconnects(x) + Disconnects(y) + Requests(x.out) + Requests(y.out) + n) % 2 == 0
  }

  lemma {:induction false} RequestsAppend(q: seq<Message>, m: Message)
    ensures Requests(q + [m]) == Requests(q) + if m == DisconnectRequest then 1 else 0
  {
    if q == [] {
      assert q + [m] == [m];
    } else {
      RequestsAppend(q[1..], m);
      assert (q + [m])[1..] == q[1..] + [m];
    }
  }

  lemma CallStaysEven(x: End, y: End, c: Call, n: nat)
    requires Inv(Sys(x, y)) && Even(x, y, n)
    ensures Even(AfterCall(x, c), y, if c.DisconnectReject? && x.state.Disconnecting? then n + 1 else n)
  {
    if Established(x) {
      RequestsAppend(x.out, DisconnectRequest);
      RequestsAppend(x.out, Message.DisconnectReject);
      RequestsAppend(x.out, Data);
    }
    if x.state.Connecting? {
      RequestsAppend(x.out, ConnectConfirm);
    }
  }

  lemma ReceiveStaysEven(x: End, y: End, n: nat)
    requires Inv(Sys(x, y)) && CanReceive(x, y) && Even(x, y, n)
    ensures var s := Received(x, y); Even(s.a, s.b, n)
  {
  }

  lemma CallAStaysEven(s: Sys, c: Call, n: nat)
    requires Inv(s) && Even(s.a, s.b, n)
    ensures Even(AfterCall(s.a, c), s.b, Rejected(s, CallA(c), n))
  {
    CallStaysEven(s.a, s.b, c, n);
  }

  lemma CallBStaysEven(s: Sys, c: Call, n: nat)
    requires Inv(s) && Even(s.a, s.b, n)
    ensures Even(s.a, AfterCall(s.b, c), Rejected(s, CallB(c), n))
  {
    EvenSwaps(s.a, s.b, n);
    CallStaysEven(s.b, s.a, c, n);
    EvenSwaps(AfterCall(s.b, c), s.a, Rejected(s, CallB(c), n));
  }

  lemma ReceiveBStaysEven(s: Sys, n: nat)
    requires Inv(s) && Even(s.a, s.b, n) && CanReceive(s.b, s.a)
    ensures var t := Swap(Received(s.b, s.a)); Even(t.a, t.b, n)
  {
    var t := Received(s.b, s.a);
    EvenSwaps(s.a, s.b, n);
    ReceiveStaysEven(s.b, s.a, n);
    EvenSwaps(t.a, t.b, n);
  }

  lemma EvenSwaps(x: End, y: End, n: nat)
    requires Even(x, y, n)
    ensures Even(y, x, n)
  {
  }

  lemma JoinedIsEven(x: End, y: End)
    ensures var s := Joined(x, y); Even(s.a, s.b, 0) && Even(s.b, s.a, 0)
  {
    assert Requests([ConnectRequest]) == 0;
  }

  lemma StepStaysEven(s: Sys, e: Event, n: nat)
    requires Inv(s) && Even(s.a, s.b, n) && Enabled(s, e)
    ensures var t := Step(s, e); Even(t.a, t.b, Rejected(s, e, n))
  {
    match e
    case CallA(c) => CallAStaysEven(s, c, n);
    case CallB(c) => CallBStaysEven(s, c, n);
    case ReceiveA => ReceiveStaysEven(s.a, s.b, n);
    case ReceiveB => ReceiveBStaysEven(s, n);
    case ConnectA => JoinedIsEven(s.a, s.b);
    case ConnectB => JoinedIsEven(s.b, s.a);
  }

  lemma {:induction false} StaysEven(s: Sys, es: seq<Event>, n: nat)
    requires Inv(s) && Even(s.a, s.b, n) && Runs(s, es)
    ensures var t := After(s, es); Even(t.a, t.b, Rejections(s, es, n))
    decreases |es|
  {
    if es != [] {
      StepStaysEven(s, es[0], n);
      StepKeeps(s, es[0]);
      StaysEven(Step(s, es[0]), es[1..], Rejected(s, es[0], n));
    }
  }

  /**
   * Two established ends that have read everything are in the same state if and only if the number
   * of disconnects rejected since they connected is even.
   */
  lemma EndsAgree(es: seq<Event>)
    requires Runs(START, es)
    ensures var s := After(START, es);
            s.a.out == [] && s.b.out == [] && Established(s.a) && Established(s.b) ==>
              (s.a.state == s.b.state <==> Rejections(START, es, 0) % 2 == 0)
  {
    RunKeeps(START, es);
    StaysEven(START, es, 0);
  }

  predicate RejectsNone(es: seq<Event>) {
    forall i :: 0 <= i < |es| ==> es[i] != CallA(Call.DisconnectReject) && es[i] != CallB(Call.DisconnectReject)
  }

  /** As long as nobody rejects a disconnect, none is counted, and such ends agree. */
  lemma {:induction false} NoneRejected(s: Sys, es: seq<Event>)
    requires Runs(s, es) && RejectsNone(es)
    ensures Rejections(s, es, 0) == 0
    decreases |es|
  {
    if es != [] { NoneRejected(Step(s, es[0]), es[1..]); }
  }

  /**
   * In any reachable state with nothing in flight, a rejected disconnect is read by the peer and
   * changes nothing there: afterwards the ends agree if and only if the peer was still connected.
   */
  lemma RejectionOutcome(es: seq<Event>, s: Sys)
    requires Runs(START, es) && s == After(START, es)
    requires s.a.out == [] && s.b.out == [] && Established(s.a) && s.b.state.Disconnecting?
    ensures var t := Step(s, CallB(Call.DisconnectReject));
            && Enabled(t, ReceiveA)
            && var u := Step(t, ReceiveA);
               && u.a == s.a && u.b == s.b.(state := Connected)
               && (u.a.state == u.b.state <==> s.a.state.Connected?)
  {
    RunKeeps(START, es);
  }

  // ----- the code of one end

  /** A TCP object: `state`, whether its socket has a connection, and what it put on the wire. */
  class TCP {
    var state: State
    var connectedSocket: bool
    var wire: seq<Message>

    ghost function View(): End
      reads this
    {
      End(state, connectedSocket, wire)
    }

    constructor ()
      ensures View() == START.a
    {
      state, connectedSocket, wire := Idle, false, [];
    }

    method SendControl(m: Message)
      modifies this
      ensures View() == Send(old(View()), m)
    {
      if connectedSocket {
        wire := wire + [m];
      }
    }

    method CloseSocket()
      modifies this
      ensures View() == Close(old(View()))
    {
      if connectedSocket {
        connectedSocket := false;
        wire := wire + [Eof];
      }
    }

    /** listen() up to the arrival of a connection. */
    method ListenCall() returns (ok: bool)
      modifies this
      ensures View() == AfterCall(old(View()), Listen) && (ok <==> old(state).Idle?)
    {
      ok := state == Idle;
      if ok {
        state := Listening;
      }
    }

    method StopListeningCall()
      modifies this
      ensures View() == AfterCall(old(View()), StopListening)
    {
      if state != Listening {
        return;
      }
      state := Idle;
      CloseSocket();
    }

    /** send() of a packet without control data. */
    method SendDataCall() returns (ok: bool)
      modifies this
      ensures View() == AfterCall(old(View()), SendData) && (ok <==> old(state).Connected?)
    {
      ok := state == Connected;
      if ok {
        SendControl(Data);
      }
    }

    /** The calls assert their state; the result tells whether they went through. */
    method AcceptCall() returns (ok: bool)
      modifies this
      ensures View() == AfterCall(old(View()), Accept) && (ok <==> old(state).Connecting?)
    {
      ok := state == Connecting;
      if ok {
        state := Connected;
        SendControl(ConnectConfirm);
      }
    }

    method RejectCall() returns (ok: bool)
      modifies this
      ensures View() == AfterCall(old(View()), Reject) && (ok <==> old(state).Connecting?)
    {
      ok := state == Connecting;
      if ok {
        state := Idle;
        SendControl(ConnectReject);
        CloseSocket();
      }
    }

    method DisconnectCall() returns (ok: bool)
      modifies this
      ensures View() == AfterCall(old(View()), Disconnect) && (ok <==> !old(state).Calling?)
    {
      ok := true;
      match state {
        case Idle =>
        case Listening =>
          CloseSocket();
          state := Idle;
        case Connecting =>
          CloseSocket();
          state := Idle;
        case Connected =>
          state := Disconnecting;
          SendControl(DisconnectRequest);
        case Disconnecting =>
          var _ := DisconnectAcceptCall();
        case Calling =>
          ok := false;
      }
    }

    method DisconnectAcceptCall() returns (ok: bool)
      modifies this
      ensures View() == AfterCall(old(View()), DisconnectAccept) && (ok <==> old(state).Disconnecting?)
    {
      ok := state == Disconnecting;
      if ok {
        state := Idle;
        SendControl(DisconnectConfirm);
        CloseSocket();
      }
    }

    method DisconnectRejectCall() returns (ok: bool)
      modifies this
      ensures View() == AfterCall(old(View()), Call.DisconnectReject) && (ok <==> old(state).Disconnecting?)
    {
      ok := state == Disconnecting;
      if ok {
        state := Connected;
        SendControl(Message.DisconnectReject);
      }
    }

    method AbortCall()
      modifies this
      ensures View() == AfterCall(old(View()), DoAbort)
    {
      if state != Connected {
        return;
      }
      state := Idle;
      SendControl(Abort);
      CloseSocket();
    }

    /** aborted(): the peer gave up. */
    method Aborted()
      modifies this
      ensures View() == Close(Become(old(View()), Idle))
    {
      state := Idle;
      CloseSocket();
    }

    method CheckForControlPacket(m: Message)
      requires (state.Connected? || state.Disconnecting?) && m != Eof
      modifies this
      ensures View() == AfterReceive(old(View()), m)
    {
      match m
      case DisconnectRequest =>
        if state == Disconnecting {
          var _ := DisconnectAcceptCall();
          CloseSocket();
        } else {
          state := Disconnecting;
        }
      case DisconnectConfirm =>
        state := Idle;
        CloseSocket();
      case Abort =>
        Aborted();
      case _ =>
    }

    /** receiveRaw() outside the connect and listen handshakes. */
    method Receive(m: Message)
      requires state.Connected? || state.Disconnecting? || state.Connecting?
      modifies this
      ensures View() == AfterReceive(old(View()), m)
      ensures m == Eof && old(state).Connected? ==> state.Idle? && !connectedSocket
    {
      if m == Eof {
        if state == Connected {
          Aborted();
        }
      } else if state == Connected || state == Disconnecting {
        CheckForControlPacket(m);
      }
    }

    /** The end of doConnect(), once the answer is there; fatal() leaves the end as it is. */
    method ConnectAnswered(m: Message) returns (fatal: bool)
      requires state.Calling?
      modifies this
      ensures View() == AfterReceive(old(View()), m) && (fatal <==> Unexpected(old(View()), m))
      ensures m == Eof || m == Data ==> state.Idle? && !connectedSocket
    {
      fatal := false;
      if m == Eof || m == Data {
        state := Idle;
        CloseSocket();
      } else if m == ConnectConfirm {
        state := Connected;
      } else if m == ConnectReject {
        state := Idle;
        CloseSocket();
      } else {
        fatal := true;
      }
    }

    /** The end of one turn of doListen(): anything but a connect request closes and listens again. */
    method ListenAnswered(m: Message) returns (again: bool)
      requires state.Listening?
      modifies this
      ensures View() == AfterReceive(old(View()), m) && (again <==> state.Listening?)
      ensures again ==> !connectedSocket && wire == old(wire) + if old(connectedSocket) then [Eof] else []
    {
      again := m != ConnectRequest;
      if again {
        CloseSocket();
      } else {
        state := Connecting;
      }
    }
  }
}
