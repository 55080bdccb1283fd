/** Two TCP objects joined by their wires, driven through any schedule of calls, reads and connects. */
module TransportPair {
  import opened Transport

  lemma {:induction false} RunsOn(s: Sys, es: seq<Event>, e: Event)
    requires Runs(s, es) && Enabled(After(s, es), e)
    ensures Runs(s, es + [e]) && After(s, es + [e]) == Step(After(s, es), e)
    decreases |es|
  {
    if es == [] {
      assert es + [e] == [e];
    } else {
      RunsOn(Step(s, es[0]), es[1..], e);
      assert (es + [e])[1..] == es[1..] + [e];
    }
  }

  class Pair {
    const a: TCP
    const b: TCP

    ghost function View(): Sys
      reads a, b
    {
      Sys(a.View(), b.View())
    }

    constructor ()
      ensures a != b && View() == START && fresh(a) && fresh(b)
    {
      a := new TCP();
      b := new TCP();
    }

    method Call(x: TCP, c: Call)
      modifies x
      ensures x.View() == AfterCall(old(x.View()), c)
    {
      match c {
        case Listen => var _ := x.ListenCall();
        case StopListening => x.StopListeningCall();
        case Accept => var _ := x.AcceptCall();
        case Reject => var _ := x.RejectCall();
        case Disconnect => var _ := x.DisconnectCall();
        case DisconnectAccept => var _ := x.DisconnectAcceptCall();
        case DisconnectReject => var _ := x.DisconnectRejectCall();
        case DoAbort => x.AbortCall();
        case SendData => var _ := x.SendDataCall();
      }
    }

    /** x reads what y's wire has first: in a handshake, or outside of one. */
    method Read(x: TCP, y: TCP)
      requires x != y && CanReceive(x.View(), y.View())
      modifies x, y
      ensures Sys(x.View(), y.View()) == Received(old(x.View()), old(y.View()))
    {
      var m := y.wire[0];
      y.wire := y.wire[1..];
      match x.state {
        case Idle =>
        case Calling => var _ := x.ConnectAnswered(m);
        case Listening => var _ := x.ListenAnswered(m);
        case _ => x.Receive(m);
      }
    }

    /** connect() of x to the listening y, up to the wait for the answer: both get a new connection. */
    method Connect(x: TCP, y: TCP)
      requires x != y && CanConnect(x.View(), y.View())
      modifies x, y
      ensures Sys(x.View(), y.View()) == Joined(old(x.View()), old(y.View()))
    {
      x.state := Calling;
      x.connectedSocket, x.wire := true, [];
      y.connectedSocket, y.wire := true, [];
      x.SendControl(ConnectRequest);
    }

    /** One event, if it is possible. */
    method Perform(e: Event) returns (done: bool)
      requires a != b
      modifies a, b
      ensures done <==> Enabled(old(View()), e)
      ensures View() == if done then Step(old(View()), e) else old(View())
    {
      done := true;
      match e {
        case CallA(c) => Call(a, c);
        case CallB(c) => Call(b, c);
        case ReceiveA => done := a.connectedSocket && b.wire != []; if done { Read(a, b); }
        case ReceiveB => done := b.connectedSocket && a.wire != []; if done { Read(b, a); }
        case ConnectA =>
          done := a.state == Idle && b.state == Listening && !b.connectedSocket;
          if done { Connect(a, b); }
        case ConnectB =>
          done := b.state == Idle && a.state == Listening && !a.connectedSocket;
          if done { Connect(b, a); }
      }
    }

    /**
     * Whatever the two clients and the network do, in any order: the objects follow a run of the
     * protocol, so neither is left in a connection that the other has abandoned without word, and
     * two that have read everything agree exactly when an even number of disconnects was rejected.
     */
    method Drive(script: seq<Event>) returns (ghost trace: seq<Event>)
      requires a != b && View() == START
      modifies a, b
      ensures Runs(START, trace) && View() == After(START, trace)
      ensures !a.connectedSocket && Established(b.View()) ==> a.wire != []
      ensures !b.connectedSocket && Established(a.View()) ==> b.wire != []
      ensures a.wire == [] && b.wire == [] && Established(a.View()) && Established(b.View()) ==>
                (a.state == b.state <==> Rejections(START, trace, 0) % 2 == 0)
    {
      trace := [];
      for i := 0 to |script|
        invariant Runs(START, trace) && View() == After(START, trace)
      {
        var done := Perform(script[i]);
        if done {
          RunsOn(START, trace, script[i]);
          trace := trace + [script[i]];
        }
      }
      NoHalfOpenConnection(trace);
      EndsAgree(trace);
    }
  }
}
