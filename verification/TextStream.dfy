/** CRLF line framing over an arbitrarily chunked byte stream: tcp/text.cpp. */
module TextStream {

  const RMIN := 256
  const RSIZE := 2048
  const GSIZE := 2048
  const SPAN := 1792    // unterminated data up to this size never makes a buffer grow
  const NUL := '\0'

  // ---- what a byte stream means: its lines, and the unterminated rest ----

  predicate CrlfAt(s: string, i: int) {
    0 <= i && i + 1 < |s| && s[i] == '\r' && s[i + 1] == '\n'
  }

  ghost predicate NoCrlf(s: string) {
    forall i :: 0 <= i < |s| ==> !CrlfAt(s, i)
  }

  ghost predicate NulFree(s: string) {
    forall i :: 0 <= i < |s| ==> s[i] != NUL
  }

  lemma NulFreeParts(a: string, b: string)
    ensures NulFree(a + b) <==> NulFree(a) && NulFree(b)
  {
    if NulFree(a + b) {
      forall i | 0 <= i < |b| ensures b[i] != NUL { assert b[i] == (a + b)[|a| + i]; }
      forall i | 0 <= i < |a| ensures a[i] != NUL { assert a[i] == (a + b)[i]; }
    }
  }

  /** Where the first CRLF of `s` is; |s| when there is none. */
  function FirstCrlf(s: string): (i: nat)
    ensures i <= |s| && (i < |s| ==> CrlfAt(s, i))
  {
    if |s| == 0 || CrlfAt(s, 0) then 0 else FirstCrlf(s[1..]) + 1
  }

  /** `i` is the place of the first CRLF of `s`. */
  ghost predicate IsFirst(s: string, i: nat) {
    i <= |s| && (i < |s| ==> CrlfAt(s, i)) && forall j :: 0 <= j < i ==> !CrlfAt(s, j)
  }

  lemma {:induction false} FirstCrlfFinds(s: string)
    ensures IsFirst(s, FirstCrlf(s))
  {
    if |s| > 0 && !CrlfAt(s, 0) {
      FirstCrlfFinds(s[1..]);
      forall j | 0 < j < |s| ensures CrlfAt(s, j) == CrlfAt(s[1..], j - 1) {
      }
    }
  }

  lemma FirstCrlfIs(s: string, i: nat)
    requires IsFirst(s, i)
    ensures FirstCrlf(s) == i
  {
    FirstCrlfFinds(s);
    assert CrlfAt(s, i) || i == |s|;
  }

  function Lines(s: string): seq<string>
    decreases |s|
  {
    var i := FirstCrlf(s);
    if i == |s| then [] else [s[..i]] + Lines(s[i + 2..])
  }

  function Rest(s: string): string
    decreases |s|
  {
    var i := FirstCrlf(s);
    if i == |s| then s else Rest(s[i + 2..])
  }

  function Join(lines: seq<string>): string {
    if lines == [] then "" else lines[0] + "\r\n" + Join(lines[1..])
  }

  lemma CutFirst(s: string)
    requires FirstCrlf(s) < |s|
    ensures var p := FirstCrlf(s); CrlfAt(s, p) && NoCrlf(s[..p]) && s == s[..p] + "\r\n" + s[p + 2..]
  {
    var p := FirstCrlf(s);
    FirstCrlfFinds(s);
    forall j | 0 <= j < p ensures !CrlfAt(s[..p], j) {
      assert !CrlfAt(s, j);
    }
    Middle(s, p);
  }

  lemma Middle(s: string, p: nat)
    requires CrlfAt(s, p)
    ensures s == s[..p] + "\r\n" + s[p + 2..]
  {
    assert s[p..p + 2] == "\r\n";
    assert s == s[..p] + s[p..p + 2] + s[p + 2..];
  }

  /** Splitting loses and invents nothing, and leaves no CRLF inside a line or in the rest. */
  lemma {:induction false} JoinOfSplit(s: string)
    ensures Join(Lines(s)) + Rest(s) == s
    ensures NoCrlf(Rest(s)) && forall l :: l in Lines(s) ==> NoCrlf(l)
    decreases |s|
  {
    var i := FirstCrlf(s);
    FirstCrlfFinds(s);
    if i < |s| {
      var t := s[i + 2..];
      CutFirst(s);
      JoinOfSplit(t);
      JoinOne(s[..i], Lines(t), Rest(t));
    }
  }

  lemma Associates<T>(a: seq<T>, b: seq<T>, c: seq<T>)
    ensures a + (b + c) == a + b + c
  {
  }

  lemma JoinOne(l: string, lines: seq<string>, t: string)
    ensures Join([l] + lines) + t == l + "\r\n" + (Join(lines) + t)
  {
    assert ([l] + lines)[1..] == lines;
  }

  lemma LineFirst(s: string, l: string, t: string)
    requires s == l + "\r\n" + t && NoCrlf(l)
    ensures FirstCrlf(s) == |l| && Lines(s) == [l] + Lines(t) && Rest(s) == Rest(t)
  {
    assert s[|l|] == '\r' && s[|l| + 1] == '\n';
    forall j | 0 <= j < |l| ensures !CrlfAt(s, j) {
      if j + 1 < |l| { assert !CrlfAt(l, j); }
    }
    FirstCrlfIs(s, |l|);
    assert s[..|l|] == l && s[|l| + 2..] == t;
  }

  /** Lines already cut off a stream do not change how the remainder splits. */
  lemma {:induction false} SplitOfJoin(lines: seq<string>, s: string)
    requires forall l :: l in lines ==> NoCrlf(l)
    ensures Lines(Join(lines) + s) == lines + Lines(s)
    ensures Rest(Join(lines) + s) == Rest(s)
  {
    if lines == [] {
      assert Join(lines) + s == s;
      assert lines + Lines(s) == Lines(s);
    } else {
      var t := Join(lines[1..]) + s;
      SplitOfJoin(lines[1..], s);
      assert lines == [lines[0]] + lines[1..];
      JoinOne(lines[0], lines[1..], s);
      LineFirst(Join(lines) + s, lines[0], t);
      Associates([lines[0]], lines[1..], Lines(s));
    }
  }

  lemma RestIsWhole(s: string)
    requires NoCrlf(s)
    ensures Lines(s) == [] && Rest(s) == s
  {
    FirstCrlfIs(s, |s|);
  }

  lemma {:induction false} JoinAppend(lines: seq<string>, l: string)
    ensures Join(lines + [l]) == Join(lines) + l + "\r\n"
  {
    if lines == [] {
      assert lines + [l] == [l] && [l][1..] == [];
      assert Join([l]) == l + "\r\n" + Join([]);
    } else {
      JoinAppend(lines[1..], l);
      assert (lines + [l])[1..] == lines[1..] + [l];
    }
  }

  // ---- what the buffers have to hold

  /** Unterminated data, wherever the stream is cut, never exceeds n bytes (a line may still lack its LF). */
  predicate Fits(s: string, n: nat)
    decreases |s|
  {
    var i := FirstCrlf(s);
    if i == |s| then |s| <= n else i + 1 <= n && Fits(s[i + 2..], n)
  }

  /** The size of the get buffer after a line of p bytes: it is doubled, once, for a line that does not fit. */
  function Grown(g: nat, p: nat): nat {
    if p + 2 >= g then 2 * g else g
  }

  /** No line of the stream overruns a get buffer of size g, grown as it is. */
  predicate Holds(s: string, g: nat)
    decreases |s|
  {
    var i := FirstCrlf(s);
    i == |s| || (i + 2 <= Grown(g, i) && Holds(s[i + 2..], Grown(g, i)))
  }

  /** Streams whose unterminated data stays small need no larger buffer. */
  lemma {:induction false} FitsHolds(s: string, g: nat)
    requires g >= GSIZE && Fits(s, SPAN)
    ensures Holds(s, g)
    decreases |s|
  {
    var i := FirstCrlf(s);
    if i < |s| {
      FitsHolds(s[i + 2..], g);
    }
  }

  /** A line of the stream fits exactly when it is at most two bytes short of twice the get buffer. */
  lemma LineHolds(s: string, l: string, t: string, g: nat)
    requires s == l + "\r\n" + t && NoCrlf(l) && g > 0
    ensures Holds(s, g) <==> |l| + 2 <= 2 * g && Holds(t, Grown(g, |l|))
  {
    LineFirst(s, l, t);
    assert s[|l| + 2..] == t;
  }

  /** A stream that overruns the get buffer: its first line has 4095 bytes, or more. */
  lemma LongLineOverruns(s: string, l: string, t: string)
    requires s == l + "\r\n" + t && NoCrlf(l) && |l| >= 4095
    ensures !Holds(s, GSIZE)
  {
    LineHolds(s, l, t, GSIZE);
  }

  lemma CutHasNoCrlf(s: string, k: nat, i: nat)
    requires IsFirst(s, i) && k <= |s| && k < i + 2
    ensures NoCrlf(s[..k])
  {
    forall j | 0 <= j < k ensures !CrlfAt(s[..k], j) {
      assert j < i ==> !CrlfAt(s, j);
    }
  }

  lemma RestBeyond(s: string, k: nat, i: nat, t: string)
    requires i == FirstCrlf(s) && i + 2 <= k <= |s| && t == s[i + 2..k]
    ensures Rest(s[..k]) == Rest(t)
  {
    var u := s[..k];
    CutFirst(s);
    Thirds(s, i, k);
    LineFirst(u, s[..i], t);
  }

  lemma Thirds(s: string, i: nat, k: nat)
    requires CrlfAt(s, i) && i + 2 <= k <= |s|
    ensures s[..k] == s[..i] + "\r\n" + s[i + 2..k]
  {
    assert s[i..i + 2] == "\r\n";
    assert s[..k] == s[..i] + s[i..i + 2] + s[i + 2..k];
  }

  lemma RestBefore(s: string, k: nat, i: nat)
    requires i == FirstCrlf(s) && k <= |s| && (i < |s| ==> k < i + 2)
    ensures Rest(s[..k]) == s[..k]
  {
    FirstCrlfFinds(s);
    CutHasNoCrlf(s, k, i);
    RestIsWhole(s[..k]);
  }

  /** Wherever the stream is cut, at most n bytes are unterminated. */
  ghost predicate CutsFit(s: string, n: nat) {
    forall k :: 0 <= k <= |s| ==> |Rest(s[..k])| <= n
  }

  /** Fits says what it means. */
  lemma {:induction false} FitsExactly(s: string, n: nat)
    ensures Fits(s, n) <==> CutsFit(s, n)
    decreases |s|
  {
    var i := FirstCrlf(s);
    if i < |s| {
      FitsExactly(s[i + 2..], n);
    }
    if Fits(s, n) {
      forall k | 0 <= k <= |s| ensures |Rest(s[..k])| <= n { CutFits(s, n, k); }
    } else {
      var k := UnfitCut(s, n);
    }
  }

  lemma CutFits(s: string, n: nat, k: nat)
    requires Fits(s, n) && k <= |s|
    requires FirstCrlf(s) < |s| ==> CutsFit(s[FirstCrlf(s) + 2..], n)
    ensures |Rest(s[..k])| <= n
  {
    var i := FirstCrlf(s);
    if i == |s| || k < i + 2 {
      RestBefore(s, k, i);
    } else {
      var t := s[i + 2..];
      assert t[..k - i - 2] == s[i + 2..k];
      assert |Rest(t[..k - i - 2])| <= n;
      RestBeyond(s, k, i, s[i + 2..k]);
    }
  }

  lemma UnfitCut(s: string, n: nat) returns (k: nat)
    requires !Fits(s, n)
    requires FirstCrlf(s) < |s| && !Fits(s[FirstCrlf(s) + 2..], n) ==> !CutsFit(s[FirstCrlf(s) + 2..], n)
    ensures k <= |s| && |Rest(s[..k])| > n
  {
    var i := FirstCrlf(s);
    if i == |s| || i + 1 > n {
      k := if i == |s| then |s| else i + 1;
      RestBefore(s, k, i);
    } else {
      var t := s[i + 2..];
      var j :| 0 <= j <= |t| && |Rest(t[..j])| > n;
      k := i + 2 + j;
      assert t[..j] == s[i + 2..k];
      RestBeyond(s, k, i, t[..j]);
    }
  }

  lemma UnterminatedFits(p: string, t: string, n: nat)
    requires NoCrlf(p) && Fits(p + t, n)
    ensures |p| <= n
  {
    var i := FirstCrlf(p + t);
    FirstCrlfFinds(p + t);
    assert i + 1 < |p| ==> CrlfAt(p, i) == CrlfAt(p + t, i);
  }

  /** `s` is the line `l`, CRLF, and then `t`. */
  ghost predicate Heads(s: string, l: string, t: string) {
    |s| == |l| + 2 + |t| && s[..|l|] == l && CrlfAt(s, |l|) && s[|l| + 2..] == t
  }

  lemma HeadsIs(s: string, l: string, t: string)
    ensures Heads(s, l, t) <==> s == l + "\r\n" + t
  {
    if Heads(s, l, t) {
      Middle(s, |l|);
    }
  }

  lemma HeadsAppend(s: string, l: string, t: string, u: string)
    requires Heads(s, l, t)
    ensures Heads(s + u, l, t + u)
  {
    assert (s + u)[|l| + 2..] == t + u;
  }

  /**
   * The account of a stream: what was received is the lines delivered and then the buffer, and no
   * line still to be delivered overruns a get buffer of size g.
   */
  ghost predicate Account(received: string, delivered: seq<string>, buffer: string, coming: string, g: nat) {
    && NulFree(buffer) && NulFree(coming)
    && received == Join(delivered) + buffer
    && (forall l :: l in delivered ==> NoCrlf(l))
    && Holds(buffer + coming, g)
  }

  /** Cutting the first line off what is buffered keeps the account. */
  lemma TakeLine(received: string, delivered: seq<string>, s: string, t: string, g: nat, p: nat)
    requires p == FirstCrlf(s) < |s| && Account(received, delivered, s, t, g)
    ensures
      && CrlfAt(s, p) && Heads(s, s[..p], s[p + 2..]) && NoCrlf(s[..p])
      && p + 2 <= Grown(g, p) && Account(received, delivered + [s[..p]], s[p + 2..], t, Grown(g, p))
  {
    var l, u := s[..p], s[p + 2..];
    CutFirst(s);
    HeadsIs(s, l, u);
    JoinTaken(delivered, l, u);
    TakeRoom(s, t, g);
    assert forall x :: x in delivered + [l] ==> x in delivered || x == l;
  }

  lemma TakeRoom(s: string, t: string, g: nat)
    requires FirstCrlf(s) < |s| && Holds(s + t, g) && NulFree(s)
    ensures var p := FirstCrlf(s);
      && p + 2 <= Grown(g, p) && Holds(s[p + 2..] + t, Grown(g, p)) && NulFree(s[p + 2..])
  {
    FirstStays(s, t);
  }

  lemma JoinTaken(before: seq<string>, l: string, t: string)
    ensures Join(before) + (l + "\r\n" + t) == Join(before + [l]) + t
  {
    JoinAppend(before, l);
  }

  /** More data behind does not change where the first CRLF is. */
  lemma FirstStays(s: string, t: string)
    requires FirstCrlf(s) < |s|
    ensures var p := FirstCrlf(s); FirstCrlf(s + t) == p && (s + t)[p + 2..] == s[p + 2..] + t
  {
    var p := FirstCrlf(s);
    FirstCrlfFinds(s);
    FirstCrlfIs(s + t, p) by {
      forall j | 0 <= j < p ensures !CrlfAt(s + t, j) { assert !CrlfAt(s, j); }
    }
    assert (s + t)[p + 2..] == s[p + 2..] + t;
  }

  // ---- the socket, seen from here ----

  /** What one call of recv() finds: some bytes (none: end of stream), or an error. */
  datatype Arrival = Segment(bytes: string) | WouldBlock | Failure

  function Bytes(arrivals: seq<Arrival>): string {
    if arrivals == [] then ""
    else (if arrivals[0].Segment? then arrivals[0].bytes else "") + Bytes(arrivals[1..])
  }

  /** What recv() finds when it finds no data. */
  function StopsFor(arrivals: seq<Arrival>): Arrival {
    if arrivals == [] then WouldBlock else arrivals[0]
  }

  predicate IsData(a: Arrival) { a.Segment? && a.bytes != "" }

  /** Where reading comes to a halt: what recv() finds there instead of data, and what comes after it. */
  datatype Halt = Halt(reason: Arrival, beyond: seq<Arrival>)

  function HaltOf(arrivals: seq<Arrival>): Halt {
    if arrivals == [] then Halt(WouldBlock, [])
    else if IsData(arrivals[0]) then HaltOf(arrivals[1..])
    else Halt(arrivals[0], arrivals[1..])
  }

  /** The bytes that can be read before that. */
  function BytesAhead(arrivals: seq<Arrival>): string {
    if arrivals == [] || !IsData(arrivals[0]) then "" else arrivals[0].bytes + BytesAhead(arrivals[1..])
  }

  lemma {:induction false} HaltDivides(arrivals: seq<Arrival>)
    ensures BytesAhead(arrivals) + Bytes(HaltOf(arrivals).beyond) == Bytes(arrivals)
  {
    if arrivals != [] && IsData(arrivals[0]) {
      HaltDivides(arrivals[1..]);
      Associates(arrivals[0].bytes, BytesAhead(arrivals[1..]), Bytes(HaltOf(arrivals).beyond));
    }
  }

  /** recv(): at most `max` bytes of the segment at hand; the rest of it is found next time. */
  function AfterRecv(arrivals: seq<Arrival>, max: nat): (string, seq<Arrival>) {
    if arrivals == [] then ("", [])
    else if !arrivals[0].Segment? then ("", arrivals[1..])
    else
      var b := arrivals[0].bytes;
      if |b| <= max then (b, arrivals[1..]) else (b[..max], [Segment(b[max..])] + arrivals[1..])
  }

  lemma RecvKeepsBytes(arrivals: seq<Arrival>, max: nat, b: string, rest: seq<Arrival>)
    requires (b, rest) == AfterRecv(arrivals, max)
    ensures b + Bytes(rest) == Bytes(arrivals) && (b != "" ==> |Bytes(rest)| < |Bytes(arrivals)|)
  {
    if arrivals != [] && arrivals[0].Segment? && |arrivals[0].bytes| > max {
      var c := arrivals[0].bytes;
      assert c[..max] + c[max..] == c;
      assert ([Segment(c[max..])] + arrivals[1..])[1..] == arrivals[1..];
      Associates(b, c[max..], Bytes(arrivals[1..]));
    }
  }

  /** Reading data leaves the halt where it is; finding none is the halt. */
  lemma RecvHalts(arrivals: seq<Arrival>, max: nat, b: string, rest: seq<Arrival>)
    requires (b, rest) == AfterRecv(arrivals, max) && max > 0
    ensures HaltOf(arrivals) == if b == "" then Halt(StopsFor(arrivals), rest) else HaltOf(rest)
  {
    if arrivals != [] && arrivals[0].Segment? && |arrivals[0].bytes| > max {
      assert rest[1..] == arrivals[1..];
    }
  }

  /** What one recv() keeps: the stream as a whole, and the account of what was received. */
  lemma ReadKeeps(received: string, delivered: seq<string>, s: string, arrivals: seq<Arrival>, g: nat,
                  bytes: string, rest: seq<Arrival>, max: nat)
    requires (bytes, rest) == AfterRecv(arrivals, max) && max > 0
    requires Account(received, delivered, s, Bytes(arrivals), g)
    ensures s + bytes + Bytes(rest) == s + Bytes(arrivals)
    ensures Account(received + bytes, delivered, s + bytes, Bytes(rest), g)
    ensures bytes == "" ==> received + bytes == received && s + bytes == s
  {
    RecvKeepsBytes(arrivals, max, bytes, rest);
    NulFreeParts(bytes, Bytes(rest));
    NulFreeParts(s, bytes);
    Associates(s, bytes, Bytes(rest));
    Associates(Join(delivered), s, bytes);
  }

  /** The read buffer's size, and whether it has grown since the last read, so that it lacks its NUL. */
  datatype Room = Room(max: nat, bare: bool)

  /** After a read that completed no line and left n bytes in the buffer. */
  function Turned(n: nat, max: nat): Room {
    if max - n < RMIN then Room(2 * max, true) else Room(max, false)
  }

  /** What becomes of the read buffer, holding `s` without a complete line, in the loop of receive(). */
  function ReadRoom(s: string, arrivals: seq<Arrival>, room: Room): Room
    requires |s| + 1 < room.max && room.max >= RSIZE
    decreases |Bytes(arrivals)|
  {
    var (b, rest) := AfterRecv(arrivals, room.max - |s| - 1);
    RecvKeepsBytes(arrivals, room.max - |s| - 1, b, rest);
    if b == "" then room
    else if FirstCrlf(s + b) < |s + b| then Room(room.max, false)
    else ReadRoom(s + b, rest, Turned(|s + b|, room.max))
  }

  lemma Slices(s: string, i: nat, j: nat)
    requires i <= j <= |s|
    ensures s[..j] == s[..i] + s[i..j]
  {
  }

  lemma ReadRoomOnce(s: string, arrivals: seq<Arrival>, room: Room, b: string, rest: seq<Arrival>)
    requires |s| + 1 < room.max && room.max >= RSIZE && (b, rest) == AfterRecv(arrivals, room.max - |s| - 1)
    ensures ReadRoom(s, arrivals, room) ==
            if b == "" then room
            else if !NoCrlf(s + b) then Room(room.max, false)
            else ReadRoom(s + b, rest, Turned(|s + b|, room.max))
  {
    FirstCrlfFinds(s + b);
  }

  /** What becomes of a read buffer of size max in receive(): nothing when a line is already complete. */
  function RoomAfter(s: string, arrivals: seq<Arrival>, max: nat): Room
    requires |s| + 1 < max && max >= RSIZE
  {
    if FirstCrlf(s) < |s| then Room(max, false) else ReadRoom(s, arrivals, Room(max, false))
  }

  /** Streams with little unterminated data leave the read buffer as it is. */
  lemma {:induction false} FitsReadRoom(s: string, arrivals: seq<Arrival>, max: nat)
    requires |s| + 1 < max && max >= RSIZE && NoCrlf(s) && Fits(s + Bytes(arrivals), SPAN)
    ensures ReadRoom(s, arrivals, Room(max, false)) == Room(max, false)
    decreases |Bytes(arrivals)|
  {
    var (b, rest) := AfterRecv(arrivals, max - |s| - 1);
    var t := Bytes(rest);
    ReadRoomOnce(s, arrivals, Room(max, false), b, rest);
    RecvKeepsBytes(arrivals, max - |s| - 1, b, rest);
    if b != "" && NoCrlf(s + b) {
      ReadFits(s, b, t, Bytes(arrivals), max);
      FitsReadRoom(s + b, rest, max);
    }
  }

  lemma ReadFits(s: string, b: string, t: string, u: string, max: nat)
    requires b + t == u && b != "" && Fits(s + u, SPAN) && NoCrlf(s + b) && max >= RSIZE
    ensures Fits(s + b + t, SPAN) && |t| < |u| && |s + b| + 1 < max && Turned(|s + b|, max) == Room(max, false)
  {
    Associates(s, b, t);
    UnterminatedFits(s + b, t, SPAN);
  }

  lemma FitsRoom(s: string, arrivals: seq<Arrival>, max: nat)
    requires |s| + 1 < max && max >= RSIZE
    ensures Fits(s + Bytes(arrivals), SPAN) ==> RoomAfter(s, arrivals, max) == Room(max, false)
  {
    FirstCrlfFinds(s);
    if FirstCrlf(s) == |s| && Fits(s + Bytes(arrivals), SPAN) {
      FitsReadRoom(s, arrivals, max);
    }
  }

  lemma FitsTaken(was: string, l: string, now: string)
    requires Heads(was, l, now) && NoCrlf(l)
    ensures Fits(was, SPAN) ==> |l| + 1 <= SPAN && Fits(now, SPAN)
  {
    HeadsIs(was, l, now);
    LineFirst(was, l, now);
  }

  lemma RoomAfterIs(s: string, arrivals: seq<Arrival>, max: nat)
    requires |s| + 1 < max && max >= RSIZE
    ensures RoomAfter(s, arrivals, max) ==
            if NoCrlf(s) then ReadRoom(s, arrivals, Room(max, false)) else Room(max, false)
  {
    FirstCrlfFinds(s);
  }

  /** A stretch without CRLF that leaves less than the margin makes the buffer grow; nothing more comes, so no NUL. */
  lemma StretchGrows(s: string)
    requires NoCrlf(s) && 1792 < |s| < 2048
    ensures RoomAfter("", [Segment(s), WouldBlock], RSIZE) == Room(4096, true)
  {
    var arrivals := [Segment(s), WouldBlock];
    FirstCrlfIs(s, |s|);
    assert "" + s == s;
    assert AfterRecv(arrivals, RSIZE - 1) == (s, [WouldBlock]);
    assert ReadRoom(s, [WouldBlock], Room(2 * RSIZE, true)) == Room(2 * RSIZE, true);
  }

  // ---- the client loop ----

  /** Taking `lines` off the stream `whole` leaves `now`. */
  ghost predicate Taken(lines: seq<string>, now: string, whole: string) {
    && Join(lines) + now == whole && lines + Lines(now) == Lines(whole)
    && forall l :: l in lines ==> NoCrlf(l)
  }

  lemma NothingTaken(whole: string)
    ensures Taken([], whole, whole)
  {
    assert Join([]) + whole == whole && [] + Lines(whole) == Lines(whole);
  }

  lemma TakenOneMore(lines: seq<string>, l: string, now: string, was: string, whole: string)
    requires Heads(was, l, now) && NoCrlf(l) && Taken(lines, was, whole)
    ensures Taken(lines + [l], now, whole) && |now| < |was|
  {
    HeadsIs(was, l, now);
    LineFirst(was, l, now);
    Associates(lines, [l], Lines(now));
    JoinTaken(lines, l, now);
    assert forall x :: x in lines + [l] ==> x in lines || x == l;
  }

  lemma StreamDivides(buffer: string, arrivals: seq<Arrival>)
    ensures buffer + BytesAhead(arrivals) + Bytes(HaltOf(arrivals).beyond) == buffer + Bytes(arrivals)
  {
    HaltDivides(arrivals);
    Associates(buffer, BytesAhead(arrivals), Bytes(HaltOf(arrivals).beyond));
  }

  /** When no complete line is left before `t`, the lines taken are those of what came before `t`. */
  lemma AllTaken(lines: seq<string>, buffer: string, t: string, s: string)
    requires Taken(lines, buffer + t, s + t) && NoCrlf(buffer)
    ensures lines == Lines(s) && buffer == Rest(s)
  {
    Associates(Join(lines), buffer, t);
    SameFront(Join(lines) + buffer, s, t);
    SplitOfJoin(lines, buffer);
    RestIsWhole(buffer);
  }

  lemma SameFront(a: string, b: string, t: string)
    requires a + t == b + t
    ensures a == b
  {
    assert |a| == |b| && (a + t)[..|a|] == a && (b + t)[..|b|] == b;
  }

  // ---- the stream ----

  class SocketStream {
    var gbuf: array<char>
    var gpos: nat
    var gsize: nat
    var rbuf: array<char>
    var rsize: nat
    ghost var Buffer: string              // the bytes in the read buffer

    const junk: nat -> char               // what fresh memory holds
    var arrivals: seq<Arrival>            // what the network will hand over
    var lastError: Arrival                // GetLastError() after recv() returned no data

    ghost var received: string            // all bytes read so far
    ghost var delivered: seq<string>      // all lines handed out so far

    ghost predicate Buffered()
      reads this, rbuf
    {
      |Buffer| == rsize < rbuf.Length && rbuf[..rsize] == Buffer
    }

    /** The account is exact, and nothing that is still to come overruns the get buffer. */
    ghost predicate Sound()
      reads this, rbuf
    {
      && Buffered() && rbuf != gbuf && RSIZE <= rbuf.Length && GSIZE <= gbuf.Length
      && Account(received, delivered, Buffer, Bytes(arrivals), gbuf.Length)
    }

    ghost predicate Terminated()
      reads this, rbuf
    {
      Sound() && rbuf[rsize] == NUL
    }

    /** Fit for receive(): the next read asks for at least one byte. */
    ghost predicate Valid()
      reads this, rbuf
    {
      Terminated() && rsize + 1 < rbuf.Length
    }

    /** All that is still to be handed out. */
    ghost function Stream(): string
      reads this
    {
      Buffer + Bytes(arrivals)
    }

    constructor (script: seq<Arrival>, junk: nat -> char)
      requires NulFree(Bytes(script)) && Holds(Bytes(script), GSIZE)
      ensures Valid() && arrivals == script && received == "" && delivered == [] && Buffer == "" && this.junk == junk
      ensures rbuf.Length == 2048 && gbuf.Length == 2048 && fresh(rbuf) && fresh(gbuf)
    {
      this.junk := junk;
      gbuf := new char[GSIZE](i => junk(i));
      gpos := 0;
      gsize := 0;
      rbuf := new char[RSIZE](i => junk(i));
      rsize := 0;
      arrivals := script;
      lastError := WouldBlock;
      Buffer, received, delivered := "", "", [];
      new;
      rbuf[0] := NUL;
      assert "" + Bytes(script) == Bytes(script);
    }

    /** strstr(m_rbuf, CRLF): the scan stops at the terminating NUL. */
    method StrStr() returns (e: nat)
      requires Terminated()
      ensures e == FirstCrlf(Buffer)
    {
      e := 0;
      while rbuf[e] != NUL
        invariant e <= rsize
        invariant forall j :: 0 <= j < e ==> !CrlfAt(Buffer, j)
        invariant e < rsize ==> Buffer[e] == rbuf[e] && Buffer[e] != NUL
        decreases rsize - e
      {
        if rbuf[e] == '\r' && rbuf[e + 1] == '\n' {
          assert e + 1 < rsize;
          assert CrlfAt(Buffer, e);
          FirstCrlfIs(Buffer, e);
          return;
        }
        e := e + 1;
      }
      FirstCrlfIs(Buffer, e);
    }

    /** A get buffer of twice the size; what the old one held has been read. */
    method GrowGBuf()
      modifies this`gbuf
      ensures fresh(gbuf) && gbuf.Length == 2 * old(gbuf.Length)
    {
      gbuf := new char[2 * gbuf.Length](i => junk(i));
    }

    /** A read buffer of twice the size with the same bytes, but without the NUL behind them. */
    method GrowRBuf()
      requires Buffered()
      modifies this`rbuf
      ensures Buffered() && fresh(rbuf) && rbuf.Length == 2 * old(rbuf.Length) && rbuf[rsize] == junk(rsize)
    {
      var newbuf := new char[2 * rbuf.Length](i => junk(i));
      forall i | 0 <= i < rsize {
        newbuf[i] := rbuf[i];
      }
      rbuf := newbuf;
    }

    /**
     * Grows the get buffer if need be; memcpy of the p bytes before the CRLF into it, memmove of what
     * follows it to the front of the read buffer.
     */
    method MoveLine(p: nat)
      requires Buffered() && rbuf != gbuf && p + 2 <= rsize && p + 2 <= Grown(gbuf.Length, p)
      modifies this`gbuf, this`gpos, this`gsize, this`rsize, this`Buffer, gbuf, rbuf
      ensures Buffered() && Buffer == old(Buffer)[p + 2..] && rbuf[rsize] == NUL
      ensures gbuf.Length == Grown(old(gbuf.Length), p)
      ensures if p + 2 >= old(gbuf.Length) then fresh(gbuf) else gbuf == old(gbuf)
      ensures gpos == 0 && gsize == p + 1
      ensures gbuf[..p] == old(Buffer)[..p] && gbuf[p] == '\n' && gbuf[p + 1] == NUL
    {
      if p + 2 >= gbuf.Length {
        GrowGBuf();
      }
      forall i | 0 <= i < p {
        gbuf[i] := rbuf[i];
      }
      gbuf[p] := '\n';
      gbuf[p + 1] := NUL;
      gpos := 0;
      gsize := p + 1;
      assert gbuf[..p] == Buffer[..p];

      rsize := rsize - (gsize + 1);
      forall i | 0 <= i < rsize {
        rbuf[i] := rbuf[i + p + 2];
      }
      rbuf[rsize] := NUL;
      Buffer := Buffer[p + 2..];
    }

    /** A line of `len - 1` bytes was handed out, followed by a newline and a NUL. */
    ghost predicate DeliveredOne(before: seq<string>, len: nat, was: string, now: string)
      reads this, gbuf
    {
      && 0 < len < gbuf.Length && gpos == 0 && gsize == len
      && NoCrlf(gbuf[..len - 1]) && gbuf[len - 1] == '\n' && gbuf[len] == NUL
      && Heads(was, gbuf[..len - 1], now)
      && delivered == before + [gbuf[..len - 1]]
    }

    /** Hands out the line of p bytes that the read buffer begins with. */
    method HandOut(p: nat)
      requires Sound() && p == FirstCrlf(Buffer) < rsize
      modifies this`gbuf, this`gpos, this`gsize, this`rsize, this`Buffer, this`delivered, gbuf, rbuf
      ensures Valid() && (if p + 2 >= old(gbuf.Length) then fresh(gbuf) else gbuf == old(gbuf))
      ensures gsize == p + 1 && DeliveredOne(old(delivered), gsize, old(Buffer), Buffer)
    {
      TakeLine(received, delivered, Buffer, Bytes(arrivals), gbuf.Length, p);
      delivered := delivered + [Buffer[..p]];
      MoveLine(p);
    }

    /** Moves the first complete line, if there is one, from the read buffer to the get buffer. */
    method FillGBuf() returns (len: nat)
      requires Terminated()
      modifies this`gbuf, this`gpos, this`gsize, this`rsize, this`Buffer, this`delivered, gbuf, rbuf
      ensures Terminated() && (if len + 1 >= old(gbuf.Length) then fresh(gbuf) else gbuf == old(gbuf))
      ensures len == 0 <==> NoCrlf(old(Buffer))
      ensures len == 0 ==> unchanged(this) && unchanged(gbuf) && unchanged(rbuf)
      ensures len > 0 ==> Valid() && DeliveredOne(old(delivered), len, old(Buffer), Buffer)
    {
      var p := StrStr();
      FirstCrlfFinds(Buffer);
      if p == rsize {
        return 0;
      }
      assert CrlfAt(Buffer, p);
      HandOut(p);
      len := gsize;
    }

    /** Socket::receive into the free part of the read buffer, which always has room; then the NUL. */
    method ReadBytes() returns (rcvd: nat, ghost b: string)
      requires Sound() && rsize + 1 < rbuf.Length
      modifies this`arrivals, this`lastError, this`rsize, this`Buffer, this`received, rbuf
      ensures Sound() && Stream() == old(Stream()) && rcvd == |b| < rbuf.Length - old(rsize)
      ensures Buffer == (if rcvd == 0 then old(Buffer) else old(Buffer) + b)
      ensures (b, arrivals) == AfterRecv(old(arrivals), rbuf.Length - old(rsize) - 1)
      ensures rbuf[rsize] == if rcvd > 0 then NUL else old(rbuf[rsize])
      ensures old(HaltOf(arrivals)) == if rcvd == 0 then Halt(lastError, arrivals) else HaltOf(arrivals)
    {
      ghost var s, was, max := Buffer, arrivals, rbuf.Length - rsize - 1;
      rcvd, b := Recv();
      ReadKeeps(received, delivered, s, was, gbuf.Length, b, arrivals, max);
      if rcvd > 0 {
        Terminate(rcvd, b);
      } else {
        assert s + b == s;
      }
    }

    /** The same, seen from the loop: how the read buffer goes on, and that there is less to come. */
    method ReadMore(ghost room: Room) returns (rcvd: nat)
      requires Sound() && rsize + 1 < rbuf.Length == room.max
      modifies this`arrivals, this`lastError, this`rsize, this`Buffer, this`received, rbuf
      ensures Sound() && Stream() == old(Stream()) && rcvd < rbuf.Length - old(rsize)
      ensures if rcvd == 0 then Buffer == old(Buffer) else |Bytes(arrivals)| < old(|Bytes(arrivals)|)
      ensures rbuf[rsize] == if rcvd > 0 then NUL else old(rbuf[rsize])
      ensures old(HaltOf(arrivals)) == if rcvd == 0 then Halt(lastError, arrivals) else HaltOf(arrivals)
      ensures ReadRoom(old(Buffer), old(arrivals), room) ==
              if rcvd == 0 then room
              else if !NoCrlf(Buffer) then Room(room.max, false)
              else ReadRoom(Buffer, arrivals, Turned(rsize, room.max))
    {
      ghost var s, was := Buffer, arrivals;
      ghost var b;
      rcvd, b := ReadBytes();
      ReadRoomOnce(s, was, room, b, arrivals);
      RecvKeepsBytes(was, room.max - |s| - 1, b, arrivals);
    }

    /** m_rsize += rcvd, and the NUL behind the bytes that were read. */
    method Terminate(rcvd: nat, ghost b: string)
      requires rcvd == |b| && |Buffer| == rsize && rsize + rcvd < rbuf.Length && rbuf[..rsize + rcvd] == Buffer + b
      modifies this`rsize, this`Buffer, this`received, rbuf
      ensures Buffered() && Buffer == old(Buffer) + b && received == old(received) + b && rbuf[rsize] == NUL
    {
      rsize := rsize + rcvd;
      rbuf[rsize] := NUL;
      Buffer, received := Buffer + b, received + b;
    }

    /** recv(m_rbuf + m_rsize, m_rmax - m_rsize - 1). */
    method Recv() returns (rcvd: nat, ghost b: string)
      requires Buffered() && rsize + 1 < rbuf.Length
      modifies this`arrivals, this`lastError, rbuf
      ensures (b, arrivals) == AfterRecv(old(arrivals), rbuf.Length - rsize - 1)
      ensures rcvd == |b| && rsize + rcvd < rbuf.Length && rbuf[..rsize + rcvd] == Buffer + b
      ensures rcvd == 0 ==> unchanged(rbuf)
      ensures old(HaltOf(arrivals)) == if rcvd == 0 then Halt(lastError, arrivals) else HaltOf(arrivals)
    {
      var (bytes, rest) := AfterRecv(arrivals, rbuf.Length - rsize - 1);
      RecvHalts(arrivals, rbuf.Length - rsize - 1, bytes, rest);
      rcvd, b := |bytes|, bytes;
      if rcvd == 0 {
        lastError := StopsFor(arrivals);
      }
      arrivals := rest;
      Copy(bytes);
    }

    method Copy(bytes: string)
      requires rsize + |bytes| <= rbuf.Length
      modifies rbuf
      ensures rbuf[..rsize + |bytes|] == old(rbuf[..rsize]) + bytes && (bytes == "" ==> unchanged(rbuf))
    {
      forall i | 0 <= i < |bytes| {
        rbuf[rsize + i] := bytes[i];
      }
      Slices(rbuf[..], rsize, rsize + |bytes|);
      assert rbuf[..][rsize..rsize + |bytes|] == bytes;
    }

    /** The read buffer is as `room` says, with space for at least one byte. */
    ghost predicate Roomy(room: Room)
      reads this, rbuf
    {
      Sound() && rsize + 1 < rbuf.Length == room.max && rbuf[rsize] == if room.bare then junk(rsize) else NUL
    }

    /**
     * What receive() does after a read: hands out a line if one is complete, or sees to the room left.
     * The read buffer grows exactly when less than the margin is left.
     */
    method Sift() returns (len: nat)
      requires Terminated()
      modifies this`gbuf, this`gpos, this`gsize, this`rbuf, this`rsize, this`Buffer, this`delivered, gbuf, rbuf
      ensures if len + 1 >= old(gbuf.Length) then fresh(gbuf) else gbuf == old(gbuf)
      ensures len > 0 <==> !NoCrlf(old(Buffer))
      ensures len > 0 ==> Valid() && rbuf == old(rbuf) && DeliveredOne(old(delivered), len, old(Stream()), Stream())
      ensures len == 0 ==> Buffer == old(Buffer) && delivered == old(delivered)
      ensures len == 0 ==> Roomy(Turned(rsize, old(rbuf.Length)))
      ensures len == 0 ==> if old(rbuf.Length) - rsize < RMIN then fresh(rbuf) else rbuf == old(rbuf)
    {
      len := FillGBuf();
      if len > 0 {
        HeadsAppend(old(Buffer), gbuf[..len - 1], Buffer, Bytes(arrivals));
        return;
      }
      if rbuf.Length - rsize < RMIN {
        GrowRBuf();
      }
    }

    /** One turn of the loop of receive(), which goes on while `more`. */
    method Turn(ghost room: Room) returns (len: int, more: bool)
      requires Roomy(room) && NoCrlf(Buffer)
      modifies this, gbuf, rbuf
      ensures len >= -1 && (len > 0 ==> !more) && (more ==> len == 0)
      ensures len <= 0 && !more ==> len == if lastError == WouldBlock then 0 else -1
      ensures old(HaltOf(arrivals)) == if len <= 0 && !more then Halt(lastError, arrivals) else HaltOf(arrivals)
      ensures if len + 1 >= old(gbuf.Length) then fresh(gbuf) else gbuf == old(gbuf)
      ensures if more && room.max - rsize < RMIN then fresh(rbuf) else rbuf == old(rbuf)
      ensures len > 0 ==> Valid() && DeliveredOne(old(delivered), len, old(Stream()), Stream())
      ensures len <= 0 ==> Roomy(if more then Turned(rsize, room.max) else room) && NoCrlf(Buffer)
      ensures len <= 0 ==> delivered == old(delivered) && Stream() == old(Stream())
      ensures ReadRoom(old(Buffer), old(arrivals), room) ==
              if len > 0 then Room(room.max, false)
              else if more then ReadRoom(Buffer, arrivals, Turned(rsize, room.max))
              else room
      ensures more ==> |Bytes(arrivals)| < old(|Bytes(arrivals)|)
    {
      var rcvd := ReadMore(room);
      more := rcvd > 0;
      if more {
        len := Sift();
        more := len == 0;
      } else {
        len := if lastError == WouldBlock then 0 else -1;
      }
    }

    /** The loop of receive(), from a buffer without a complete line. */
    method ReadLine() returns (len: int)
      requires Valid() && NoCrlf(Buffer)
      modifies this, gbuf, rbuf
      ensures Sound() && len >= -1
      ensures if len + 1 >= old(gbuf.Length) then fresh(gbuf) else gbuf == old(gbuf)
      ensures var room := ReadRoom(old(Buffer), old(arrivals), Room(old(rbuf.Length), false));
              && rbuf.Length == room.max && (Valid() <==> !room.bare || junk(rsize) == NUL)
              && (if room.max == old(rbuf.Length) then rbuf == old(rbuf) && !room.bare else fresh(rbuf))
              && (len > 0 ==> !room.bare)
      ensures len > 0 ==> DeliveredOne(old(delivered), len, old(Stream()), Stream())
      ensures len <= 0 ==> delivered == old(delivered) && Stream() == old(Stream()) && NoCrlf(Buffer)
      ensures len <= 0 ==> len == if lastError == WouldBlock then 0 else -1
      ensures old(HaltOf(arrivals)) == if len <= 0 then Halt(lastError, arrivals) else HaltOf(arrivals)
    {
      ghost var room := Room(rbuf.Length, false);
      var more := true;
      while true
        invariant Roomy(room) && gbuf == old(gbuf) && NoCrlf(Buffer)
        invariant ReadRoom(Buffer, arrivals, room) ==
                  ReadRoom(old(Buffer), old(arrivals), Room(old(rbuf.Length), false))
        invariant if room.max == old(rbuf.Length) then rbuf == old(rbuf) && !room.bare
                  else fresh(rbuf) && room.max > old(rbuf.Length)
        invariant delivered == old(delivered) && Stream() == old(Stream())
        invariant HaltOf(arrivals) == old(HaltOf(arrivals))
        decreases |Bytes(arrivals)|
      {
        len, more := Turn(room);
        if !more {
          return;
        }
        room := Turned(rsize, room.max);
      }
    }

    /** The code of receive(). */
    method Deliver() returns (len: int)
      requires Valid()
      modifies this, gbuf, rbuf
      ensures Sound() && len >= -1
      ensures if len + 1 >= old(gbuf.Length) then fresh(gbuf) else gbuf == old(gbuf)
      ensures var room := RoomAfter(old(Buffer), old(arrivals), old(rbuf.Length));
              && rbuf.Length == room.max && (Valid() <==> !room.bare || junk(rsize) == NUL)
              && (if room.max == old(rbuf.Length) then rbuf == old(rbuf) && !room.bare else fresh(rbuf))
              && (len > 0 ==> !room.bare)
      ensures len > 0 ==> DeliveredOne(old(delivered), len, old(Stream()), Stream())
      ensures len <= 0 ==> delivered == old(delivered) && Stream() == old(Stream()) && NoCrlf(Buffer)
      ensures len <= 0 ==> len == if lastError == WouldBlock then 0 else -1
      ensures old(HaltOf(arrivals)) == if len <= 0 then Halt(lastError, arrivals) else HaltOf(arrivals)
    {
      RoomAfterIs(Buffer, arrivals, rbuf.Length);
      len := FillGBuf();
      if len > 0 {
        HeadsAppend(old(Buffer), gbuf[..len - 1], Buffer, Bytes(arrivals));
      } else {
        len := ReadLine();
      }
    }

    /**
     * receive(): hands out the next line of the stream, however it is chunked; or, when the network
     * has nothing more for now (0) or failed (-1), hands out nothing and keeps the unterminated rest.
     * The read buffer grows exactly as RoomAfter says. The object is fit for another call unless the
     * buffer has grown since the last read and fresh memory holds no NUL where one is needed.
     * Streams with little unterminated data never make it grow.
     */
    method Receive() returns (len: int)
      requires Valid()
      modifies this, gbuf, rbuf
      ensures Sound() && len >= -1
      ensures if len + 1 >= old(gbuf.Length) then fresh(gbuf) else gbuf == old(gbuf)
      ensures var room := RoomAfter(old(Buffer), old(arrivals), old(rbuf.Length));
              && rbuf.Length == room.max && (Valid() <==> !room.bare || junk(rsize) == NUL)
              && (if room.max == old(rbuf.Length) then rbuf == old(rbuf) && !room.bare else fresh(rbuf))
              && (len > 0 ==> !room.bare)
      ensures len > 0 ==> DeliveredOne(old(delivered), len, old(Stream()), Stream())
      ensures len <= 0 ==> delivered == old(delivered) && Stream() == old(Stream()) && NoCrlf(Buffer)
      ensures len <= 0 ==> len == if lastError == WouldBlock then 0 else -1
      ensures old(HaltOf(arrivals)) == if len <= 0 then Halt(lastError, arrivals) else HaltOf(arrivals)
      ensures old(Fits(Stream(), SPAN)) ==> Fits(Stream(), SPAN) && Valid() && gbuf == old(gbuf) && rbuf == old(rbuf)
    {
      ghost var was := Stream();
      FitsRoom(Buffer, arrivals, rbuf.Length);
      len := Deliver();
      if len > 0 {
        FitsTaken(was, gbuf[..len - 1], Stream());
      }
    }

    /** One receive() of the client loop, after `lines` have been taken off the stream `whole`. */
    method PollOnce(ghost lines: seq<string>, ghost whole: string, ghost ahead: string) returns (rc: int)
      requires Valid() && Taken(lines, Stream(), whole) && whole == ahead + Bytes(HaltOf(arrivals).beyond)
      modifies this, gbuf, rbuf
      ensures Sound() && (gbuf == old(gbuf) || fresh(gbuf)) && (rbuf == old(rbuf) || fresh(rbuf))
      ensures rc > 0 || rbuf == old(rbuf) ==> Valid()
      ensures old(Fits(Stream(), SPAN)) ==> Fits(Stream(), SPAN) && Valid() && gbuf == old(gbuf) && rbuf == old(rbuf)
      ensures rc > 0 ==> rc <= gbuf.Length && delivered == old(delivered) + [gbuf[..rc - 1]]
      ensures rc > 0 ==> Taken(lines + [gbuf[..rc - 1]], Stream(), whole) && |Stream()| < old(|Stream()|)
      ensures rc <= 0 ==> delivered == old(delivered) && Stream() == old(Stream())
      ensures rc <= 0 ==> rc == if lastError == WouldBlock then 0 else -1
      ensures rc <= 0 ==> delivered == Lines(received) && Buffer == Rest(received)
      ensures rc <= 0 ==> lines == Lines(ahead) && Buffer == Rest(ahead)
      ensures old(HaltOf(arrivals)) == if rc <= 0 then Halt(lastError, arrivals) else HaltOf(arrivals)
    {
      ghost var was := Stream();
      rc := Receive();
      if rc > 0 {
        TakenOneMore(lines, gbuf[..rc - 1], Stream(), was, whole);
      } else {
        Settled(received, delivered, Buffer);
        AllTaken(lines, Buffer, Bytes(arrivals), ahead);
      }
    }

    /**
     * The client loop: receive() until it hands out nothing, or until data() stops at line number
     * `stopAt`. What has been handed out then is the canonical split of all bytes read; and when it
     * was not data() that stopped the loop, of the buffer and all bytes up to the first arrival that
     * is not data, however they were segmented. The connection is reported lost (-1) exactly when
     * that arrival is a failure or end-of-stream.
     */
    method Poll(stopAt: nat) returns (rc: int, exit: bool, lines: seq<string>)
      requires Valid()
      modifies this, gbuf, rbuf
      ensures Sound() && (gbuf == old(gbuf) || fresh(gbuf)) && (rbuf == old(rbuf) || fresh(rbuf))
      ensures exit || rbuf == old(rbuf) ==> Valid()
      ensures old(Fits(Stream(), SPAN)) ==> Fits(Stream(), SPAN) && Valid() && gbuf == old(gbuf) && rbuf == old(rbuf)
      ensures delivered == old(delivered) + lines
      ensures exit ==> |lines| == stopAt + 1 && HaltOf(arrivals) == old(HaltOf(arrivals))
      ensures !exit ==> rc <= 0 && |lines| <= stopAt && arrivals == old(HaltOf(arrivals)).beyond
      ensures !exit ==> (rc == if old(HaltOf(arrivals)).reason == WouldBlock then 0 else -1)
      ensures !exit ==> delivered == Lines(received) && Buffer == Rest(received)
      ensures Taken(lines, Stream(), old(Stream()))
      ensures !exit ==> var s := old(Buffer + BytesAhead(arrivals)); lines == Lines(s) && Buffer == Rest(s)
    {
      exit := false;
      lines := [];
      ghost var ahead, halt, before, whole := Buffer + BytesAhead(arrivals), HaltOf(arrivals), delivered, Stream();
      StreamDivides(Buffer, arrivals);
      NothingTaken(whole);
      while true
        invariant Valid() && (gbuf == old(gbuf) || fresh(gbuf)) && (rbuf == old(rbuf) || fresh(rbuf))
        invariant Fits(whole, SPAN) ==> Fits(Stream(), SPAN) && gbuf == old(gbuf) && rbuf == old(rbuf)
        invariant delivered == before + lines && |lines| <= stopAt
        invariant Taken(lines, Stream(), whole) && HaltOf(arrivals) == halt
        decreases |Stream()|
      {
        rc := PollOnce(lines, whole, ahead);
        if rc <= 0 {
          return;
        }
        Associates(before, lines, [gbuf[..rc - 1]]);
        lines := lines + [gbuf[..rc - 1]];
        if |lines| == stopAt + 1 {
          exit := true;
          return;
        }
      }
    }
  }

  /** A first stretch of 1793 bytes or more without CRLF: the buffer grows, and a second call would find no NUL. */
  method GrownWithoutNul(s: string, junk: nat -> char) returns (stream: SocketStream, len: int)
    requires NulFree(s) && NoCrlf(s) && 1792 < |s| < 2048 && forall i :: junk(i) != NUL
    ensures len == 0 && stream.Sound() && stream.Stream() == s && stream.rbuf.Length == 4096 && !stream.Valid()
  {
    var script := [Segment(s), WouldBlock];
    assert Bytes(script) == s by {
      assert Bytes([WouldBlock]) == "";
    }
    FirstCrlfIs(s, |s|);
    stream := new SocketStream(script, junk);
    StretchGrows(s);
    len := stream.Receive();
  }

  /** At any time the lines handed out are the first lines of what was read; with none waiting, all of them. */
  lemma Settled(received: string, delivered: seq<string>, buffer: string)
    requires received == Join(delivered) + buffer && forall l :: l in delivered ==> NoCrlf(l)
    ensures Lines(received) == delivered + Lines(buffer) && Rest(received) == Rest(buffer)
    ensures NoCrlf(buffer) ==> delivered == Lines(received) && buffer == Rest(received)
  {
    SplitOfJoin(delivered, buffer);
    if NoCrlf(buffer) {
      RestIsWhole(buffer);
    }
  }

  /** Two connections that have read the same bytes, in whatever chunks, and have nothing to hand out, agree. */
  lemma ChunkingDoesNotMatter(a: SocketStream, b: SocketStream)
    requires a.Sound() && b.Sound() && a.received == b.received && NoCrlf(a.Buffer) && NoCrlf(b.Buffer)
    ensures a.delivered == b.delivered && a.Buffer == b.Buffer
  {
    Settled(a.received, a.delivered, a.Buffer);
    Settled(b.received, b.delivered, b.Buffer);
  }
}
