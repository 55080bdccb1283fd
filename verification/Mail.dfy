/** The mailbox file format of actor/mail.py: one line a message, newest first. */
module Mail {
  import opened Common

  /** Times are seconds since the epoch; None is Python's None. */
  datatype Message = Message(to: string, sender: Option<string>, sent: int, read: Option<int>)

  // ---- Python's %d and int() ----

  function Digits(n: nat): (s: string)
    ensures s != "" && AllDigits(s)
  {
    if n < 10 then [Digit(n)] else Digits(n / 10) + [Digit(n % 10)]
  }

  function Decimal(n: int): string {
    if n < 0 then ['-'] + Digits(-n) else Digits(n)
  }

  function NatOf(s: string): nat
    requires AllDigits(s)
  {
    if s == "" then 0 else NatOf(s[..|s| - 1]) * 10 + Value(s[|s| - 1])
  }

  predicate Signed(s: string) {
    s != "" && (s[0] == '-' || s[0] == '+')
  }

  function IntOf(token: string): Option<int> {
    var s := Strip(token);
    var body := if Signed(s) then s[1..] else s;
    if body == "" || !AllDigits(body) then None
    else
      var n: int := NatOf(body);
      Some(if s[0] == '-' then -n else n)
  }

  lemma {:induction false} DigitsRead(n: nat)
    ensures NatOf(Digits(n)) == n
  {
    if n >= 10 {
      DigitsRead(n / 10);
      var s := Digits(n);
      assert s[..|s| - 1] == Digits(n / 10);
    } else {
      assert Digits(n)[..0] == "";
    }
  }

  lemma DecimalReads(n: int)
    ensures IntOf(Decimal(n)) == Some(n)
  {
    var s := Decimal(n);
    if n < 0 {
      var d := Digits(-n);
      assert s[1..] == d && IsDigit(d[|d| - 1]) && s[|s| - 1] == d[|d| - 1];
      DigitsRead(-n);
    } else {
      assert IsDigit(s[0]) && IsDigit(s[|s| - 1]);
      DigitsRead(n);
    }
    StripKeeps(s);
  }

  // ---- Python's strip(), split(' ') and readline() ----

  predicate IsSpace(c: char) {
    c == ' ' || c == '\t' || c == '\n' || c == '\r' || c == 11 as char || c == 12 as char
  }

  function LStrip(s: string): string {
    if s != "" && IsSpace(s[0]) then LStrip(s[1..]) else s
  }

  function RStrip(s: string): string {
    if s != "" && IsSpace(s[|s| - 1]) then RStrip(s[..|s| - 1]) else s
  }

  function Strip(s: string): string {
    RStrip(LStrip(s))
  }

  lemma StripKeeps(s: string)
    requires s != "" && !IsSpace(s[0]) && !IsSpace(s[|s| - 1])
    ensures Strip(s) == s && Strip(s + ['\n']) == s
  {
    assert (s + ['\n'])[..|s|] == s;
  }

  lemma {:induction false} StripDrops(w: string, s: string, v: string)
    requires (forall i :: 0 <= i < |w| ==> IsSpace(w[i])) && (forall i :: 0 <= i < |v| ==> IsSpace(v[i]))
    requires s != "" && !IsSpace(s[0]) && !IsSpace(s[|s| - 1])
    ensures Strip(w + s + v) == s
    decreases |w| + |v|
  {
    var t := w + s + v;
    if w != "" {
      assert t[0] == w[0] && t[1..] == w[1..] + s + v;
      StripDrops(w[1..], s, v);
    } else if v != "" {
      var u := v[..|v| - 1];
      assert t[0] == s[0] && t[|t| - 1] == v[|v| - 1] && t[..|t| - 1] == w + s + u && (w + s + u)[0] == s[0];
      StripDrops(w, s, u);
    } else {
      assert t == s;
      StripKeeps(s);
    }
  }

  /** What strip() leaves is a piece of the line; it has a newline in it only if the line has one before its end. */
  lemma StripIsPiece(s: string)
    ensures var l := LStrip(s);
      && |l| <= |s| && l == s[|s| - |l|..] && Strip(s) <= l
      && (Strip(s) == "" || !IsSpace(Strip(s)[|Strip(s)| - 1]))
  {
    LStripTail(s);
    RStripHead(LStrip(s));
  }

  lemma {:induction false} LStripTail(s: string)
    ensures |LStrip(s)| <= |s| && LStrip(s) == s[|s| - |LStrip(s)|..]
  {
    if s != "" && IsSpace(s[0]) {
      LStripTail(s[1..]);
    }
  }

  lemma {:induction false} RStripHead(s: string)
    ensures RStrip(s) <= s
    ensures RStrip(s) == "" || !IsSpace(RStrip(s)[|RStrip(s)| - 1])
  {
    if s != "" && IsSpace(s[|s| - 1]) {
      RStripHead(s[..|s| - 1]);
    }
  }

  lemma StripEndsLine(s: string)
    requires forall i :: 0 <= i < |s| - 1 ==> s[i] != '\n'
    ensures '\n' !in Strip(s)
  {
    StripIsPiece(s);
    PieceOfLine(s, LStrip(s), Strip(s), |s| - |LStrip(s)|);
  }

  lemma PieceOfLine(s: string, l: string, t: string, k: nat)
    requires forall i :: 0 <= i < |s| - 1 ==> s[i] != '\n'
    requires k <= |s| && l == s[k..] && t <= l && (t == "" || !IsSpace(t[|t| - 1]))
    ensures '\n' !in t
  {
    forall i | 0 <= i < |t| ensures t[i] != '\n' {
      assert t[i] == s[k + i];
    }
  }

  /** The first place of c in s; |s| when there is none. */
  function Find(s: string, c: char): (i: nat)
    ensures i <= |s| && (i < |s| ==> s[i] == c) && forall j :: 0 <= j < i ==> s[j] != c
  {
    if s == "" || s[0] == c then 0 else Find(s[1..], c) + 1
  }

  lemma FindIs(s: string, a: string, c: char, b: string)
    requires s == a + [c] + b && c !in a
    ensures Find(s, c) == |a| && s[..|a|] == a && s[|a| + 1..] == b
  {
    assert s[|a|] == c;
    assert forall j :: 0 <= j < |a| ==> s[j] == a[j];
  }

  lemma FindNone(s: string, c: char)
    requires c !in s
    ensures Find(s, c) == |s|
  {
  }

  function Split(s: string): seq<string>
    decreases |s|
  {
    var i := Find(s, ' ');
    if i == |s| then [s] else [s[..i]] + Split(s[i + 1..])
  }

  lemma SplitTwo(s: string, a: string, b: string)
    requires s == a + [' '] + b && ' ' !in a
    ensures Split(s) == [a] + Split(b)
  {
    FindIs(s, a, ' ', b);
  }

  lemma SplitThree(s: string, a: string, b: string, c: string)
    requires s == a + [' '] + (b + [' '] + c) && ' ' !in a && ' ' !in b && ' ' !in c
    ensures Split(s) == [a, b, c]
  {
    var t := b + [' '] + c;
    SplitTwo(s, a, t);
    SplitTwo(t, b, c);
    FindNone(c, ' ');
    assert Split(c) == [c];
  }

  lemma {:induction false} SplitParts(s: string)
    ensures forall p, c :: p in Split(s) && c in p ==> c != ' ' && c in s
    decreases |s|
  {
    var i := Find(s, ' ');
    if i < |s| {
      SplitParts(s[i + 1..]);
    } else {
      assert s[..i] == s;
    }
  }

  /** readline(): the next line with its newline, and what is left of the file. */
  function ReadLine(s: string): (string, string) {
    var i := Find(s, '\n');
    if i == |s| then (s, "") else (s[..i + 1], s[i + 1..])
  }

  // ---- one message ----

  const NONE := "None"

  function Show(x: Option<string>): string {
    if x.Some? then x.value else NONE
  }

  function ShowTime(t: Option<int>): string {
    if t.Some? then Decimal(t.value) else NONE
  }

  /** '%d %s %s', without the newline. */
  function Record(m: Message): string {
    Decimal(m.sent) + [' '] + (Show(m.sender) + [' '] + ShowTime(m.read))
  }

  function Line(m: Message): string {
    Record(m) + ['\n']
  }

  /** Message.read on one line; None stands for the ValueError of unpacking or int(). */
  function Parse(line: string, to: string): Option<Message> {
    var f := Split(Strip(line));
    if |f| != 3 then None
    else
      var sent := IntOf(f[0]);
      var read := IntOf(f[2]);
      if sent.None? || (f[2] != NONE && read.None?) then None
      else
        Some(Message(to, if f[1] == NONE then None else Some(f[1]), sent.value, if f[2] == NONE then None else read))
  }

  predicate Sendable(sender: Option<string>) {
    sender.Some? ==> ' ' !in sender.value && '\n' !in sender.value && sender.value != NONE
  }

  /** A field that does not break up: not empty, and with no blank or newline in it. */
  ghost predicate Token(s: string) {
    s != "" && (forall i :: 0 <= i < |s| ==> !IsSpace(s[i]))
  }

  lemma TimeIsToken(t: Option<int>)
    ensures Token(ShowTime(t))
    ensures t.Some? ==> ShowTime(t) != NONE && IntOf(ShowTime(t)) == t
  {
    if t.Some? {
      DecimalReads(t.value);
      assert ShowTime(t)[0] != NONE[0];
    }
  }

  lemma RecordSplits(m: Message)
    requires Sendable(m.sender)
    ensures Split(Record(m)) == [Decimal(m.sent), Show(m.sender), ShowTime(m.read)]
  {
    var a, b, c := Decimal(m.sent), Show(m.sender), ShowTime(m.read);
    TimeIsToken(Some(m.sent));
    TimeIsToken(m.read);
    SplitThree(Record(m), a, b, c);
  }

  lemma RecordEnds(m: Message)
    ensures var s := Record(m); s != "" && !IsSpace(s[0]) && !IsSpace(s[|s| - 1])
  {
    var s, a, c := Record(m), Decimal(m.sent), ShowTime(m.read);
    TimeIsToken(Some(m.sent));
    TimeIsToken(m.read);
    assert s[0] == a[0] && s[|s| - 1] == c[|c| - 1];
  }

  lemma RecordHasNoNewline(m: Message)
    requires Sendable(m.sender)
    ensures '\n' !in Record(m)
  {
    TimeIsToken(Some(m.sent));
    TimeIsToken(m.read);
  }

  lemma RecordIsOneLine(m: Message)
    requires Sendable(m.sender)
    ensures '\n' !in Record(m) && Strip(Line(m)) == Record(m)
  {
    RecordHasNoNewline(m);
    RecordEnds(m);
    StripKeeps(Record(m));
  }

  lemma LineIsRead(line: string, record: string, rest: string)
    requires line == record + ['\n'] && '\n' !in record
    ensures ReadLine(line + rest) == (line, rest)
  {
    var s := line + rest;
    FindIs(s, record, '\n', rest);
    assert s[..|record| + 1] == line;
  }

  lemma LineReads(m: Message, rest: string)
    requires Sendable(m.sender)
    ensures ReadLine(Line(m) + rest) == (Line(m), rest)
    ensures Parse(Line(m), m.to) == Some(m)
  {
    RecordIsOneLine(m);
    LineIsRead(Line(m), Record(m), rest);
    RecordSplits(m);
    TimeIsToken(Some(m.sent));
    TimeIsToken(m.read);
  }

  lemma SomeDecimals()
    ensures Decimal(12) == "12" && Decimal(305) == "305" && Decimal(-7) == "-7"
  {
    assert Digits(1) == "1" && Digits(3) == "3" && Digits(30) == "30" && Digits(7) == "7";
  }

  lemma Spelled(m: Message, sent: string, sender: string, read: string)
    requires Decimal(m.sent) == sent && Show(m.sender) == sender && ShowTime(m.read) == read
    ensures Line(m) == sent + " " + sender + " " + read + "\n"
  {
  }

  /** What a line looks like, word for word. */
  lemma FirstLook(m: Message)
    requires m.sent == 12 && m.sender == Some("bob") && m.read == None
    ensures Line(m) == "12 bob None\n"
  {
    SomeDecimals();
    Spelled(m, "12", "bob", "None");
  }

  lemma SecondLook(m: Message)
    requires m.sent == -7 && m.sender == None && m.read == Some(305)
    ensures Line(m) == "-7 None 305\n"
  {
    SomeDecimals();
    Spelled(m, "-7", "None", "305");
  }

  /** What such lines read back as. */
  lemma LinesLookLike(line: string, m: Message)
    requires || (line == "12 bob None\n" && m.sent == 12 && m.sender == Some("bob") && m.read == None)
             || (line == "-7 None 305\n" && m.sent == -7 && m.sender == None && m.read == Some(305))
    ensures Line(m) == line && Parse(line, m.to) == Some(m)
  {
    if m.sent == 12 { FirstLook(m); } else { SecondLook(m); }
    assert Sendable(m.sender);
    LineReads(m, "");
  }

  lemma SameStrip(a: string, b: string, to: string)
    requires Strip(a) == Strip(b)
    ensures Parse(a, to) == Parse(b, to)
  {
  }

  /** Blanks before and behind a record are ignored. */
  lemma BlanksAround(m: Message, w: string, v: string)
    requires Sendable(m.sender)
    requires (forall i :: 0 <= i < |w| ==> IsSpace(w[i])) && (forall i :: 0 <= i < |v| ==> IsSpace(v[i]))
    ensures Parse(w + Record(m) + v, m.to) == Some(m)
  {
    RecordEnds(m);
    StripDrops(w, Record(m), v);
    RecordIsOneLine(m);
    LineReads(m, "");
    SameStrip(w + Record(m) + v, Line(m), m.to);
  }

  lemma {:induction false} SplitCounts(s: string)
    ensures |Split(s)| == multiset(s)[' '] + 1
    decreases |s|
  {
    var i := Find(s, ' ');
    if i < |s| {
      assert s == s[..i] + [' '] + s[i + 1..];
      SplitCounts(s[i + 1..]);
    }
  }

  /** A line with more or fewer than three fields, or two blanks in a row, is malformed. */
  lemma ThreeFields(line: string, to: string)
    requires Parse(line, to).Some?
    ensures multiset(Strip(line))[' '] == 2
  {
    SplitCounts(Strip(line));
  }

  /** No line reads back as a message with another kind of sender. */
  lemma ParsedIsSendable(line: string, to: string)
    requires forall i :: 0 <= i < |line| - 1 ==> line[i] != '\n'
    requires Parse(line, to).Some?
    ensures Sendable(Parse(line, to).value.sender) && Parse(line, to).value.to == to
  {
    StripEndsLine(line);
    SplitParts(Strip(line));
    assert Split(Strip(line))[1] in Split(Strip(line));
  }

  // ---- a mailbox file ----

  function File(ms: seq<Message>): string {
    if ms == [] then "" else Line(ms[0]) + File(ms[1..])
  }

  /** The messages read before the end of the file or the first malformed line, and whether there was none. */
  function Load(s: string, to: string): (seq<Message>, bool)
    decreases |s|
  {
    if s == "" then ([], true)
    else
      var (line, rest) := ReadLine(s);
      var m := Parse(line, to);
      if m.None? then ([], false)
      else
        var (ms, ok) := Load(rest, to);
        ([m.value] + ms, ok)
  }

  predicate Storable(m: Message, to: string) {
    m.to == to && Sendable(m.sender)
  }

  lemma {:induction false} LoadedIsStorable(s: string, to: string)
    ensures forall m :: m in Load(s, to).0 ==> Storable(m, to)
    decreases |s|
  {
    if s != "" {
      var (line, rest) := ReadLine(s);
      if Parse(line, to).Some? {
        var i := Find(s, '\n');
        forall j | 0 <= j < |line| - 1 ensures line[j] != '\n' {
          assert j < i;
        }
        ParsedIsSendable(line, to);
        LoadedIsStorable(rest, to);
      }
    }
  }

  lemma LoadOne(line: string, rest: string, m: Message, to: string)
    requires line != "" && ReadLine(line + rest) == (line, rest) && Parse(line, to) == Some(m)
    ensures Load(line + rest, to) == ([m] + Load(rest, to).0, Load(rest, to).1)
  {
  }

  lemma LoadLine(m: Message, rest: string, to: string)
    requires Storable(m, to)
    ensures Load(Line(m) + rest, to) == ([m] + Load(rest, to).0, Load(rest, to).1)
  {
    LineReads(m, rest);
    LoadOne(Line(m), rest, m, to);
  }

  lemma FirstAndRest(ms: seq<Message>)
    requires ms != []
    ensures ms == [ms[0]] + ms[1..]
  {
  }

  lemma FileFirst(ms: seq<Message>)
    requires ms != []
    ensures File(ms) == Line(ms[0]) + File(ms[1..])
  {
  }

  lemma {:induction false} FileLoads(ms: seq<Message>, to: string)
    requires forall m :: m in ms ==> Storable(m, to)
    ensures Load(File(ms), to) == (ms, true)
  {
    if ms != [] {
      var m, rest := ms[0], ms[1..];
      FileFirst(ms);
      FileLoads(rest, to);
      FirstAndRest(ms);
      LoadLine(m, File(rest), to);
    }
  }

  lemma FileThen(ms: seq<Message>, tail: string)
    requires ms != []
    ensures File(ms) + tail == Line(ms[0]) + (File(ms[1..]) + tail)
  {
    FileFirst(ms);
    Associates(Line(ms[0]), File(ms[1..]), tail);
  }

  lemma {:induction false} LoadsBehind(ms: seq<Message>, tail: string, to: string, s: string)
    requires (forall m :: m in ms ==> Storable(m, to)) && Load(tail, to) == ([], false) && s == File(ms) + tail
    ensures Load(s, to) == (ms, false)
  {
    if ms == [] {
      assert s == tail;
    } else {
      var more := File(ms[1..]) + tail;
      FileThen(ms, tail);
      LoadsBehind(ms[1..], tail, to, more);
      LoadLine(ms[0], more, to);
      FirstAndRest(ms);
    }
  }

  lemma BadLine(line: string, rest: string, to: string)
    requires line != "" && ReadLine(line + rest) == (line, rest) && Parse(line, to).None?
    ensures Load(line + rest, to) == ([], false)
  {
  }

  /** Reading stops at the first malformed line: the messages before it are kept, whatever follows. */
  lemma StopsAtMalformed(ms: seq<Message>, record: string, rest: string, to: string)
    requires forall m :: m in ms ==> Storable(m, to)
    requires '\n' !in record && Parse(record + ['\n'], to).None?
    ensures Load(File(ms) + (record + ['\n'] + rest), to) == (ms, false)
  {
    LineIsRead(record + ['\n'], record, rest);
    BadLine(record + ['\n'], rest, to);
    LoadsBehind(ms, record + ['\n'] + rest, to, File(ms) + (record + ['\n'] + rest));
  }

  /** Writing a mailbox and reading it back gives the same messages exactly when each sender can be stored. */
  lemma FileRoundTrip(ms: seq<Message>, to: string)
    ensures Load(File(ms), to) == (ms, true) <==> forall m :: m in ms ==> Storable(m, to)
  {
    LoadedIsStorable(File(ms), to);
    if forall m :: m in ms ==> Storable(m, to) {
      FileLoads(ms, to);
    }
  }

  // ---- the stable sort, newest first ----

  ghost predicate NewestFirst(ms: seq<Message>) {
    forall i, j :: 0 <= i < j < |ms| ==> ms[i].sent >= ms[j].sent
  }

  /** The messages sent at time t, in order. */
  function At(ms: seq<Message>, t: int): seq<Message> {
    if ms == [] then []
    else if ms[0].sent == t then [ms[0]] + At(ms[1..], t)
    else At(ms[1..], t)
  }

  function Insert(m: Message, ms: seq<Message>): seq<Message> {
    if ms == [] || m.sent >= ms[0].sent then [m] + ms else [ms[0]] + Insert(m, ms[1..])
  }

  /** list.sort() under Message.__cmp__. */
  function Sorted(ms: seq<Message>): seq<Message> {
    if ms == [] then [] else Insert(ms[0], Sorted(ms[1..]))
  }

  lemma {:induction false} InsertOrders(m: Message, ms: seq<Message>)
    requires NewestFirst(ms)
    ensures NewestFirst(Insert(m, ms))
    ensures forall x :: x in Insert(m, ms) <==> x == m || x in ms
  {
    if ms != [] && m.sent < ms[0].sent {
      var r := Insert(m, ms[1..]);
      InsertOrders(m, ms[1..]);
      forall i | 0 <= i < |r| ensures ms[0].sent >= r[i].sent {
        assert r[i] in r;
      }
    }
  }

  lemma AtCons(m: Message, ms: seq<Message>, t: int)
    ensures At([m] + ms, t) == if m.sent == t then [m] + At(ms, t) else At(ms, t)
  {
    assert ([m] + ms)[1..] == ms;
  }

  lemma {:induction false} InsertKeeps(m: Message, ms: seq<Message>, t: int)
    ensures At(Insert(m, ms), t) == At([m] + ms, t)
  {
    if ms != [] && m.sent < ms[0].sent {
      InsertKeeps(m, ms[1..], t);
      AtCons(m, ms, t);
      AtCons(m, ms[1..], t);
      AtCons(ms[0], Insert(m, ms[1..]), t);
    }
  }

  /** Sorting orders by time, and keeps the messages of each time, in the order they had. */
  lemma {:induction false} SortedIsStable(ms: seq<Message>)
    ensures NewestFirst(Sorted(ms))
    ensures forall t :: At(Sorted(ms), t) == At(ms, t)
    ensures forall m :: m in Sorted(ms) <==> m in ms
  {
    if ms != [] {
      var r := Sorted(ms[1..]);
      SortedIsStable(ms[1..]);
      InsertOrders(ms[0], r);
      forall t ensures At(Sorted(ms), t) == At(ms, t) {
        InsertKeeps(ms[0], r, t);
        AtCons(ms[0], r, t);
      }
    }
  }

  lemma {:induction false} AtHas(ms: seq<Message>, i: nat)
    requires i < |ms|
    ensures At(ms, ms[i].sent) != []
  {
    if i > 0 {
      AtHas(ms[1..], i - 1);
    }
  }

  lemma {:induction false} AtAbsent(ms: seq<Message>, t: int)
    requires forall i :: 0 <= i < |ms| ==> ms[i].sent != t
    ensures At(ms, t) == []
  {
    if ms != [] {
      AtAbsent(ms[1..], t);
    }
  }

  /** Any other stable sort gives the same list. */
  lemma {:induction false} StableSortIsUnique(a: seq<Message>, b: seq<Message>)
    requires NewestFirst(a) && NewestFirst(b) && forall t :: At(a, t) == At(b, t)
    ensures a == b
    decreases |a| + |b|
  {
    if a != [] && b != [] {
      HeadsAgree(a, b);
      forall t ensures At(a[1..], t) == At(b[1..], t) {
        assert At(a, t) == At(b, t);
        assert t == a[0].sent ==> ([a[0]] + At(a[1..], t))[1..] == At(a[1..], t);
        assert t == a[0].sent ==> ([b[0]] + At(b[1..], t))[1..] == At(b[1..], t);
      }
      StableSortIsUnique(a[1..], b[1..]);
      assert a == [a[0]] + a[1..] && b == [b[0]] + b[1..];
    } else if a != [] {
      AtHas(a, 0);
    } else if b != [] {
      AtHas(b, 0);
    }
  }

  lemma HeadsAgree(a: seq<Message>, b: seq<Message>)
    requires NewestFirst(a) && NewestFirst(b) && forall t :: At(a, t) == At(b, t)
    requires a != [] && b != []
    ensures a[0] == b[0]
  {
    AtHas(a, 0);
    AtHas(b, 0);
    if a[0].sent > b[0].sent {
      AtAbsent(b, a[0].sent);
    }
    if b[0].sent > a[0].sent {
      AtAbsent(a, b[0].sent);
    }
    assert At(a, a[0].sent)[0] == a[0];
    assert At(b, b[0].sent)[0] == b[0];
  }

  lemma SortedIsIdentity(ms: seq<Message>)
    requires NewestFirst(ms)
    ensures Sorted(ms) == ms
  {
    SortedIsStable(ms);
    StableSortIsUnique(Sorted(ms), ms);
  }

  lemma {:induction false} AtConcat(a: seq<Message>, b: seq<Message>, t: int)
    ensures At(a + b, t) == At(a, t) + At(b, t)
  {
    if a == [] {
      assert a + b == b;
    } else {
      AtConcat(a[1..], b, t);
      assert (a + b)[1..] == a[1..] + b && (a + b)[0] == a[0];
      AtHead(a[0], At(a[1..], t), At(b, t));
    }
  }

  lemma AtHead(m: Message, a: seq<Message>, b: seq<Message>)
    ensures [m] + (a + b) == [m] + a + b
  {
  }

  /** How many messages of a newest-first list are no older than t. */
  function NotOlder(ms: seq<Message>, t: int): (n: nat)
    ensures n <= |ms|
  {
    if ms == [] || ms[0].sent < t then 0 else NotOlder(ms[1..], t) + 1
  }

  lemma {:induction false} NotOlderSplits(ms: seq<Message>, t: int)
    requires NewestFirst(ms)
    ensures forall i :: 0 <= i < |ms| ==> (i < NotOlder(ms, t) <==> ms[i].sent >= t)
  {
    if ms != [] && ms[0].sent >= t {
      NotOlderSplits(ms[1..], t);
      forall i | 0 < i < |ms| ensures i < NotOlder(ms, t) <==> ms[i].sent >= t {
        assert ms[i] == ms[1..][i - 1];
      }
    }
  }

  /** `ms` with `m` behind all messages that are no older than it, and before the rest. */
  function Placed(ms: seq<Message>, m: Message): seq<Message> {
    var i := NotOlder(ms, m.sent);
    ms[..i] + [m] + ms[i..]
  }

  /** Appending and sorting puts the new message in its place. */
  lemma AddedAt(ms: seq<Message>, m: Message)
    requires NewestFirst(ms)
    ensures Sorted(ms + [m]) == Placed(ms, m)
  {
    var i := NotOlder(ms, m.sent);
    var a, b := ms[..i], ms[i..];
    Halves(ms, m.sent);
    AddedBetween(a, m, b);
    assert ms == a + b;
  }

  lemma Halves(ms: seq<Message>, t: int)
    requires NewestFirst(ms)
    ensures var i := NotOlder(ms, t);
      && NewestFirst(ms[..i] + ms[i..])
      && (forall k :: 0 <= k < i ==> ms[..i][k].sent >= t)
      && (forall k :: 0 <= k < |ms| - i ==> ms[i..][k].sent < t)
  {
    var i := NotOlder(ms, t);
    NotOlderSplits(ms, t);
    assert ms == ms[..i] + ms[i..];
    forall k | 0 <= k < |ms| - i ensures ms[i..][k].sent < t {
      assert ms[i..][k] == ms[i + k];
    }
  }

  lemma AddedBetween(a: seq<Message>, m: Message, b: seq<Message>)
    requires NewestFirst(a + b)
    requires forall i :: 0 <= i < |a| ==> a[i].sent >= m.sent
    requires forall i :: 0 <= i < |b| ==> b[i].sent < m.sent
    ensures Sorted(a + b + [m]) == a + [m] + b
  {
    var x, y := a + b + [m], a + [m] + b;
    forall t ensures At(x, t) == At(y, t) {
      AtMiddle(a, m, b, t);
    }
    MiddleOrdered(a, m, b);
    SortedIsStable(x);
    StableSortIsUnique(Sorted(x), y);
  }

  lemma MiddleOrdered(a: seq<Message>, m: Message, b: seq<Message>)
    requires NewestFirst(a + b)
    requires forall i :: 0 <= i < |a| ==> a[i].sent >= m.sent
    requires forall i :: 0 <= i < |b| ==> b[i].sent < m.sent
    ensures NewestFirst(a + [m] + b)
  {
    var r := a + [m] + b;
    forall i, j | 0 <= i < j < |r| ensures r[i].sent >= r[j].sent {
      if j < |a| {
        assert (a + b)[i].sent >= (a + b)[j].sent;
      } else if i > |a| {
        assert (a + b)[i - 1].sent >= (a + b)[j - 1].sent;
      }
    }
  }

  lemma AtMiddle(a: seq<Message>, m: Message, b: seq<Message>, t: int)
    requires forall i :: 0 <= i < |b| ==> b[i].sent != m.sent
    ensures At(a + b + [m], t) == At(a + [m] + b, t)
  {
    AtConcat(a + b, [m], t);
    AtConcat(a, b, t);
    AtConcat(a + [m], b, t);
    AtConcat(a, [m], t);
    AtAbsent(b, m.sent);
    assert At([m][1..], t) == [];
    assert t != m.sent ==> At([m], t) == [];
  }

  /** What read() makes of a file. */
  function Opened(s: string, to: string): Option<seq<Message>> {
    var (ms, ok) := Load(s, to);
    if ok then Some(Sorted(ms)) else None
  }

  /**
   * A newest-first mailbox that is written and read again is the same list exactly when each
   * message is for its owner, with a sender that is absent, or is free of blanks and newlines and
   * is not the word None.
   */
  lemma WriteThenRead(ms: seq<Message>, to: string)
    requires NewestFirst(ms)
    ensures Opened(File(ms), to) == Some(ms) <==> forall m :: m in ms ==> Storable(m, to)
  {
    var l := Load(File(ms), to).0;
    LoadedIsStorable(File(ms), to);
    SortedIsStable(l);
    if forall m :: m in ms ==> Storable(m, to) {
      FileLoads(ms, to);
      SortedIsIdentity(ms);
    }
  }

  /** A sender whose name is the word None is read back as absent. */
  lemma NoneIsLost(m: Message)
    requires m.sender == Some(NONE)
    ensures Parse(Line(m), m.to) == Some(m.(sender := None)) && Opened(File([m]), m.to) != Some([m])
  {
    var absent := m.(sender := None);
    assert Line(m) == Line(absent);
    LineReads(absent, "");
    assert m in [m];
    WriteThenRead([m], m.to);
  }

  // ---- the mailbox ----

  lemma {:induction false} FileAppend(ms: seq<Message>, m: Message)
    ensures File(ms + [m]) == File(ms) + Line(m)
  {
    var l := Line(m);
    if ms == [] {
      assert [m][1..] == [] && ms + [m] == [m];
      assert File([m]) == l;
    } else {
      var h, t := Line(ms[0]), File(ms[1..]);
      FileAppend(ms[1..], m);
      assert (ms + [m])[1..] == ms[1..] + [m];
      Associates(h, t, l);
    }
  }

  lemma FileNext(ms: seq<Message>, i: nat)
    requires i < |ms|
    ensures File(ms[..i + 1]) == File(ms[..i]) + Line(ms[i])
  {
    var a, m := ms[..i], ms[i];
    assert ms[..i + 1] == a + [m];
    FileAppend(a, m);
  }

  lemma Associates(a: string, b: string, c: string)
    ensures a + (b + c) == a + b + c
  {
  }

  class Mailbox {
    const to: string
    var messages: seq<Message>
    var vbox: Option<string>    // the file on disk; None when there is none

    constructor (to: string, vbox: Option<string>)
      ensures this.to == to && messages == [] && this.vbox == vbox
    {
      this.to := to;
      messages := [];
      this.vbox := vbox;
    }

    /** False stands for the ValueError of a malformed line, which leaves the messages before it unsorted. */
    method Read() returns (ok: bool)
      modifies this`messages
      ensures vbox.None? ==> ok && messages == old(messages)
      ensures vbox.Some? && ok ==> Opened(vbox.value, to) == Some(messages)
      ensures vbox.Some? && !ok ==> Opened(vbox.value, to) == None && messages == Load(vbox.value, to).0
    {
      if vbox.None? {
        return true;
      }
      var f := vbox.value;
      messages := [];
      assert [] + Load(f, to).0 == Load(f, to).0;
      while f != ""
        invariant Load(vbox.value, to) == (messages + Load(f, to).0, Load(f, to).1)
        decreases |f|
      {
        var (line, rest) := ReadLine(f);
        var m := Parse(line, to);
        if m.None? {
          assert messages + [] == messages;
          return false;
        }
        assert messages + ([m.value] + Load(rest, to).0) == messages + [m.value] + Load(rest, to).0;
        messages := messages + [m.value];
        f := rest;
      }
      assert messages + [] == messages;
      messages := Sorted(messages);
      ok := true;
    }

    method Write()
      modifies this`vbox
      ensures vbox == Some(File(messages))
    {
      var f := "";
      for i := 0 to |messages|
        invariant f == File(messages[..i])
      {
        FileNext(messages, i);
        f := f + Line(messages[i]);
      }
      assert messages[..|messages|] == messages;
      vbox := Some(f);
    }

    /**
     * add(): whatever the list was, for instance one left by a malformed file, it is newest first
     * afterwards, and reading the file again changes nothing exactly when all senders can be stored.
     */
    method Add(m: Message)
      modifies this
      ensures messages == Sorted(old(messages) + [m])
      ensures NewestFirst(old(messages)) ==> messages == Placed(old(messages), m)
      ensures NewestFirst(messages) && vbox == Some(File(messages))
      ensures (forall x :: x in messages ==> Storable(x, to)) <==> Opened(vbox.value, to) == Some(messages)
    {
      if NewestFirst(messages) {
        AddedAt(messages, m);
      }
      SortedIsStable(messages + [m]);
      messages := messages + [m];
      messages := Sorted(messages);
      WriteThenRead(messages, to);
      Write();
    }
  }
}
