/** Calendar arithmetic: include/datetime.h and get_time_now of omnithread/nt.cpp. */
module Calendar {
  import opened Arithmetic

  datatype Date = Date(year: nat, month: nat, day: nat)

  // ---- the Gregorian calendar itself ----

  predicate Leap(year: nat) {
    year % 4 == 0 && (year % 100 != 0 || year % 400 == 0)
  }

  function MonthLength(year: nat, month: nat): nat {
    if month == 2 then (if Leap(year) then 29 else 28)
    else if month == 4 || month == 6 || month == 9 || month == 11 then 30
    else 31
  }

  predicate Valid(d: Date) {
    1 <= d.month <= 12 && 1 <= d.day <= MonthLength(d.year, d.month)
  }

  function NextDay(d: Date): Date {
    if d.day < MonthLength(d.year, d.month) then d.(day := d.day + 1)
    else if d.month < 12 then Date(d.year, d.month + 1, 1)
    else Date(d.year + 1, 1, 1)
  }

  function DaysAfter(d: Date, n: nat): Date {
    if n == 0 then d else NextDay(DaysAfter(d, n - 1))
  }

  predicate Before(a: Date, b: Date) {
    a.year < b.year || (a.year == b.year && (a.month < b.month || (a.month == b.month && a.day < b.day)))
  }

  // ---- include/datetime.h ----

  const DAYS: seq<nat> := [0, 31, 59, 90, 120, 151, 181, 212, 243, 273, 304, 334]

  function DayInYear(d: Date): nat
    requires Valid(d)
  {
    var delta := DAYS[d.month - 1] + d.day;
    if Leap(d.year) && d.month > 2 then delta + 1 else delta
  }

  /** C's division, which truncates: it differs from Dafny's for a negative dividend. */
  function Div(x: int, y: nat): int
    requires y > 0
  {
    if x >= 0 then x / y else -((-x) / y)
  }

  function DiffDays(a: Date, b: Date): int
    requires Valid(a) && Valid(b)
  {
    (a.year - b.year) * 365
    + Div(a.year - 1, 4) - Div(b.year - 1, 4)
    - Div(a.year - 1, 100) + Div(b.year - 1, 100)
    + Div(a.year - 1, 400) - Div(b.year - 1, 400)
    - DayInYear(b) + DayInYear(a)
  }

  // ---- one day at a time ----

  lemma NextDayValid(d: Date)
    requires Valid(d)
    ensures Valid(NextDay(d)) && Before(d, NextDay(d))
  {
  }

  /** Leap years are what the three quotients count. */
  lemma LeapCount(y: nat)
    requires y >= 1
    ensures (y / 4 - y / 100 + y / 400) - ((y - 1) / 4 - (y - 1) / 100 + (y - 1) / 400) == if Leap(y) then 1 else 0
  {
    Quotient(y, 4);
    Quotient(y, 100);
    Quotient(y, 400);
    HundredsAreLeap(y);
  }

  lemma Quotient(y: nat, k: nat)
    requires y >= 1 && k >= 2
    ensures y / k - (y - 1) / k == if y % k == 0 then 1 else 0
  {
    var q, r := (y - 1) / k, (y - 1) % k;
    assert y == q * k + (r + 1);
    if r + 1 == k {
      assert y == (q + 1) * k + 0;
      DivIs(y, k, q + 1, 0);
    } else {
      DivIs(y, k, q, r + 1);
    }
  }

  lemma HundredsAreLeap(y: nat)
    ensures y % 400 == 0 ==> y % 100 == 0
    ensures y % 100 == 0 ==> y % 4 == 0
  {
    if y % 400 == 0 {
      DivIs(y, 100, 4 * (y / 400), 0);
    }
    if y % 100 == 0 {
      DivIs(y, 4, 25 * (y / 100), 0);
    }
  }

  lemma DayInYearNext(d: Date)
    requires Valid(d)
    ensures NextDay(d).year == d.year ==> DayInYear(NextDay(d)) == DayInYear(d) + 1
    ensures NextDay(d).year != d.year ==>
      NextDay(d) == Date(d.year + 1, 1, 1) && DayInYear(NextDay(d)) == 1
      && DayInYear(d) == if Leap(d.year) then 366 else 365
  {
  }

  /** Year 0: (year - 1) / 4 truncates to 0, and the step into year 1 is lost. */
  lemma OneDay(a: Date, b: Date)
    requires Valid(a) && Valid(b)
    ensures Valid(NextDay(a))
    ensures DiffDays(NextDay(a), b) == DiffDays(a, b) + if a.year == 0 && NextDay(a).year == 1 then 0 else 1
  {
    NextDayValid(a);
    DayInYearNext(a);
    if a.year >= 1 && NextDay(a).year != a.year {
      LeapCount(a.year);
    }
  }

  /**
   * diffDays is the number of calendar steps from one date to the other, except across the end of
   * year 0, where it is one too small.
   */
  lemma {:induction false} DiffCountsDays(b: Date, n: nat)
    requires Valid(b)
    ensures var a := DaysAfter(b, n);
      && Valid(a) && !Before(a, b)
      && DiffDays(a, b) == n - (if b.year == 0 && a.year >= 1 then 1 else 0)
  {
    if n > 0 {
      DiffCountsDays(b, n - 1);
      OneDay(DaysAfter(b, n - 1), b);
      NextDayValid(DaysAfter(b, n - 1));
    }
  }

  lemma YearZeroIsShort()
    ensures DaysAfter(Date(0, 12, 31), 1) == Date(1, 1, 1)
    ensures DiffDays(Date(1, 1, 1), Date(0, 12, 31)) == 0
  {
    DiffCountsDays(Date(0, 12, 31), 1);
  }

  function DayBefore(d: Date): Date
    requires Valid(d) && d != Date(0, 1, 1)
  {
    if d.day > 1 then d.(day := d.day - 1)
    else if d.month > 1 then Date(d.year, d.month - 1, MonthLength(d.year, d.month - 1))
    else Date(d.year - 1, 12, 31)
  }

  /** Every later date is reached by calendar steps. */
  lemma {:induction false} LaterIsReached(b: Date, a: Date) returns (n: nat)
    requires Valid(a) && Valid(b) && !Before(a, b)
    ensures a == DaysAfter(b, n)
    decreases a.year, a.month, a.day
  {
    if a == b {
      n := 0;
    } else {
      var p := DayBefore(a);
      n := LaterIsReached(b, p);
      assert NextDay(p) == a;
      n := n + 1;
    }
  }

  /** From year 1 on, diffDays(b) == n exactly when a is n days after b; its sign is the order of the dates. */
  lemma DiffIsDistance(a: Date, b: Date, n: nat)
    requires Valid(a) && Valid(b) && a.year >= 1 && b.year >= 1
    ensures DiffDays(a, b) == n <==> a == DaysAfter(b, n)
    ensures DiffDays(a, b) < 0 <==> Before(a, b)
    ensures DiffDays(a, b) == -DiffDays(b, a)
    ensures forall c :: Valid(c) ==> DiffDays(a, c) == DiffDays(a, b) + DiffDays(b, c)
  {
    if Before(a, b) {
      var k := LaterIsReached(a, b);
      DiffCountsDays(a, k);
      assert k > 0;
    } else {
      var k := LaterIsReached(b, a);
      DiffCountsDays(b, k);
    }
    DiffCountsDays(b, n);
  }

  // ---- get_time_now ----

  const DAYS_LEAP: seq<nat> := [0, 31, 60, 91, 121, 152, 182, 213, 244, 274, 305, 335]
  const EPOCH := Date(1970, 1, 1)

  function NowDays(d: Date): nat
    requires Valid(d) && d.year >= 1970
  {
    (d.year - 1970) * 365 + (d.year - 1969) / 4
    + (if d.year % 4 != 0 then DAYS[d.month - 1] else DAYS_LEAP[d.month - 1])
    + d.day - 1
  }

  /** 29 Februaries the formula counts and the calendar does not have. */
  function Surplus(d: Date): int
    requires d.year >= 1
  {
    var y := if d.month > 2 then d.year else d.year - 1;
    y / 100 - y / 400 - 15
  }

  lemma NowDaysSurplus(d: Date)
    requires Valid(d) && d.year >= 1970
    ensures NowDays(d) == DiffDays(d, EPOCH) + Surplus(d)
  {
    var y := d.year;
    LeapCount(y);
    Quotient(y, 4);
    Quotient(y, 100);
    Quotient(y, 400);
    HundredsAreLeap(y);
    assert (y - 1969) / 4 == (y - 1) / 4 - 492;
    assert DayInYear(EPOCH) == 1;
  }

  /** The day count is right exactly before 1 March 2100, and one too large for the rest of that year. */
  lemma NowDaysIsRight(d: Date)
    requires Valid(d) && d.year >= 1970
    ensures NowDays(d) == DiffDays(d, EPOCH) <==> Before(d, Date(2100, 3, 1))
    ensures d.year == 2100 && !Before(d, Date(2100, 3, 1)) ==> NowDays(d) == DiffDays(d, EPOCH) + 1
  {
    NowDaysSurplus(d);
    SurplusIs(if d.month > 2 then d.year else d.year - 1);
  }

  /** No centurial leap day is missing from 1969 to 2099; from 2100 on at least one is. */
  lemma SurplusIs(y: nat)
    requires y >= 1969
    ensures y / 100 - y / 400 - 15 >= 0
    ensures y / 100 - y / 400 - 15 == 0 <==> y < 2100
    ensures y == 2100 ==> y / 100 - y / 400 - 15 == 1
  {
    assert y / 400 <= y / 100 / 4;
  }

  function Seconds(days: nat, hour: nat, minute: nat, second: nat): nat {
    second + 60 * (minute + 60 * (hour + 24 * days))
  }

  /** abs_sec, in 32 bits. */
  function NowSeconds(d: Date, hour: nat, minute: nat, second: nat): nat
    requires Valid(d) && d.year >= 1970
  {
    Seconds(NowDays(d), hour, minute, second) % U32
  }

  lemma DaysBound(d: Date)
    requires Valid(d) && 1970 <= d.year <= 2100
    ensures NowDays(d) <= 48_000
  {
    assert (d.year - 1969) / 4 <= 32;
  }

  lemma SecondsBound(days: nat, hour: nat, minute: nat, second: nat)
    requires days <= 48_000 && hour < 24 && minute < 60 && second < 60
    ensures Seconds(days, hour, minute, second) % U32 == days * 86400 + hour * 3600 + minute * 60 + second
  {
    var s := Seconds(days, hour, minute, second);
    assert s == days * 86400 + hour * 3600 + minute * 60 + second;
    DivIs(s, U32, 0, s);
  }

  /** Before 1 March 2100 the seconds do not wrap, and they order instants as the calendar does. */
  lemma NowSecondsAreRight(d: Date, hour: nat, minute: nat, second: nat)
    requires Valid(d) && d.year >= 1970 && Before(d, Date(2100, 3, 1))
    requires hour < 24 && minute < 60 && second < 60
    ensures DiffDays(d, EPOCH) >= 0 && d == DaysAfter(EPOCH, DiffDays(d, EPOCH))
    ensures NowSeconds(d, hour, minute, second) == DiffDays(d, EPOCH) * 86400 + hour * 3600 + minute * 60 + second
  {
    NowDaysReached(d);
    DaysBound(d);
    SecondsBound(NowDays(d), hour, minute, second);
  }

  lemma NowDaysReached(d: Date)
    requires Valid(d) && d.year >= 1970 && Before(d, Date(2100, 3, 1))
    ensures NowDays(d) == DiffDays(d, EPOCH) && d == DaysAfter(EPOCH, DiffDays(d, EPOCH))
  {
    NowDaysIsRight(d);
    DiffIsDistance(d, EPOCH, NowDays(d));
  }
}
