/**
 * `timeBound` of `apps/proxy-server/src/audit-cli.ts` on a bare date: which are accepted, and which instants they
 * mean.
 */
module TimeBound {
  import opened Base
  import opened Text
  import opened Authority
  import opened Calendar

  // ---------------------------------------------------------------------------
  // Numerals of a fixed width.
  // ---------------------------------------------------------------------------

  function Two(n: nat): (s: string)
    requires n < 100
    ensures |s| == 2 && Digits(s)
  {
    [DigitChar(n / 10), DigitChar(n % 10)]
  }

  function Four(n: nat): (s: string)
    requires n < 10000
    ensures |s| == 4 && Digits(s)
  {
    Two(n / 100) + Two(n % 100)
  }

  lemma TwoIs(s: string)
    requires |s| == 2 && Digits(s)
    ensures Value(s) < 100 && Two(Value(s)) == s
  {
    var a, b := s[0] as int - '0' as int, s[1] as int - '0' as int;
    assert s[0] in s && s[1] in s;
    assert s[..1] == [s[0]] && [s[0]][..0] == [];
    assert Digits(s[..1]);
    assert Value(s[..1]) == a;
    assert Value(s) == 10 * a + b;
    hide Value, Digits;
    TwoDigits(a, b);
  }

  lemma TwoDigits(a: int, b: int)
    requires 0 <= a <= 9 && 0 <= b <= 9
    ensures 10 * a + b < 100 && Two(10 * a + b) == [DigitChar(a), DigitChar(b)]
  {
  }

  lemma FourIs(s: string)
    requires |s| == 4 && Digits(s)
    ensures Value(s) < 10000 && Four(Value(s)) == s
  {
    DigitsOfPart(s, 0, 2);
    DigitsOfPart(s, 2, 4);
    TwoIs(s[..2]);
    TwoIs(s[2..]);
    TwoMoreDigits(s);
    assert s == s[..2] + s[2..];
    hide Value, Two, Digits;
    Hundreds(Value(s[..2]), Value(s[2..]));
  }

  lemma Hundreds(a: nat, b: nat)
    requires a < 100 && b < 100
    ensures 100 * a + b < 10000 && (100 * a + b) / 100 == a && (100 * a + b) % 100 == b
  {
  }

  lemma TwoMoreDigits(s: string)
    requires |s| == 4 && Digits(s)
    ensures Digits(s[..2]) && Digits(s[2..]) && Value(s) == 100 * Value(s[..2]) + Value(s[2..])
  {
    DigitsOfPart(s, 0, 2);
    DigitsOfPart(s, 2, 4);
    DigitsOfPart(s, 0, 3);
    DigitsOfPart(s, 2, 3);
    hide Digits;
    var t := s[2..];
    assert Value(s) == 10 * Value(s[..3]) + (s[3] as int - '0' as int);
    assert s[..3][..2] == s[..2];
    assert Value(s[..3]) == 10 * Value(s[..2]) + (s[2] as int - '0' as int);
    assert t[..1] == s[2..3] && s[2..3][..0] == [];
    assert Value(s[2..3]) == s[2] as int - '0' as int;
    assert Value(t) == 10 * Value(t[..1]) + (t[1] as int - '0' as int);
  }

  lemma DigitsOfPart(s: string, i: nat, j: nat)
    requires i <= j <= |s| && Digits(s)
    ensures Digits(s[i..j])
  {
    assert forall c | c in s[i..j] :: c in s;
  }

  lemma TwoInjective(a: nat, b: nat)
    requires a < 100 && b < 100
    ensures Two(a) == Two(b) <==> a == b
  {
    if Two(a) == Two(b) {
      assert Two(a)[0] == Two(b)[0] && Two(a)[1] == Two(b)[1];
    }
  }

  lemma FourInjective(a: nat, b: nat)
    requires a < 10000 && b < 10000
    ensures Four(a) == Four(b) <==> a == b
  {
    if Four(a) == Four(b) {
      assert Two(a / 100) == Four(a)[..2] == Two(b / 100) && Two(a % 100) == Four(a)[2..] == Two(b % 100);
      TwoInjective(a / 100, b / 100);
      TwoInjective(a % 100, b % 100);
    }
  }

  // ---------------------------------------------------------------------------
  // The code.
  // ---------------------------------------------------------------------------

  /** The first ten characters of `toISOString()`; a year of more than four digits is signed and six wide. */
  function IsoDay(date: Date): string
    requires IsDate(date.y, date.m, date.d) && -999999 <= date.y <= 999999
  {
    MonthAndDayFit(date);
    if 0 <= date.y < 10000 then Four(date.y) + "-" + (Two(date.m) + "-" + Two(date.d))
    else
      var y := if date.y < 0 then -date.y else date.y;
      (if date.y < 0 then "-" else "+") + Two(y / 10000) + Four(y % 10000) + "-" + Two(date.m)
  }

  lemma MonthAndDayFit(date: Date)
    requires IsDate(date.y, date.m, date.d)
    ensures 1 <= date.m <= 12 && 1 <= date.d <= 31
  {
    MonthsAreShort(date.m, IsLeap(date.y));
  }

  lemma MonthsAreShort(m: nat, leap: bool)
    requires 1 <= m <= 12
    ensures MonthStart(m, leap) - MonthStart(m - 1, leap) <= 31
  {
  }

  /** `YYYY-MM-DD`, the bare form of `TIME_BOUND`. */
  predicate BareShape(value: string) {
    && |value| == 10 && value[4] == '-' && value[7] == '-'
    && Digits(value[..4]) && Digits(value[5..7]) && Digits(value[8..])
  }

  function YearPart(value: string): nat
    requires BareShape(value)
  {
    Value(value[..4])
  }

  function MonthPart(value: string): nat
    requires BareShape(value)
  {
    Value(value[5..7])
  }

  function DayPart(value: string): nat
    requires BareShape(value)
  {
    Value(value[8..])
  }

  const MS_PER_DAY: nat := 86_400_000

  /** MakeFullYear, which `Date.UTC` applies: a year below 100 is taken as one of the twentieth century. */
  function FullYear(year: nat): nat {
    if year <= 99 then 1900 + year else year
  }

  /** The day `Date.UTC(year, month - 1, day)` begins. */
  function UtcDay(value: string): int
    requires BareShape(value)
  {
    MakeDay(FullYear(YearPart(value)), MonthPart(value) - 1, DayPart(value))
  }

  lemma YearBetween(day: int, lo: int, hi: int)
    requires lo < hi && DayFromYear(lo) <= day < DayFromYear(hi)
    ensures lo <= DateOf(day).y < hi
  {
    hide DayFromYear, DateOf, YearOf;
    var y := DateOf(day).y;
    if y < lo && y + 1 < lo { YearsGrow(y + 1, lo); }
    if y >= hi && hi < y { YearsGrow(hi, y); }
  }

  lemma PartsFit(value: string)
    requires BareShape(value)
    ensures YearPart(value) < 10000 && MonthPart(value) < 100 && DayPart(value) < 100
    ensures value == Four(YearPart(value)) + "-" + (Two(MonthPart(value)) + "-" + Two(DayPart(value)))
  {
    FourIs(value[..4]);
    TwoIs(value[5..7]);
    TwoIs(value[8..]);
    hide Four, Two, Value;
    assert value == value[..4] + "-" + (value[5..7] + "-" + value[8..]);
  }

  /** What month and day out of range can add to a year. */
  lemma RollOver(year: int, month: int, date: int)
    requires -1 <= month < 99 && 0 <= date < 100
    ensures DayFromYear(year - 1) <= MakeDay(year, month, date) < DayFromYear(year + 10)
  {
    var y, m := year + month / 12, month % 12;
    assert year - 1 <= y <= year + 8;
    assert month / 12 < 0 ==> m == 11;
    MonthsGrow(m, 12, IsLeap(y));
    assert m == 11 ==> MonthStart(m, IsLeap(y)) >= 334;
    hide DayFromYear, MonthStart;
    if year - 1 < y { YearsGrow(year - 1, y); }
    YearsGrow(y, year + 10);
  }

  lemma UtcYearFits(value: string)
    requires BareShape(value)
    ensures
      var y := FullYear(YearPart(value));
      y - 1 <= DateOf(UtcDay(value)).y < y + 10
  {
    hide DayFromYear, DateOf, MakeDay, Value;
    PartsFit(value);
    var y := FullYear(YearPart(value));
    RollOver(y, MonthPart(value) - 1, DayPart(value));
    YearBetween(UtcDay(value), y - 1, y + 10);
  }

  /** And the date it is, rolled over where the parts are out of range. */
  function UtcDate(value: string): (date: Date)
    requires BareShape(value)
    ensures IsDate(date.y, date.m, date.d) && -999999 <= date.y <= 999999
  {
    FitsIso(value);
    DateOf(UtcDay(value))
  }

  lemma FitsIso(value: string)
    requires BareShape(value)
    ensures -999999 <= DateOf(UtcDay(value)).y <= 999999
  {
    UtcYearFits(value);
    PartsFit(value);
    hide DateOf, UtcDay, YearPart, Four, Two, BareShape;
  }

  /** `timeBound` of a bare date: `None` is a usage error. */
  function Bound(value: string, end: bool): Option<int>
    requires BareShape(value)
  {
    var day := UtcDay(value);
    if IsoDay(UtcDate(value)) != value then None
    else Some(if end then day * MS_PER_DAY + MS_PER_DAY - 1 else day * MS_PER_DAY)
  }

  // ---------------------------------------------------------------------------
  // Which dates are accepted.
  // ---------------------------------------------------------------------------

  /** Two texts of dates are the same text only for the same date. */
  lemma IsoDayIs(date: Date, y: nat, m: nat, d: nat)
    requires IsDate(date.y, date.m, date.d) && -999999 <= date.y <= 999999 && y < 10000 && m < 100 && d < 100
    ensures IsoDay(date) == Four(y) + "-" + (Two(m) + "-" + Two(d)) <==> date == Date(y, m, d)
  {
    MonthAndDayFit(date);
    var text := Four(y) + "-" + (Two(m) + "-" + Two(d));
    assert text[..4] == Four(y) && text[5..7] == Two(m) && text[8..] == Two(d);
    if 0 <= date.y < 10000 {
      var iso := IsoDay(date);
      hide Four, Two, IsDate;
      assert iso[..4] == Four(date.y) && iso[5..7] == Two(date.m) && iso[8..] == Two(date.d);
      FourInjective(date.y, y);
      TwoInjective(date.m, m);
      TwoInjective(date.d, d);
    } else {
      assert text[0] in Four(y);
      assert IsoDay(date)[0] == '+' || IsoDay(date)[0] == '-';
    }
  }

  /**
   * The round trip accepts exactly the dates that exist in the proleptic Gregorian calendar, from the year
   * 100 on; a year below 100 never comes back, whatever the month and the day. An accepted date means the
   * whole of its own day.
   */
  lemma AcceptsExactlyRealDates(value: string, end: bool)
    requires BareShape(value)
    ensures Bound(value, end).Some? <==>
            YearPart(value) >= 100 && IsDate(YearPart(value), MonthPart(value), DayPart(value))
    ensures Bound(value, end).Some? ==>
              var day := MakeDay(YearPart(value), MonthPart(value) - 1, DayPart(value));
              DateOf(day) == Date(YearPart(value), MonthPart(value), DayPart(value))
              && Bound(value, end).value == day * MS_PER_DAY + if end then MS_PER_DAY - 1 else 0
  {
    PartsFit(value);
    UtcYearFits(value);
    var y, m, d := YearPart(value), MonthPart(value), DayPart(value);
    var date := UtcDate(value);
    IsoDayIs(date, y, m, d);
    if y >= 100 && IsDate(y, m, d) {
      DateOfMakeDay(Date(y, m, d));
    }
    hide IsoDay, DateOf, MakeDay, Four, Two, IsDate, YearPart, MonthPart, DayPart, BareShape;
  }

  // ---------------------------------------------------------------------------
  // Order and windows.
  // ---------------------------------------------------------------------------

  lemma TwoLess(a: nat, b: nat)
    requires a < 100 && b < 100
    ensures Less(Two(a), Two(b)) <==> a < b
  {
    var s, t := Two(a), Two(b);
    assert s[1..] == [s[1]] && t[1..] == [t[1]];
    assert [s[1]][1..] == [] && [t[1]][1..] == [];
    assert Less([s[1]], [t[1]]) <==> s[1] < t[1];
    assert Less(s, t) <==> s[0] < t[0] || (s[0] == t[0] && s[1] < t[1]);
    DigitLess(a / 10, b / 10);
    DigitLess(a % 10, b % 10);
  }

  lemma DigitLess(a: nat, b: nat)
    requires a < 10 && b < 10
    ensures DigitChar(a) < DigitChar(b) <==> a < b
    ensures DigitChar(a) == DigitChar(b) <==> a == b
  {
  }

  lemma FourLess(a: nat, b: nat)
    requires a < 10000 && b < 10000
    ensures Less(Four(a), Four(b)) <==> a < b
  {
    LessInTwo(Two(a / 100), Two(a % 100), Two(b / 100), Two(b % 100));
    TwoLess(a / 100, b / 100);
    TwoLess(a % 100, b % 100);
    TwoInjective(a / 100, b / 100);
    hide Less, Two;
  }

  lemma DateTextLess(a: Date, b: Date)
    requires 0 <= a.y < 10000 && 0 <= a.m < 100 && 0 <= a.d < 100
    requires 0 <= b.y < 10000 && 0 <= b.m < 100 && 0 <= b.d < 100
    ensures Less(Four(a.y) + "-" + (Two(a.m) + "-" + Two(a.d)), Four(b.y) + "-" + (Two(b.m) + "-" + Two(b.d)))
       <==> Before(a, b)
  {
    LessInTwo(Four(a.y) + "-", Two(a.m) + "-" + Two(a.d), Four(b.y) + "-", Two(b.m) + "-" + Two(b.d));
    LessInTwo(Four(a.y), "-", Four(b.y), "-");
    LessInTwo(Two(a.m) + "-", Two(a.d), Two(b.m) + "-", Two(b.d));
    LessInTwo(Two(a.m), "-", Two(b.m), "-");
    assert !Less("-", "-") by { assert "-"[1..] == []; }
    FourLess(a.y, b.y);
    FourInjective(a.y, b.y);
    TwoLess(a.m, b.m);
    TwoInjective(a.m, b.m);
    TwoLess(a.d, b.d);
    SameFront(Four(a.y), Four(b.y));
    SameFront(Two(a.m), Two(b.m));
    hide Less, Four, Two;
  }

  lemma SameFront(a: string, b: string)
    requires |a| == |b|
    ensures a + "-" == b + "-" <==> a == b
  {
    assert (a + "-")[..|a|] == a && (b + "-")[..|b|] == b;
  }

  function DateIn(value: string): Date
    requires BareShape(value)
  {
    Date(YearPart(value), MonthPart(value), DayPart(value))
  }

  function StartOf(date: Date): int
    requires 1 <= date.m
  {
    MakeDay(date.y, date.m - 1, date.d) * MS_PER_DAY
  }

  lemma AcceptedIs(v: string)
    requires BareShape(v) && Bound(v, false).Some?
    ensures
      var a := DateIn(v);
      && IsDate(a.y, a.m, a.d) && 0 <= a.y < 10000 && 0 <= a.m < 100 && 0 <= a.d < 100
      && Bound(v, false).value == StartOf(a)
      && v == Four(a.y) + "-" + (Two(a.m) + "-" + Two(a.d))
  {
    AcceptsExactlyRealDates(v, false);
    PartsFit(v);
    hide Bound, YearPart, MonthPart, DayPart, BareShape, Four, Two, MakeDay, DateOf;
  }

  lemma StartOrder(a: Date, b: Date)
    requires IsDate(a.y, a.m, a.d) && IsDate(b.y, b.m, b.d)
    ensures StartOf(a) < StartOf(b) <==> Before(a, b)
  {
    DayOrderIsDateOrder(a, b);
    MsOrder(MakeDay(a.y, a.m - 1, a.d), MakeDay(b.y, b.m - 1, b.d));
    hide MakeDay, Before;
  }

  /** Accepted dates sort as text in the order of time. */
  lemma TextOrderIsTimeOrder(v: string, w: string)
    requires BareShape(v) && BareShape(w) && Bound(v, false).Some? && Bound(w, false).Some?
    ensures Less(v, w) <==> Bound(v, false).value < Bound(w, false).value
  {
    hide *;
    AcceptedIs(v);
    AcceptedIs(w);
    StartOrder(DateIn(v), DateIn(w));
    DateTextLess(DateIn(v), DateIn(w));
  }

  lemma MsOrder(a: int, b: int)
    ensures a * MS_PER_DAY < b * MS_PER_DAY <==> a < b
  {
  }

  lemma DayOfMs(day: int, at: int)
    requires day * MS_PER_DAY <= at <= day * MS_PER_DAY + MS_PER_DAY - 1
    ensures at / MS_PER_DAY == day
  {
  }

  /** The instants a bare date selects, as `--since` and `--until` together. */
  predicate Covers(value: string, at: int)
    requires BareShape(value)
  {
    Bound(value, false).Some? && Bound(value, true).Some? && Bound(value, false).value <= at <= Bound(value, true).value
  }

  /** The text of a date of four digits parses back to it. */
  lemma IsoDayIsBare(date: Date)
    requires IsDate(date.y, date.m, date.d) && 0 <= date.y < 10000
    ensures BareShape(IsoDay(date))
    ensures YearPart(IsoDay(date)) == date.y && MonthPart(IsoDay(date)) == date.m && DayPart(IsoDay(date)) == date.d
  {
    MonthAndDayFit(date);
    var iso := IsoDay(date);
    hide Four, Two;
    assert iso[..4] == Four(date.y) && iso[5..7] == Two(date.m) && iso[8..] == Two(date.d);
    FourIs(Four(date.y));
    TwoIs(Two(date.m));
    TwoIs(Two(date.d));
    FourInjective(date.y, Value(Four(date.y)));
    TwoInjective(date.m, Value(Two(date.m)));
    TwoInjective(date.d, Value(Two(date.d)));
  }

  /**
   * The windows tile time: every instant from the year 100 to the year 9999 is in the window of exactly one
   * accepted date, the one its own UTC day is written as.
   */
  lemma WindowsTileTime(at: int) returns (value: string)
    requires DayFromYear(100) * MS_PER_DAY <= at < DayFromYear(10000) * MS_PER_DAY
    ensures BareShape(value) && Covers(value, at)
    ensures forall other | BareShape(other) && Covers(other, at) :: other == value
  {
    var day := at / MS_PER_DAY;
    YearBetween(day, 100, 10000);
    var date := DateOf(day);
    value := IsoDay(date);
    IsoDayIsBare(date);
    OwnWindow(value, date, day, at);
    forall other | BareShape(other) && Covers(other, at) ensures other == value {
      OnlyWindow(other, value, date, day, at);
    }
  }

  lemma OwnWindow(value: string, date: Date, day: int, at: int)
    requires date == DateOf(day) && date.y >= 100 && day == at / MS_PER_DAY
    requires BareShape(value) && YearPart(value) == date.y && MonthPart(value) == date.m && DayPart(value) == date.d
    ensures Covers(value, at)
  {
    AcceptsExactlyRealDates(value, false);
    AcceptsExactlyRealDates(value, true);
    var own := MakeDay(YearPart(value), MonthPart(value) - 1, DayPart(value));
    hide Bound, DateOf, YearPart, MonthPart, DayPart, BareShape, MakeDay, IsDate;
    assert own == day;
  }

  lemma OnlyWindow(other: string, value: string, date: Date, day: int, at: int)
    requires date == DateOf(day) && 0 <= date.y < 10000 && day == at / MS_PER_DAY && value == IsoDay(date)
    requires BareShape(other) && Covers(other, at)
    ensures other == value
  {
    AcceptsExactlyRealDates(other, false);
    AcceptsExactlyRealDates(other, true);
    PartsFit(other);
    var theirs := MakeDay(YearPart(other), MonthPart(other) - 1, DayPart(other));
    assert theirs * MS_PER_DAY <= at <= theirs * MS_PER_DAY + MS_PER_DAY - 1 by {
      hide DateOf, YearPart, MonthPart, DayPart, BareShape, MakeDay, IsDate, IsoDay, Bound;
    }
    DayOfMs(theirs, at);
    hide DateOf, YearPart, MonthPart, DayPart, BareShape, MakeDay, IsDate, Four, Two, Bound, Covers;
  }

  /** A window is one day of milliseconds, from its first to its last. */
  lemma WindowIsADay(value: string)
    requires BareShape(value) && Bound(value, false).Some?
    ensures Bound(value, true) == Some(Bound(value, false).value + 24 * 60 * 60 * 1000 - 1)
  {
    hide *;
    AcceptsExactlyRealDates(value, false);
    AcceptsExactlyRealDates(value, true);
    DayLength();
  }

  lemma DayLength()
    ensures MS_PER_DAY == 24 * 60 * 60 * 1000
  {
  }

  /** Time is counted from the beginning of 1970. */
  lemma EpochBound()
    ensures BareShape("1970-01-01") && Bound("1970-01-01", false) == Some(0)
  {
    var epoch := Date(1970, 1, 1);
    EpochIs();
    IsoDayIsBare(epoch);
    EpochText();
    AcceptsExactlyRealDates("1970-01-01", false);
    hide Bound, BareShape, YearPart, MonthPart, DayPart, MakeDay, DateOf, IsDate, IsoDay;
  }

  lemma EpochText()
    ensures IsoDay(Date(1970, 1, 1)) == "1970-01-01"
  {
    MonthAndDayFit(Date(1970, 1, 1));
    TwoDigits(1, 9);
    TwoDigits(7, 0);
    TwoDigits(0, 1);
  }
}
