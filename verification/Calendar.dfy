/** Days and dates of the proleptic Gregorian calendar, as section 21.4.1 of ECMA-262 computes them. */
module Calendar {
  import opened Base

  predicate IsLeap(y: int) {
    y % 4 == 0 && (y % 100 != 0 || y % 400 == 0)
  }

  function DaysInYear(y: int): nat {
    if IsLeap(y) then 366 else 365
  }

  /** The day number of the first of January; day 0 is 1970-01-01. */
  function DayFromYear(y: int): int {
    365 * (y - 1970) + (y - 1969) / 4 - (y - 1901) / 100 + (y - 1601) / 400
  }

  /** How many days of the year come before month `m`, counted from 0. */
  function MonthStart(m: nat, leap: bool): nat
    requires m <= 12
  {
    [0, 31, 59, 90, 120, 151, 181, 212, 243, 273, 304, 334, 365][m] + if leap && m >= 2 then 1 else 0
  }

  /** A date that exists; `m` counts from 1. */
  predicate IsDate(y: int, m: int, d: int) {
    1 <= m <= 12 && 1 <= d <= MonthStart(m, IsLeap(y)) - MonthStart(m - 1, IsLeap(y))
  }

  /** MakeDay: months and days outside their range roll over. */
  function MakeDay(year: int, month: int, date: int): int {
    var y, m := year + month / 12, month % 12;
    DayFromYear(y) + MonthStart(m, IsLeap(y)) + date - 1
  }

  /** A month and a day in range do not roll over. */
  lemma NoRollOver(y: int, m: int, d: int)
    requires 1 <= m <= 12
    ensures MakeDay(y, m - 1, d) == DayFromYear(y) + MonthStart(m - 1, IsLeap(y)) + d - 1
  {
    hide DayFromYear, MonthStart, IsLeap;
    assert (m - 1) / 12 == 0 && (m - 1) % 12 == m - 1;
  }

  lemma DateParts(a: Date)
    requires IsDate(a.y, a.m, a.d)
    ensures 1 <= a.m <= 12 && 1 <= a.d <= MonthStart(a.m, IsLeap(a.y)) - MonthStart(a.m - 1, IsLeap(a.y))
    ensures MakeDay(a.y, a.m - 1, a.d) == DayFromYear(a.y) + MonthStart(a.m - 1, IsLeap(a.y)) + a.d - 1
    ensures DaysInYear(a.y) == if IsLeap(a.y) then 366 else 365
  {
    NoRollOver(a.y, a.m, a.d);
    hide DayFromYear, MonthStart, IsLeap, MakeDay;
  }

  lemma YearLength(y: int)
    ensures DayFromYear(y + 1) == DayFromYear(y) + DaysInYear(y)
  {
    Quotient(y, 1968, 4);
    Quotient(y, 1900, 100);
    Quotient(y, 1600, 400);
    FactorsOf(y);
  }

  /** Counting the multiples of `n` up to a year gains one at a multiple. */
  lemma Quotient(y: int, from: int, n: int)
    requires (n == 4 && from == 1968) || (n == 100 && from == 1900) || (n == 400 && from == 1600)
    ensures (y - from) / n == (y - from - 1) / n + if y % n == 0 then 1 else 0
  {
  }

  lemma FactorsOf(y: int)
    ensures y % 400 == 0 ==> y % 100 == 0
    ensures y % 100 == 0 ==> y % 4 == 0
  {
  }

  lemma {:induction false} YearsGrow(a: int, b: int)
    requires a < b
    ensures DayFromYear(a) + 365 * (b - a) <= DayFromYear(b) <= DayFromYear(a) + 366 * (b - a)
    decreases b - a
  {
    YearLength(b - 1);
    hide DayFromYear;
    if a < b - 1 {
      YearsGrow(a, b - 1);
    }
  }

  /** The last year that begins on or before the day, from a year that does. */
  function YearFrom(day: int, y: int): (r: int)
    requires DayFromYear(y) <= day
    ensures DayFromYear(r) <= day < DayFromYear(r + 1)
    decreases day - DayFromYear(y)
  {
    YearLength(y);
    if day < DayFromYear(y + 1) then y else YearFrom(day, y + 1)
  }

  /** YearFromTime. */
  function YearOf(day: int): (y: int)
    ensures DayFromYear(y) <= day < DayFromYear(y + 1)
  {
    var n := if day >= 0 then day / 366 else day / 365;
    if n > 0 then YearsGrow(1970, 1970 + n); YearFrom(day, 1970 + n)
    else if n < 0 then YearsGrow(1970 + n, 1970); YearFrom(day, 1970 + n)
    else YearFrom(day, 1970)
  }

  function MonthFrom(within: nat, leap: bool, m: nat): (r: nat)
    requires m <= 11 && MonthStart(m, leap) <= within < MonthStart(12, leap)
    ensures r <= 11 && MonthStart(r, leap) <= within < MonthStart(r + 1, leap)
    decreases 11 - m
  {
    if within < MonthStart(m + 1, leap) then m else MonthFrom(within, leap, m + 1)
  }

  datatype Date = Date(y: int, m: int, d: int)

  lemma DateFits(y: int, m: nat, within: nat)
    requires m <= 11 && MonthStart(m, IsLeap(y)) <= within < MonthStart(m + 1, IsLeap(y))
    ensures IsDate(y, m + 1, within - MonthStart(m, IsLeap(y)) + 1)
    ensures MakeDay(y, m, within - MonthStart(m, IsLeap(y)) + 1) == DayFromYear(y) + within
  {
    NoRollOver(y, m + 1, within - MonthStart(m, IsLeap(y)) + 1);
    hide MonthStart, IsLeap, DayFromYear, MakeDay;
  }

  lemma WithinIs(day: int)
    ensures 0 <= day - DayFromYear(YearOf(day)) < MonthStart(12, IsLeap(YearOf(day)))
    ensures MonthStart(0, IsLeap(YearOf(day))) == 0
  {
    YearLength(YearOf(day));
    hide DayFromYear, IsLeap;
  }

  /** The date of a day: YearFromTime, MonthFromTime counted from 1, and DateFromTime. */
  function DateOf(day: int): (date: Date)
    ensures IsDate(date.y, date.m, date.d) && MakeDay(date.y, date.m - 1, date.d) == day
    ensures date.y == YearOf(day)
  {
    var y := YearOf(day);
    WithinIs(day);
    var within := day - DayFromYear(y);
    var m := MonthFrom(within, IsLeap(y), 0);
    var d := within - MonthStart(m, IsLeap(y)) + 1;
    DateFits(y, m, within);
    Date(y, m + 1, d)
  }

  predicate Before(a: Date, b: Date) {
    a.y < b.y || (a.y == b.y && (a.m < b.m || (a.m == b.m && a.d < b.d)))
  }

  lemma MonthsGrow(a: nat, b: nat, leap: bool)
    requires a <= b <= 12
    ensures MonthStart(a, leap) <= MonthStart(b, leap) <= if leap then 366 else 365
  {
  }

  lemma WithinYear(a: Date)
    requires IsDate(a.y, a.m, a.d)
    ensures DayFromYear(a.y) <= MakeDay(a.y, a.m - 1, a.d) < DayFromYear(a.y + 1)
  {
    hide *;
    DateParts(a);
    YearLength(a.y);
    MonthsGrow(a.m, 12, IsLeap(a.y));
  }

  lemma DatesOrdered(a: Date, b: Date)
    requires IsDate(a.y, a.m, a.d) && IsDate(b.y, b.m, b.d) && Before(a, b)
    ensures MakeDay(a.y, a.m - 1, a.d) < MakeDay(b.y, b.m - 1, b.d)
  {
    hide *;
    DateParts(a);
    DateParts(b);
    Earlier(a, b);
    if a.y < b.y {
      WithinYear(a);
      WithinYear(b);
      if a.y + 1 < b.y { YearsGrow(a.y + 1, b.y); }
    } else if a.m < b.m {
      MonthsGrow(a.m, b.m - 1, IsLeap(a.y));
    }
  }

  lemma Earlier(a: Date, b: Date)
    requires Before(a, b)
    ensures a.y < b.y || (a.y == b.y && (a.m < b.m || (a.m == b.m && a.d < b.d)))
  {
  }

  /** Dates that exist are in the order of their days, and no two have the same one. */
  lemma DayOrderIsDateOrder(a: Date, b: Date)
    requires IsDate(a.y, a.m, a.d) && IsDate(b.y, b.m, b.d)
    ensures MakeDay(a.y, a.m - 1, a.d) < MakeDay(b.y, b.m - 1, b.d) <==> Before(a, b)
    ensures MakeDay(a.y, a.m - 1, a.d) == MakeDay(b.y, b.m - 1, b.d) <==> a == b
  {
    hide MakeDay, IsDate;
    if Before(a, b) {
      DatesOrdered(a, b);
    } else if Before(b, a) {
      DatesOrdered(b, a);
    }
  }

  /** So a date comes back from its day. */
  lemma DateOfMakeDay(a: Date)
    requires IsDate(a.y, a.m, a.d)
    ensures DateOf(MakeDay(a.y, a.m - 1, a.d)) == a
  {
    DayOrderIsDateOrder(a, DateOf(MakeDay(a.y, a.m - 1, a.d)));
  }

  // ---------------------------------------------------------------------------
  // Against the calendar as everybody knows it.
  // ---------------------------------------------------------------------------

  /** Thirty days hath September, April, June and November. */
  function DaysInMonth(y: int, m: int): int {
    if m == 4 || m == 6 || m == 9 || m == 11 then 30
    else if m != 2 then 31
    else if y % 400 == 0 || (y % 4 == 0 && y % 100 != 0) then 29
    else 28
  }

  function NextDate(a: Date): Date {
    if a.d < DaysInMonth(a.y, a.m) then Date(a.y, a.m, a.d + 1)
    else if a.m < 12 then Date(a.y, a.m + 1, 1)
    else Date(a.y + 1, 1, 1)
  }

  lemma MonthLength(y: int, m: int)
    requires 1 <= m <= 12
    ensures MonthStart(m, IsLeap(y)) - MonthStart(m - 1, IsLeap(y)) == DaysInMonth(y, m)
    ensures MonthStart(0, IsLeap(y)) == 0 && MonthStart(12, IsLeap(y)) == DaysInYear(y)
  {
    FactorsOf(y);
  }

  /** The days run through the calendar one date at a time, from the first of January 1970 at day 0. */
  lemma DayAfter(day: int)
    ensures DateOf(day + 1) == NextDate(DateOf(day))
    ensures DateOf(0) == Date(1970, 1, 1)
  {
    hide *;
    var a := DateOf(day);
    NextDay(a);
    DateIs(day + 1, NextDate(a));
    EpochIs();
    DateIs(0, Date(1970, 1, 1));
  }

  lemma NextDay(a: Date)
    requires IsDate(a.y, a.m, a.d)
    ensures
      var b := NextDate(a);
      IsDate(b.y, b.m, b.d) && MakeDay(b.y, b.m - 1, b.d) == MakeDay(a.y, a.m - 1, a.d) + 1
  {
    hide MakeDay, MonthStart, DayFromYear, IsLeap, DaysInYear, DaysInMonth;
    var b := NextDate(a);
    DateParts(a);
    MonthLength(a.y, a.m);
    MonthLength(b.y, b.m);
    MonthLength(b.y, 1);
    YearLength(a.y);
    NoRollOver(b.y, b.m, b.d);
    SomeDays(b.y, b.m);
  }

  lemma SomeDays(y: int, m: int)
    ensures DaysInMonth(y, m) >= 28
  {
  }

  lemma EpochIs()
    ensures IsDate(1970, 1, 1) && MakeDay(1970, 0, 1) == 0
  {
  }

  lemma DateIs(day: int, a: Date)
    requires IsDate(a.y, a.m, a.d) && MakeDay(a.y, a.m - 1, a.d) == day
    ensures DateOf(day) == a
  {
    hide *;
    DayOrderIsDateOrder(DateOf(day), a);
  }
}
