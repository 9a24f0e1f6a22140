// The Gregorian calendar, counted year by year and month by month, and the
// closed formulas that the time functions use.
module Calendar {
  predicate Leap(year: int) {
    year % 4 == 0 && (year % 100 != 0 || year % 400 == 0)
  }

  function MonthDays(year: int, month: int): int
    requires 1 <= month <= 12
  {
    if month == 2 then (if Leap(year) then 29 else 28)
    else if month == 4 || month == 6 || month == 9 || month == 11 then 30
    else 31
  }

  // Days from January 1 of the year 0 to January 1 of the year.
  function YearStart(year: nat): int {
    if year == 0 then 0 else YearStart(year - 1) + if Leap(year - 1) then 366 else 365
  }

  // Days from January 1 to the first of the month.
  function MonthStart(year: int, month: int): int
    requires 1 <= month <= 12
    decreases month
  {
    if month == 1 then 0 else MonthStart(year, month - 1) + MonthDays(year, month - 1)
  }

  datatype Date = Date(year: nat, month: int, day: int)

  datatype Clock = Clock(hour: nat, min: nat, sec: nat)

  predicate ValidDate(d: Date) {
    1 <= d.month <= 12 && 1 <= d.day <= MonthDays(d.year, d.month)
  }

  predicate ValidClock(c: Clock) {
    c.hour < 24 && c.min < 60 && c.sec < 60
  }

  // Days since January 1, 1970.
  function DayNumber(d: Date): int
    requires ValidDate(d)
  {
    YearStart(d.year) + MonthStart(d.year, d.month) + d.day - 1 - YearStart(1970)
  }

  function Seconds(d: Date, c: Clock): int
    requires ValidDate(d)
  {
    DayNumber(d) * 86400 + c.hour * 3600 + c.min * 60 + c.sec
  }

  // ----- Gauss' formula: years start on March 1

  // Days before March 1 of the year, from March 1 of the year 0.
  function MarchDays(year: int): int { 365 * year + year / 4 - year / 100 + year / 400 }

  // Days before the first of the month, from March 1; March is month 1.
  function MarchMonth(month: int): int { 367 * month / 12 - 30 }

  lemma {:induction false} YearStartFormula(year: nat)
    ensures YearStart(year) + (if Leap(year) then 60 else 59) == MarchDays(year) + 60
  {
    if year > 0 {
      YearStartFormula(year - 1);
      MarchDaysGrow(year - 1);
    }
  }

  lemma MarchDaysGrow(year: nat)
    ensures MarchDays(year + 1) == MarchDays(year) + if Leap(year + 1) then 366 else 365
  {
    NextQuotient(year);
    var a, b, c := (year + 1) / 4, (year + 1) / 100, (year + 1) / 400;
    assert year + 1 == 100 * b + (year + 1) % 100 == 400 * c + (year + 1) % 400;
  }

  lemma NextQuotient(n: nat)
    ensures (n + 1) / 4 == n / 4 + (if (n + 1) % 4 == 0 then 1 else 0)
    ensures (n + 1) / 100 == n / 100 + (if (n + 1) % 100 == 0 then 1 else 0)
    ensures (n + 1) / 400 == n / 400 + (if (n + 1) % 400 == 0 then 1 else 0)
    ensures (n + 1) % 100 == 0 ==> (n + 1) % 4 == 0
    ensures (n + 1) % 400 == 0 ==> (n + 1) % 100 == 0
  {
  }

  // Where a day is counted from: the year before in January and February.
  function MarchYear(d: Date): int { if d.month <= 2 then d.year - 1 else d.year }

  function MarchIndex(month: int): int { if month <= 2 then month + 10 else month - 2 }

  lemma GaussIsDayNumber(d: Date)
    requires ValidDate(d) && (d.year > 0 || d.month > 2)
    ensures DayNumber(d) == MarchDays(MarchYear(d)) + MarchMonth(MarchIndex(d.month)) + d.day - 1 - 719527 + 31 + 28
  {
    YearStartFormula(d.year);
    YearStartFormula(1970);
    if d.month <= 2 {
      YearStartFormula(d.year - 1);
      MarchDaysGrow(d.year - 1);
    }
    MonthStartFormula(d.year, d.month);
  }

  lemma MonthStartFormula(year: int, month: int)
    requires 1 <= month <= 12
    ensures MonthStart(year, month)
         == if month == 1 then 0 else if month == 2 then 31
            else MarchMonth(month - 2) + if Leap(year) then 60 else 59
  {
    if month > 1 { MonthStartFormula(year, month - 1); }
  }

  // ----- dates and days correspond

  predicate Before(d: Date, e: Date) {
    d.year < e.year || (d.year == e.year && (d.month < e.month || (d.month == e.month && d.day < e.day)))
  }

  lemma {:induction false} MonthsGrow(year: int, a: int, b: int)
    requires 1 <= a < b <= 12
    ensures MonthStart(year, a) + MonthDays(year, a) <= MonthStart(year, b)
    decreases b
  {
    if a < b - 1 { MonthsGrow(year, a, b - 1); }
  }

  lemma {:induction false} YearsGrow(a: nat, b: nat)
    requires a < b
    ensures YearStart(a) + (if Leap(a) then 366 else 365) <= YearStart(b)
  {
    if a < b - 1 { YearsGrow(a, b - 1); }
  }

  // A later date has a greater day number.
  lemma LaterIsGreater(d: Date, e: Date)
    requires ValidDate(d) && ValidDate(e) && Before(d, e)
    ensures DayNumber(d) < DayNumber(e)
  {
    if d.year < e.year {
      YearsGrow(d.year, e.year);
      if d.month < 12 { MonthsGrow(d.year, d.month, 12); }
      assert MonthStart(d.year, 12) + 31 == if Leap(d.year) then 366 else 365 by { MonthStartFormula(d.year, 12); }
      MonthStartFormula(e.year, e.month);
    } else if d.month < e.month {
      MonthsGrow(d.year, d.month, e.month);
    }
  }

  // So a day number, and a second count, have one date.
  lemma DateIsUnique(d: Date, c: Clock, e: Date, b: Clock)
    requires ValidDate(d) && ValidClock(c) && ValidDate(e) && ValidClock(b)
    requires Seconds(d, c) == Seconds(e, b)
    ensures d == e && c == b
  {
    if Before(d, e) { LaterIsGreater(d, e); } else if Before(e, d) { LaterIsGreater(e, d); }
  }
}
