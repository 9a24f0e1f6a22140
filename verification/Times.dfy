// Broken-down time and the text of an HTTP date.
module Times {
  import opened Calendar

  const LastSecond: int := 253402300799    // December 31, 9999, 23:59:59
  const LastDay: int := 2932896

  datatype Tm = Tm(sec: nat, min: nat, hour: nat, mday: int, mon: int, year: nat, wday: nat)

  function DateOf(tm: Tm): Date { Date(tm.year, tm.mon, tm.mday) }

  function ClockOf(tm: Tm): Clock { Clock(tm.hour, tm.min, tm.sec) }

  // The time that is shown: none before 1970, none after 9999.
  function Shown(t: int): int {
    if t < 0 then 0 else if t / 86400 > LastDay then LastSecond else t
  }

  // Day 0 was a Thursday.
  function Weekday(day: int): nat { (4 + day) % 7 }

  // What a broken-down time must say of a second count.
  ghost predicate Tells(tm: Tm, t: int) {
    && ValidDate(DateOf(tm)) && ValidClock(ClockOf(tm)) && Seconds(DateOf(tm), ClockOf(tm)) == t
    && tm.wday == Weekday(DayNumber(DateOf(tm)))
  }

  // ----- the guesses of the algorithm

  function YearGuess(days: nat): nat { (days + 2) * 400 / (365 * 400 + 100 - 4 + 1) }

  // The guessed year is the one the day is in, counted from March, or the next.
  lemma YearGuessClose(days: nat)
    ensures var y := YearGuess(days);
      if days >= MarchDays(y) then days < MarchDays(y + 1)
      else y > 0 && MarchDays(y - 1) <= days
  {
    var y := YearGuess(days);
    var a, r := y / 400, y % 400;
    var b, s := r / 100, r % 100;
    var c, d := s / 4, s % 4;
    assert y == 400 * a + 100 * b + 4 * c + d && b < 4 && c < 25 && d < 4;
    assert y * 146097 <= (days + 2) * 400 < (y + 1) * 146097;
    MarchParts(a, b, c, d);
    MarchDaysGrow(y);
    if y > 0 { MarchDaysGrow(y - 1); }
  }

  lemma MarchParts(a: nat, b: nat, c: nat, d: nat)
    requires b < 4 && c < 25 && d < 4
    ensures MarchDays(400 * a + 100 * b + 4 * c + d) == 146097 * a + 36524 * b + 1461 * c + 365 * d
  {
    var y := 400 * a + 100 * b + 4 * c + d;
    assert y / 4 == 100 * a + 25 * b + c;
    assert y / 100 == 4 * a + b;
    assert y / 400 == a;
  }

  function MonthGuess(yday: nat): nat { (yday + 31) * 10 / 306 }

  lemma MonthGuessExact(yday: nat)
    requires yday < 366
    ensures var m := MonthGuess(yday);
      && 1 <= m <= 12 && MarchMonth(m) <= yday && (m < 12 ==> yday < MarchMonth(m + 1)) && (m > 10 <==> yday >= 306)
  {
  }

  // A day counted from March is a valid date, with its day number.
  lemma FromMarch(d: Date, days: nat, yday: nat)
    requires 1 <= d.month <= 12 && (d.month > 2 || d.year > 0)
    requires days == MarchDays(MarchYear(d)) + yday && yday < (if Leap(MarchYear(d) + 1) then 366 else 365)
    requires MarchIndex(d.month) == MonthGuess(yday) && d.day == yday - MarchMonth(MonthGuess(yday)) + 1
    ensures ValidDate(d) && DayNumber(d) == days - 719527 + 31 + 28
  {
    MonthGuessExact(yday);
    GaussIsDayNumber(d);
  }

  // The formulas, as the algorithm writes them.
  lemma Gauss(days: nat, year: nat)
    ensures YearGuess(days) == (days + 2) * 400 / (365 * 400 + 100 - 4 + 1)
    ensures MarchDays(year) == 365 * year + year / 4 - year / 100 + year / 400
    ensures Leap(year) <==> year % 4 == 0 && (year % 100 != 0 || year % 400 == 0)
  {
  }

  lemma GaussMonth(yday: nat)
    ensures MonthGuess(yday) == (yday + 31) * 10 / 306 && MarchMonth(MonthGuess(yday)) == 367 * MonthGuess(yday) / 12 - 30
  {
  }

  // The date of a day, by Gauss' formula.
  method CivilDay(day: nat) returns (d: Date)
    requires day <= LastDay
    ensures ValidDate(d) && DayNumber(d) == day
  {
    hide YearGuess, MonthGuess, MarchDays, MarchMonth, Leap, ValidDate, DayNumber;
    var days := day - (31 + 28) + 719527;
    var year: nat := (days + 2) * 400 / (365 * 400 + 100 - 4 + 1);
    YearGuessClose(days);
    Gauss(days, year);
    var yday := days - (365 * year + year / 4 - year / 100 + year / 400);
    if yday < 0 {
      MarchDaysGrow(year - 1);
      var leap := if year % 4 == 0 && (year % 100 != 0 || year % 400 == 0) then 1 else 0;
      yday := 365 + leap + yday;
      year := year - 1;
    } else {
      MarchDaysGrow(year);
    }
    var mon := (yday + 31) * 10 / 306;
    MonthGuessExact(yday);
    GaussMonth(yday);
    var mday := yday - (367 * mon / 12 - 30) + 1;
    if yday >= 306 {
      year := year + 1;
      mon := mon - 10;
    } else {
      mon := mon + 2;
    }
    d := Date(year, mon, mday);
    FromMarch(d, days, yday);
  }

  lemma ShownParts(t: nat)
    ensures t == t / 86400 * 86400 + t % 86400
    ensures t % 86400 == t % 86400 / 3600 * 3600 + t % 86400 % 3600
    ensures t % 86400 % 3600 == t % 86400 % 3600 / 60 * 60 + t % 86400 % 3600 % 60
  {
  }

  // ngx_gmtime: a negative time is shown as 0, one after 9999 as the last.
  method GmTime(t0: int) returns (tm: Tm)
    ensures Tells(tm, Shown(t0))
  {
    hide ValidDate, DayNumber;
    var t := t0;
    if t < 0 {
      t := 0;
    }
    var days, sec := t / 86400, t % 86400;
    ShownParts(t);
    if days > LastDay {
      days := LastDay;
      sec := 86399;
    }
    ghost var ofDay := sec;
    var wday := (4 + days) % 7;
    var hour := sec / 3600;
    sec := sec % 3600;
    var min := sec / 60;
    sec := sec % 60;
    var d := CivilDay(days);
    tm := Tm(sec, min, hour, d.day, d.month, d.year, wday);
    assert DateOf(tm) == d;
  }

  // The years shown are 1970 to 9999.
  lemma ShownYears(d: Date, c: Clock)
    requires ValidDate(d) && ValidClock(c) && 0 <= Seconds(d, c) <= LastSecond
    ensures 1970 <= d.year <= 9999
  {
    hide DayNumber, MonthDays;
    Bounds();
    if d.year < 1970 {
      LaterIsGreater(d, Date(1970, 1, 1));
    } else if d.year > 9999 {
      LaterIsGreater(Date(9999, 12, 31), d);
    }
  }

  lemma Bounds()
    ensures ValidDate(Date(1970, 1, 1)) && DayNumber(Date(1970, 1, 1)) == 0
    ensures ValidDate(Date(9999, 12, 31)) && DayNumber(Date(9999, 12, 31)) == LastDay
  {
    hide DayNumber;
    GaussIsDayNumber(Date(1970, 1, 1));
    GaussIsDayNumber(Date(9999, 12, 31));
  }
}
