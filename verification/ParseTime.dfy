// The text of an HTTP date and its parser.
module ParseTime {
  import opened Calendar
  import opened Times
  import opened Options

  // ----- printing

  const Weekdays: seq<string> := ["Sun", "Mon", "Tue", "Wed", "Thu", "Fri", "Sat"]
  const Months: seq<string> := ["Jan", "Feb", "Mar", "Apr", "May", "Jun", "Jul", "Aug", "Sep", "Oct", "Nov", "Dec"]

  function DigitChar(n: nat): char
    requires n < 10
  {
    '0' + n as char
  }

  function Two(n: nat): (s: string)
    requires n < 100
    ensures |s| == 2
  {
    [DigitChar(n / 10), DigitChar(n % 10)]
  }

  function Four(n: nat): (s: string)
    requires n < 10000
    ensures |s| == 4
  {
    Two(n / 100) + Two(n % 100)
  }

  function ClockText(c: Clock): (s: string)
    requires ValidClock(c)
    ensures |s| == 8
  {
    Two(c.hour) + ":" + Two(c.min) + ":" + Two(c.sec)
  }

  // "%s, %02d %s %4d %02d:%02d:%02d GMT"
  function Text(d: Date, c: Clock, wday: nat): string
    requires ValidDate(d) && ValidClock(c) && wday < 7 && 1000 <= d.year < 10000
  {
    Weekdays[wday] + ", " + Two(d.day) + " " + Months[d.month - 1] + " " + Four(d.year) + " " + ClockText(c) + " GMT"
  }

  // ----- reading fixed positions

  predicate Digits(s: string, i: nat, n: nat) {
    i + n <= |s| && forall k :: i <= k < i + n ==> '0' <= s[k] <= '9'
  }

  function DigitAt(s: string, i: nat): nat
    requires Digits(s, i, 1)
  {
    (s[i] - '0') as nat
  }

  function TwoAt(s: string, i: nat): (n: nat)
    requires Digits(s, i, 2)
    ensures n < 100
  {
    DigitAt(s, i) * 10 + DigitAt(s, i + 1)
  }

  function FourAt(s: string, i: nat): (n: nat)
    requires Digits(s, i, 4)
    ensures n < 10000
  {
    DigitAt(s, i) * 1000 + DigitAt(s, i + 1) * 100 + DigitAt(s, i + 2) * 10 + DigitAt(s, i + 3)
  }

  // The month from 0 on, told apart by as few letters as will do.
  function MonthAt(s: string, i: nat): (m: Option<nat>)
    requires i + 3 <= |s|
    ensures m.Some? ==> m.value < 12
  {
    match s[i]
    case 'J' => Some(if s[i + 1] == 'a' then 0 else if s[i + 2] == 'n' then 5 else 6)
    case 'F' => Some(1)
    case 'M' => Some(if s[i + 2] == 'r' then 2 else 4)
    case 'A' => Some(if s[i + 1] == 'p' then 3 else 7)
    case 'S' => Some(8)
    case 'O' => Some(9)
    case 'N' => Some(10)
    case 'D' => Some(11)
    case _ => None
  }

  // month counts from 0; nothing is known of the ranges.
  datatype Fields = Fields(year: nat, month: nat, day: nat, hour: nat, min: nat, sec: nat)

  predicate ClockAt(s: string, i: nat) {
    Digits(s, i, 2) && Digits(s, i + 3, 2) && Digits(s, i + 6, 2) && s[i + 2] == ':' && s[i + 5] == ':'
  }

  function WithClock(s: string, i: nat, year: nat, month: nat, day: nat): Fields
    requires ClockAt(s, i)
  {
    Fields(year, month, day, TwoAt(s, i), TwoAt(s, i + 3), TwoAt(s, i + 6))
  }

  // 10 Nov 2002 23:50:13
  function Rfc822At(s: string, p: nat): Option<Fields>
    requires p + 20 <= |s| && Digits(s, p, 2)
  {
    if MonthAt(s, p + 3).Some? && s[p + 6] == ' ' && Digits(s, p + 7, 4) && s[p + 11] == ' ' && ClockAt(s, p + 12)
    then Some(WithClock(s, p + 12, FourAt(s, p + 7), MonthAt(s, p + 3).value, TwoAt(s, p)))
    else None
  }

  // Two digits of a year mean 1970 to 2069.
  function Century(yy: nat): nat { if yy < 70 then yy + 2000 else yy + 1900 }

  // 10-Dec-02 23:50:13
  function Rfc850At(s: string, p: nat): Option<Fields>
    requires p + 18 <= |s| && Digits(s, p, 2)
  {
    if MonthAt(s, p + 3).Some? && s[p + 6] == '-' && Digits(s, p + 7, 2) && s[p + 9] == ' ' && ClockAt(s, p + 10)
    then Some(WithClock(s, p + 10, Century(TwoAt(s, p + 7)), MonthAt(s, p + 3).value, TwoAt(s, p)))
    else None
  }

  // Dec 10 23:50:13 2002, the day with one digit or two
  function AsctimeAt(s: string, p: nat): Option<Fields>
    requires p + 18 <= |s|
  {
    var q := if s[p + 4] == ' ' then p + 5 else p + 4;
    if MonthAt(s, p).None? || !Digits(s, q, 1) then None
    else if s[q + 1] == ' ' then AsctimeRest(s, q + 1, MonthAt(s, p).value, DigitAt(s, q))
    else if !Digits(s, q, 2) then None
    else AsctimeRest(s, q + 2, MonthAt(s, p).value, TwoAt(s, q))
  }

  function AsctimeRest(s: string, e: nat, month: nat, day: nat): Option<Fields> {
    if |s| >= e + 14 && s[e] == ' ' && ClockAt(s, e + 1) && s[e + 9] == ' ' && Digits(s, e + 10, 4)
    then Some(WithClock(s, e + 1, FourAt(s, e + 10), month, day))
    else None
  }

  // The position of the first comma or space, and of what follows the spaces.
  function Separator(s: string, i: nat): (k: nat)
    requires i <= |s|
    ensures i <= k <= |s| && (k < |s| ==> s[k] == ',' || s[k] == ' ') && forall j :: i <= j < k ==> s[j] != ',' && s[j] != ' '
    decreases |s| - i
  {
    if i < |s| && s[i] != ',' && s[i] != ' ' then Separator(s, i + 1) else i
  }

  function PastSpaces(s: string, i: nat): (k: nat)
    ensures i <= k && (i <= |s| ==> k <= |s|) && (k < |s| ==> s[k] != ' ') && forall j :: i <= j < k && j < |s| ==> s[j] == ' '
    decreases |s| - i
  {
    if i < |s| && s[i] == ' ' then PastSpaces(s, i + 1) else i
  }

  // What the text says, in one of the three formats.
  function FieldsOf(s: string): Option<Fields> {
    var k := Separator(s, 0);
    var p := PastSpaces(s, k + 1);
    if p + 18 > |s| then None
    else if s[k] == ' ' then AsctimeAt(s, p)
    else if !Digits(s, p, 2) then None
    else if s[p + 2] == ' ' then (if p + 20 <= |s| then Rfc822At(s, p) else None)
    else if s[p + 2] == '-' then Rfc850At(s, p)
    else None
  }

  // ----- the instant

  predicate InRange(f: Fields) {
    f.month < 12 && f.hour < 24 && f.min < 60 && f.sec < 60 && f.day <= MonthDays(f.year, f.month + 1)
  }

  const TwoTo64: int := 0x1_0000_0000_0000_0000

  function Wrap(x: int): (r: int)
    ensures 0 <= r < TwoTo64
  {
    x % TwoTo64
  }

  function Signed(x: int): int
    requires 0 <= x < TwoTo64
  {
    if x < TwoTo64 / 2 then x else x - TwoTo64
  }

  // Gauss' formula in 64-bit unsigned arithmetic, read back as a signed time.
  function Stamp(f: Fields): int {
    var month := if f.month <= 1 then f.month + 11 else f.month - 1;
    var year := if f.month <= 1 then Wrap(f.year - 1) else f.year;
    var days := 365 * year + year / 4 - year / 100 + year / 400 + 367 * month / 12 - 30 + f.day - 1 - 719527 + 31 + 28;
    Signed(Wrap(days * 86400 + f.hour * 3600 + f.min * 60 + f.sec))
  }

  // The instant the fields mean; the day 0 is the last of the month before.
  function Instant(f: Fields): int
    requires InRange(f)
  {
    Seconds(Date(f.year, f.month + 1, 1), Clock(f.hour, f.min, f.sec)) + (f.day - 1) * 86400
  }

  function Parse(s: string): Option<int> {
    match FieldsOf(s)
    case None => None
    case Some(f) => if InRange(f) then Some(Stamp(f)) else None
  }

  lemma NoWrap(f: Fields)
    requires InRange(f) && f.year < 10000 && (f.year > 0 || f.month > 1)
    ensures var y, m := if f.month <= 1 then f.year - 1 else f.year, if f.month <= 1 then f.month + 11 else f.month - 1;
      Stamp(f) == (MarchDays(y) + MarchMonth(m) + f.day - 1 - 719527 + 31 + 28) * 86400 + f.hour * 3600 + f.min * 60 + f.sec
  {
    hide Signed, Wrap, MonthDays;
    var y, m := if f.month <= 1 then f.year - 1 else f.year, if f.month <= 1 then f.month + 11 else f.month - 1;
    var days := MarchDays(y) + MarchMonth(m) + f.day - 1 - 719527 + 31 + 28;
    DayBelow(f);
    SmallWrap(f.year - 1);
    var x := days * 86400 + f.hour * 3600 + f.min * 60 + f.sec;
    assert -719527 <= days < 4000000;
    assert -TwoTo64 / 2 <= x < TwoTo64 / 2;
    SignedWrap(x);
  }

  lemma DayBelow(f: Fields)
    requires InRange(f)
    ensures f.day <= 31
  {
  }

  lemma SmallWrap(x: int)
    ensures 0 <= x < TwoTo64 ==> Wrap(x) == x
  {
  }

  lemma SignedWrap(x: int)
    requires -TwoTo64 / 2 <= x < TwoTo64 / 2
    ensures Signed(Wrap(x)) == x
  {
  }

  // In January and February of the year 0 the year is 2^64 - 1, whose quotients
  // are not those of -1.
  lemma YearZero(f: Fields)
    requires InRange(f) && f.year == 0 && f.month <= 1
    ensures Stamp(f) != Instant(f)
  {
    hide DayNumber, Signed, Wrap;
    var m := 367 * (f.month + 11) / 12 - 30 + f.day - 1 - 719527 + 31 + 28;
    var s := f.hour * 3600 + f.min * 60 + f.sec;
    InstantYearZero(f);
    Quotients();
    var days := 365 * (TwoTo64 - 1) + 4611686018427387903 - 184467440737095516 + 46116860184273879 + m;
    assert Stamp(f) == Signed(Wrap(days * 86400 + s));
    ZeroDiffers(m, s);
  }

  lemma Quotients()
    ensures Wrap(-1) == TwoTo64 - 1
    ensures (TwoTo64 - 1) / 4 == 4611686018427387903
    ensures (TwoTo64 - 1) / 100 == 184467440737095516
    ensures (TwoTo64 - 1) / 400 == 46116860184273879
  {
  }

  lemma InstantYearZero(f: Fields)
    requires InRange(f) && f.year == 0 && f.month <= 1
    ensures Instant(f) == (367 * (f.month + 11) / 12 - 30 + f.day - 1 - 719527 + 31 + 28 - 366) * 86400 + f.hour * 3600 + f.min * 60 + f.sec
  {
    YearStartFormula(1970);
    MonthStartFormula(0, f.month + 1);
  }

  lemma ZeroDiffers(m: int, s: int)
    ensures Signed(Wrap((365 * (TwoTo64 - 1) + 4611686018427387903 - 184467440737095516 + 46116860184273879 + m) * 86400 + s))
         != (m - 366) * 86400 + s
  {
    var x := (365 * (TwoTo64 - 1) + 4611686018427387903 - 184467440737095516 + 46116860184273879 + m) * 86400 + s;
    var z := (m - 366) * 86400 + s;
    assert x - z == (365 * TwoTo64 + 4473335437874566267) * 86400;
    assert (x - z) % TwoTo64 != 0;
    WrapDiffers(x, z);
  }

  lemma WrapDiffers(x: int, z: int)
    requires (x - z) % TwoTo64 != 0
    ensures Signed(Wrap(x)) != z
  {
    var k := x / TwoTo64;
    var w := Signed(Wrap(x));
    assert x == k * TwoTo64 + Wrap(x);
    assert x - w == k * TwoTo64 || x - w == (k + 1) * TwoTo64;
  }

  // The formula gives the instant, except in January and February of the year
  // 0, where the year wraps around.
  lemma StampIsInstant(f: Fields)
    requires InRange(f) && f.year < 10000
    ensures Stamp(f) == Instant(f) <==> f.year > 0 || f.month > 1
  {
    var d := Date(f.year, f.month + 1, 1);
    if f.year > 0 || f.month > 1 {
      GaussIsDayNumber(d);
      NoWrap(f);
    } else {
      YearZero(f);
    }
  }

  // ----- round trips

  lemma MonthText(m: nat, s: string, i: nat)
    requires m < 12 && i + 3 <= |s| && s[i..i + 3] == Months[m]
    ensures MonthAt(s, i) == Some(m)
  {
    assert s[i] == Months[m][0] && s[i + 1] == Months[m][1] && s[i + 2] == Months[m][2];
  }

  lemma TwoText(n: nat, s: string, i: nat)
    requires n < 100 && i + 2 <= |s| && s[i..i + 2] == Two(n)
    ensures Digits(s, i, 2) && TwoAt(s, i) == n
  {
    assert s[i] == Two(n)[0] && s[i + 1] == Two(n)[1];
  }

  lemma FourText(n: nat, s: string, i: nat)
    requires n < 10000 && i + 4 <= |s| && s[i..i + 4] == Four(n)
    ensures Digits(s, i, 4) && FourAt(s, i) == n
  {
    Part(s, Four(n), i, 0, 2);
    Part(s, Four(n), i, 2, 4);
    TwoText(n / 100, s, i);
    TwoText(n % 100, s, i + 2);
  }

  lemma Part(s: string, x: string, i: nat, a: nat, b: nat)
    requires i + |x| <= |s| && s[i..i + |x|] == x && a <= b <= |x|
    ensures s[i + a..i + b] == x[a..b]
  {
    forall k | 0 <= k < b - a ensures s[i + a..i + b][k] == x[a..b][k] {
      assert s[i..i + |x|][a + k] == s[i + (a + k)];
    }
  }

  lemma ClockTextAt(c: Clock, s: string, i: nat)
    requires ValidClock(c) && i + 8 <= |s| && s[i..i + 8] == ClockText(c)
    ensures ClockAt(s, i) && TwoAt(s, i) == c.hour && TwoAt(s, i + 3) == c.min && TwoAt(s, i + 6) == c.sec
  {
    var x := ClockText(c);
    assert x[2] == ':' && x[5] == ':' && x[..2] == Two(c.hour) && x[3..5] == Two(c.min) && x[6..8] == Two(c.sec);
    Part(s, x, i, 0, 2);
    Part(s, x, i, 3, 5);
    Part(s, x, i, 6, 8);
    assert s[i + 2] == s[i..i + 8][2] && s[i + 5] == s[i..i + 8][5];
    TwoText(c.hour, s, i);
    TwoText(c.min, s, i + 3);
    TwoText(c.sec, s, i + 6);
  }

  // Where the parts of the text are.
  lemma TextParts(d: Date, c: Clock, wday: nat)
    requires ValidDate(d) && ValidClock(c) && wday < 7 && 1000 <= d.year < 10000
    ensures var s := Text(d, c, wday);
      && |s| == 29 && s[3] == ',' && s[4] == ' ' && s[7] == ' ' && s[11] == ' ' && s[16] == ' '
      && (forall j :: 0 <= j < 3 ==> s[j] != ',' && s[j] != ' ')
      && s[5..7] == Two(d.day) && s[8..11] == Months[d.month - 1] && s[12..16] == Four(d.year) && s[17..25] == ClockText(c)
  {
    hide Two, Four, ClockText;
    var w, s := Weekdays[wday], Text(d, c, wday);
    assert |w| == 3 && forall j :: 0 <= j < 3 ==> w[j] != ',' && w[j] != ' ';
    assert |Months[d.month - 1]| == 3;
    assert s[..3] == w;
  }

  // Parsing the text of a date gives its instant.
  lemma TextParses(d: Date, c: Clock, wday: nat)
    requires ValidDate(d) && ValidClock(c) && wday < 7 && 1000 <= d.year < 10000
    ensures Parse(Text(d, c, wday)) == Some(Seconds(d, c))
  {
    hide Text, FieldsOf, Stamp, Instant;
    TextParts(d, c, wday);
    FieldsRead(Text(d, c, wday), d, c);
    var f := Fields(d.year, d.month - 1, d.day, c.hour, c.min, c.sec);
    StampIsInstant(f);
    FirstOfMonth(d, c);
  }

  lemma FirstOfMonth(d: Date, c: Clock)
    requires ValidDate(d) && ValidClock(c)
    ensures InRange(Fields(d.year, d.month - 1, d.day, c.hour, c.min, c.sec))
    ensures Instant(Fields(d.year, d.month - 1, d.day, c.hour, c.min, c.sec)) == Seconds(d, c)
  {
  }

  lemma FieldsRead(s: string, d: Date, c: Clock)
    requires ValidDate(d) && ValidClock(c) && 1000 <= d.year < 10000
    requires |s| == 29 && s[3] == ',' && s[4] == ' ' && s[7] == ' ' && s[11] == ' ' && s[16] == ' '
    requires forall j :: 0 <= j < 3 ==> s[j] != ',' && s[j] != ' '
    requires s[5..7] == Two(d.day) && s[8..11] == Months[d.month - 1] && s[12..16] == Four(d.year) && s[17..25] == ClockText(c)
    ensures FieldsOf(s) == Some(Fields(d.year, d.month - 1, d.day, c.hour, c.min, c.sec))
  {
    hide ClockText, Four, Two, MonthAt;
    TwoText(d.day, s, 5);
    MonthText(d.month - 1, s, 8);
    FourText(d.year, s, 12);
    ClockTextAt(c, s, 17);
    assert Separator(s, 0) == 3;
    assert s[5] != ' ';
    assert PastSpaces(s, 4) == 5;
  }

  // ----- the parser

  datatype Format = Rfc822 | Rfc850 | Isoc

  // Passes over the weekday: to the first comma or space and the spaces after.
  method SkipWeekday(s: string) returns (p: nat, isoc: bool)
    ensures var k := Separator(s, 0); p == PastSpaces(s, k + 1) && (isoc <==> k < |s| && s[k] == ' ')
  {
    p, isoc := 0, false;
    while p < |s|
      invariant p <= |s| && !isoc && Separator(s, 0) == Separator(s, p)
    {
      if s[p] == ',' {
        break;
      }
      if s[p] == ' ' {
        isoc := true;
        break;
      }
      p := p + 1;
    }
    p := p + 1;
    ghost var k := p;
    while p < |s|
      invariant p >= k && PastSpaces(s, k) == PastSpaces(s, p)
    {
      if s[p] != ' ' {
        break;
      }
      p := p + 1;
    }
  }

  // hh:mm:ss, with a space before it.
  method ReadClock(s: string, p0: nat) returns (clock: Option<(nat, nat, nat)>)
    requires p0 + 9 <= |s|
    ensures clock == if s[p0] == ' ' && ClockAt(s, p0 + 1)
                     then Some((TwoAt(s, p0 + 1), TwoAt(s, p0 + 4), TwoAt(s, p0 + 7))) else None
  {
    var p := p0;
    if s[p] != ' ' {
      return None;
    }
    p := p + 1;
    if !Digits(s, p, 2) {
      return None;
    }
    var hour := TwoAt(s, p);
    p := p + 2;
    if s[p] != ':' {
      return None;
    }
    p := p + 1;
    if !Digits(s, p, 2) {
      return None;
    }
    var min := TwoAt(s, p);
    p := p + 2;
    if s[p] != ':' {
      return None;
    }
    p := p + 1;
    if !Digits(s, p, 2) {
      return None;
    }
    var sec := TwoAt(s, p);
    return Some((hour, min, sec));
  }

  // The month and the year that follow the day.
  method ReadMonthYear(s: string, p0: nat, fmt: Format) returns (r: Option<(nat, nat)>, p: nat)
    requires p0 + (if fmt == Rfc822 then 17 else 15) <= |s| && fmt != Isoc
    ensures var sep := if fmt == Rfc822 then ' ' else '-';
      r == if MonthAt(s, p0).None? || s[p0 + 3] != sep then None
           else if fmt == Rfc822 then (if Digits(s, p0 + 4, 4) then Some((MonthAt(s, p0).value, FourAt(s, p0 + 4))) else None)
           else if Digits(s, p0 + 4, 2) then Some((MonthAt(s, p0).value, Century(TwoAt(s, p0 + 4))))
           else None
    ensures r.Some? ==> p == p0 + if fmt == Rfc822 then 8 else 6
  {
    p := p0;
    var month := MonthAt(s, p);
    if month == None {
      return None, p;
    }
    p := p + 3;
    if (fmt == Rfc822 && s[p] != ' ') || (fmt == Rfc850 && s[p] != '-') {
      return None, p;
    }
    p := p + 1;
    var year;
    if fmt == Rfc822 {
      if !Digits(s, p, 4) {
        return None, p;
      }
      year := FourAt(s, p);
      p := p + 4;
    } else {
      if !Digits(s, p, 2) {
        return None, p;
      }
      year := TwoAt(s, p);
      year := year + if year < 70 then 2000 else 1900;
      p := p + 2;
    }
    r := Some((month.value, year));
  }

  // The month and the day of the third format.
  method ReadMonthDay(s: string, p0: nat) returns (r: Option<(nat, nat)>, p: nat)
    requires p0 + 18 <= |s|
    ensures r.Some? ==> p + 14 <= |s|
    ensures AsctimeAt(s, p0) == if r.None? then None else AsctimeRest(s, p, r.value.0, r.value.1)
  {
    p := p0;
    var month := MonthAt(s, p);
    if month == None {
      return None, p;
    }
    p := p + 3;
    p := p + 1;
    if s[p] == ' ' {
      p := p + 1;
    }
    if !Digits(s, p, 1) {
      return None, p;
    }
    var day := DigitAt(s, p);
    p := p + 1;
    if s[p] != ' ' {
      if !Digits(s, p, 1) {
        return None, p;
      }
      day := day * 10 + DigitAt(s, p);
      p := p + 1;
    }
    if |s| - p < 14 {
      return None, p;
    }
    r := Some((month.value, day));
  }

  // The fields, by one cursor that never leaves the text.
  method ReadFields(s: string) returns (f: Option<Fields>)
    ensures f == FieldsOf(s)
  {
    hide Rfc822At, Rfc850At, AsctimeAt, Digits;
    var p, isoc := SkipWeekday(s);
    if p > |s| || |s| - p < 18 {
      return None;
    }
    if isoc {
      f := ReadAsctime(s, p);
    } else {
      f := ReadDated(s, p);
    }
  }

  // Dec 10 23:50:13 2002
  method ReadAsctime(s: string, p0: nat) returns (f: Option<Fields>)
    requires p0 + 18 <= |s|
    ensures f == AsctimeAt(s, p0)
  {
    var md, p := ReadMonthDay(s, p0);
    if md == None {
      return None;
    }
    var clock := ReadClock(s, p);
    if clock == None {
      return None;
    }
    p := p + 9;
    if s[p] != ' ' {
      return None;
    }
    p := p + 1;
    if !Digits(s, p, 4) {
      return None;
    }
    f := Some(Fields(FourAt(s, p), md.value.0, md.value.1, clock.value.0, clock.value.1, clock.value.2));
  }

  // 10 Nov 2002 23:50:13 or 10-Dec-02 23:50:13
  method ReadDated(s: string, p0: nat) returns (f: Option<Fields>)
    requires p0 + 18 <= |s|
    ensures f == if !Digits(s, p0, 2) then None
                 else if s[p0 + 2] == ' ' then (if p0 + 20 <= |s| then Rfc822At(s, p0) else None)
                 else if s[p0 + 2] == '-' then Rfc850At(s, p0)
                 else None
  {
    hide MonthAt, FourAt, TwoAt, Century;
    var p := p0;
    if !Digits(s, p, 2) {
      return None;
    }
    var day := TwoAt(s, p);
    p := p + 2;
    var fmt;
    if s[p] == ' ' {
      if |s| - p < 18 {
        return None;
      }
      fmt := Rfc822;
    } else if s[p] == '-' {
      fmt := Rfc850;
    } else {
      return None;
    }
    p := p + 1;
    var my;
    my, p := ReadMonthYear(s, p, fmt);
    if my == None {
      return None;
    }
    var clock := ReadClock(s, p);
    if clock == None {
      return None;
    }
    f := Some(Fields(my.value.1, my.value.0, day, clock.value.0, clock.value.1, clock.value.2));
  }

  const MonthLengths: seq<nat> := [31, 28, 31, 30, 31, 30, 31, 31, 30, 31, 30, 31]

  // ngx_parse_http_time; -1 is NGX_ERROR.
  method ParseHttpTime(s: string) returns (time: int)
    ensures time == match Parse(s) case None => -1 case Some(t) => t
  {
    var fields := ReadFields(s);
    if fields == None {
      return -1;
    }
    var f := fields.value;
    MonthBelow(s);
    if f.hour > 23 || f.min > 59 || f.sec > 59 {
      return -1;
    }
    if f.day == 29 && f.month == 1 {
      if f.year % 4 != 0 || (f.year % 100 == 0 && f.year % 400 != 0) {
        return -1;
      }
    } else if f.day > MonthLengths[f.month] {
      return -1;
    }
    time := Stamp(f);
  }

  lemma MonthBelow(s: string)
    ensures FieldsOf(s).Some? ==> FieldsOf(s).value.month < 12 && FieldsOf(s).value.year < 10000
  {
    hide Digits, ClockAt, TwoAt, FourAt, MonthAt;
  }

  // ngx_http_time
  method HttpTime(t: int) returns (s: string)
    ensures Parse(s) == Some(Shown(t))
    ensures exists tm :: Tells(tm, Shown(t)) && 1970 <= tm.year < 10000 && s == Text(DateOf(tm), ClockOf(tm), tm.wday)
  {
    hide DayNumber;
    var tm := GmTime(t);
    ShownYears(DateOf(tm), ClockOf(tm));
    s := Weekdays[tm.wday] + ", " + Two(tm.mday) + " " + Months[tm.mon - 1] + " " + Four(tm.year) + " "
         + (Two(tm.hour) + ":" + Two(tm.min) + ":" + Two(tm.sec)) + " GMT";
    TextParses(DateOf(tm), ClockOf(tm), tm.wday);
  }

  // Showing the instant of a date gives the date back.
  method ShowDate(d: Date, c: Clock) returns (tm: Tm)
    requires ValidDate(d) && ValidClock(c) && 0 <= Seconds(d, c) <= LastSecond
    ensures DateOf(tm) == d && ClockOf(tm) == c && tm.wday == Weekday(DayNumber(d))
  {
    hide DayNumber, MonthDays, ValidDate;
    tm := GmTime(Seconds(d, c));
    DateIsUnique(DateOf(tm), ClockOf(tm), d, c);
  }

  // ----- the other two formats

  // "Tue Dec 10 23:50:13 2002", days below 10 after a space
  function Asctime(d: Date, c: Clock, wday: nat): string
    requires ValidDate(d) && ValidClock(c) && wday < 7 && d.year < 10000
  {
    Weekdays[wday] + " " + Months[d.month - 1] + " " + (if d.day < 10 then [' ', DigitChar(d.day)] else Two(d.day)) + " "
    + ClockText(c) + " " + Four(d.year)
  }

  lemma AsctimeParts(d: Date, c: Clock, wday: nat)
    requires ValidDate(d) && ValidClock(c) && wday < 7 && d.year < 10000
    ensures var s := Asctime(d, c, wday);
      && |s| == 24 && s[3] == ' ' && s[7] == ' ' && s[10] == ' ' && s[19] == ' '
      && (forall j :: 0 <= j < 3 ==> s[j] != ',' && s[j] != ' ')
      && s[4..7] == Months[d.month - 1] && s[11..19] == ClockText(c) && s[20..24] == Four(d.year)
      && (if d.day < 10 then s[8] == ' ' && s[9] == DigitChar(d.day) else s[8..10] == Two(d.day))
  {
    hide Two, Four, ClockText;
    var w, s := Weekdays[wday], Asctime(d, c, wday);
    var day := if d.day < 10 then [' ', DigitChar(d.day)] else Two(d.day);
    assert s[8..10] == day;
    assert |w| == 3 && forall j :: 0 <= j < 3 ==> w[j] != ',' && w[j] != ' ';
    assert |Months[d.month - 1]| == 3;
    assert s[..3] == w;
  }

  lemma AsctimeRead(s: string, d: Date, c: Clock)
    requires ValidDate(d) && ValidClock(c) && d.year < 10000
    requires |s| == 24 && s[3] == ' ' && s[7] == ' ' && s[10] == ' ' && s[19] == ' '
    requires forall j :: 0 <= j < 3 ==> s[j] != ',' && s[j] != ' '
    requires s[4..7] == Months[d.month - 1] && s[11..19] == ClockText(c) && s[20..24] == Four(d.year)
    requires if d.day < 10 then s[8] == ' ' && s[9] == DigitChar(d.day) else s[8..10] == Two(d.day)
    ensures FieldsOf(s) == Some(Fields(d.year, d.month - 1, d.day, c.hour, c.min, c.sec))
  {
    hide ClockText, Four, MonthAt;
    MonthText(d.month - 1, s, 4);
    assert s[4] == Months[d.month - 1][0];
    FourText(d.year, s, 20);
    ClockTextAt(c, s, 11);
    if d.day >= 10 {
      TwoText(d.day, s, 8);
      assert s[8] == Two(d.day)[0];
    }
    assert Separator(s, 0) == 3;
    assert PastSpaces(s, 4) == 4;
  }

  lemma AsctimeParses(d: Date, c: Clock, wday: nat)
    requires ValidDate(d) && ValidClock(c) && wday < 7 && d.year < 10000
    ensures Parse(Asctime(d, c, wday)) == Some(Seconds(d, c)) <==> d.year > 0 || d.month > 2
  {
    hide Asctime, FieldsOf, Stamp, Instant;
    AsctimeParts(d, c, wday);
    AsctimeRead(Asctime(d, c, wday), d, c);
    StampIsInstant(Fields(d.year, d.month - 1, d.day, c.hour, c.min, c.sec));
    FirstOfMonth(d, c);
  }

  // "Tuesday, 10-Dec-02 23:50:13 GMT"
  function Rfc850Text(name: string, d: Date, c: Clock): string
    requires ValidDate(d) && ValidClock(c)
  {
    name + ", " + Two(d.day) + "-" + Months[d.month - 1] + "-" + Two(d.year % 100) + " " + ClockText(c) + " GMT"
  }

  predicate Name(name: string) { forall j :: 0 <= j < |name| ==> name[j] != ',' && name[j] != ' ' }

  lemma Rfc850Parts(name: string, d: Date, c: Clock)
    requires ValidDate(d) && ValidClock(c) && Name(name)
    ensures var s, k := Rfc850Text(name, d, c), |name|;
      && |s| == k + 24 && s[k] == ',' && s[k + 1] == ' ' && s[k + 4] == '-' && s[k + 8] == '-' && s[k + 11] == ' '
      && (forall j :: 0 <= j < k ==> s[j] != ',' && s[j] != ' ')
      && s[k + 2..k + 4] == Two(d.day) && s[k + 5..k + 8] == Months[d.month - 1]
      && s[k + 9..k + 11] == Two(d.year % 100) && s[k + 12..k + 20] == ClockText(c)
  {
    hide Two, Four, ClockText;
    var s := Rfc850Text(name, d, c);
    assert |Months[d.month - 1]| == 3;
    assert forall j :: 0 <= j < |name| ==> s[j] == name[j];
  }

  lemma Rfc850Read(s: string, k: nat, d: Date, c: Clock)
    requires ValidDate(d) && ValidClock(c) && 1970 <= d.year < 2070
    requires |s| == k + 24 && s[k] == ',' && s[k + 1] == ' ' && s[k + 4] == '-' && s[k + 8] == '-' && s[k + 11] == ' '
    requires forall j :: 0 <= j < k ==> s[j] != ',' && s[j] != ' '
    requires s[k + 2..k + 4] == Two(d.day) && s[k + 5..k + 8] == Months[d.month - 1]
    requires s[k + 9..k + 11] == Two(d.year % 100) && s[k + 12..k + 20] == ClockText(c)
    ensures FieldsOf(s) == Some(Fields(d.year, d.month - 1, d.day, c.hour, c.min, c.sec))
  {
    hide ClockText, Two, MonthAt;
    TwoText(d.day, s, k + 2);
    MonthText(d.month - 1, s, k + 5);
    TwoText(d.year % 100, s, k + 9);
    ClockTextAt(c, s, k + 12);
    assert Century(d.year % 100) == d.year;
    assert Separator(s, 0) == k;
    assert s[k + 2] != ' ';
    assert PastSpaces(s, k + 1) == k + 2;
  }

  lemma Rfc850Parses(name: string, d: Date, c: Clock)
    requires ValidDate(d) && ValidClock(c) && Name(name) && 1970 <= d.year < 2070
    ensures Parse(Rfc850Text(name, d, c)) == Some(Seconds(d, c))
  {
    hide Rfc850Text, FieldsOf, Stamp, Instant;
    Rfc850Parts(name, d, c);
    Rfc850Read(Rfc850Text(name, d, c), |name|, d, c);
    StampIsInstant(Fields(d.year, d.month - 1, d.day, c.hour, c.min, c.sec));
    FirstOfMonth(d, c);
  }

  // ----- the value that reports an error

  lemma WrapWhole(x: int, z: int)
    requires x == z + 31556952 * TwoTo64 && -TwoTo64 / 2 <= z < TwoTo64 / 2
    ensures Signed(Wrap(x)) == z
  {
    assert Wrap(x) == Wrap(z);
    SignedWrap(z);
  }

  // January and February of the year 0 come out far before 1970.
  lemma YearZeroFar(f: Fields)
    requires InRange(f) && f.year == 0 && f.month <= 1
    ensures Stamp(f) < -86400
  {
    hide Signed, Wrap;
    var m := 367 * (f.month + 11) / 12 - 30 + f.day - 1 - 719527 + 31 + 28;
    var s := f.hour * 3600 + f.min * 60 + f.sec;
    Quotients();
    DayBelow(f);
    var x := (365 * (TwoTo64 - 1) + 4611686018427387903 - 184467440737095516 + 46116860184273879 + m) * 86400 + s;
    assert Stamp(f) == Signed(Wrap(x));
    WrapWhole(x, x - 31556952 * TwoTo64);
  }

  // The last second of 1969, under the name of the day 0 of 1970 too.
  predicate JustBefore1970(f: Fields) {
    f == Fields(1969, 11, 31, 23, 59, 59) || f == Fields(1970, 0, 0, 23, 59, 59)
  }

  lemma InstantParts(f: Fields)
    requires InRange(f)
    ensures Instant(f) == (YearStart(f.year) + MonthStart(f.year, f.month + 1) + f.day - 1 - YearStart(1970)) * 86400 + f.hour * 3600 + f.min * 60 + f.sec
  {
  }

  lemma InstantBefore1970(f: Fields)
    requires InRange(f)
    ensures Instant(f) == -1 <==> JustBefore1970(f)
    ensures f.year >= 1970 && f.day >= 1 ==> Instant(f) >= 0
  {
    hide Instant, MonthDays;
    InstantParts(f);
    MonthStartFormula(f.year, f.month + 1);
    DayBelow(f);
    var days := MonthStart(f.year, f.month + 1) + f.day - 1;
    YearParts(f);
    if f.year > 1970 {
      YearsGrow(1970, f.year);
    } else if f.year < 1969 {
      YearsGrow(f.year, 1969);
      YearsGrow(1969, 1970);
    } else if f.year == 1969 {
      YearsGrow(1969, 1970);
      assert YearStart(1970) == YearStart(1969) + 365;
    }
  }

  // A day of the year, counted from 0, or the one before it.
  lemma YearParts(f: Fields)
    requires InRange(f)
    ensures var days := MonthStart(f.year, f.month + 1) + f.day - 1;
      && -1 <= days < (if Leap(f.year) then 366 else 365)
      && (days == -1 <==> f.month == 0 && f.day == 0)
      && (days == (if Leap(f.year) then 365 else 364) <==> f.month == 11 && f.day == 31)
  {
    MonthStartFormula(f.year, f.month + 1);
  }

  // An error is told from a time by the result exactly if the text does not name
  // the last second of 1969, so always from 1970 on, the day 0 aside.
  lemma ErrorIsAmbiguousIff(s: string)
    ensures Parse(s) == Some(-1) <==> FieldsOf(s).Some? && JustBefore1970(FieldsOf(s).value)
    ensures FieldsOf(s).Some? && FieldsOf(s).value.year >= 1970 && FieldsOf(s).value.day >= 1 && Parse(s).Some? ==> Parse(s).value >= 0
  {
    hide FieldsOf, Stamp, Instant;
    MonthBelow(s);
    if FieldsOf(s).Some? && InRange(FieldsOf(s).value) {
      var f := FieldsOf(s).value;
      StampIsInstant(f);
      InstantBefore1970(f);
      if f.year == 0 && f.month <= 1 { YearZeroFar(f); }
    }
  }

  // Both do occur.
  lemma ErrorIsAmbiguous()
    ensures Parse(Text(Date(1969, 12, 31), Clock(23, 59, 59), 3)) == Some(-1)
    ensures Parse("Thu, 00 Jan 1970 23:59:59 GMT") == Some(-1)
  {
    var d := Date(1969, 12, 31);
    TextParses(d, Clock(23, 59, 59), 3);
    GaussIsDayNumber(d);
    DayZeroRead();
    ErrorIsAmbiguousIff("Thu, 00 Jan 1970 23:59:59 GMT");
  }

  lemma DayZeroRead()
    ensures FieldsOf("Thu, 00 Jan 1970 23:59:59 GMT") == Some(Fields(1970, 0, 0, 23, 59, 59))
  {
    hide Separator, PastSpaces, Rfc822At;
    var s := "Thu, 00 Jan 1970 23:59:59 GMT";
    assert |s| == 29 && s[3] == ',' && s[4] == ' ' && s[5] == '0' && s[6] == '0' && s[7] == ' ';
    assert s[0] == 'T' && s[1] == 'h' && s[2] == 'u';
    assert Separator(s, 0) == 3;
    assert PastSpaces(s, 4) == 5;
    DayZeroFields(s);
  }

  lemma DayZeroFields(s: string)
    requires s == "Thu, 00 Jan 1970 23:59:59 GMT"
    ensures Digits(s, 5, 2) && Rfc822At(s, 5) == Some(Fields(1970, 0, 0, 23, 59, 59))
  {
    hide MonthAt, TwoAt, FourAt;
    assert s[8] == 'J' && s[9] == 'a' && s[11] == ' ' && s[16] == ' ' && s[19] == ':' && s[22] == ':';
    assert MonthAt(s, 8) == Some(0) by { DayZeroMonth(s); }
    TwoIs(s, 5, '0', '0');
    TwoIs(s, 17, '2', '3');
    TwoIs(s, 20, '5', '9');
    TwoIs(s, 23, '5', '9');
    FourIs(s, 12, '1', '9', '7', '0');
  }

  lemma DayZeroMonth(s: string)
    requires |s| == 29 && s[8] == 'J' && s[9] == 'a'
    ensures MonthAt(s, 8) == Some(0)
  {
  }

  lemma TwoIs(s: string, i: nat, a: char, b: char)
    requires i + 2 <= |s| && s[i] == a && s[i + 1] == b && '0' <= a <= '9' && '0' <= b <= '9'
    ensures Digits(s, i, 2) && TwoAt(s, i) == (a - '0') as nat * 10 + (b - '0') as nat
  {
  }

  lemma FourIs(s: string, i: nat, a: char, b: char, c: char, d: char)
    requires i + 4 <= |s| && s[i] == a && s[i + 1] == b && s[i + 2] == c && s[i + 3] == d
    requires '0' <= a <= '9' && '0' <= b <= '9' && '0' <= c <= '9' && '0' <= d <= '9'
    ensures Digits(s, i, 4)
    ensures FourAt(s, i) == (a - '0') as nat * 1000 + (b - '0') as nat * 100 + (c - '0') as nat * 10 + (d - '0') as nat
  {
  }

  // ----- known dates

  // The text of the first day of a month of 2022.
  ghost predicate Begins(m: int, day: string, month: string)
    requires 1 <= m <= 12
  {
    var d := Date(2022, m, 1);
    Text(d, Clock(0, 0, 0), Weekday(DayNumber(d))) == day + ", " + "01" + " " + month + " " + "2022" + " " + "00:00:00" + " GMT"
  }

  lemma {:induction false} MonthStarts2022(m: int)
    requires 1 <= m <= 12
    ensures MonthStart(2022, m) == [0, 31, 59, 90, 120, 151, 181, 212, 243, 273, 304, 334][m - 1]
  {
    if m > 1 { MonthStarts2022(m - 1); }
  }

  // The day and its weekday.
  lemma BeginDay(m: int, wday: nat)
    requires 1 <= m <= 12 && wday == [6, 2, 2, 5, 0, 3, 5, 1, 4, 6, 2, 4][m - 1]
    ensures Begins(m, Weekdays[wday], Months[m - 1])
  {
    hide Begins, MonthStart, YearStart;
    MonthStarts2022(m);
    YearStartFormula(2022);
    YearStartFormula(1970);
    assert YearStart(2022) - YearStart(1970) == 18993;
    BeginText(m, wday);
  }

  lemma BeginText(m: int, wday: nat)
    requires 1 <= m <= 12 && wday < 7 && wday == Weekday(DayNumber(Date(2022, m, 1)))
    ensures Begins(m, Weekdays[wday], Months[m - 1])
  {
    hide DayNumber, Weekday;
    assert Two(1) == "01" && Four(2022) == "2022" && ClockText(Clock(0, 0, 0)) == "00:00:00";
  }

  // All names of days and months, at dates that are known.
  lemma NamesOf2022()
    ensures Begins(1, "Sat", "Jan") && Begins(2, "Tue", "Feb")
    ensures Begins(3, "Tue", "Mar") && Begins(4, "Fri", "Apr")
    ensures Begins(5, "Sun", "May") && Begins(6, "Wed", "Jun")
    ensures Begins(7, "Fri", "Jul") && Begins(8, "Mon", "Aug")
    ensures Begins(9, "Thu", "Sep") && Begins(10, "Sat", "Oct")
    ensures Begins(11, "Tue", "Nov") && Begins(12, "Thu", "Dec")
  {
    hide DayNumber, Begins;
    BeginDay(1, 6); BeginDay(2, 2); BeginDay(3, 2); BeginDay(4, 5);
    BeginDay(5, 0); BeginDay(6, 3); BeginDay(7, 5); BeginDay(8, 1);
    BeginDay(9, 4); BeginDay(10, 6); BeginDay(11, 2); BeginDay(12, 4);
  }

  // The example of section 5.6.7 of RFC 9110, in the three formats.
  lemma OneInstant()
    ensures Parse("Sun, 06 Nov 1994 08:49:37 GMT") == Some(784111777)
    ensures Parse("Sunday, 06-Nov-94 08:49:37 GMT") == Some(784111777)
    ensures Parse("Sun Nov  6 08:49:37 1994") == Some(784111777)
  {
    hide Parse, DayNumber, Text, Rfc850Text, Asctime;
    var d, c := Date(1994, 11, 6), Clock(8, 49, 37);
    assert Seconds(d, c) == 784111777 by { GaussIsDayNumber(d); }
    TextParses(d, c, 0);
    Rfc850Parses("Sunday", d, c);
    AsctimeParses(d, c, 0);
    InstantTexts(d, c);
  }

  lemma InstantTexts(d: Date, c: Clock)
    requires d == Date(1994, 11, 6) && c == Clock(8, 49, 37)
    ensures Text(d, c, 0) == "Sun, 06 Nov 1994 08:49:37 GMT"
    ensures Rfc850Text("Sunday", d, c) == "Sunday, 06-Nov-94 08:49:37 GMT"
    ensures Asctime(d, c, 0) == "Sun Nov  6 08:49:37 1994"
  {
    OneParts(c);
    hide ClockText, Two, Four, DigitChar;
    OneText();
    OtherTexts();
  }

  lemma OneText()
    ensures "Sun" + ", " + "06" + " " + "Nov" + " " + "1994" + " " + "08:49:37" + " GMT" == "Sun, 06 Nov 1994 08:49:37 GMT"
  {
  }

  lemma OtherTexts()
    ensures "Sunday" + ", " + "06" + "-" + "Nov" + "-" + "94" + " " + "08:49:37" + " GMT" == "Sunday, 06-Nov-94 08:49:37 GMT"
    ensures "Sun" + " " + "Nov" + " " + " 6" + " " + "08:49:37" + " " + "1994" == "Sun Nov  6 08:49:37 1994"
  {
  }

  lemma OneParts(c: Clock)
    requires c == Clock(8, 49, 37)
    ensures ClockText(c) == "08:49:37" && Two(6) == "06" && Four(1994) == "1994" && Two(94) == "94" && [' ', DigitChar(6)] == " 6"
  {
  }
}
