/** Gregorian calendar arithmetic as Python's `datetime` does it (proleptic Gregorian,
    years 1..9999, ordinal 1 is 0001-01-01), `datetime.strptime(s, "%Y-%m-%d")`,
    and zero-padded `strftime` rendering. */
module Calendar {
  import opened Wrappers
  import Text

  const MinYear := 1
  const MaxYear := 9999

  datatype Date = Date(year: int, month: int, day: int)

  /** A wall-clock instant without time zone (a naive `datetime`). */
  datatype DateTime = DateTime(date: Date, hour: int, minute: int, second: int)

  predicate IsLeap(y: int) {
    y % 4 == 0 && (y % 100 != 0 || y % 400 == 0)
  }

  function DaysInMonth(y: int, m: int): (n: int)
    requires 1 <= m <= 12
    ensures 28 <= n <= 31
  {
    if m == 2 then (if IsLeap(y) then 29 else 28)
    else if m == 4 || m == 6 || m == 9 || m == 11 then 30
    else 31
  }

  predicate ValidDate(d: Date) {
    MinYear <= d.year <= MaxYear && 1 <= d.month <= 12 && 1 <= d.day <= DaysInMonth(d.year, d.month)
  }

  predicate ValidDateTime(t: DateTime) {
    ValidDate(t.date) && 0 <= t.hour < 24 && 0 <= t.minute < 60 && 0 <= t.second < 60
  }

  function DaysInYear(y: int): int {
    if IsLeap(y) then 366 else 365
  }

  /** Days in the years before year `y`. */
  function DaysBeforeYear(y: int): int
    requires y >= 1
  {
    var p := y - 1;
    p * 365 + p / 4 - p / 100 + p / 400
  }

  /** Days in the months of year `y` before month `m`. */
  function DaysBeforeMonth(y: int, m: int): int
    requires 1 <= m <= 12
  {
    if m == 1 then 0 else DaysBeforeMonth(y, m - 1) + DaysInMonth(y, m - 1)
  }

  /** `date.toordinal()`. */
  function Ordinal(d: Date): int
    requires ValidDate(d)
  {
    DaysBeforeYear(d.year) + DaysBeforeMonth(d.year, d.month) + d.day
  }

  /** The ordinal of 9999-12-31, the last day `datetime` can represent. */
  const MaxOrdinal := 3652059

  /** The calendar day after `d`, when it exists. */
  function NextDay(d: Date): (n: Date)
    requires ValidDate(d)
  {
    if d.day < DaysInMonth(d.year, d.month) then Date(d.year, d.month, d.day + 1)
    else if d.month < 12 then Date(d.year, d.month + 1, 1)
    else Date(d.year + 1, 1, 1)
  }

  /** The calendar day before `d`; year 0 stands for "before 0001-01-01". */
  function PrevDay(d: Date): Date
    requires ValidDate(d)
  {
    if d.day > 1 then Date(d.year, d.month, d.day - 1)
    else if d.month > 1 then Date(d.year, d.month - 1, DaysInMonth(d.year, d.month - 1))
    else Date(d.year - 1, 12, 31)
  }

  /** The day before is the day whose next day is `d`. */
  lemma PrevDayThenNext(d: Date)
    requires ValidDate(d) && PrevDay(d).year >= MinYear
    ensures ValidDate(PrevDay(d)) && NextDay(PrevDay(d)) == d
  {
  }

  /** `datetime(y, m, d)`: the date, or the ValueError the constructor raises. */
  function MakeDate(y: int, m: int, d: int): (r: Result<Date>)
    ensures r.Ok? <==> ValidDate(Date(y, m, d))
    ensures r.Ok? ==> r.value == Date(y, m, d)
  {
    if !(MinYear <= y <= MaxYear) then Err(ValueError("year " + Text.IntToString(y) + " is out of range"))
    else if !(1 <= m <= 12) then Err(ValueError("month must be in 1..12"))
    else if !(1 <= d <= DaysInMonth(y, m)) then Err(ValueError("day is out of range for month"))
    else Ok(Date(y, m, d))
  }

  lemma YearLength(y: int)
    requires y >= 1
    ensures DaysBeforeYear(y + 1) == DaysBeforeYear(y) + DaysInYear(y)
  {
    var p := y - 1;
    assert y / 4 == p / 4 + (if y % 4 == 0 then 1 else 0);
    assert y / 100 == p / 100 + (if y % 100 == 0 then 1 else 0);
    assert y / 400 == p / 400 + (if y % 400 == 0 then 1 else 0);
  }

  /** The ordinal is consistent with the calendar: the next calendar day has the next
      ordinal (this is what `d + timedelta(days=1)` and subtracting dates rely on). */
  lemma {:induction false} NextDayOrdinal(d: Date)
    requires ValidDate(d) && d != Date(MaxYear, 12, 31)
    ensures ValidDate(NextDay(d)) && Ordinal(NextDay(d)) == Ordinal(d) + 1
  {
    if d.day == DaysInMonth(d.year, d.month) && d.month == 12 {
      YearLength(d.year);
      DaysBeforeDecember(d.year);
    }
  }

  lemma {:induction false} OrdinalBounds(d: Date)
    requires ValidDate(d)
    ensures 1 <= Ordinal(d) <= MaxOrdinal
  {
    DaysBeforeMonthBounds(d.year, d.month);
    assert DaysBeforeMonth(d.year, d.month) + d.day <= DaysInYear(d.year) by {
      DaysBeforeMonthPlus(d.year, d.month);
    }
    DaysBeforeYearMonotone(d.year, MaxYear);
    YearLength(d.year);
    assert DaysBeforeYear(MaxYear) + 365 == MaxOrdinal;
  }

  lemma DaysBeforeDecember(y: int)
    ensures DaysBeforeMonth(y, 12) == 334 + (if IsLeap(y) then 1 else 0)
  {
    var l := if IsLeap(y) then 1 else 0;
    assert DaysBeforeMonth(y, 2) == 31;
    assert DaysBeforeMonth(y, 3) == 59 + l;
    assert DaysBeforeMonth(y, 4) == 90 + l;
    assert DaysBeforeMonth(y, 5) == 120 + l;
    assert DaysBeforeMonth(y, 6) == 151 + l;
    assert DaysBeforeMonth(y, 7) == 181 + l;
    assert DaysBeforeMonth(y, 8) == 212 + l;
    assert DaysBeforeMonth(y, 9) == 243 + l;
    assert DaysBeforeMonth(y, 10) == 273 + l;
    assert DaysBeforeMonth(y, 11) == 304 + l;
    assert DaysBeforeMonth(y, 12) == 334 + l;
  }

  lemma {:induction false} DaysBeforeMonthBounds(y: int, m: int)
    requires 1 <= m <= 12
    ensures 0 <= DaysBeforeMonth(y, m) <= 31 * (m - 1)
    ensures 28 * (m - 1) <= DaysBeforeMonth(y, m)
  {
    if m > 1 { DaysBeforeMonthBounds(y, m - 1); }
  }

  lemma {:induction false} DaysBeforeMonthPlus(y: int, m: int)
    requires 1 <= m <= 12
    ensures DaysBeforeMonth(y, m) + DaysInMonth(y, m) <= DaysInYear(y)
  {
    DaysBeforeDecember(y);
    if m < 12 { DaysBeforeMonthGrows(y, m + 1, 12); }
  }

  lemma {:induction false} DaysBeforeMonthGrows(y: int, m: int, n: int)
    requires 1 <= m <= n <= 12
    ensures DaysBeforeMonth(y, m) <= DaysBeforeMonth(y, n)
    decreases n - m
  {
    if m < n { DaysBeforeMonthGrows(y, m, n - 1); }
  }

  lemma {:induction false} DaysBeforeYearMonotone(y: int, z: int)
    requires 1 <= y <= z
    ensures DaysBeforeYear(y) <= DaysBeforeYear(z)
    decreases z - y
  {
    if y < z {
      YearLength(z - 1);
      DaysBeforeYearMonotone(y, z - 1);
    }
  }

  /** Seconds since 0001-01-01T00:00:00 minus one day, for day differences. */
  function Seconds(t: DateTime): int
    requires ValidDate(t.date)
  {
    Ordinal(t.date) * 86400 + t.hour * 3600 + t.minute * 60 + t.second
  }

  /** `(a - b).days` for naive datetimes: whole days, rounded down. */
  function DaysBetween(a: DateTime, b: DateTime): int
    requires ValidDate(a.date) && ValidDate(b.date)
  {
    (Seconds(a) - Seconds(b)) / 86400
  }

  /** `datetime(y, m, d)` at midnight. */
  function Midnight(d: Date): DateTime {
    DateTime(d, 0, 0, 0)
  }

  /** For a midnight `b`, the whole-day difference ignores the time of day of `a`. */
  lemma DaysBetweenMidnight(a: DateTime, b: Date)
    requires ValidDateTime(a) && ValidDate(b)
    ensures DaysBetween(a, Midnight(b)) == Ordinal(a.date) - Ordinal(b)
  {
    var k := Ordinal(a.date) - Ordinal(b);
    var r := a.hour * 3600 + a.minute * 60 + a.second;
    assert 0 <= r < 86400;
    assert Seconds(a) - Seconds(Midnight(b)) == k * 86400 + r;
  }

  /** Comparison of naive datetimes. */
  predicate DateTimeLessEq(a: DateTime, b: DateTime)
    requires ValidDate(a.date) && ValidDate(b.date)
  {
    Seconds(a) <= Seconds(b)
  }

  predicate IsDigit(c: char) {
    '0' <= c <= '9'
  }

  function DigitValue(c: char): int
    requires IsDigit(c)
  {
    c as int - '0' as int
  }

  function DigitChar(n: int): char
    requires 0 <= n <= 9
  {
    ('0' as int + n) as char
  }

  /** strptime's `%m` (`1[0-2]|0[1-9]|[1-9]`) followed by the literal `-`:
      the month value and the number of characters it takes. */
  function MatchMonth(s: string): Option<(int, nat)> {
    if |s| >= 3 && s[0] == '1' && '0' <= s[1] <= '2' && s[2] == '-' then Some((10 + DigitValue(s[1]), 2))
    else if |s| >= 3 && s[0] == '0' && '1' <= s[1] <= '9' && s[2] == '-' then Some((DigitValue(s[1]), 2))
    else if |s| >= 2 && '1' <= s[0] <= '9' && s[1] == '-' then Some((DigitValue(s[0]), 1))
    else None
  }

  /** strptime's `%d` (`3[01]|[12]\d|0[1-9]|[1-9]| [1-9]`): the first alternative
      that matches at the start of `s`, with the number of characters it takes. */
  function MatchDay(s: string): Option<(int, nat)> {
    if |s| >= 2 && s[0] == '3' && '0' <= s[1] <= '1' then Some((30 + DigitValue(s[1]), 2))
    else if |s| >= 2 && '1' <= s[0] <= '2' && IsDigit(s[1]) then Some((10 * DigitValue(s[0]) + DigitValue(s[1]), 2))
    else if |s| >= 2 && s[0] == '0' && '1' <= s[1] <= '9' then Some((DigitValue(s[1]), 2))
    else if |s| >= 1 && '1' <= s[0] <= '9' then Some((DigitValue(s[0]), 1))
    else if |s| >= 2 && s[0] == ' ' && '1' <= s[1] <= '9' then Some((DigitValue(s[1]), 2))
    else None
  }

  /** `datetime.strptime(s, "%Y-%m-%d")`: four digits for the year, one or two
      for month and day; anything else, or an impossible date, is a ValueError. */
  function ParseYmd(s: string): (r: Result<Date>)
    ensures r.Ok? ==> ValidDate(r.value)
  {
    if !(|s| >= 5 && IsDigit(s[0]) && IsDigit(s[1]) && IsDigit(s[2]) && IsDigit(s[3]) && s[4] == '-') then
      Err(ValueError("time data does not match format '%Y-%m-%d'"))
    else
      var y := 1000 * DigitValue(s[0]) + 100 * DigitValue(s[1]) + 10 * DigitValue(s[2]) + DigitValue(s[3]);
      match MatchMonth(s[5..])
      case None => Err(ValueError("time data does not match format '%Y-%m-%d'"))
      case Some((m, ml)) =>
        var rest := s[5 + ml + 1..];
        match MatchDay(rest)
        case None => Err(ValueError("time data does not match format '%Y-%m-%d'"))
        case Some((d, dl)) =>
          if dl != |rest| then Err(ValueError("unconverted data remains"))
          else if y < MinYear then Err(ValueError("year 0 is out of range"))
          else if d > DaysInMonth(y, m) then Err(ValueError("day is out of range for month"))
          else Ok(Date(y, m, d))
  }

  function Pad2(n: int): (r: string)
    requires 0 <= n <= 99
    ensures |r| == 2
  {
    [DigitChar(n / 10), DigitChar(n % 10)]
  }

  function Pad4(n: int): (r: string)
    requires 0 <= n <= 9999
    ensures |r| == 4
  {
    [DigitChar(n / 1000), DigitChar(n / 100 % 10), DigitChar(n / 10 % 10), DigitChar(n % 10)]
  }

  /** `strftime("%Y-%m-%d")`. */
  function FormatYmd(d: Date): (r: string)
    requires ValidDate(d)
    ensures |r| == 10 && r[4] == '-' && r[7] == '-'
  {
    Pad4(d.year) + "-" + Pad2(d.month) + "-" + Pad2(d.day)
  }

  /** The zero-padded `YYYY-MM-DD` shape. */
  predicate IsCanonicalYmd(s: string) {
    |s| == 10 && s[4] == '-' && s[7] == '-'
    && IsDigit(s[0]) && IsDigit(s[1]) && IsDigit(s[2]) && IsDigit(s[3])
    && IsDigit(s[5]) && IsDigit(s[6]) && IsDigit(s[8]) && IsDigit(s[9])
  }

  lemma Pad2Digits(n: int)
    requires 0 <= n <= 99
    ensures IsDigit(Pad2(n)[0]) && IsDigit(Pad2(n)[1])
    ensures 10 * DigitValue(Pad2(n)[0]) + DigitValue(Pad2(n)[1]) == n
  {
  }

  lemma Pad4Digits(n: int)
    requires 0 <= n <= 9999
    ensures forall i :: 0 <= i < 4 ==> IsDigit(Pad4(n)[i])
    ensures 1000 * DigitValue(Pad4(n)[0]) + 100 * DigitValue(Pad4(n)[1])
            + 10 * DigitValue(Pad4(n)[2]) + DigitValue(Pad4(n)[3]) == n
  {
    var a, b, c, e := n / 1000, n / 100 % 10, n / 10 % 10, n % 10;
    assert n / 100 == 10 * a + b;
    assert n / 10 == 10 * (n / 100) + c;
  }

  /** Rendering a date and parsing it back gives the same date. */
  lemma FormatThenParse(d: Date)
    requires ValidDate(d)
    ensures IsCanonicalYmd(FormatYmd(d))
    ensures ParseYmd(FormatYmd(d)) == Ok(d)
  {
    var s := FormatYmd(d);
    var ys, ms, ds := Pad4(d.year), Pad2(d.month), Pad2(d.day);
    Pad4Digits(d.year);
    Pad2Digits(d.month);
    Pad2Digits(d.day);
    assert s == ys + "-" + ms + "-" + ds;
    assert s[0] == ys[0] && s[1] == ys[1] && s[2] == ys[2] && s[3] == ys[3];
    assert s[5..] == ms + "-" + ds;
    assert MatchMonth(s[5..]) == Some((d.month, 2));
    assert s[5 + 2 + 1..] == ds;
    assert MatchDay(ds) == Some((d.day, 2));
  }

  /** A zero-padded date that parses renders back to the same text. */
  lemma ParseThenFormat(s: string)
    requires IsCanonicalYmd(s) && ParseYmd(s).Ok?
    ensures FormatYmd(ParseYmd(s).value) == s
  {
    var d := ParseYmd(s).value;
    assert MatchMonth(s[5..]).value.1 == 2;
    assert s[5 + 2 + 1..] == s[8..];
    assert MatchDay(s[8..]).value.1 == 2;
    assert d.month == 10 * DigitValue(s[5]) + DigitValue(s[6]);
    assert d.day == 10 * DigitValue(s[8]) + DigitValue(s[9]);
    Pad4Digits(d.year);
    Pad2Digits(d.month);
    Pad2Digits(d.day);
    var f := FormatYmd(d);
    assert Pad4(d.year) == s[..4] by { DigitsDetermine4(Pad4(d.year), s[..4]); }
    assert Pad2(d.month) == s[5..7];
    assert Pad2(d.day) == s[8..];
    assert f == s[..4] + "-" + s[5..7] + "-" + s[8..];
    assert s == s[..4] + "-" + s[5..7] + "-" + s[8..];
  }

  /** Four decimal digits are determined by the number they denote. */
  lemma DigitsDetermine4(a: string, b: string)
    requires |a| == 4 && |b| == 4
    requires forall i :: 0 <= i < 4 ==> IsDigit(a[i]) && IsDigit(b[i])
    requires 1000 * DigitValue(a[0]) + 100 * DigitValue(a[1]) + 10 * DigitValue(a[2]) + DigitValue(a[3])
          == 1000 * DigitValue(b[0]) + 100 * DigitValue(b[1]) + 10 * DigitValue(b[2]) + DigitValue(b[3])
    ensures a == b
  {
    assert a[0] == b[0];
    assert a[1] == b[1];
    assert a[2] == b[2];
    assert a[3] == b[3];
  }

  /** Two decimal digits at `s[i]`, `s[i + 1]`. */
  function Digits2(s: string, i: nat): int
    requires i + 1 < |s| && IsDigit(s[i]) && IsDigit(s[i + 1])
  {
    10 * DigitValue(s[i]) + DigitValue(s[i + 1])
  }

  /** `HH:MM:SS` with hour < 24, minute < 60, second < 60. */
  predicate IsTimeOfDay(t: string) {
    |t| == 8 && t[2] == ':' && t[5] == ':'
    && IsDigit(t[0]) && IsDigit(t[1]) && IsDigit(t[3]) && IsDigit(t[4]) && IsDigit(t[6]) && IsDigit(t[7])
    && Digits2(t, 0) < 24 && Digits2(t, 3) < 60 && Digits2(t, 6) < 60
  }

  /** A UTC offset as `dateutil` reads one: `Z` or `z`, or a sign followed by `HH`,
      `HHMM` or `HH:MM`, with the hours below 24 and the minutes below 60. */
  predicate IsOffset(t: string) {
    t == "Z" || t == "z"
    || ((|t| == 3 || |t| == 5 || (|t| == 6 && t[3] == ':'))
        && (t[0] == '+' || t[0] == '-')
        && IsDigit(t[1]) && IsDigit(t[2]) && Digits2(t, 1) < 24
        && (|t| == 3 || (IsDigit(t[|t| - 2]) && IsDigit(t[|t| - 1]) && Digits2(t, |t| - 2) < 60)))
  }

  /** No offset, or one. */
  predicate IsOffsetOrNothing(t: string) {
    t == "" || IsOffset(t)
  }

  /** The calendar date written in a zero-padded `YYYY-MM-DD`. */
  function CanonicalDate(s: string): Date
    requires IsCanonicalYmd(s)
  {
    Date(1000 * DigitValue(s[0]) + 100 * DigitValue(s[1]) + 10 * DigitValue(s[2]) + DigitValue(s[3]),
         Digits2(s, 5), Digits2(s, 8))
  }

  /** Every character is ASCII. */
  predicate IsAscii(s: string) {
    forall i :: 0 <= i < |s| ==> s[i] as int < 128
  }

  /** The error `isoparse` raises for a string that does not encode as ASCII. */
  const NotAsciiMessage := "ISO-8601 strings should contain only ASCII characters"

  /** `dateutil.parser.isoparse(s).replace(tzinfo=None)` for the ISO 8601 forms the
      bot exchanges: `YYYY-MM-DD`, optionally followed by one ASCII separator
      character and `HH:MM:SS`, optionally followed by a UTC offset (`IsOffset`).
      The separator is the only position the grammar leaves open, so it is the one
      checked for ASCII before anything else is read. The offset is dropped, not
      applied: the wall-clock time is kept. */
  function IsoParse(s: string): (r: Result<DateTime>)
    ensures r.Ok? ==> ValidDateTime(r.value)
    ensures r.Ok? ==> IsAscii(s)
    ensures |s| > 10 && s[10] as int >= 128 ==> r == Err(ValueError(NotAsciiMessage))
    ensures r.Ok? ==> |s| >= 10 && IsCanonicalYmd(s[..10]) && r.value.date == CanonicalDate(s[..10])
    ensures r.Ok? && |s| > 10 ==>
      |s| >= 19 && IsTimeOfDay(s[11..19]) && IsOffsetOrNothing(s[19..])
      && r.value.hour == Digits2(s[11..19], 0) && r.value.minute == Digits2(s[11..19], 3)
      && r.value.second == Digits2(s[11..19], 6)
    ensures r.Ok? && |s| == 10 ==> r.value == Midnight(r.value.date)
  {
    if |s| > 10 && s[10] as int >= 128 then Err(ValueError(NotAsciiMessage))
    else if |s| < 10 || !IsCanonicalYmd(s[..10]) then Err(ValueError("invalid ISO format"))
    else
      var d := CanonicalDate(s[..10]);
      if !ValidDate(d) then Err(ValueError("day is out of range for month"))
      else if |s| == 10 then Ok(Midnight(d))
      else if |s| < 19 || !IsTimeOfDay(s[11..19]) then Err(ValueError("invalid ISO format"))
      else
        var tail := s[19..];
        if IsOffsetOrNothing(tail) then
          StampIsAscii(s);
          Ok(DateTime(d, Digits2(s[11..19], 0), Digits2(s[11..19], 3), Digits2(s[11..19], 6)))
        else Err(ValueError("invalid ISO format"))
  }

  /** A date, an ASCII separator, a time of day and an offset or nothing are
      written in ASCII. */
  lemma StampIsAscii(s: string)
    requires |s| >= 19 && s[10] as int < 128 && IsCanonicalYmd(s[..10])
    requires IsTimeOfDay(s[11..19]) && IsOffsetOrNothing(s[19..])
    ensures IsAscii(s)
  {
    forall i | 0 <= i < |s| ensures s[i] as int < 128 {
      if i < 10 { assert s[i] == s[..10][i]; }
      else if 11 <= i < 19 { assert s[i] == s[11..19][i - 11]; }
      else if 19 <= i { assert s[i] == s[19..][i - 19]; }
    }
  }

  /** Noon on 2024-05-01 followed by `tail` parses exactly when `tail` is empty or
      an offset, and the offset does not move the time. */
  lemma IsoParseNoonWith(tail: string)
    ensures IsoParse("2024-05-01T12:00:00" + tail)
         == if IsOffsetOrNothing(tail) then Ok(DateTime(Date(2024, 5, 1), 12, 0, 0)) else Err(ValueError("invalid ISO format"))
  {
    var s := "2024-05-01T12:00:00" + tail;
    assert s[..10] == "2024-05-01" && s[11..19] == "12:00:00" && s[19..] == tail;
    assert IsCanonicalYmd(s[..10]) && CanonicalDate(s[..10]) == Date(2024, 5, 1);
    assert IsTimeOfDay(s[11..19]);
  }

  /** The offset spellings: hours above 23, minutes above 59 and a one-digit hour
      are rejected; `z` is read as `Z`; `+HH`, `-HHMM` and `+HH:MM` are accepted. */
  lemma OffsetSpellings()
    ensures !IsOffset("+99:99") && !IsOffset("+24:00") && !IsOffset("+05:60") && !IsOffset("+5:30")
    ensures !IsOffset("+05:3") && !IsOffset("+05030") && !IsOffset("+ 5:30")
    ensures IsOffset("z") && IsOffset("Z") && IsOffset("+05") && IsOffset("-0530") && IsOffset("+23:59")
  {
    assert Digits2("+99:99", 1) == 99;
    assert Digits2("+24:00", 1) == 24;
    assert Digits2("+05:60", 4) == 60;
    assert Digits2("+05", 1) == 5;
    assert Digits2("-0530", 1) == 5 && Digits2("-0530", 3) == 30;
    assert Digits2("+23:59", 1) == 23 && Digits2("+23:59", 4) == 59;
  }

  /** A non-ASCII separator is refused before the date is read. */
  lemma NonAsciiSeparator()
    ensures IsoParse("2024-05-01\U{e9}12:00:00") == Err(ValueError(NotAsciiMessage))
    ensures IsoParse("2024-13-01\U{e9}12:00:00") == Err(ValueError(NotAsciiMessage))
  {
  }

  /** A rendered date parses back to its midnight. */
  lemma IsoParseOfFormat(d: Date)
    requires ValidDate(d)
    ensures IsoParse(FormatYmd(d)) == Ok(Midnight(d))
  {
    var s := FormatYmd(d);
    FormatThenParse(d);
    Pad4Digits(d.year);
    Pad2Digits(d.month);
    Pad2Digits(d.day);
    assert s == Pad4(d.year) + "-" + Pad2(d.month) + "-" + Pad2(d.day);
    assert s[..10] == s;
    assert CanonicalDate(s) == d;
  }

  const MonthNames: seq<string> := ["January", "February", "March", "April", "May", "June", "July",
                                    "August", "September", "October", "November", "December"]

  /** `strftime("%B %d, %Y")` in the C locale. */
  function FormatLong(d: Date): string
    requires ValidDate(d)
  {
    MonthNames[d.month - 1] + " " + Pad2(d.day) + ", " + Pad4(d.year)
  }
}
