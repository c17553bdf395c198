/** Local wall-clock time at minute resolution, and the strict `yyyy-MM-dd HH:mm` format
    the calendar's commands use. A timestamp is the number of minutes since
    0001-01-01 00:00 in the proleptic Gregorian calendar, with no daylight-saving
    shifts; negative timestamps lie before year 1. */
module DateTime {
  import opened Wrappers
  import opened Strings

  type Timestamp = int

  const MinutesPerDay: nat := 1440

  /** The calendar day a timestamp falls on, counted from 0001-01-01 (day 0). */
  function DayOf(t: Timestamp): int {
    t / MinutesPerDay
  }

  /** The minute within its day, 0 .. 1439. */
  function MinuteOfDay(t: Timestamp): (m: nat)
    ensures m < MinutesPerDay
  {
    t % MinutesPerDay
  }

  /** date-fns `isSameDay`: both timestamps fall on the same local calendar day. */
  predicate SameDay(a: Timestamp, b: Timestamp) {
    DayOf(a) == DayOf(b)
  }

  /** A timestamp is the start of its day plus its minute of the day. */
  lemma DaySplit(t: Timestamp)
    ensures t == DayOf(t) * MinutesPerDay + MinuteOfDay(t)
  {
  }

  // ---------------------------------------------------------------------------
  // The Gregorian calendar

  predicate IsLeapYear(y: int) {
    y % 4 == 0 && (y % 100 != 0 || y % 400 == 0)
  }

  function DaysInYear(y: int): nat {
    if IsLeapYear(y) then 366 else 365
  }

  /** date-fns `getDaysInMonth`, for month 1 .. 12. */
  function DaysInMonth(y: int, m: int): (n: nat)
    requires 1 <= m <= 12
    ensures 28 <= n <= 31
  {
    if m == 2 then (if IsLeapYear(y) then 29 else 28)
    else if m == 4 || m == 6 || m == 9 || m == 11 then 30
    else 31
  }

  /** Days of year `y` before the first of month `m` (month 13 stands for the next
      first of January). */
  function DaysBeforeMonth(y: int, m: int): nat
    requires 1 <= m <= 13
  {
    if m == 1 then 0 else DaysBeforeMonth(y, m - 1) + DaysInMonth(y, m - 1)
  }

  /** The twelve months make up the year. */
  lemma MonthsMakeYear(y: int)
    ensures DaysBeforeMonth(y, 13) == DaysInYear(y)
  {
    var feb := if IsLeapYear(y) then 29 else 28;
    assert DaysBeforeMonth(y, 2) == 31;
    assert DaysBeforeMonth(y, 3) == 31 + feb;
    assert DaysBeforeMonth(y, 4) == 62 + feb;
    assert DaysBeforeMonth(y, 5) == 92 + feb;
    assert DaysBeforeMonth(y, 6) == 123 + feb;
    assert DaysBeforeMonth(y, 7) == 153 + feb;
    assert DaysBeforeMonth(y, 8) == 184 + feb;
    assert DaysBeforeMonth(y, 9) == 215 + feb;
    assert DaysBeforeMonth(y, 10) == 245 + feb;
    assert DaysBeforeMonth(y, 11) == 276 + feb;
    assert DaysBeforeMonth(y, 12) == 306 + feb;
  }

  /** Later months start later. */
  lemma {:induction false} DaysBeforeMonthGrows(y: int, a: int, b: int)
    requires 1 <= a < b <= 13
    ensures DaysBeforeMonth(y, a) + DaysInMonth(y, a) <= DaysBeforeMonth(y, b)
  {
    if b > a + 1 {
      DaysBeforeMonthGrows(y, a, b - 1);
    }
  }

  /** Days from 0001-01-01 to the first of January of year `y`. */
  function DaysBeforeYear(y: int): nat
    requires y >= 1
  {
    if y == 1 then 0 else DaysBeforeYear(y - 1) + DaysInYear(y - 1)
  }

  /** Every later year starts at least a whole year `y` later. */
  lemma {:induction false} DaysBeforeYearGrows(y: int, z: int)
    requires 1 <= y < z
    ensures DaysBeforeYear(z) >= DaysBeforeYear(y) + DaysInYear(y)
  {
    if z > y + 1 {
      DaysBeforeYearGrows(y, z - 1);
    }
  }

  /** A calendar date (year, month 1 .. 12, day of month). */
  datatype Date = Date(year: int, month: int, day: int)

  predicate ValidDate(d: Date) {
    d.year >= 1 && 1 <= d.month <= 12 && 1 <= d.day <= DaysInMonth(d.year, d.month)
  }

  /** The day number of a valid date. */
  function DayNumber(d: Date): (n: nat)
    requires ValidDate(d)
  {
    DaysBeforeYear(d.year) + DaysBeforeMonth(d.year, d.month) + d.day - 1
  }

  /** Within a month, day `k` comes `k - 1` days after the first. */
  lemma DayNumberInMonth(y: int, m: int, k: int)
    requires ValidDate(Date(y, m, k))
    ensures ValidDate(Date(y, m, 1)) && DayNumber(Date(y, m, k)) == DayNumber(Date(y, m, 1)) + k - 1
  {
  }

  /** The year a day count falls in, with the day of that year, searching from year `y`
      whose first day is day `DaysBeforeYear(y)`. */
  function SplitYear(y: int, n: nat): (r: (int, nat))
    requires y >= 1
    ensures r.0 >= y && r.1 < DaysInYear(r.0)
    ensures DaysBeforeYear(r.0) + r.1 == DaysBeforeYear(y) + n
    decreases n
  {
    if n < DaysInYear(y) then (y, n) else SplitYear(y + 1, n - DaysInYear(y))
  }

  /** The month a day of year `y` falls in, with the day of that month, searching from
      month `m`. */
  function SplitMonth(y: int, m: int, n: nat): (r: (int, nat))
    requires 1 <= m <= 12 && DaysBeforeMonth(y, m) + n < DaysBeforeMonth(y, 13)
    ensures m <= r.0 <= 12 && r.1 < DaysInMonth(y, r.0)
    ensures DaysBeforeMonth(y, r.0) + r.1 == DaysBeforeMonth(y, m) + n
    decreases 12 - m
  {
    if n < DaysInMonth(y, m) then (m, n) else SplitMonth(y, m + 1, n - DaysInMonth(y, m))
  }

  /** The calendar date of day number `n` (day 0 is 0001-01-01). */
  function DateOf(n: nat): (d: Date)
    ensures ValidDate(d) && DayNumber(d) == n
  {
    var (y, doy) := SplitYear(1, n);
    MonthsMakeYear(y);
    var (m, dom) := SplitMonth(y, 1, doy);
    Date(y, m, dom + 1)
  }

  lemma {:induction false} SplitYearOfStart(y0: int, y: int, k: nat)
    requires 1 <= y0 <= y && k < DaysInYear(y)
    ensures DaysBeforeYear(y0) <= DaysBeforeYear(y)
    ensures SplitYear(y0, DaysBeforeYear(y) - DaysBeforeYear(y0) + k) == (y, k)
    decreases y - y0
  {
    if y0 < y {
      DaysBeforeYearGrows(y0, y);
      assert DaysBeforeYear(y0 + 1) == DaysBeforeYear(y0) + DaysInYear(y0);
      SplitYearOfStart(y0 + 1, y, k);
    }
  }

  lemma {:induction false} SplitMonthOfStart(y: int, m0: int, m: int, k: nat)
    requires 1 <= m0 <= m <= 12 && k < DaysInMonth(y, m)
    ensures DaysBeforeMonth(y, m0) <= DaysBeforeMonth(y, m)
    ensures DaysBeforeMonth(y, m) + k < DaysBeforeMonth(y, 13)
    ensures SplitMonth(y, m0, DaysBeforeMonth(y, m) - DaysBeforeMonth(y, m0) + k) == (m, k)
    decreases m - m0
  {
    DaysBeforeMonthGrows(y, m, 13);
    if m0 < m {
      var n := DaysBeforeMonth(y, m) - DaysBeforeMonth(y, m0) + k;
      DaysBeforeMonthGrows(y, m0, m);
      assert DaysBeforeMonth(y, m0 + 1) == DaysBeforeMonth(y, m0) + DaysInMonth(y, m0);
      SplitMonthOfStart(y, m0 + 1, m, k);
      assert n - DaysInMonth(y, m0) == DaysBeforeMonth(y, m) - DaysBeforeMonth(y, m0 + 1) + k;
      assert SplitMonth(y, m0, n) == SplitMonth(y, m0 + 1, n - DaysInMonth(y, m0));
    }
  }

  /** Day numbers and valid dates correspond one to one. */
  lemma DateOfDayNumber(d: Date)
    requires ValidDate(d)
    ensures DateOf(DayNumber(d)) == d
  {
    var y, m, k := d.year, d.month, d.day - 1;
    var doy := DaysBeforeMonth(y, m) + k;
    DaysBeforeMonthGrows(y, m, 13);
    MonthsMakeYear(y);
    assert doy < DaysInYear(y);
    SplitYearOfStart(1, y, doy);
    assert DaysBeforeYear(1) == 0;
    assert SplitYear(1, DayNumber(d)) == (y, doy);
    SplitMonthOfStart(y, 1, m, k);
    assert DaysBeforeMonth(y, 1) == 0;
    assert SplitMonth(y, 1, doy) == (m, k);
  }

  /** date-fns `getDay` of a day number: 0 is Sunday .. 6 is Saturday (0001-01-01 is a
      Monday). */
  function Weekday(n: int): (w: nat)
    ensures w < 7
  {
    (n + 1) % 7
  }

  // ---------------------------------------------------------------------------
  // The `yyyy-MM-dd HH:mm` format

  /** date-fns `format(t, 'yyyy')` for a year from 1: at least four digits. */
  function FormatYear(y: nat): string {
    if y < 10000 then Digits(y, 4) else Digits(y, DigitCount(y))
  }

  function DigitCount(n: nat): nat {
    if n < 10 then 1 else 1 + DigitCount(n / 10)
  }

  /** date-fns `format(t, 'yyyy-MM-dd')`. Before year 1 the model writes nothing, which
      no parse accepts. */
  function FormatDate(t: Timestamp): string {
    if t < 0 then ""
    else
      var d := DateOf(DayOf(t));
      FormatYear(d.year) + "-" + Digits(d.month, 2) + "-" + Digits(d.day, 2)
  }

  /** date-fns `format(t, 'HH:mm')`. */
  function FormatTime(t: Timestamp): string {
    var m := MinuteOfDay(t);
    Digits(m / 60, 2) + ":" + Digits(m % 60, 2)
  }

  /** A strict `yyyy-MM-dd` date: its day number, or `None` when a field has the wrong
      shape or the date does not exist (month 13, February 30, year 0). */
  function ParseDate(s: string): Option<nat> {
    if |s| == 10 && s[4] == '-' && s[7] == '-'
       && AllDigits(s[..4]) && AllDigits(s[5..7]) && AllDigits(s[8..]) then
      var d := Date(DigitsValue(s[..4]), DigitsValue(s[5..7]), DigitsValue(s[8..]));
      if ValidDate(d) then Some(DayNumber(d)) else None
    else None
  }

  /** A strict 24-hour `HH:mm` time: its minute of the day, or `None` when a field has
      the wrong shape or is out of range (hour 24, minute 60). */
  function ParseTime(s: string): Option<nat> {
    if |s| == 5 && s[2] == ':' && AllDigits(s[..2]) && AllDigits(s[3..]) then
      var h, m := DigitsValue(s[..2]), DigitsValue(s[3..]);
      if h < 24 && m < 60 then Some(h * 60 + m) else None
    else None
  }

  /** date-fns `parse(s, 'yyyy-MM-dd HH:mm', ...)` followed by `isValid`: the timestamp
      `s` names, or `None` for an invalid date. */
  function ParseDateTime(s: string): (r: Option<Timestamp>)
    ensures r.Some? ==> r.value >= 0
  {
    if |s| == 16 && s[10] == ' ' then
      match (ParseDate(s[..10]), ParseTime(s[11..]))
      case (Some(d), Some(m)) => Some(d * MinutesPerDay + m)
      case _ => None
    else None
  }

  /** The year a timestamp falls in (from year 1). */
  function YearOf(t: Timestamp): int
    requires t >= 0
  {
    DateOf(DayOf(t)).year
  }

  lemma Pow10Values()
    ensures Pow10(2) == 100 && Pow10(4) == 10000
  {
    assert Pow10(1) == 10;
    assert Pow10(3) == 1000;
  }

  /** The parts of a `yyyy-MM-dd` string as the parser cuts it. */
  lemma DateStringParts(ys: string, ms: string, ds: string)
    requires |ys| == 4 && |ms| == 2 && |ds| == 2
    ensures var s := ys + "-" + ms + "-" + ds;
      |s| == 10 && s[4] == '-' && s[7] == '-' && s[..4] == ys && s[5..7] == ms && s[8..] == ds
  {
  }

  /** The parser reads a `yyyy-MM-dd` string field by field. */
  lemma ParseDateParts(ys: string, ms: string, ds: string)
    requires |ys| == 4 && |ms| == 2 && |ds| == 2
    requires AllDigits(ys) && AllDigits(ms) && AllDigits(ds)
    ensures var d := Date(DigitsValue(ys), DigitsValue(ms), DigitsValue(ds));
      ParseDate(ys + "-" + ms + "-" + ds) == if ValidDate(d) then Some(DayNumber(d)) else None
  {
    DateStringParts(ys, ms, ds);
  }

  /** Formatting a day and parsing it back gives the same day, for four-digit years. */
  lemma FormatDateRoundTrip(t: Timestamp)
    requires t >= 0 && YearOf(t) <= 9999
    ensures ParseDate(FormatDate(t)) == Some(DayOf(t))
  {
    var d := DateOf(DayOf(t));
    var ys, ms, ds := Digits(d.year, 4), Digits(d.month, 2), Digits(d.day, 2);
    assert FormatDate(t) == ys + "-" + ms + "-" + ds;
    DateStringParts(ys, ms, ds);
    Pow10Values();
    DigitsRoundTrip(d.year, 4);
    DigitsRoundTrip(d.month, 2);
    DigitsRoundTrip(d.day, 2);
  }

  /** A date string the parser accepts is exactly how its day is formatted. */
  lemma ParseDateCanonical(s: string, t: Timestamp)
    requires t >= 0 && ParseDate(s) == Some(DayOf(t))
    ensures FormatDate(t) == s && YearOf(t) <= 9999
  {
    var ys, ms, ds := s[..4], s[5..7], s[8..];
    var d := Date(DigitsValue(ys), DigitsValue(ms), DigitsValue(ds));
    assert ValidDate(d) && DayNumber(d) == DayOf(t);
    DateOfDayNumber(d);
    assert DateOf(DayOf(t)) == d;
    Pow10Values();
    assert d.year < 10000 by { assert DigitsValue(ys) < Pow10(4); }
    DigitsCanonical(ys);
    DigitsCanonical(ms);
    DigitsCanonical(ds);
    assert FormatDate(t) == Digits(d.year, 4) + "-" + Digits(d.month, 2) + "-" + Digits(d.day, 2);
    assert s == ys + "-" + ms + "-" + ds;
  }

  /** Formatting a time of day and parsing it back gives the same minute. */
  lemma FormatTimeRoundTrip(t: Timestamp)
    ensures ParseTime(FormatTime(t)) == Some(MinuteOfDay(t))
  {
    var m := MinuteOfDay(t);
    var s := FormatTime(t);
    assert s[..2] == Digits(m / 60, 2) && s[3..] == Digits(m % 60, 2);
    Pow10Values();
    DigitsRoundTrip(m / 60, 2);
    DigitsRoundTrip(m % 60, 2);
  }

  /** A time string the parser accepts is exactly how its minute is formatted. */
  lemma ParseTimeCanonical(s: string, t: Timestamp)
    requires ParseTime(s) == Some(MinuteOfDay(t))
    ensures FormatTime(t) == s
  {
    var h, m := DigitsValue(s[..2]), DigitsValue(s[3..]);
    HourMinute(h, m);
    DigitsCanonical(s[..2]);
    DigitsCanonical(s[3..]);
    assert s == s[..2] + ":" + s[3..];
  }

  lemma HourMinute(h: nat, m: nat)
    requires m < 60
    ensures (h * 60 + m) / 60 == h && (h * 60 + m) % 60 == m
  {
  }

  /** The full format parses back to the same timestamp, for years 1 .. 9999. */
  lemma FormatRoundTrip(t: Timestamp)
    requires t >= 0 && YearOf(t) <= 9999
    ensures ParseDateTime(FormatDate(t) + " " + FormatTime(t)) == Some(t)
  {
    FormatDateRoundTrip(t);
    FormatTimeRoundTrip(t);
    JoinedParses(FormatDate(t), FormatTime(t), DayOf(t), MinuteOfDay(t));
    DaySplit(t);
  }

  /** A date and a time the parsers accept, joined by a space, parse together. */
  lemma JoinedParses(ds: string, ts: string, d: nat, m: nat)
    requires ParseDate(ds) == Some(d) && ParseTime(ts) == Some(m)
    ensures ParseDateTime(ds + " " + ts) == Some(d * MinutesPerDay + m)
  {
    ParseJoined(ds, ts);
  }

  /** Joining a date string and a time string parses to that day at that minute, and
      fails when either part fails. */
  lemma ParseJoined(ds: string, ts: string)
    requires |ds| == 10 && |ts| == 5
    ensures ParseDateTime(ds + " " + ts) ==
      match (ParseDate(ds), ParseTime(ts))
      case (Some(d), Some(m)) => Some(d * MinutesPerDay + m)
      case _ => None
  {
    var s := ds + " " + ts;
    assert s[..10] == ds && s[11..] == ts;
  }

  /** A day number and a minute of that day make a timestamp that splits back into
      them, for days before year 1 too. */
  lemma ParsedSplit(d: int, m: nat)
    requires m < MinutesPerDay
    ensures DayOf(d * MinutesPerDay + m) == d && MinuteOfDay(d * MinutesPerDay + m) == m
  {
  }

  /** No date string with a space in it parses. */
  lemma ParseDateRejectsSpace(s: string, k: nat)
    requires k < |s| && s[k] == ' '
    ensures ParseDate(s) == None
  {
    if |s| == 10 {
      if k < 4 { assert s[..4][k] == ' '; }
      else if 5 <= k < 7 { assert s[5..7][k - 5] == ' '; }
      else if k >= 8 { assert s[8..][k - 8] == ' '; }
    }
  }

  /** No time string with a space in it parses. */
  lemma ParseTimeRejectsSpace(s: string, k: nat)
    requires k < |s| && s[k] == ' '
    ensures ParseTime(s) == None
  {
    if |s| == 5 {
      if k < 2 { assert s[..2][k] == ' '; }
      else if k >= 3 { assert s[3..][k - 3] == ' '; }
    }
  }
}
