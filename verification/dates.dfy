/** The SQLDATE field: an eight-digit YYYYMMDD calendar date. */
module Dates {
  import opened Wrappers

  datatype Date = Date(year: int, month: int, day: int)

  predicate IsLeapYear(y: int) {
    y % 4 == 0 && (y % 100 != 0 || y % 400 == 0)
  }

  function DaysInMonth(y: int, m: int): int
    requires 1 <= m <= 12
  {
    if m == 2 then (if IsLeapYear(y) then 29 else 28)
    else if m == 4 || m == 6 || m == 9 || m == 11 then 30
    else 31
  }

  /** A date Python's `datetime` can represent. */
  predicate Valid(d: Date) {
    1 <= d.year <= 9999 && 1 <= d.month <= 12 && 1 <= d.day <= DaysInMonth(d.year, d.month)
  }

  predicate IsDigit(c: char) { '0' <= c <= '9' }

  predicate AllDigits(s: string) {
    forall i :: 0 <= i < |s| ==> IsDigit(s[i])
  }

  function Pow10(n: nat): (r: nat)
    ensures r >= 1
  {
    if n == 0 then 1 else 10 * Pow10(n - 1)
  }

  /** The number a string of decimal digits denotes. */
  function Value(s: string): (n: nat)
    requires AllDigits(s)
    ensures n < Pow10(|s|)
  {
    if s == [] then 0
    else Value(s[..|s| - 1]) * 10 + (s[|s| - 1] as int - '0' as int)
  }

  /** `n` written with exactly `width` digits, zero-padded. */
  function Digits(n: nat, width: nat): (s: string)
    requires n < Pow10(width)
    ensures |s| == width && AllDigits(s)
    ensures Value(s) == n
  {
    if width == 0 then []
    else
      var s := Digits(n / 10, width - 1) + [('0' as int + n % 10) as char];
      assert s[..|s| - 1] == Digits(n / 10, width - 1);
      s
  }

  /** Reading digits and writing the number back with as many digits gives the
      same string, leading zeros included. */
  lemma {:induction false} DigitsOfValue(s: string)
    requires AllDigits(s)
    ensures Digits(Value(s), |s|) == s
  {
    if s != [] {
      var p := s[..|s| - 1];
      DigitsOfValue(p);
      assert Value(s) / 10 == Value(p);
      assert s == p + [s[|s| - 1]];
    }
  }

  /** `pd.to_datetime(x, format='%Y%m%d', errors='coerce')` on one value:
      None stands for NaT. */
  function ParseSqlDate(s: string): (r: Option<Date>)
    ensures r.Some? ==> Valid(r.value) && |s| == 8
  {
    if |s| == 8 && AllDigits(s) then
      var d := Date(Value(s[..4]), Value(s[4..6]), Value(s[6..]));
      if Valid(d) then Some(d) else None
    else None
  }

  function FormatSqlDate(d: Date): (s: string)
    requires Valid(d)
    ensures |s| == 8 && AllDigits(s)
  {
    Digits(d.year, 4) + Digits(d.month, 2) + Digits(d.day, 2)
  }

  /** Every representable date is read back from its YYYYMMDD form. */
  lemma ParseFormat(d: Date)
    requires Valid(d)
    ensures ParseSqlDate(FormatSqlDate(d)) == Some(d)
  {
    var s := FormatSqlDate(d);
    assert s[..4] == Digits(d.year, 4);
    assert s[4..6] == Digits(d.month, 2);
    assert s[6..] == Digits(d.day, 2);
  }

  /** A string that parses is exactly the YYYYMMDD form of its date: two
      different strings never name the same day. */
  lemma FormatParse(s: string)
    requires ParseSqlDate(s).Some?
    ensures FormatSqlDate(ParseSqlDate(s).value) == s
  {
    var y, m, d := s[..4], s[4..6], s[6..];
    DigitsSlice(s, 0, 4);
    DigitsSlice(s, 4, 6);
    DigitsSlice(s, 6, 8);
    assert ParseSqlDate(s).value == Date(Value(y), Value(m), Value(d));
    DigitsOfValue(y);
    DigitsOfValue(m);
    DigitsOfValue(d);
    assert s == y + m + d;
  }

  lemma DigitsSlice(s: string, i: nat, j: nat)
    requires AllDigits(s) && i <= j <= |s|
    ensures AllDigits(s[i..j])
  {
    assert forall k :: 0 <= k < j - i ==> s[i..j][k] == s[i + k];
  }

  /** A day of the proleptic Gregorian calendar, without the upper year
      bound of `Valid`. */
  predicate InCalendar(d: Date) {
    1 <= d.year && 1 <= d.month <= 12 && 1 <= d.day <= DaysInMonth(d.year, d.month)
  }

  function DaysInYear(y: int): int {
    if IsLeapYear(y) then 366 else 365
  }

  /** The days of the years before `y`. */
  function DaysBeforeYear(y: int): nat
    requires y >= 1
  {
    var p := y - 1;
    365 * p + p / 4 - p / 100 + p / 400
  }

  /** The days of the months of year `y` before month `m`. */
  function DaysBeforeMonth(y: int, m: int): nat
    requires 1 <= m <= 13
  {
    (if m == 1 then 0 else if m == 2 then 31 else if m == 3 then 59
     else if m == 4 then 90 else if m == 5 then 120 else if m == 6 then 151
     else if m == 7 then 181 else if m == 8 then 212 else if m == 9 then 243
     else if m == 10 then 273 else if m == 11 then 304 else if m == 12 then 334
     else 365)
    + (if m > 2 && IsLeapYear(y) then 1 else 0)
  }

  /** The number of days since 1 January of year 1, which is a Monday, so
      that `n % 7` is the weekday counted from Monday. */
  function DayNumber(d: Date): nat
    requires InCalendar(d)
  {
    DaysBeforeYear(d.year) + DaysBeforeMonth(d.year, d.month) + d.day - 1
  }

  /** The calendar day after `d`. */
  function NextDay(d: Date): (r: Date)
    requires InCalendar(d)
    ensures InCalendar(r)
  {
    if d.day < DaysInMonth(d.year, d.month) then Date(d.year, d.month, d.day + 1)
    else if d.month < 12 then Date(d.year, d.month + 1, 1)
    else Date(d.year + 1, 1, 1)
  }

  lemma YearLength(y: int)
    requires y >= 1
    ensures DaysBeforeYear(y + 1) == DaysBeforeYear(y) + DaysInYear(y)
  {
    var p := y - 1;
    assert (p + 1) / 4 == p / 4 + (if (p + 1) % 4 == 0 then 1 else 0);
    assert (p + 1) / 100 == p / 100 + (if (p + 1) % 100 == 0 then 1 else 0);
    assert (p + 1) / 400 == p / 400 + (if (p + 1) % 400 == 0 then 1 else 0);
  }

  /** Day numbers count the days one by one: the next day, across month
      and year ends and leap days, has the next number. */
  lemma NextDayNumber(d: Date)
    requires InCalendar(d)
    ensures DayNumber(NextDay(d)) == DayNumber(d) + 1
  {
    if d.day == DaysInMonth(d.year, d.month) && d.month == 12 {
      YearLength(d.year);
    }
  }

  /** The week `resample('W')` puts a day in: weeks run Monday to Sunday and
      are numbered by day number divided by seven. */
  function WeekOf(d: Date): (w: int)
    requires InCalendar(d)
    ensures 7 * w <= DayNumber(d) < 7 * w + 7
  {
    DayNumber(d) / 7
  }

  /** The day number of the Sunday that closes week `w`, the label pandas
      gives the week's bin. */
  function WeekLabelDay(w: int): int {
    7 * w + 6
  }

  /** A new week starts exactly after a Sunday. */
  lemma SundayClosesWeek(d: Date)
    requires InCalendar(d)
    ensures WeekOf(NextDay(d)) != WeekOf(d) <==> DayNumber(d) == WeekLabelDay(WeekOf(d))
    ensures WeekOf(NextDay(d)) == WeekOf(d) || WeekOf(NextDay(d)) == WeekOf(d) + 1
  {
    NextDayNumber(d);
  }
}
