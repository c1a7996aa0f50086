/**
 * Calendar dates as `datetime.strptime(text, '%b %d, %Y')` reads them
 * (nc_lottery_website.py:140-141), and the moments they are compared with.
 * The format's spaces match one or more whitespace characters, the month
 * abbreviation is matched without regard to case, the day has one or two
 * digits in 1..31, the year exactly four digits, nothing may follow, and the
 * resulting date must exist in the calendar.
 */
module Dates {
  import opened Wrappers
  import opened Text
  import opened Numbers

  datatype Date = Date(year: int, month: int, day: int)

  /** A moment: a calendar date and the microseconds elapsed since its midnight. */
  datatype DateTime = DateTime(date: Date, micros: int)

  predicate IsLeapYear(y: int) {
    y % 4 == 0 && (y % 100 != 0 || y % 400 == 0)
  }

  function DaysInMonth(year: int, month: int): (n: int)
    requires 1 <= month <= 12
    ensures 28 <= n <= 31
  {
    if month == 2 then (if IsLeapYear(year) then 29 else 28)
    else if month == 4 || month == 6 || month == 9 || month == 11 then 30
    else 31
  }

  /** A date `datetime` accepts: years 1..9999 and a day that the month has. */
  predicate ValidDate(d: Date) {
    1 <= d.year <= 9999 && 1 <= d.month <= 12 && 1 <= d.day <= DaysInMonth(d.year, d.month)
  }

  const MONTH_NAMES: seq<string> :=
    ["Jan", "Feb", "Mar", "Apr", "May", "Jun", "Jul", "Aug", "Sep", "Oct", "Nov", "Dec"]

  function LowerAscii(c: char): char {
    if 'A' <= c <= 'Z' then (c as int + 32) as char else c
  }

  predicate EqualsIgnoringCase(a: string, b: string) {
    |a| == |b| && forall i :: 0 <= i < |a| ==> LowerAscii(a[i]) == LowerAscii(b[i])
  }

  /** The number (1..12) of the month whose abbreviation `s` spells in any case, or 0. */
  function MonthNumber(s: string): (m: nat)
    ensures m <= 12
    ensures m > 0 ==> EqualsIgnoringCase(s, MONTH_NAMES[m - 1])
    ensures m == 0 ==> forall k :: 0 <= k < 12 ==> !EqualsIgnoringCase(s, MONTH_NAMES[k])
  {
    MonthFrom(s, 0)
  }

  function MonthFrom(s: string, k: nat): (m: nat)
    requires k <= 12
    ensures m == 0 || k < m <= 12
    ensures m > 0 ==> EqualsIgnoringCase(s, MONTH_NAMES[m - 1])
    ensures m == 0 ==> forall j :: k <= j < 12 ==> !EqualsIgnoringCase(s, MONTH_NAMES[j])
    decreases 12 - k
  {
    if k == 12 then 0
    else if EqualsIgnoringCase(s, MONTH_NAMES[k]) then k + 1
    else MonthFrom(s, k + 1)
  }

  /** `datetime.strptime(s, '%b %d, %Y')`, None where Python raises `ValueError`. */
  function ParseDate(s: string): (r: Option<Date>)
    ensures r.Some? ==> ValidDate(r.value)
  {
    if |s| < 3 then None
    else
      var month := MonthNumber(s[..3]);
      if month == 0 then None else DayPart(s, month)
  }

  /** `' %d,'`: whitespace, one or two digits and a comma after the month name. */
  function DayPart(s: string, month: nat): (r: Option<Date>)
    requires 3 <= |s|
    ensures r.Some? ==> ValidDate(r.value)
  {
    var gap1 := SpaceRun(s, 3);
    var dayStart := 3 + gap1;
    var dayLen := DigitRun(s, dayStart);
    var comma := dayStart + dayLen;
    if gap1 == 0 || dayLen == 0 || dayLen > 2 || comma == |s| || s[comma] != ',' then None
    else YearPart(s, month, DigitsValue(s[dayStart..comma]), comma + 1)
  }

  /** `' %Y'`: whitespace and exactly four digits to the end; then the date must exist. */
  function YearPart(s: string, month: nat, day: nat, i: nat): (r: Option<Date>)
    requires i <= |s|
    ensures r.Some? ==> ValidDate(r.value)
  {
    var gap2 := SpaceRun(s, i);
    var yearStart := i + gap2;
    if gap2 == 0 || |s| - yearStart != 4 || !AllDigits(s[yearStart..]) then None
    else
      var d := Date(DigitsValue(s[yearStart..]), month, day);
      if 1 <= d.day <= 31 && ValidDate(d) then Some(d) else None
  }

  /** The date written as the games-ending listing writes it: `Jan 05, 2024`. */
  function FormatDate(d: Date): string
    requires ValidDate(d)
  {
    MONTH_NAMES[d.month - 1] + " " + PadDigits(d.day, 2) + ", " + PadDigits(d.year, 4)
  }

  /** Midnight at the start of a date: what `strptime` returns for it. */
  function Midnight(d: Date): DateTime {
    DateTime(d, 0)
  }

  /** The order of `datetime` values: by year, month, day, then time of day. */
  predicate Before(a: DateTime, b: DateTime) {
    a.date.year < b.date.year
    || (a.date.year == b.date.year && a.date.month < b.date.month)
    || (a.date.year == b.date.year && a.date.month == b.date.month && a.date.day < b.date.day)
    || (a.date == b.date && a.micros < b.micros)
  }

  predicate AtOrBefore(a: DateTime, b: DateTime) {
    Before(a, b) || a == b
  }

  lemma {:induction false} BeforeTransitive(a: DateTime, b: DateTime, c: DateTime)
    requires Before(a, b) && AtOrBefore(b, c)
    ensures Before(a, c)
  {
  }

  // ----- The round trip -----

  lemma MonthNameMatches(m: int)
    requires 1 <= m <= 12
    ensures MonthNumber(MONTH_NAMES[m - 1]) == m
  {
    var s := MONTH_NAMES[m - 1];
    assert EqualsIgnoringCase(s, MONTH_NAMES[m - 1]);
    var r := MonthNumber(s);
    if r != m {
      assert r > 0;
      // Two different abbreviations differ in some letter, whatever the case.
      assert EqualsIgnoringCase(MONTH_NAMES[r - 1], MONTH_NAMES[m - 1]);
      DistinctMonthNames(r, m);
    }
  }

  lemma DistinctMonthNames(a: int, b: int)
    requires 1 <= a <= 12 && 1 <= b <= 12 && a != b
    ensures !EqualsIgnoringCase(MONTH_NAMES[a - 1], MONTH_NAMES[b - 1])
  {
    var x, y := MONTH_NAMES[a - 1], MONTH_NAMES[b - 1];
    assert LowerAscii(x[0]) != LowerAscii(y[0]) || LowerAscii(x[1]) != LowerAscii(y[1])
      || LowerAscii(x[2]) != LowerAscii(y[2]);
  }

  /** Where the parts of a formatted date lie. */
  lemma FormatDateLayout(d: Date)
    requires ValidDate(d)
    ensures var s := FormatDate(d);
      |s| == 12 && s[..3] == MONTH_NAMES[d.month - 1] && s[3] == ' ' && s[4..6] == PadDigits(d.day, 2)
      && s[6] == ',' && s[7] == ' ' && s[8..] == PadDigits(d.year, 4)
  {
  }

  /** The separators and digit runs `ParseDate` finds in a formatted date. */
  lemma FormatDateRuns(d: Date)
    requires ValidDate(d)
    ensures var s := FormatDate(d);
      |s| == 12 && SpaceRun(s, 3) == 1 && DigitRun(s, 4) == 2 && s[6] == ',' && SpaceRun(s, 7) == 1
      && AllDigits(s[8..])
  {
    var s := FormatDate(d);
    FormatDateLayout(d);
    assert IsDigit(s[4]) && IsDigit(s[5]);
    assert !IsSpace(s[4]) && !IsDigit(s[6]) && !IsSpace(s[8]);
    assert SpaceRun(s, 4) == 0 && SpaceRun(s, 8) == 0 && DigitRun(s, 6) == 0;
  }

  /** The month, day and year `ParseDate` reads from a formatted date. */
  lemma FormatDateValues(d: Date)
    requires ValidDate(d)
    ensures var s := FormatDate(d);
      |s| == 12 && MonthNumber(s[..3]) == d.month
      && DigitsValue(s[4..6]) == d.day && DigitsValue(s[8..]) == d.year
  {
    FormatDateLayout(d);
    MonthNameMatches(d.month);
    assert Pow10(2) == 100 && Pow10(4) == 10000;
    PadDigitsValue(d.day, 2);
    PadDigitsValue(d.year, 4);
  }

  /** What `ParseDate` scans in a formatted date. */
  lemma FormatDateScan(d: Date)
    requires ValidDate(d)
    ensures var s := FormatDate(d);
      |s| == 12 && MonthNumber(s[..3]) == d.month && SpaceRun(s, 3) == 1 && DigitRun(s, 4) == 2
      && s[6] == ',' && SpaceRun(s, 7) == 1 && AllDigits(s[8..])
      && DigitsValue(s[4..6]) == d.day && DigitsValue(s[8..]) == d.year
  {
    FormatDateRuns(d);
    FormatDateValues(d);
  }

  /** The round trip: every valid date reads back from its listing form. */
  lemma ParseFormatDate(d: Date)
    requires ValidDate(d)
    ensures ParseDate(FormatDate(d)) == Some(d)
  {
    FormatDateScan(d);
  }
}
