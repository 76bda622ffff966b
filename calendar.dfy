/**
 * Calendar days as `(year, month, day)` triples, the `dd-mm-yyyy` strings the
 * price records carry, the `YYYY-MM` month keys of the forecast, and the
 * month arithmetic of `Date.prototype.setMonth`.
 *
 * For valid dates the lexicographic order of the triples is the order of
 * `Date.prototype.getTime()`.
 */
module Calendar {
  import opened Wrappers
  import opened Text

  /** A calendar day; `month` is 1-based, as in the record strings. */
  datatype Date = Date(year: int, month: int, day: int)

  /** The seed of the latest-date reduction, `new Date(0)` read in UTC. */
  const Epoch := Date(1970, 1, 1)

  /** The last whole year a JavaScript `Date` can hold. */
  const MaxYear := 275759

  /** Chronological order, lexicographic on `(year, month, day)`. */
  predicate DateLe(a: Date, b: Date) {
    || a.year < b.year
    || (a.year == b.year && (a.month < b.month || (a.month == b.month && a.day <= b.day)))
  }

  predicate DateLt(a: Date, b: Date) {
    DateLe(a, b) && a != b
  }

  predicate IsLeapYear(y: int) {
    y % 4 == 0 && (y % 100 != 0 || y % 400 == 0)
  }

  function DaysInMonth(y: int, m: int): (n: int)
    requires 1 <= m <= 12
    ensures 28 <= n <= 31
  {
    if m == 2 then (if IsLeapYear(y) then 29 else 28)
    else if m == 4 || m == 6 || m == 9 || m == 11 then 30
    else 31
  }

  /**
   * A day that `new Date(year, month - 1, day)` represents as given: no
   * overflow into the next month, and a year outside 0..99 (which the
   * constructor would read as 1900..1999) and inside the `Date` range.
   */
  predicate ValidDate(d: Date) {
    100 <= d.year <= MaxYear && 1 <= d.month <= 12 && 1 <= d.day <= DaysInMonth(d.year, d.month)
  }

  /**
   * `const [day, month, year] = s.split('-').map(Number)`, where the first
   * three fields are decimal digit strings (fields after the third are
   * ignored, as destructuring ignores them).
   */
  function ParseDate(s: string): (r: Option<Date>)
    ensures r.Some? ==> r.value.year >= 0 && r.value.month >= 0 && r.value.day >= 0
  {
    var f := Split(s, '-');
    if |f| >= 3 && IsDigits(f[0]) && IsDigits(f[1]) && IsDigits(f[2])
    then Some(Date(DigitsValue(f[2]), DigitsValue(f[1]), DigitsValue(f[0])))
    else None
  }

  /** A record date string that reads as a valid calendar day. */
  predicate IsCalendarDate(s: string) {
    ParseDate(s).Some? && ValidDate(ParseDate(s).value)
  }

  /** The string the dashboard builds from a day: zero-padded `dd-mm-yyyy`. */
  function FormatDate(d: Date): string
    requires d.year >= 0 && d.month >= 0 && d.day >= 0
  {
    Pad2(d.day) + "-" + Pad2(d.month) + "-" + NatToString(d.year)
  }

  /** Formatting a day and reading it back gives the same day. */
  lemma ParseFormat(d: Date)
    requires d.year >= 0 && d.month >= 0 && d.day >= 0
    ensures ParseDate(FormatDate(d)) == Some(d)
  {
    var dd, mm, yy := Pad2(d.day), Pad2(d.month), NatToString(d.year);
    DigitsHaveNoSeparator(dd);
    DigitsHaveNoSeparator(mm);
    DigitsHaveNoSeparator(yy);
    assert FormatDate(d) == dd + ['-'] + (mm + ['-'] + yy);
    SplitConcat(dd, '-', mm + ['-'] + yy);
    SplitConcat(mm, '-', yy);
    SplitNoSeparator(yy, '-');
    NatToStringValue(d.year);
  }

  /**
   * The month the forecast files a record under, `new Date(year, month - 1, 1)`:
   * the second and third fields of the string; the day field is not read.
   */
  function ParseMonth(s: string): (r: Option<Date>)
    ensures r.Some? ==> r.value.day == 1 && r.value.year >= 0 && r.value.month >= 0
  {
    var f := Split(s, '-');
    if |f| >= 3 && IsDigits(f[1]) && IsDigits(f[2])
    then Some(Date(DigitsValue(f[2]), DigitsValue(f[1]), 1))
    else None
  }

  /** A record date string whose month and year fields give a month the `Date` constructor keeps as is. */
  predicate HasMonthFields(s: string) {
    ParseMonth(s).Some? && 100 <= ParseMonth(s).value.year <= MaxYear && 1 <= ParseMonth(s).value.month <= 12
  }

  /** A string that reads as a full day also reads as that day's month. */
  lemma ParseDateMonth(s: string)
    requires ParseDate(s).Some?
    ensures ParseMonth(s) == Some(Date(ParseDate(s).value.year, ParseDate(s).value.month, 1))
  {
  }

  /** The first of the month holding `d`. */
  function FirstOfMonth(d: Date): Date {
    Date(d.year, d.month, 1)
  }

  /** The forecast's dictionary key, `${year}-${String(month).padStart(2, '0')}`. */
  function MonthKey(d: Date): string
    requires d.year >= 0 && d.month >= 0
  {
    NatToString(d.year) + "-" + Pad2(d.month)
  }

  /** Reads a `YYYY-MM` key back as the first of its month. */
  function ParseMonthKey(k: string): Option<Date>
  {
    var f := Split(k, '-');
    if |f| == 2 && IsDigits(f[0]) && IsDigits(f[1])
    then Some(Date(DigitsValue(f[0]), DigitsValue(f[1]), 1))
    else None
  }

  /** A month key reads back as the first of its month. */
  lemma MonthKeyRoundTrip(d: Date)
    requires d.year >= 0 && d.month >= 0
    ensures ParseMonthKey(MonthKey(d)) == Some(FirstOfMonth(d))
  {
    var yy, mm := NatToString(d.year), Pad2(d.month);
    DigitsHaveNoSeparator(yy);
    DigitsHaveNoSeparator(mm);
    SplitConcat(yy, '-', mm);
    SplitNoSeparator(mm, '-');
    NatToStringValue(d.year);
  }

  /** Two days share a month key exactly when they lie in the same month. */
  lemma MonthKeyInjective(a: Date, b: Date)
    requires a.year >= 0 && a.month >= 0 && b.year >= 0 && b.month >= 0
    ensures MonthKey(a) == MonthKey(b) <==> FirstOfMonth(a) == FirstOfMonth(b)
  {
    MonthKeyRoundTrip(a);
    MonthKeyRoundTrip(b);
  }

  /** The position of a month on the month line: January of year 0 is 0. */
  function MonthIndex(d: Date): int {
    d.year * 12 + (d.month - 1)
  }

  /**
   * `d.setMonth(monthIndex)` for a 0-based index that may leave 0..11: whole
   * years move into the year (floor division), and a day past the end of the
   * target month spills over into the next month, as the `Date` object
   * normalises it.
   */
  function SetMonth(d: Date, monthIndex: int): (r: Date)
    ensures 1 <= r.month <= 12
    ensures var target := Date(d.year + monthIndex / 12, monthIndex % 12 + 1, 1);
            if d.day <= DaysInMonth(target.year, target.month)
            then r.day == d.day && MonthIndex(r) == d.year * 12 + monthIndex
            else r.day == d.day - DaysInMonth(target.year, target.month) && MonthIndex(r) == d.year * 12 + monthIndex + 1
  {
    var y, m := d.year + monthIndex / 12, monthIndex % 12 + 1;
    var n := DaysInMonth(y, m);
    if d.day <= n then Date(y, m, d.day)
    else if m == 12 then Date(y + 1, 1, d.day - n)
    else Date(y, m + 1, d.day - n)
  }

  /** The day `setMonth` lands on is a day of its month, whenever the day it starts from is one of 1..31. */
  lemma SetMonthValid(d: Date, monthIndex: int)
    requires 1 <= d.day <= 31
    ensures var r := SetMonth(d, monthIndex); 1 <= r.day <= DaysInMonth(r.year, r.month)
  {
  }

  /** `newDate.setMonth(newDate.getMonth() + n)`: `n` months after `d`. */
  function AddMonths(d: Date, n: int): Date
  {
    SetMonth(d, d.month - 1 + n)
  }

  /** The same day one month later, rolling December over into January. */
  function NextMonth(d: Date): Date {
    if d.month == 12 then Date(d.year + 1, 1, d.day) else Date(d.year, d.month + 1, d.day)
  }

  /** The 31st of January 2024 moved one month on is the 2nd of March, since February 2024 has 29 days. */
  lemma AddMonthsRollsOver()
    ensures AddMonths(Date(2024, 1, 31), 1) == Date(2024, 3, 2)
  {
  }

  /** Moving zero months keeps a valid day. */
  lemma AddNoMonths(d: Date)
    requires 1 <= d.month <= 12 && d.day <= DaysInMonth(d.year, d.month)
    ensures AddMonths(d, 0) == d
  {
  }

  /** For a day that every month has, moving `n + 1` months is moving `n` months and then one more, with year rollover. */
  lemma AddMonthsStep(d: Date, n: int)
    requires 1 <= d.month <= 12 && d.day <= 28
    ensures AddMonths(d, n + 1) == NextMonth(AddMonths(d, n))
  {
    var r, s := AddMonths(d, n), AddMonths(d, n + 1);
    assert MonthIndex(s) == MonthIndex(r) + 1;
  }

  /** Moving further always lands later, spilled-over days included. */
  lemma AddMonthsIncreasing(d: Date, i: int, j: int)
    requires 1 <= d.month <= 12
    requires i < j
    ensures DateLt(AddMonths(d, i), AddMonths(d, j))
  {
    var r, s := AddMonths(d, i), AddMonths(d, j);
    assert MonthIndex(r) <= MonthIndex(s);
    if MonthIndex(r) < MonthIndex(s) {
      MonthIndexOrder(r, s);
    } else {
      assert r.year == s.year && r.month == s.month;
      assert r.day < s.day;
    }
  }

  /** An earlier place on the month line is an earlier month. */
  lemma MonthIndexOrder(a: Date, b: Date)
    requires 1 <= a.month <= 12 && 1 <= b.month <= 12
    requires MonthIndex(a) < MonthIndex(b)
    ensures DateLt(a, b)
  {
  }

  /**
   * The locale text `toLocaleDateString('pt-BR', { month: 'short', year: '2-digit' })`,
   * kept abstract as the month it names.
   */
  datatype Label = MonthLabel(year: int, month: int)

  function LabelOf(d: Date): Label {
    MonthLabel(d.year, d.month)
  }
}
