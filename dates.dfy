/**
 * Calendar dates as already-parsed (year, month, day) triples, following the
 * rules of Python's `datetime.date`: validity, ordering, `weekday()`, the next
 * day, `strftime("%d/%m/%Y")`, `str(date)` and `strptime(text, "%d/%m/%Y")`.
 */
module Dates {
  import opened Wrappers
  import opened Text

  datatype Date = Date(year: int, month: int, day: int)

  predicate IsLeap(y: int) {
    y % 4 == 0 && (y % 100 != 0 || y % 400 == 0)
  }

  function DaysInMonth(y: int, m: int): (r: int)
    requires 1 <= m <= 12
    ensures 28 <= r <= 31
  {
    if m == 2 then (if IsLeap(y) then 29 else 28)
    else if m == 4 || m == 6 || m == 9 || m == 11 then 30
    else 31
  }

  /** The dates `date(year, month, day)` accepts. */
  predicate Valid(d: Date) {
    1 <= d.year <= 9999 && 1 <= d.month <= 12 && 1 <= d.day <= DaysInMonth(d.year, d.month)
  }

  /** A date a `date` or `Timestamp` cell can hold. */
  type ValidDate = d: Date | Valid(d) witness Date(1, 1, 1)

  /** Python's `a < b` on dates. */
  predicate Before(a: Date, b: Date) {
    || a.year < b.year
    || (a.year == b.year && a.month < b.month)
    || (a.year == b.year && a.month == b.month && a.day < b.day)
  }

  /** Python's `a <= b` on dates. */
  predicate NotAfter(a: Date, b: Date) {
    a == b || Before(a, b)
  }

  /** Days before the first of each month in a common year. */
  const CommonDaysBeforeMonth: seq<int> := [0, 31, 59, 90, 120, 151, 181, 212, 243, 273, 304, 334]

  /** `date.toordinal()`: 1 January of year 1 is day 1. */
  function Ordinal(d: Date): int
    requires Valid(d)
  {
    var p := d.year - 1;
    p * 365 + p / 4 - p / 100 + p / 400
      + CommonDaysBeforeMonth[d.month - 1] + (if d.month > 2 && IsLeap(d.year) then 1 else 0)
      + d.day
  }

  /** `date.weekday()`: Monday is 0 and Sunday is 6. */
  function Weekday(d: Date): (r: int)
    requires Valid(d)
    ensures 0 <= r < 7
  {
    (Ordinal(d) + 6) % 7
  }

  /** `d + timedelta(days=1)`. */
  function NextDay(d: Date): (r: Date)
    requires Valid(d) && d != Date(9999, 12, 31)
    ensures Valid(r) && Before(d, r)
  {
    if d.day < DaysInMonth(d.year, d.month) then Date(d.year, d.month, d.day + 1)
    else if d.month < 12 then Date(d.year, d.month + 1, 1)
    else Date(d.year + 1, 1, 1)
  }

  /** The days before month `m` of year `y`, leap day included. */
  function DaysBeforeMonth(y: int, m: int): int
    requires 1 <= m <= 12
  {
    CommonDaysBeforeMonth[m - 1] + (if m > 2 && IsLeap(y) then 1 else 0)
  }

  lemma MonthStep(y: int, m: int)
    requires 1 <= m < 12
    ensures DaysBeforeMonth(y, m + 1) == DaysBeforeMonth(y, m) + DaysInMonth(y, m)
  {
  }

  lemma YearStep(y: int)
    requires 1 <= y
    ensures var p := y - 1;
      y * 365 + y / 4 - y / 100 + y / 400 == p * 365 + p / 4 - p / 100 + p / 400 + DaysBeforeMonth(y, 12) + 31
  {
    var p := y - 1;
    assert p + 1 == y;
    assert (p + 1) / 4 == p / 4 + (if y % 4 == 0 then 1 else 0);
    assert (p + 1) / 100 == p / 100 + (if y % 100 == 0 then 1 else 0);
    assert (p + 1) / 400 == p / 400 + (if y % 400 == 0 then 1 else 0);
  }

  /** The next day is exactly one day later on the ordinal scale. */
  lemma NextDayOrdinal(d: Date)
    requires Valid(d) && d != Date(9999, 12, 31)
    ensures Ordinal(NextDay(d)) == Ordinal(d) + 1
  {
    assert Ordinal(d) == (d.year - 1) * 365 + (d.year - 1) / 4 - (d.year - 1) / 100 + (d.year - 1) / 400
                         + DaysBeforeMonth(d.year, d.month) + d.day;
    if d.day == DaysInMonth(d.year, d.month) {
      if d.month < 12 {
        MonthStep(d.year, d.month);
      } else {
        YearStep(d.year);
      }
    }
  }

  /** `date.strftime("%d/%m/%Y")`. */
  function Format(d: Date): string
    requires Valid(d)
  {
    Pad2(d.day) + "/" + Pad2(d.month) + "/" + NatToString(d.year)
  }

  /** `str(date)`: ISO `YYYY-MM-DD`. */
  function IsoFormat(d: Date): string
    requires Valid(d)
  {
    Pad4(d.year) + "-" + Pad2(d.month) + "-" + Pad2(d.day)
  }

  /**
   * `datetime.strptime(text, "%d/%m/%Y").date()`: a day and a month of one or
   * two digits, a four-digit year, and a date that exists; `None` where
   * Python raises `ValueError`.
   */
  function ParseDayMonthYear(s: string): (r: Option<Date>)
    ensures r.Some? ==> Valid(r.value)
  {
    var parts := Split(s, '/');
    if |parts| != 3 then None
    else
      var dd, mm, yyyy := parts[0], parts[1], parts[2];
      if IsDigits(dd) && |dd| <= 2 && IsDigits(mm) && |mm| <= 2 && IsDigits(yyyy) && |yyyy| == 4 then
        var d := Date(DigitsValue(yyyy), DigitsValue(mm), DigitsValue(dd));
        if Valid(d) then Some(d) else None
      else None
  }

  lemma NatToStringLength(n: nat)
    ensures n < 10 ==> |NatToString(n)| == 1
    ensures 10 <= n < 100 ==> |NatToString(n)| == 2
    ensures 1000 <= n < 10000 ==> |NatToString(n)| == 4
  {
    if n >= 10 {
      assert |NatToString(n)| == |NatToString(n / 10)| + 1;
      if n >= 100 {
        assert |NatToString(n / 10)| == |NatToString(n / 100)| + 1;
        if n >= 1000 {
          assert |NatToString(n / 100)| == |NatToString(n / 1000)| + 1;
        }
      }
    }
  }

  lemma DigitsHaveNoSlash(s: string)
    requires AllDigits(s)
    ensures '/' !in s
  {
    forall i | 0 <= i < |s|
      ensures s[i] != '/'
    {
      assert IsDigit(s[i]);
    }
  }

  /** Formatting a date and parsing it back gives the same date (four-digit years). */
  lemma ParseFormatRoundTrip(d: Date)
    requires Valid(d) && d.year >= 1000
    ensures ParseDayMonthYear(Format(d)) == Some(d)
  {
    var dd, mm, yyyy := Pad2(d.day), Pad2(d.month), NatToString(d.year);
    NatToStringLength(d.day);
    NatToStringLength(d.month);
    NatToStringLength(d.year);
    DigitsHaveNoSlash(dd);
    DigitsHaveNoSlash(mm);
    DigitsHaveNoSlash(yyyy);
    assert Format(d) == dd + ['/'] + (mm + ['/'] + yyyy);
    SplitAt(dd, mm + ['/'] + yyyy, '/');
    SplitAt(mm, yyyy, '/');
    assert Split(Format(d), '/') == [dd, mm, yyyy];
    Pad2Value(d.day);
    Pad2Value(d.month);
    NatToStringValue(d.year);
  }
}
