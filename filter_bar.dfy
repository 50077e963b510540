/**
 * The filter bar (components/FilterBar.tsx): the five filter fields, the
 * handlers that produce the next filter record, and the date-range presets.
 * `new Date()` is the only impure input; "today" is passed in as the year
 * and the 0-based month that `getFullYear()` and `getMonth()` return.
 */
module FilterBar {
  import opened Text

  /** The filter record; every field is the text of its control, "" when unused. */
  datatype Filters = Filters(
    store_name: string,
    date_of_purchase: string,
    date_from: string,
    date_to: string,
    approved: string)

  datatype FilterField = StoreNameFilter | DateOfPurchaseFilter | DateFromFilter | DateToFilter | ApprovedFilter

  /** `filters[k]`. */
  function GetFilter(f: Filters, k: FilterField): string
  {
    match k
    case StoreNameFilter => f.store_name
    case DateOfPurchaseFilter => f.date_of_purchase
    case DateFromFilter => f.date_from
    case DateToFilter => f.date_to
    case ApprovedFilter => f.approved
  }

  /** `handleChange(k, v)`: `{...prev, [k]: v}` changes the named field and no other. */
  function HandleChange(prev: Filters, k: FilterField, v: string): (r: Filters)
    ensures GetFilter(r, k) == v
    ensures forall j :: j != k ==> GetFilter(r, j) == GetFilter(prev, j)
  {
    match k
    case StoreNameFilter => prev.(store_name := v)
    case DateOfPurchaseFilter => prev.(date_of_purchase := v)
    case DateFromFilter => prev.(date_from := v)
    case DateToFilter => prev.(date_to := v)
    case ApprovedFilter => prev.(approved := v)
  }

  /** `handleReset()`: every field back to "". */
  function HandleReset(): (r: Filters)
    ensures forall k :: GetFilter(r, k) == ""
  {
    Filters("", "", "", "", "")
  }

  /** The pair of date strings a preset puts in the range fields. */
  datatype DateRange = DateRange(from: string, to: string)

  // Calendar arithmetic behind `new Date(year, month + 1, 0).getDate()`.

  predicate IsLeapYear(y: int)
  {
    (y % 4 == 0 && y % 100 != 0) || y % 400 == 0
  }

  /** The Gregorian calendar's table of month lengths (month 1..12). */
  function GregorianDaysInMonth(y: int, month: nat): nat
    requires 1 <= month <= 12
  {
    if month == 2 then (if IsLeapYear(y) then 29 else 28)
    else if month == 4 || month == 6 || month == 9 || month == 11 then 30
    else 31
  }

  /** The `Date` constructor reads a year argument 0..99 as 1900..1999. */
  function JsFullYear(y: int): int
  {
    if 0 <= y <= 99 then 1900 + y else y
  }

  /** Days from January 1 of `y` to the first of the 0-based month `m`; `m == 12` is the next January 1. */
  function DaysBeforeMonth(y: int, m: nat): nat
    requires m <= 12
  {
    [0, 31, 59, 90, 120, 151, 181, 212, 243, 273, 304, 334, 365][m]
    + (if m >= 2 && IsLeapYear(y) then 1 else 0)
  }

  /**
   * `new Date(y, m + 1, 0).getDate()`: day 0 of the following month is the
   * day before its first, so its day of the month is the number of days
   * from the first of month `m` to the first of month `m + 1`.
   */
  function LastDayOfMonth(y: int, m: nat): (d: nat)
    requires m < 12
    ensures 28 <= d <= 31
  {
    var fy := JsFullYear(y);
    DaysBeforeMonth(fy, m + 1) - DaysBeforeMonth(fy, m)
  }

  /**
   * The day count agrees with the Gregorian table, February included: the
   * last day is 29 exactly in leap years (of the year the `Date`
   * constructor reads).
   */
  lemma LastDayIsDaysInMonth(y: int, m: nat)
    requires m < 12
    ensures LastDayOfMonth(y, m) == GregorianDaysInMonth(JsFullYear(y), m + 1)
    ensures 28 <= LastDayOfMonth(y, m) <= 31
    ensures m == 1 ==> (LastDayOfMonth(y, m) == 29 <==> IsLeapYear(JsFullYear(y)))
  {
  }

  /** `${year}-${MM}-${DD}` with two-digit, zero-padded month and day. */
  function DateText(year: int, month: nat, day: nat): string
    requires month < 100 && day < 100
  {
    IntToString(year) + "-" + TwoDigits(month) + "-" + TwoDigits(day)
  }

  /** The first and last day of the 0-based month `m` of `year`. */
  function MonthRange(year: int, m: nat): (r: DateRange)
    requires m < 12
    ensures r.from != "" && r.to != ""
  {
    var from := IntToString(year) + "-" + TwoDigits(m + 1) + "-01";
    var lastDay := LastDayOfMonth(year, m);
    var to := IntToString(year) + "-" + TwoDigits(m + 1) + "-" + TwoDigits(lastDay);
    DateRange(from, to)
  }

  /** `getDateRange(range)` with today's year and 0-based month passed in. */
  function GetDateRange(range: string, year: int, month: nat): (r: DateRange)
    requires month < 12
    ensures IsNamedRange(range) <==> r.from != ""
    ensures IsNamedRange(range) <==> r.to != ""
  {
    if range == "current-month" then
      MonthRange(year, month)
    else if range == "previous-month" then
      var prevMonth := if month == 0 then 11 else month - 1;
      var prevYear := if month == 0 then year - 1 else year;
      MonthRange(prevYear, prevMonth)
    else if range == "current-year" then
      DateRange(IntToString(year) + "-01-01", IntToString(year) + "-12-31")
    else if range == "last-year" then
      DateRange(IntToString(year - 1) + "-01-01", IntToString(year - 1) + "-12-31")
    else
      DateRange("", "")
  }

  predicate IsNamedRange(range: string)
  {
    range == "current-month" || range == "previous-month" || range == "current-year" || range == "last-year"
  }

  /** `handleDateRangeClick(range)`: the preset fills the range fields and clears the single date. */
  function HandleDateRangeClick(prev: Filters, range: string, year: int, month: nat): (r: Filters)
    requires month < 12
    ensures r.date_from == GetDateRange(range, year, month).from
    ensures r.date_to == GetDateRange(range, year, month).to
    ensures r.date_of_purchase == ""
    ensures r.store_name == prev.store_name && r.approved == prev.approved
  {
    var dr := GetDateRange(range, year, month);
    prev.(date_from := dr.from, date_to := dr.to, date_of_purchase := "")
  }

  // Properties of the presets.

  /** The part of a date string after the year. */
  lemma DateTextSplit(year: int, month: nat, day: nat)
    requires month < 100 && day < 100
    ensures DateText(year, month, day) == IntToString(year) + ("-" + TwoDigits(month) + "-" + TwoDigits(day))
  {
    var y, mm, dd := IntToString(year), TwoDigits(month), TwoDigits(day);
    Regroup(y, "-", mm);
    Regroup(y, "-" + mm, "-");
    Regroup(y, "-" + mm + "-", dd);
  }

  /** `-MM-DD` with two-character month and day. */
  lemma MonthDayTail(mm: string, dd: string)
    requires |mm| == 2 && |dd| == 2
    ensures var r := "-" + mm + "-" + dd;
      |r| == 6 && r[0] == '-' && r[1..3] == mm && r[3] == '-' && r[4..] == dd
  {
  }

  /** The layout of `y-MM-DD` for any year text and two-character fields. */
  lemma DateLayout(y: string, mm: string, dd: string)
    requires |mm| == 2 && |dd| == 2
    ensures var t, n := y + ("-" + mm + "-" + dd), |y|;
      && |t| == n + 6
      && t[..n] == y && t[n] == '-' && t[n + 3] == '-'
      && t[n + 1..n + 3] == mm && t[n + 4..] == dd
  {
    var r := "-" + mm + "-" + dd;
    MonthDayTail(mm, dd);
    var t, n := y + r, |y|;
    assert t[..n] == y;
    assert t[n..] == r;
  }

  /**
   * A date string is the year, a dash, the month's two-digit field, a dash
   * and the day's two-digit field (each of which is two digits denoting
   * the number, by `TwoDigitsSpec`).
   */
  lemma DateTextFormat(year: int, month: nat, day: nat)
    requires month < 100 && day < 100
    ensures var t, n := DateText(year, month, day), |IntToString(year)|;
      && |t| == n + 6
      && t[..n] == IntToString(year) && t[n] == '-' && t[n + 3] == '-'
      && t[n + 1..n + 3] == TwoDigits(month) && t[n + 4..] == TwoDigits(day)
  {
    TwoDigitsLength(month);
    TwoDigitsLength(day);
    DateTextSplit(year, month, day);
    DateLayout(IntToString(year), TwoDigits(month), TwoDigits(day));
  }

  /**
   * "This Month" runs from day 01 to the last day of the current month,
   * which is the Gregorian month length of the year `Date` reads.
   */
  lemma CurrentMonthRange(year: int, month: nat)
    requires month < 12
    ensures GetDateRange("current-month", year, month).from == DateText(year, month + 1, 1)
    ensures GetDateRange("current-month", year, month).to
            == DateText(year, month + 1, GregorianDaysInMonth(JsFullYear(year), month + 1))
  {
    LastDayIsDaysInMonth(year, month);
    assert TwoDigits(1) == "01";
  }

  /** "Last Month" is "This Month" of the month before: December of the previous year in January. */
  lemma PreviousMonthRange(year: int, month: nat)
    requires month < 12
    ensures month == 0 ==> GetDateRange("previous-month", year, month) == GetDateRange("current-month", year - 1, 11)
    ensures month > 0 ==> GetDateRange("previous-month", year, month) == GetDateRange("current-month", year, month - 1)
  {
  }

  /** The padded month and day numbers a whole-year range uses. */
  lemma YearDigits()
    ensures TwoDigits(1) == "01" && TwoDigits(12) == "12" && TwoDigits(31) == "31"
  {
    assert NatToString(1) == "1";
    assert NatToString(12) == "12" by {
      assert NatToString(12) == NatToString(1) + [DigitChar(2)];
    }
    assert NatToString(31) == "31" by {
      assert NatToString(31) == NatToString(3) + [DigitChar(1)];
    }
  }

  /** January 1 and December 31 of a year, as the literal text the presets build. */
  lemma YearEnds(year: int)
    ensures DateText(year, 1, 1) == IntToString(year) + "-01-01"
    ensures DateText(year, 12, 31) == IntToString(year) + "-12-31"
  {
    YearDigits();
    var y := IntToString(year);
    Regroup(y, "-", "01");
    Regroup(y, "-01", "-");
    Regroup(y, "-01-", "01");
    Regroup(y, "-", "12");
    Regroup(y, "-12", "-");
    Regroup(y, "-12-", "31");
  }

  /** "This Year" is January 1 to December 31; "Last Year" is the same for the year before. */
  lemma YearRanges(year: int, month: nat)
    requires month < 12
    ensures GetDateRange("current-year", year, month) == DateRange(DateText(year, 1, 1), DateText(year, 12, 31))
    ensures GetDateRange("last-year", year, month) == GetDateRange("current-year", year - 1, month)
  {
    YearEnds(year);
  }

  /** Any other key gives an empty range. */
  lemma UnknownRangeIsEmpty(range: string, year: int, month: nat)
    requires month < 12 && !IsNamedRange(range)
    ensures GetDateRange(range, year, month) == DateRange("", "")
  {
  }

  /** The first of a month sorts before its last day, as text. */
  lemma MonthRangeOrdered(year: int, m: nat)
    requires m < 12
    ensures LexLe(MonthRange(year, m).from, MonthRange(year, m).to)
  {
    var p := IntToString(year) + "-" + TwoDigits(m + 1) + "-";
    var last := LastDayOfMonth(year, m);
    LastDayIsDaysInMonth(year, m);
    TwoDigitsSpec(last);
    assert NatToString(last) == NatToString(last / 10) + [DigitChar(last % 10)];
    assert TwoDigits(last)[0] == DigitChar(last / 10);
    assert LexLe("01", TwoDigits(last));
    LexLeCommonPrefix(p, "01", TwoDigits(last));
    assert p + "01" == MonthRange(year, m).from;
    assert p + TwoDigits(last) == MonthRange(year, m).to;
  }

  /** A month's range is the date text of its first and its last day. */
  lemma MonthRangeText(year: int, m: nat)
    requires m < 12
    ensures MonthRange(year, m) == DateRange(DateText(year, m + 1, 1), DateText(year, m + 1, LastDayOfMonth(year, m)))
  {
    var p := IntToString(year) + "-" + TwoDigits(m + 1);
    assert TwoDigits(1) == "01";
    Regroup(p, "-", "01");
  }

  /** The range of one month, as dates and as text. */
  lemma MonthRangeDates(year: int, m: nat)
    requires m < 12
    ensures 1 <= LastDayOfMonth(year, m) <= 31
    ensures MonthRange(year, m) == DateRange(DateText(year, m + 1, 1), DateText(year, m + 1, LastDayOfMonth(year, m)))
    ensures LexLe(MonthRange(year, m).from, MonthRange(year, m).to)
  {
    MonthRangeText(year, m);
    MonthRangeOrdered(year, m);
  }

  /** The range of one whole year, as dates and as text. */
  lemma YearRangeDates(year: int)
    ensures GetDateRange("current-year", year, 0) == DateRange(DateText(year, 1, 1), DateText(year, 12, 31))
    ensures LexLe(GetDateRange("current-year", year, 0).from, GetDateRange("current-year", year, 0).to)
  {
    YearRanges(year, 0);
    var y := IntToString(year);
    assert LexLe("-01-01", "-12-31");
    LexLeCommonPrefix(y, "-01-01", "-12-31");
  }

  /**
   * Every named preset gives a non-empty range inside one year whose start
   * is no later than its end: as (month, day) pairs, and as text.
   */
  lemma NamedRangeOrdered(range: string, year: int, month: nat)
      returns (y: int, m1: nat, d1: nat, m2: nat, d2: nat)
    requires month < 12 && IsNamedRange(range)
    ensures 1 <= m1 <= m2 <= 12 && 1 <= d1 <= 31 && 1 <= d2 <= 31
    ensures m1 < m2 || (m1 == m2 && d1 <= d2)
    ensures GetDateRange(range, year, month) == DateRange(DateText(y, m1, d1), DateText(y, m2, d2))
    ensures LexLe(GetDateRange(range, year, month).from, GetDateRange(range, year, month).to)
  {
    if range == "current-month" {
      y := year;
      MonthRangeDates(y, month);
      m1, d1, m2, d2 := month + 1, 1, month + 1, LastDayOfMonth(y, month);
    } else if range == "previous-month" {
      var mm := if month == 0 then 11 else month - 1;
      y := if month == 0 then year - 1 else year;
      MonthRangeDates(y, mm);
      m1, d1, m2, d2 := mm + 1, 1, mm + 1, LastDayOfMonth(y, mm);
    } else {
      y := if range == "current-year" then year else year - 1;
      YearRanges(year, month);
      YearRanges(y, month);
      YearRanges(y, 0);
      YearRangeDates(y);
      m1, d1, m2, d2 := 1, 1, 12, 31;
    }
  }
}
