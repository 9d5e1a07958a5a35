/**
 The report range: its two refinements, its inclusive day count, and the zero-filled daily series.
 Dates are the `YYYY-MM-DD` strings the API receives.
 */
module Reporting {
  import opened Calendar

  const REPORT_RANGE_MAX_DAYS: int := 366
  const DAY_MS: int := 86400000

  type ReportDate = s: string | IsReportDate(s) witness "1970-01-01"

  /** `Date.parse` of midnight UTC. */
  function Millis(s: ReportDate): int { DayNumber(Fields(s)) * DAY_MS }

  /** `Math.round` is the floor of x + 1/2. */
  function ReportRangeDays(from: ReportDate, to: ReportDate): int {
    ((Millis(to) - Millis(from)) as real / DAY_MS as real + 0.5).Floor + 1
  }

  lemma RoundIsExact(from: ReportDate, to: ReportDate)
    ensures ReportRangeDays(from, to) == DayNumber(Fields(to)) - DayNumber(Fields(from)) + 1
  {
    var n := DayNumber(Fields(to)) - DayNumber(Fields(from));
    assert Millis(to) - Millis(from) == n * DAY_MS;
    assert (n * DAY_MS) as real / DAY_MS as real == n as real;
    assert (n as real + 0.5).Floor == n;
  }

  predicate NotAfter(from: string, to: string) { !TextLess(to, from) }

  predicate Accepted(from: ReportDate, to: ReportDate) {
    NotAfter(from, to) && ReportRangeDays(from, to) <= REPORT_RANGE_MAX_DAYS
  }

  lemma StringOrder(a: ReportDate, b: ReportDate)
    ensures TextLess(a, b) <==> DayNumber(Fields(a)) < DayNumber(Fields(b))
    ensures a == b <==> DayNumber(Fields(a)) == DayNumber(Fields(b))
  {
    FieldsRoundTrip(a);
    FieldsRoundTrip(b);
    TextOrderIsDateOrder(Fields(a), Fields(b));
    OrderIsNumberOrder(Fields(a), Fields(b));
  }

  /** The first refinement compares strings; it holds exactly when the day count is at least one. */
  lemma PositiveExactlyWhenOrdered(from: ReportDate, to: ReportDate)
    ensures NotAfter(from, to) <==> ReportRangeDays(from, to) >= 1
    ensures from == to <==> ReportRangeDays(from, to) == 1
  {
    RoundIsExact(from, to);
    StringOrder(to, from);
  }

  /** Counting splits at any day: the two halves of a range add up to the whole, nothing counted twice. */
  lemma RangeSplits(from: ReportDate, mid: ReportDate, to: ReportDate)
    requires TextLess(mid, to)
    ensures NextDay(Fields(mid)).year <= 9999
    ensures var next := Text(NextDay(Fields(mid)));
            IsReportDate(next) && ReportRangeDays(from, to) == ReportRangeDays(from, mid) + ReportRangeDays(next, to)
  {
    FieldsRoundTrip(mid);
    FieldsRoundTrip(to);
    TextOrderIsDateOrder(Fields(mid), Fields(to));
    NextDayIsNextNumber(Fields(mid));
    var next := NextDay(Fields(mid));
    TextRoundTrip(next);
    RoundIsExact(from, to);
    RoundIsExact(from, mid);
    RoundIsExact(Text(next), to);
  }

  // --- The daily series -------------------------------------------------------------------------

  /** One entry per day number, starting at `from`. */
  ghost predicate Consecutive(from: Date, days: seq<Date>)
    requires Valid(from)
  {
    forall i :: 0 <= i < |days| ==> Valid(days[i]) && DayNumber(days[i]) == DayNumber(from) + i
  }

  ghost predicate IsSeries(from: ReportDate, to: ReportDate, days: seq<Date>) {
    && Consecutive(Fields(from), days)
    && |days| == if NotAfter(from, to) then ReportRangeDays(from, to) else 0
  }

  /** `generate_series(from, to, interval '1 day')`: a loop over calendar days, not over instants. */
  method GenerateSeries(first: Date, last: Date) returns (days: seq<Date>)
    requires Valid(first) && Valid(last)
    ensures Consecutive(first, days)
    ensures |days| == if Before(last, first) then 0 else DayNumber(last) - DayNumber(first) + 1
  {
    days := [];
    var date := first;
    OrderIsNumberOrder(last, first);
    while !Before(last, date)
      invariant Valid(date) && Consecutive(first, days)
      invariant DayNumber(date) == DayNumber(first) + |days|
      invariant Before(last, date) <==> DayNumber(last) < DayNumber(date)
      invariant DayNumber(date) <= DayNumber(last) + 1 || days == []
      decreases DayNumber(last) - DayNumber(date)
    {
      days := days + [date];
      NextDayIsNextNumber(date);
      date := NextDay(date);
      OrderIsNumberOrder(last, date);
    }
  }

  method DailyDates(from: ReportDate, to: ReportDate) returns (days: seq<Date>)
    ensures IsSeries(from, to, days)
  {
    days := GenerateSeries(Fields(from), Fields(to));
    RoundIsExact(from, to);
    StringOrder(to, from);
    OrderIsNumberOrder(Fields(to), Fields(from));
  }

  /**
   The series has exactly one point for every calendar day of the range and no other: each day between
   the ends appears once, in order, and nothing outside them appears.
   */
  lemma SeriesIsTheRange(from: ReportDate, to: ReportDate, days: seq<Date>, d: Date)
    requires IsSeries(from, to, days) && Valid(d)
    ensures d in days <==> !Before(d, Fields(from)) && !Before(Fields(to), d)
    ensures forall i, j :: 0 <= i < j < |days| ==> Before(days[i], days[j])
  {
    RoundIsExact(from, to);
    PositiveExactlyWhenOrdered(from, to);
    OrderIsNumberOrder(d, Fields(from));
    OrderIsNumberOrder(Fields(to), d);
    var i := DayNumber(d) - DayNumber(Fields(from));
    if 0 <= i < |days| {
      OrderIsNumberOrder(days[i], d);
    }
    forall i, j | 0 <= i < j < |days|
      ensures Before(days[i], days[j])
    {
      OrderIsNumberOrder(days[i], days[j]);
    }
  }

  /** The bound admits every calendar year whole, leap or not, and no range a day longer than a leap year. */
  lemma WholeYearsFit(from: ReportDate, to: ReportDate)
    requires Fields(from) == Date(Fields(from).year, 1, 1) && Fields(to) == Date(Fields(from).year, 12, 31)
    ensures ReportRangeDays(from, to) == DaysInYear(Fields(from).year)
    ensures Accepted(from, to)
  {
    RoundIsExact(from, to);
    MonthTable(Fields(from).year);
    PositiveExactlyWhenOrdered(from, to);
  }
}
