/**
 The proleptic Gregorian calendar: valid dates, their `YYYY-MM-DD` text, and the day number of
 section 21.4.1 of ECMA-262.
 */
module Calendar {
  import opened Common

  datatype Date = Date(year: int, month: int, day: int)

  predicate IsLeap(year: int) { (year % 4 == 0 && year % 100 != 0) || year % 400 == 0 }

  function DaysInMonth(year: int, month: int): (n: int)
    requires 1 <= month <= 12
    ensures 28 <= n <= 31
  {
    if month == 2 then (if IsLeap(year) then 29 else 28)
    else if month == 4 || month == 6 || month == 9 || month == 11 then 30
    else 31
  }

  predicate Valid(d: Date) { 1 <= d.month <= 12 && 1 <= d.day <= DaysInMonth(d.year, d.month) }

  predicate Before(a: Date, b: Date) {
    a.year < b.year || (a.year == b.year && (a.month < b.month || (a.month == b.month && a.day < b.day)))
  }

  function NextDay(d: Date): (n: Date)
    requires Valid(d)
    ensures Valid(n) && Before(d, n)
  {
    if d.day < DaysInMonth(d.year, d.month) then d.(day := d.day + 1)
    else if d.month < 12 then Date(d.year, d.month + 1, 1)
    else Date(d.year + 1, 1, 1)
  }

  // --- Day numbers ------------------------------------------------------------------------------

  /** `DayFromYear` of ECMA-262: days from the epoch to 1 January. */
  function DayFromYear(y: int): int {
    365 * (y - 1970) + (y - 1969) / 4 - (y - 1901) / 100 + (y - 1601) / 400
  }

  function DaysInYear(y: int): int { if IsLeap(y) then 366 else 365 }

  /** Days of the year before the first of the month. */
  function DaysBefore(year: int, month: int): int
    requires 1 <= month <= 12
  {
    if month == 1 then 0 else DaysBefore(year, month - 1) + DaysInMonth(year, month - 1)
  }

  /** `Date.parse` of midnight UTC, in whole days. */
  function DayNumber(d: Date): int
    requires Valid(d)
  {
    DayFromYear(d.year) + DaysBefore(d.year, d.month) + d.day - 1
  }

  lemma YearLength(y: int)
    ensures DayFromYear(y + 1) == DayFromYear(y) + DaysInYear(y)
  {
    DivStep(y - 1969, 4);
    DivStep(y - 1901, 100);
    DivStep(y - 1601, 400);
    LeapResidues(y);
    LeapNesting(y);
  }

  lemma LeapNesting(y: int)
    ensures y % 400 == 0 ==> y % 100 == 0
    ensures y % 100 == 0 ==> y % 4 == 0
  {
    if y % 400 == 0 {
      Quotient(y, 100, 4 * (y / 400), 0);
    }
    if y % 100 == 0 {
      Quotient(y, 4, 25 * (y / 100), 0);
    }
  }

  lemma LeapResidues(y: int)
    ensures (y - 1968) % 4 == y % 4 && (y - 1900) % 100 == y % 100 && (y - 1600) % 400 == y % 400
  {
    Quotient(y - 1968, 4, y / 4 - 492, y % 4);
    Quotient(y - 1900, 100, y / 100 - 19, y % 100);
    Quotient(y - 1600, 400, y / 400 - 4, y % 400);
  }

  /** A quotient steps by one exactly when the new dividend is a multiple. */
  lemma DivStep(x: int, m: int)
    requires m == 4 || m == 100 || m == 400
    ensures (x + 1) / m == x / m + (if (x + 1) % m == 0 then 1 else 0)
  {
    if x % m == m - 1 {
      Quotient(x + 1, m, x / m + 1, 0);
    } else {
      Quotient(x + 1, m, x / m, x % m + 1);
    }
  }

  lemma Quotient(x: int, m: int, q: int, r: int)
    requires m == 4 || m == 100 || m == 400
    requires x == m * q + r && 0 <= r < m
    ensures x / m == q && x % m == r
  {
    if m == 4 {
    } else if m == 100 {
    } else {
    }
  }

  lemma MonthTable(year: int)
    ensures DaysBefore(year, 12) + 31 == DaysInYear(year)
    ensures forall m, n :: 1 <= m < n <= 12 ==> DaysBefore(year, m) + DaysInMonth(year, m) <= DaysBefore(year, n)
  {
    var f := if IsLeap(year) then 29 else 28;
    assert DaysBefore(year, 1) == 0 && DaysBefore(year, 2) == 31 && DaysBefore(year, 3) == 31 + f;
    assert DaysBefore(year, 4) == 62 + f && DaysBefore(year, 5) == 92 + f && DaysBefore(year, 6) == 123 + f;
    assert DaysBefore(year, 7) == 153 + f && DaysBefore(year, 8) == 184 + f && DaysBefore(year, 9) == 215 + f;
    assert DaysBefore(year, 10) == 245 + f && DaysBefore(year, 11) == 276 + f && DaysBefore(year, 12) == 306 + f;
  }

  lemma {:induction false} YearsAscend(y: int, z: int)
    requires y < z
    ensures DayFromYear(y) + DaysInYear(y) <= DayFromYear(z)
    decreases z - y
  {
    YearLength(y);
    if y + 1 < z {
      YearsAscend(y + 1, z);
    }
  }

  /** The next calendar day is the next day number, across month ends, year ends and leap days. */
  lemma NextDayIsNextNumber(d: Date)
    requires Valid(d)
    ensures DayNumber(NextDay(d)) == DayNumber(d) + 1
  {
    if d.day == DaysInMonth(d.year, d.month) {
      if d.month < 12 {
        assert DaysBefore(d.year, d.month + 1) == DaysBefore(d.year, d.month) + DaysInMonth(d.year, d.month);
      } else {
        YearLength(d.year);
        MonthTable(d.year);
        assert DaysBefore(d.year + 1, 1) == 0;
      }
    }
  }

  /** Chronological order is day-number order, so a day number names one date. */
  lemma OrderIsNumberOrder(a: Date, b: Date)
    requires Valid(a) && Valid(b)
    ensures Before(a, b) <==> DayNumber(a) < DayNumber(b)
    ensures a == b <==> DayNumber(a) == DayNumber(b)
  {
    if Before(a, b) {
      Ascends(a, b);
    } else if Before(b, a) {
      Ascends(b, a);
    }
  }

  lemma Ascends(a: Date, b: Date)
    requires Valid(a) && Valid(b) && Before(a, b)
    ensures DayNumber(a) < DayNumber(b)
  {
    MonthTable(a.year);
    MonthTable(b.year);
    assert DaysBefore(a.year, a.month) + a.day <= DaysInYear(a.year) by {
      assert a.month < 12 ==> DaysBefore(a.year, a.month) + DaysInMonth(a.year, a.month) <= DaysBefore(a.year, 12);
    }
    assert DaysBefore(b.year, b.month) >= 0 by {
      assert 1 < b.month ==> DaysBefore(b.year, 1) + DaysInMonth(b.year, 1) <= DaysBefore(b.year, b.month);
    }
    if a.year < b.year {
      YearsAscend(a.year, b.year);
    }
  }

  // --- Text -------------------------------------------------------------------------------------

  const DIGITS: string := "0123456789"

  function TwoDigits(n: int): (s: string)
    requires 0 <= n < 100
    ensures |s| == 2
  {
    [DIGITS[n / 10], DIGITS[n % 10]]
  }

  /** `YYYY-MM-DD`. */
  function Text(d: Date): (s: string)
    requires Valid(d) && 0 <= d.year <= 9999
    ensures |s| == 10
  {
    TwoDigits(d.year / 100) + TwoDigits(d.year % 100) + "-" + TwoDigits(d.month) + "-" + TwoDigits(d.day)
  }

  function Value(hi: char, lo: char): int { 10 * (hi as int - '0' as int) + (lo as int - '0' as int) }

  predicate HasDateShape(s: string) {
    && |s| == 10 && s[4] == '-' && s[7] == '-'
    && IsDigit(s[0]) && IsDigit(s[1]) && IsDigit(s[2]) && IsDigit(s[3])
    && IsDigit(s[5]) && IsDigit(s[6]) && IsDigit(s[8]) && IsDigit(s[9])
  }

  function Fields(s: string): Date
    requires |s| == 10
  {
    Date(100 * Value(s[0], s[1]) + Value(s[2], s[3]), Value(s[5], s[6]), Value(s[8], s[9]))
  }

  /** What `z.iso.date()` admits: a real calendar day with a four-digit year. */
  predicate IsReportDate(s: string) { HasDateShape(s) && Valid(Fields(s)) }

  lemma DigitAt(n: int)
    requires 0 <= n < 10
    ensures IsDigit(DIGITS[n]) && DIGITS[n] as int - '0' as int == n
  {
  }

  lemma TwoDigitsValue(n: int)
    requires 0 <= n < 100
    ensures IsNumber(TwoDigits(n)) && Value(TwoDigits(n)[0], TwoDigits(n)[1]) == n
  {
    DigitAt(n / 10);
    DigitAt(n % 10);
  }

  lemma ValueDigits(hi: char, lo: char)
    requires IsDigit(hi) && IsDigit(lo)
    ensures 0 <= Value(hi, lo) < 100 && TwoDigits(Value(hi, lo)) == [hi, lo]
  {
    var h, l := hi as int - '0' as int, lo as int - '0' as int;
    assert Value(hi, lo) / 10 == h && Value(hi, lo) % 10 == l;
    DigitAt(h);
    DigitAt(l);
  }

  predicate IsNumber(s: string) { |s| == 2 && IsDigit(s[0]) && IsDigit(s[1]) }

  lemma FieldsOfParts(c: string, y: string, m: string, n: string)
    requires IsNumber(c) && IsNumber(y) && IsNumber(m) && IsNumber(n)
    ensures var s := c + y + "-" + m + "-" + n;
            && HasDateShape(s)
            && Fields(s) == Date(100 * Value(c[0], c[1]) + Value(y[0], y[1]), Value(m[0], m[1]), Value(n[0], n[1]))
  {
    var s := c + y + "-" + m + "-" + n;
    assert s == [c[0], c[1], y[0], y[1], '-', m[0], m[1], '-', n[0], n[1]];
  }

  lemma PartsRoundTrip(d: Date, c: string, y: string, m: string, n: string)
    requires Valid(d) && 0 <= d.year <= 9999
    requires IsNumber(c) && IsNumber(y) && IsNumber(m) && IsNumber(n)
    requires Value(c[0], c[1]) == d.year / 100 && Value(y[0], y[1]) == d.year % 100
    requires Value(m[0], m[1]) == d.month && Value(n[0], n[1]) == d.day
    ensures IsReportDate(c + y + "-" + m + "-" + n) && Fields(c + y + "-" + m + "-" + n) == d
  {
    FieldsOfParts(c, y, m, n);
  }

  /** Dates and their texts are in bijection. */
  lemma TextRoundTrip(d: Date)
    requires Valid(d) && 0 <= d.year <= 9999
    ensures IsReportDate(Text(d)) && Fields(Text(d)) == d
  {
    var c, y, m, n := TwoDigits(d.year / 100), TwoDigits(d.year % 100), TwoDigits(d.month), TwoDigits(d.day);
    TwoDigitsValue(d.year / 100);
    TwoDigitsValue(d.year % 100);
    TwoDigitsValue(d.month);
    TwoDigitsValue(d.day);
    PartsRoundTrip(d, c, y, m, n);
    assert Text(d) == c + y + "-" + m + "-" + n;
  }

  lemma FieldsRoundTrip(s: string)
    requires IsReportDate(s)
    ensures 0 <= Fields(s).year <= 9999 && Text(Fields(s)) == s
  {
    ValueDigits(s[0], s[1]);
    ValueDigits(s[2], s[3]);
    ValueDigits(s[5], s[6]);
    ValueDigits(s[8], s[9]);
    var y := Fields(s).year;
    assert y / 100 == Value(s[0], s[1]) && y % 100 == Value(s[2], s[3]);
    assert Text(Fields(s)) == [s[0], s[1]] + [s[2], s[3]] + "-" + [s[5], s[6]] + "-" + [s[8], s[9]];
  }

  /** `<` on strings: the first differing code unit decides. */
  predicate TextLess(s: string, t: string) {
    if s == [] then t != []
    else t != [] && (s[0] < t[0] || (s[0] == t[0] && TextLess(s[1..], t[1..])))
  }

  lemma {:induction false} TextLessByPrefix(p: string, q: string, s: string, t: string)
    requires |p| == |q|
    ensures TextLess(p + s, q + t) <==> TextLess(p, q) || (p == q && TextLess(s, t))
  {
    if p == [] {
      assert p + s == s && q + t == t;
    } else {
      assert (p + s)[1..] == p[1..] + s && (q + t)[1..] == q[1..] + t;
      TextLessByPrefix(p[1..], q[1..], s, t);
      assert p == [p[0]] + p[1..] && q == [q[0]] + q[1..];
    }
  }

  lemma TwoDigitsOrder(m: int, n: int)
    requires 0 <= m < 100 && 0 <= n < 100
    ensures TextLess(TwoDigits(m), TwoDigits(n)) <==> m < n
    ensures TwoDigits(m) == TwoDigits(n) <==> m == n
  {
    TwoDigitsValue(m);
    TwoDigitsValue(n);
    var s, t := TwoDigits(m), TwoDigits(n);
    assert s[1..][1..] == [] && t[1..][1..] == [];
    assert TextLess(s[1..], t[1..]) <==> s[1] < t[1];
  }

  /** On dates of four-digit years, string order is chronological order. */
  lemma TextOrderIsDateOrder(a: Date, b: Date)
    requires Valid(a) && 0 <= a.year <= 9999 && Valid(b) && 0 <= b.year <= 9999
    ensures TextLess(Text(a), Text(b)) <==> Before(a, b)
  {
    var ad, bd := TwoDigits(a.day), TwoDigits(b.day);
    var am, bm := TwoDigits(a.month), TwoDigits(b.month);
    var ya, yb := TwoDigits(a.year % 100), TwoDigits(b.year % 100);
    var ac, bc := TwoDigits(a.year / 100), TwoDigits(b.year / 100);
    TwoDigitsOrder(a.day, b.day);
    TwoDigitsOrder(a.month, b.month);
    TwoDigitsOrder(a.year % 100, b.year % 100);
    TwoDigitsOrder(a.year / 100, b.year / 100);
    TextLessByPrefix("-", "-", ad, bd);
    TextLessByPrefix(am, bm, "-" + ad, "-" + bd);
    TextLessByPrefix("-", "-", am + ("-" + ad), bm + ("-" + bd));
    TextLessByPrefix(ya, yb, "-" + (am + ("-" + ad)), "-" + (bm + ("-" + bd)));
    TextLessByPrefix(ac, bc, ya + ("-" + (am + ("-" + ad))), yb + ("-" + (bm + ("-" + bd))));
    assert Text(a) == ac + (ya + ("-" + (am + ("-" + ad))));
    assert Text(b) == bc + (yb + ("-" + (bm + ("-" + bd))));
    assert !TextLess("-", "-") by { assert "-"[1..] == []; }
  }
}
