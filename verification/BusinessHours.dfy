/**
 Opening hours: is a wall-clock minute inside the week a tenant described? The zone database lookup that
 produces the weekday and minute is an input.
 */
module BusinessHours {
  import opened Common

  /** Monday is 0. */
  type Day = d: int | 0 <= d < 7

  const MINUTES_PER_DAY: int := 24 * 60
  const MINUTES_PER_WEEK: int := 7 * MINUTES_PER_DAY

  /** `HH:MM` from `00:00` to `23:59`, or `24:00`. */
  predicate IsClockTime(s: string) {
    s == "24:00"
    || (|s| == 5 && s[2] == ':' && IsDigit(s[1]) && IsDigit(s[4]) && '0' <= s[3] <= '5'
        && (s[0] == '0' || s[0] == '1' || (s[0] == '2' && s[1] <= '3')))
  }

  type ClockTime = s: string | IsClockTime(s) witness "24:00"

  function Digit(c: char): int { c as int - '0' as int }

  function ToMinutes(s: ClockTime): (m: int)
    ensures 0 <= m <= MINUTES_PER_DAY
    ensures m == MINUTES_PER_DAY <==> s == "24:00"
  {
    (10 * Digit(s[0]) + Digit(s[1])) * 60 + 10 * Digit(s[3]) + Digit(s[4])
  }

  lemma DigitsUnique(h: int, m: int, a: int, b: int, c: int, d: int)
    requires 0 <= a <= 9 && 0 <= b <= 9 && 0 <= c <= 5 && 0 <= d <= 9
    requires 0 <= h && 0 <= m < 60 && h * 60 + m == (10 * a + b) * 60 + 10 * c + d
    ensures a == h / 10 && b == h % 10 && c == m / 10 && d == m % 10
  {
    assert h == 10 * a + b && m == 10 * c + d;
  }

  function DigitChar(d: int): (c: char)
    requires 0 <= d <= 9
    ensures IsDigit(c) && Digit(c) == d
  {
    ('0' as int + d) as char
  }

  /** The spelling of a minute of the day, midnight at its end included. */
  function ClockText(m: int): ClockTime
    requires 0 <= m <= MINUTES_PER_DAY
  {
    var h, r := m / 60, m % 60;
    [DigitChar(h / 10), DigitChar(h % 10), ':', DigitChar(r / 10), DigitChar(r % 10)]
  }

  lemma TextMeansItsMinute(m: int)
    requires 0 <= m <= MINUTES_PER_DAY
    ensures ToMinutes(ClockText(m)) == m
  {
    var h, r := m / 60, m % 60;
    assert 10 * (h / 10) + h % 10 == h && 10 * (r / 10) + r % 10 == r;
  }

  lemma SpellingUnique(s: ClockTime, t: ClockTime)
    ensures ToMinutes(s) == ToMinutes(t) <==> s == t
  {
    if ToMinutes(s) == ToMinutes(t) {
      var h, m := 10 * Digit(s[0]) + Digit(s[1]), 10 * Digit(s[3]) + Digit(s[4]);
      DigitsUnique(h, m, Digit(s[0]), Digit(s[1]), Digit(s[3]), Digit(s[4]));
      DigitsUnique(h, m, Digit(t[0]), Digit(t[1]), Digit(t[3]), Digit(t[4]));
      assert s == [s[0], s[1], ':', s[3], s[4]] && t == [t[0], t[1], ':', t[3], t[4]];
    }
  }

  /** Every minute from 0 to 1440 has exactly one spelling, and every spelling is such a minute. */
  lemma ClockTimesAreMinutes(s: ClockTime, m: int)
    requires 0 <= m <= MINUTES_PER_DAY
    ensures ToMinutes(s) == m <==> s == ClockText(m)
  {
    TextMeansItsMinute(m);
    if ToMinutes(s) == m {
      SpellingUnique(s, ClockText(m));
    }
  }

  datatype Interval = Interval(from: ClockTime, to: ClockTime)

  /** A day absent from the record is closed. */
  type Hours = map<Day, seq<Interval>>

  function Start(i: Interval): int { ToMinutes(i.from) }

  /** A `to` at or before `from` runs to the same clock time on the following day. */
  function End(i: Interval): int {
    var from, to := ToMinutes(i.from), ToMinutes(i.to);
    if to <= from then to + MINUTES_PER_DAY else to
  }

  /** `minutes` counts from midnight of the day the interval starts, and may run into the next. */
  predicate CoveredBy(i: Interval, minutes: int) { Start(i) <= minutes < End(i) }

  predicate Covers(intervals: seq<Interval>, minutes: int) {
    exists k | 0 <= k < |intervals| :: CoveredBy(intervals[k], minutes)
  }

  function DayOf(hours: Hours, d: Day): seq<Interval> { if d in hours then hours[d] else [] }

  function Yesterday(d: Day): Day { (d + 6) % 7 }

  /** `None` is a tenant that never configured hours. */
  predicate IsWithinBusinessHours(hours: Option<Hours>, today: Day, minutes: int)
    requires 0 <= minutes < MINUTES_PER_DAY
  {
    hours.Some?
    && (Covers(DayOf(hours.value, today), minutes)
        || Covers(DayOf(hours.value, Yesterday(today)), minutes + MINUTES_PER_DAY))
  }

  // --- The week as a circle ---------------------------------------------------------------------

  /** The minute `m` of the week, `turns` whole weeks on, counted from midnight of day `d`. */
  function FromDay(d: Day, m: int, turns: int): int { m + turns * MINUTES_PER_WEEK - d * MINUTES_PER_DAY }

  predicate CoversTurned(hours: Hours, d: Day, k: nat, m: int, turns: int) {
    k < |DayOf(hours, d)| && CoveredBy(DayOf(hours, d)[k], FromDay(d, m, turns))
  }

  /** Membership in the cyclic set generated by every interval of every day. */
  ghost predicate InWeek(hours: Hours, m: int) {
    exists d: Day, k: nat, turns: int :: CoversTurned(hours, d, k, m, turns)
  }

  /**
   An interval is at most a day long and ends within two days of midnight of the day it starts. It is
   empty in one spelling only: `24:00` to `00:00`, which wraps to the minute it starts at.
   */
  lemma IntervalShape(i: Interval)
    ensures 0 <= End(i) - Start(i) <= MINUTES_PER_DAY
    ensures 0 <= Start(i) <= MINUTES_PER_DAY && End(i) <= 2 * MINUTES_PER_DAY
    ensures End(i) == Start(i) <==> i.from == "24:00" && i.to == "00:00"
  {
    SpellingUnique(i.to, "00:00");
  }

  /**
   Looking at today and yesterday is enough: the predicate is exactly membership in the cyclic week, with
   wraps past midnight, `24:00` at either end, and Sunday running into Monday.
   */
  lemma TodayAndYesterdaySuffice(hours: Hours, today: Day, minutes: int)
    requires 0 <= minutes < MINUTES_PER_DAY
    ensures IsWithinBusinessHours(Some(hours), today, minutes) <==> InWeek(hours, today * MINUTES_PER_DAY + minutes)
  {
    var m := today * MINUTES_PER_DAY + minutes;
    var turn := if today == 0 then 1 else 0;
    CoversInWeek(hours, today, minutes, m, 0);
    CoversInWeek(hours, Yesterday(today), minutes + MINUTES_PER_DAY, m, turn);
    assert FromDay(today, m, 0) == minutes && FromDay(Yesterday(today), m, turn) == minutes + MINUTES_PER_DAY;
    if InWeek(hours, m) {
      var d: Day, k: nat, turns: int :| CoversTurned(hours, d, k, m, turns);
      IntervalShape(DayOf(hours, d)[k]);
      TodayOrYesterday(today, d, minutes, turns);
    }
  }

  lemma CoversInWeek(hours: Hours, d: Day, minutes: int, m: int, turns: int)
    requires FromDay(d, m, turns) == minutes
    ensures Covers(DayOf(hours, d), minutes) ==> InWeek(hours, m)
  {
    if Covers(DayOf(hours, d), minutes) {
      var k :| 0 <= k < |DayOf(hours, d)| && CoveredBy(DayOf(hours, d)[k], minutes);
      assert CoversTurned(hours, d, k, m, turns);
    }
  }

  /** A day within two days of whose midnight this minute falls is today or the day before, whichever week it is counted in. */
  lemma TodayOrYesterday(today: Day, d: Day, minutes: int, turns: int)
    requires 0 <= minutes < MINUTES_PER_DAY
    ensures var t := FromDay(d, today * MINUTES_PER_DAY + minutes, turns);
            0 <= t < 2 * MINUTES_PER_DAY ==>
              (d == today && t == minutes) || (d == Yesterday(today) && t == minutes + MINUTES_PER_DAY)
  {
    var ahead := today as int - d as int + 7 * turns;
    assert FromDay(d, today * MINUTES_PER_DAY + minutes, turns) == minutes + ahead * MINUTES_PER_DAY;
  }

  /** Unconfigured and empty hours are both never open, and adding an interval only ever opens more. */
  lemma MoreHoursOpenMore(hours: Hours, d: Day, extra: Interval, today: Day, minutes: int)
    requires 0 <= minutes < MINUTES_PER_DAY
    ensures !IsWithinBusinessHours(None, today, minutes) && !IsWithinBusinessHours(Some(map[]), today, minutes)
    ensures IsWithinBusinessHours(Some(hours), today, minutes) ==>
              IsWithinBusinessHours(Some(hours[d := DayOf(hours, d) + [extra]]), today, minutes)
  {
    var more := hours[d := DayOf(hours, d) + [extra]];
    forall day: Day, at: int | Covers(DayOf(hours, day), at)
      ensures Covers(DayOf(more, day), at)
    {
      var k :| 0 <= k < |DayOf(hours, day)| && CoveredBy(DayOf(hours, day)[k], at);
      assert DayOf(more, day)[k] == DayOf(hours, day)[k];
    }
  }

  /** Equal ends are a whole day round the clock, from whichever day the key names. */
  lemma EqualEndsAreADay(i: Interval)
    requires i.from == i.to
    ensures End(i) - Start(i) == MINUTES_PER_DAY
    ensures forall other: Interval :: End(other) - Start(other) == MINUTES_PER_DAY ==>
              other.from == other.to || (other.from == "00:00" && other.to == "24:00")
  {
    forall other: Interval | End(other) - Start(other) == MINUTES_PER_DAY
      ensures other.from == other.to || (other.from == "00:00" && other.to == "24:00")
    {
      SpellingUnique(other.from, other.to);
      SpellingUnique(other.from, "00:00");
    }
  }
}
