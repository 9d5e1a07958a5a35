/**
 Which billing period a usage counter is recorded against: the subscription's own, else the monthly
 anniversary of the tenant's creation, computed as PostgreSQL's `age` and month intervals do.

 Instants are a calendar date and a time of day in the session's zone.
 */
module UsagePeriod {
  import opened Common
  import opened Calendar

  datatype Instant = Instant(date: Date, time: nat)

  /** Half open: `start` is in, `end` is out. */
  datatype Period = Period(start: Instant, end: Instant)

  predicate IsInstant(i: Instant) { Valid(i.date) }

  /** An instant of the calendar. */
  type Moment = i: Instant | IsInstant(i) witness Instant(Date(1970, 1, 1), 0)

  predicate Earlier(a: Instant, b: Instant) { Before(a.date, b.date) || (a.date == b.date && a.time < b.time) }

  predicate Contains(p: Period, at: Instant) { !Earlier(at, p.start) && Earlier(at, p.end) }

  function MonthIndex(d: Date): int { 12 * d.year + d.month - 1 }

  function MonthLength(index: int): (n: int)
    ensures 28 <= n <= 31
  {
    DaysInMonth(index / 12, index % 12 + 1)
  }

  /** `anchor + n months`: the day of the month is clamped to the month it lands in. */
  function AddMonths(anchor: Instant, n: int): (i: Instant)
    requires IsInstant(anchor)
    ensures IsInstant(i) && MonthIndex(i.date) == MonthIndex(anchor.date) + n && i.time == anchor.time
    ensures i.date.day == Min(anchor.date.day, MonthLength(MonthIndex(i.date)))
  {
    var index := MonthIndex(anchor.date) + n;
    Instant(Date(index / 12, index % 12 + 1, Min(anchor.date.day, MonthLength(index))), anchor.time)
  }

  /** The part of a month an instant has reached, compared day first. */
  predicate SoonerInMonth(a: Instant, b: Instant) {
    a.date.day < b.date.day || (a.date.day == b.date.day && a.time < b.time)
  }

  /** Whole months of `age(at, anchor)` for `anchor <= at`: a month not yet complete is borrowed back. */
  function MonthsForward(anchor: Instant, at: Instant): int {
    MonthIndex(at.date) - MonthIndex(anchor.date) - (if SoonerInMonth(at, anchor) then 1 else 0)
  }

  function MonthsElapsed(anchor: Instant, at: Instant): int {
    if Earlier(at, anchor) then -MonthsForward(at, anchor) else MonthsForward(anchor, at)
  }

  /** Always recomputed from the anchor. */
  function Anniversary(anchor: Instant, at: Instant): Period
    requires IsInstant(anchor)
  {
    var n := MonthsElapsed(anchor, at);
    Period(AddMonths(anchor, n), AddMonths(anchor, n + 1))
  }

  function Resolve(subscription: Option<Period>, createdAt: Instant, at: Instant): Period
    requires IsInstant(createdAt)
  {
    match subscription
    case Some(own) => own
    case None => Anniversary(createdAt, at)
  }

  // --- Does the period contain the instant? -----------------------------------------------------

  lemma MonthOrder(a: Instant, b: Instant)
    requires IsInstant(a) && IsInstant(b)
    ensures MonthIndex(a.date) < MonthIndex(b.date) ==> Earlier(a, b)
    ensures MonthIndex(a.date) == MonthIndex(b.date) ==>
              a.date.year == b.date.year && a.date.month == b.date.month && (Earlier(a, b) <==> SoonerInMonth(a, b))
  {
  }

  lemma MonthLengthOf(d: Date)
    requires Valid(d)
    ensures MonthLength(MonthIndex(d)) == DaysInMonth(d.year, d.month)
  {
    var index := MonthIndex(d);
    assert index / 12 == d.year && index % 12 == d.month - 1;
  }

  /** The month is too short for the anniversary day, and `at` is on its last day at or past the anniversary's time. */
  predicate PastClampedAnniversary(anchor: Instant, at: Instant)
    requires IsInstant(at)
  {
    var last := DaysInMonth(at.date.year, at.date.month);
    anchor.date.day > last && at.date.day == last && at.time >= anchor.time
  }

  /**
   The anniversary window contains the instant it was resolved for exactly when that instant is not past
   a clamped anniversary: `age` still counts such a month as incomplete while the clamped boundary has
   already begun the next window.
   */
  lemma AnniversaryContains(anchor: Instant, at: Instant)
    requires IsInstant(anchor) && IsInstant(at) && !Earlier(at, anchor)
    ensures Contains(Anniversary(anchor, at), at) <==> !PastClampedAnniversary(anchor, at)
  {
    var n := MonthsElapsed(anchor, at);
    var start, end := AddMonths(anchor, n), AddMonths(anchor, n + 1);
    MonthLengthOf(at.date);
    MonthOrder(start, at);
    MonthOrder(at, start);
    MonthOrder(at, end);
    MonthOrder(end, at);
  }

  /**
   An event stamped before the tenant existed is metered in a window that has not begun, except exactly
   on its boundary and, by the same clamping, past one.
   */
  lemma BeforeTheAnchor(anchor: Instant, at: Instant)
    requires IsInstant(anchor) && IsInstant(at) && Earlier(at, anchor)
    ensures Contains(Anniversary(anchor, at), at) <==>
              Anniversary(anchor, at).start == at || PastClampedAnniversary(anchor, at)
  {
    var n := MonthsForward(at, anchor);
    var start, end := AddMonths(anchor, -n), AddMonths(anchor, -n + 1);
    MonthLengthOf(at.date);
    MonthLengthOf(anchor.date);
    MonthOrder(start, at);
    MonthOrder(at, start);
    MonthOrder(at, end);
    MonthOrder(at, anchor);
    MonthOrder(anchor, at);
  }

  /** A tenant created on 31 January at nine: at ten on 28 February its January window is still the one metered. */
  lemma ClampedMonthStraddles()
    ensures var created, at := Instant(Date(2026, 1, 31), 9), Instant(Date(2026, 2, 28), 10);
            && Anniversary(created, at) == Period(created, Instant(Date(2026, 2, 28), 9))
            && !Contains(Anniversary(created, at), at)
            && Anniversary(created, Instant(Date(2026, 3, 1), 0)).start == Instant(Date(2026, 2, 28), 9)
  {
    var created := Instant(Date(2026, 1, 31), 9);
    assert MonthIndex(created.date) == 24312;
    assert AddMonths(created, 0) == created;
    assert AddMonths(created, 1) == Instant(Date(2026, 2, 28), 9);
  }

  /** Consecutive windows meet: no instant falls between them and none is in two. */
  lemma WindowsMeet(anchor: Instant, m: int, n: int)
    requires IsInstant(anchor) && m < n
    ensures Earlier(AddMonths(anchor, m), AddMonths(anchor, n))
  {
    MonthOrder(AddMonths(anchor, m), AddMonths(anchor, n));
  }

  // --- Windows by number ------------------------------------------------------------------------

  /** The `n`-th anniversary window; the tenant's first month is 0. */
  function Window(anchor: Moment, n: int): Period { Period(AddMonths(anchor, n), AddMonths(anchor, n + 1)) }

  /** The number of the window an instant lies in. */
  function HomeIndex(anchor: Moment, at: Moment): int {
    var months := MonthIndex(at.date) - MonthIndex(anchor.date);
    if Earlier(at, AddMonths(anchor, months)) then months - 1 else months
  }

  lemma WindowStartsDiffer(anchor: Moment, m: int, n: int)
    ensures Window(anchor, m).start == Window(anchor, n).start <==> m == n
  {
  }

  /** Every instant lies in exactly one window. */
  lemma InOneWindow(anchor: Moment, at: Moment, n: int)
    ensures Contains(Window(anchor, n), at) <==> n == HomeIndex(anchor, at)
  {
    var months := MonthIndex(at.date) - MonthIndex(anchor.date);
    MonthOrder(at, AddMonths(anchor, n));
    MonthOrder(AddMonths(anchor, n), at);
    MonthOrder(at, AddMonths(anchor, n + 1));
    MonthOrder(AddMonths(anchor, n + 1), at);
  }

  /**
   What a caller can check of an opening before it is metered: from the tenant's creation on, it is not past
   a clamped anniversary; before it, it is, or is exactly on a boundary.
   */
  predicate WellPlaced(anchor: Moment, at: Moment) {
    if Earlier(at, anchor) then Anniversary(anchor, at).start == at || PastClampedAnniversary(anchor, at)
    else !PastClampedAnniversary(anchor, at)
  }

  /** The window metered is the window the instant lies in, or its neighbour towards the anchor. */
  lemma MeteredNextDoor(anchor: Moment, at: Moment)
    ensures var (e, h) := (MonthsElapsed(anchor, at), HomeIndex(anchor, at));
            && Anniversary(anchor, at) == Window(anchor, e)
            && (WellPlaced(anchor, at) <==> h == e)
            && (h == e || (e >= 0 && h == e + 1) || (e <= 0 && h == e - 1))
  {
    var e, h := MonthsElapsed(anchor, at), HomeIndex(anchor, at);
    InOneWindow(anchor, at, e);
    if Earlier(at, anchor) {
      BeforeTheAnchor(anchor, at);
      MonthOrder(anchor, at);
    } else {
      AnniversaryContains(anchor, at);
      MonthOrder(at, anchor);
    }
  }
}
