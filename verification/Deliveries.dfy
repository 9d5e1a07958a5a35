/**
 Concrete runs of ingestion from the empty store: one tenant, one number, one delivery after another. They
 reach the states in which the published promises about windows, notices and counters fail.
 */
module Deliveries {
  import opened Common
  import opened Calendar
  import opened UsagePeriod
  import opened Ingestion
  import opened IngestionLaws
  import opened Metering
  import opened Notices
  import Usage
  import Ladder = MessageStatus

  const TENANT: Tenant := 1
  const PHONE: nat := 10
  const NUMBER: Account := Account(TENANT, 5)
  const CUSTOMER: nat := 7
  const THREAD: ThreadKey := ThreadKey(NUMBER, CUSTOMER)
  const OTHER_CUSTOMER: nat := 8
  const OTHER: ThreadKey := ThreadKey(NUMBER, OTHER_CUSTOMER)

  /** The tenant is made active on a plan of one conversation a period, and its number connected. */
  const CONNECTING: seq<Step> := [SetAccount(PHONE, Some(NUMBER)), SetActive(TENANT, true), SetCap(TENANT, Some(1))]

  /** One event with one item, delivered, claimed and worked to the end of that item. */
  function Delivery(event: EventId, i: Item, dies: bool): seq<Step> {
    [Deliver(event, event, Payload(i), 0), Claim(event, event), Work(event, false), Work(event, dies)]
  }

  function Payload(i: Item): Option<seq<Change>> { Some([Messages(PHONE, [i])]) }

  /** Events, digests and workers up to `event` are used, and nothing else stands in the way. */
  ghost predicate Ready(s: State, event: EventId) {
    && PHONE in s.accounts && s.accounts[PHONE] == NUMBER && TENANT in s.activeTenants
    && (forall e :: e in s.rows ==> e < event && s.rows[e].digest < event)
    && (forall w :: w in s.workers ==> w < event)
  }

  const NO_TRAFFIC: Db := NO_ROWS.(bound := {(PHONE, NUMBER)})

  lemma ConnectedReady(createdAt: Tenant -> Moment) returns (s: State)
    ensures s == Run(Empty(createdAt, 3), CONNECTING)
    ensures Ready(s, 1) && s.db == NO_TRAFFIC
    ensures s.createdAt == createdAt && s.subscriptions == map[] && CapOf(s, TENANT) == Some(1)
  {
    var start := Empty(createdAt, 3);
    RunPlus(start, [], CONNECTING[0]);
    RunPlus(start, [CONNECTING[0]], CONNECTING[1]);
    RunPlus(start, [CONNECTING[0], CONNECTING[1]], CONNECTING[2]);
    assert [] + [CONNECTING[0]] == [CONNECTING[0]] && [CONNECTING[0]] + [CONNECTING[1]] == [CONNECTING[0], CONNECTING[1]];
    assert [CONNECTING[0], CONNECTING[1]] + [CONNECTING[2]] == CONNECTING;
    s := Next(Next(Next(start, CONNECTING[0]), CONNECTING[1]), CONNECTING[2]);
  }

  /** Nothing but rows and workers has moved. */
  ghost predicate SameTenants(s: State, t: State) {
    t.accounts == s.accounts && t.activeTenants == s.activeTenants
    && t.createdAt == s.createdAt && t.subscriptions == s.subscriptions && t.caps == s.caps
  }

  /** The event is stored and held by its own worker, who stands at `w`. */
  ghost predicate HeldAt(s: State, t: State, event: EventId, i: Item, w: Worker) {
    && SameTenants(s, t) && event in t.rows && t.rows[event].payload == Payload(i) && t.rows[event].digest == event
    && (forall e :: e in t.rows && e != event ==> e in s.rows && t.rows[e] == s.rows[e])
    && t.workers == s.workers[event := w]
  }

  lemma ClaimedHeld(s: State, event: EventId, i: Item)
    requires Ready(s, event)
    ensures var t := Next(Next(s, Deliver(event, event, Payload(i), 0)), Claim(event, event));
            HeldAt(s, t, event, i, Worker(event, 1, 0, 0, None, false)) && t.db == s.db
  {
    assert event !in s.rows && !exists e | e in s.rows :: s.rows[e].digest == event;
  }

  lemma ResolvedHeld(s: State, t: State, event: EventId, i: Item)
    requires Ready(s, event) && HeldAt(s, t, event, i, Worker(event, 1, 0, 0, None, false)) && t.db == s.db
    ensures var u := Next(t, Work(event, false));
            HeldAt(s, u, event, i, Worker(event, 1, 0, 0, Some(NUMBER), false)) && u.db == s.db
  {
  }

  lemma AppliedHeld(s: State, t: State, event: EventId, i: Item, dies: bool)
    requires Ready(s, event) && HeldAt(s, t, event, i, Worker(event, 1, 0, 0, Some(NUMBER), false)) && t.db == s.db
    requires Attributable(i) && !Ignored(i)
    ensures var u := Next(t, Work(event, dies));
            && u.db == Applied(s.db, NUMBER, i, BillingFor(s, TENANT, i.at), dies)
            && SameTenants(s, u) && u.rows == t.rows && u.workers.Keys <= t.workers.Keys
  {
  }

  lemma RunFour(s: State, a: Step, b: Step, c: Step, d: Step)
    ensures Run(s, [a, b, c, d]) == Next(Next(Next(Next(s, a), b), c), d)
  {
    RunPlus(s, [], a);
    RunPlus(s, [a], b);
    RunPlus(s, [a, b], c);
    RunPlus(s, [a, b, c], d);
    assert [] + [a] == [a] && [a] + [b] == [a, b];
    assert [a, b] + [c] == [a, b, c] && [a, b, c] + [d] == [a, b, c, d];
  }

  /** What a delivery leaves: its item applied in the period in force, and the way clear for the next. */
  ghost predicate Leaves(s: State, t: State, event: EventId, i: Item, dies: bool)
    requires Attributable(i) && !Ignored(i)
  {
    && Ready(t, event + 1) && SameTenants(s, t)
    && t.db == Applied(s.db, NUMBER, i, BillingFor(s, TENANT, i.at), dies)
  }

  lemma DeliveryApplies(s: State, event: EventId, i: Item, dies: bool) returns (t: State)
    requires Ready(s, event) && Attributable(i) && !Ignored(i)
    ensures t == Run(s, Delivery(event, i, dies)) && Leaves(s, t, event, i, dies)
  {
    var claimed := Next(Next(s, Deliver(event, event, Payload(i), 0)), Claim(event, event));
    ClaimedHeld(s, event, i);
    ResolvedHeld(s, claimed, event, i);
    AppliedHeld(s, Next(claimed, Work(event, false)), event, i, dies);
    RunFour(s, Deliver(event, event, Payload(i), 0), Claim(event, event), Work(event, false), Work(event, dies));
    t := Next(Next(claimed, Work(event, false)), Work(event, dies));
  }

  /** What billing says of a tenant without a subscription, on the plan it was connected with. */
  function Unsubscribed(createdAt: Tenant -> Moment, at: Moment): Billing {
    Billing(Anniversary(createdAt(TENANT), at), Some(1))
  }

  /** The first delivery of all. */
  lemma FirstDelivery(createdAt: Tenant -> Moment, i: Item, dies: bool) returns (t: State)
    requires Attributable(i) && !Ignored(i)
    ensures t == Run(Empty(createdAt, 3), CONNECTING + Delivery(1, i, dies)) && Ready(t, 2)
    ensures t.db == Applied(NO_TRAFFIC, NUMBER, i, Unsubscribed(createdAt, i.at), dies)
    ensures t.createdAt == createdAt && t.subscriptions == map[] && CapOf(t, TENANT) == Some(1)
  {
    var s := ConnectedReady(createdAt);
    t := DeliveryApplies(s, 1, i, dies);
    RunAppend(Empty(createdAt, 3), CONNECTING, Delivery(1, i, dies));
  }

  // --- The service window -----------------------------------------------------------------------

  /** A receipt opens the thread, a message stamped no later follows, and the window stays closed. */
  lemma WindowStaysClosed(createdAt: Tenant -> Moment, at: Moment)
    ensures var receipt, message := Receipt(Some(CUSTOMER), 100, Some(Ladder.Delivered), at), Inbound(Some(CUSTOMER), 200, at);
            ClosedThough(Run(Empty(createdAt, 3), CONNECTING + Delivery(1, receipt, false) + Delivery(2, message, false)).db)
  {
    var receipt, message := Receipt(Some(CUSTOMER), 100, Some(Ladder.Delivered), at), Inbound(Some(CUSTOMER), 200, at);
    var s := FirstDelivery(createdAt, receipt, false);
    var t := DeliveryApplies(s, 2, message, false);
    ReceiptThenMessage(at, Unsubscribed(createdAt, at), BillingFor(s, TENANT, at));
    RunAppend(Empty(createdAt, 3), CONNECTING + Delivery(1, receipt, false), Delivery(2, message, false));
  }

  /** The customer's message is stored and unread on a thread whose window is closed. */
  predicate ClosedThough(db: Db) {
    && THREAD in db.threads && MessageKey(TENANT, 200) in InboundOf(db, THREAD)
    && db.threads[THREAD].windowFrom == None && db.threads[THREAD].unread == 1
  }

  lemma ReceiptThenMessage(at: Moment, p: Billing, q: Billing)
    ensures var one := Applied(NO_TRAFFIC, NUMBER, Receipt(Some(CUSTOMER), 100, Some(Ladder.Delivered), at), p, false);
            ClosedThough(Applied(one, NUMBER, Inbound(Some(CUSTOMER), 200, at), q, false))
  {
  }

  // --- Lost notices -----------------------------------------------------------------------------

  /** The delivery that opens the customer's thread: a receipt, or an inbound message. */
  function Opening(byReceipt: bool, at: Moment): Item {
    if byReceipt then Receipt(Some(CUSTOMER), 100, Some(Ladder.Delivered), at) else Inbound(Some(CUSTOMER), 100, at)
  }

  /**
   With an allowance of one conversation: a receipt opens it, or an inbound message does in a worker that
   dies after its commit. Either way the cap is crossed, and no run from there ever sends the notice.
   */
  lemma {:induction false} NoticeLost(createdAt: Tenant -> Moment, at: Moment, byReceipt: bool, warnAt: real, steps: seq<Step>)
    requires 0.0 < warnAt < 1.0
    ensures var s := Run(Empty(createdAt, 3), CONNECTING + Delivery(1, Opening(byReceipt, at), !byReceipt));
            var start := Anniversary(createdAt(TENANT), at).start;
            && Usage.ValueAt(s.db.counters, MeterKey(TENANT, start)) == 1
            && NoticesSent(Run(s, steps).db, TENANT, start, 1, warnAt, Usage.LimitReached) == {}
  {
    var s := FirstDelivery(createdAt, Opening(byReceipt, at), !byReceipt);
    SilentOpening(s, byReceipt, at, Unsubscribed(createdAt, at), warnAt, steps);
  }

  lemma {:induction false} SilentOpening(s: State, byReceipt: bool, at: Moment, billing: Billing, warnAt: real, steps: seq<Step>)
    requires 0.0 < warnAt < 1.0
    requires s.db == Applied(NO_TRAFFIC, NUMBER, Opening(byReceipt, at), billing, !byReceipt)
    ensures Usage.ValueAt(s.db.counters, MeterKey(TENANT, billing.period.start)) == 1
    ensures NoticesSent(Run(s, steps).db, TENANT, billing.period.start, 1, warnAt, Usage.LimitReached) == {}
  {
    OpenedFirst(Opening(byReceipt, at), billing, !byReceipt);
    EffectKeepsNumbered(NO_TRAFFIC, ItemApplied(NUMBER, Opening(byReceipt, at), billing, !byReceipt));
    SilentCrossingIsFinal(s, steps, TENANT, billing.period.start, 1, warnAt, Usage.LimitReached, THREAD);
  }

  /** The first item of an empty store opens the customer's thread as the period's first. */
  lemma OpenedFirst(i: Item, billing: Billing, dies: bool)
    requires Attributable(i) && !Ignored(i) && ItemThread(NUMBER, i) == THREAD
    ensures var after := Applied(NO_TRAFFIC, NUMBER, i, billing, dies);
            && after.threads.Keys == {THREAD} && after.messages.Keys == {ItemKey(NUMBER, i)}
            && after.threads[THREAD].ordinal == 1
            && after.threads[THREAD].metered == billing.period && after.threads[THREAD].openedAt == i.at
            && after.counters == map[MeterKey(TENANT, billing.period.start) := Usage.Row(billing.period.end, 1)]
            && after.volumes == if !dies && i.Inbound? && billing.cap.Some? then map[THREAD := billing.cap.value] else map[]
  {
  }

  /** A second customer's first message opens the period's next. */
  lemma OpenedSecond(db: Db, at: Moment, billing: Billing)
    requires db.threads.Keys == {THREAD} && MessageKey(TENANT, 200) !in db.messages
    ensures var after := Applied(db, NUMBER, Inbound(Some(OTHER_CUSTOMER), 200, at), billing, false);
            && after.threads.Keys == {THREAD, OTHER} && after.threads[THREAD] == db.threads[THREAD]
            && after.threads[OTHER].metered == billing.period && after.threads[OTHER].openedAt == at
            && after.threads[OTHER].ordinal == Usage.ValueAt(db.counters, MeterKey(TENANT, billing.period.start)) + 1
            && after.counters == Usage.Incremented(db.counters, MeterKey(TENANT, billing.period.start), billing.period.end, 1)
            && after.volumes == if billing.cap.Some? then db.volumes[OTHER := billing.cap.value] else db.volumes
  {
  }

  const RAISED: Step := SetCap(TENANT, Some(2))

  /**
   And an allowance raised between two openings is reached twice in one period: a conversation, a plan of
   two, a second conversation at the same instant, and the limit notice has gone out for both allowances.
   */
  lemma RaisedCapNotifiesTwice(createdAt: Tenant -> Moment, at: Moment, warnAt: real)
    requires 0.0 < warnAt < 1.0
    ensures var steps := CONNECTING + Delivery(1, Opening(false, at), false) + [RAISED]
                         + Delivery(2, Inbound(Some(OTHER_CUSTOMER), 200, at), false);
            var (db, start) := (Run(Empty(createdAt, 3), steps).db, Anniversary(createdAt(TENANT), at).start);
            && NoticesSent(db, TENANT, start, 1, warnAt, Usage.LimitReached) == {THREAD}
            && NoticesSent(db, TENANT, start, 2, warnAt, Usage.LimitReached) == {OTHER}
  {
    var one := CONNECTING + Delivery(1, Opening(false, at), false);
    var second := Inbound(Some(OTHER_CUSTOMER), 200, at);
    var s := FirstDelivery(createdAt, Opening(false, at), false);
    RunPlus(Empty(createdAt, 3), one, RAISED);
    var raised := Next(s, RAISED);
    assert Ready(raised, 2) && BillingFor(raised, TENANT, at) == Billing(Anniversary(createdAt(TENANT), at), Some(2));
    var t := DeliveryApplies(raised, 2, second, false);
    RunAppend(Empty(createdAt, 3), one + [RAISED], Delivery(2, second, false));
    BothNotified(at, Anniversary(createdAt(TENANT), at), warnAt);
  }

  lemma BothNotified(at: Moment, p: Period, warnAt: real)
    requires 0.0 < warnAt < 1.0
    ensures var one := Applied(NO_TRAFFIC, NUMBER, Opening(false, at), Billing(p, Some(1)), false);
            var db := Applied(one, NUMBER, Inbound(Some(OTHER_CUSTOMER), 200, at), Billing(p, Some(2)), false);
            && NoticesSent(db, TENANT, p.start, 1, warnAt, Usage.LimitReached) == {THREAD}
            && NoticesSent(db, TENANT, p.start, 2, warnAt, Usage.LimitReached) == {OTHER}
  {
    OpenedFirst(Opening(false, at), Billing(p, Some(1)), false);
    OpenedSecond(Applied(NO_TRAFFIC, NUMBER, Opening(false, at), Billing(p, Some(1)), false), at, Billing(p, Some(2)));
    Usage.CrossesItsLine(1, 1, warnAt, Usage.LimitReached);
    Usage.CrossesItsLine(2, 2, warnAt, Usage.LimitReached);
  }

  // --- Counters ---------------------------------------------------------------------------------

  /** A single opening that is not well placed leaves some window's counter wrong. */
  lemma MisplacedMiscounts(i: Item, billing: Billing, anchor: Moment)
    requires i.Inbound? && i.from == Some(CUSTOMER) && !WellPlaced(anchor, i.at) && billing.period == Anniversary(anchor, i.at)
    ensures !CountersRight(Applied(NO_TRAFFIC, NUMBER, i, billing, false), TENANT, anchor)
  {
    var after := Applied(NO_TRAFFIC, NUMBER, i, billing, false);
    OpenedFirst(i, billing, false);
    forall t, q
      ensures Usage.ValueAt(after.counters, MeterKey(t, q)) == |MeteredAt(after, t, q)|
    {
      OneCounted(after, billing.period, t, q);
    }
    assert !WellPlaced(anchor, after.threads[THREAD].openedAt);
    CountersRightExactly(after, TENANT, anchor);
  }

  lemma OneCounted(db: Db, period: Period, t: Tenant, q: Instant)
    requires db.threads.Keys == {THREAD} && db.threads[THREAD].metered == period
    requires db.counters == map[MeterKey(TENANT, period.start) := Usage.Row(period.end, 1)]
    ensures Usage.ValueAt(db.counters, MeterKey(t, q)) == |MeteredAt(db, t, q)|
  {
    assert MeteredAt(db, t, q) == if t == TENANT && q == period.start then {THREAD} else {};
  }

  /** Any such opening is reachable: one message, from the empty store, spoils a counter. */
  lemma MisplacedOpeningReachable(createdAt: Tenant -> Moment, at: Moment)
    requires !WellPlaced(createdAt(TENANT), at)
    ensures !CountersRight(Run(Empty(createdAt, 3), CONNECTING + Delivery(1, Opening(false, at), false)).db,
                           TENANT, createdAt(TENANT))
  {
    var s := FirstDelivery(createdAt, Opening(false, at), false);
    MisplacedMiscounts(Opening(false, at), Unsubscribed(createdAt, at), createdAt(TENANT));
  }

  /**
   A tenant created on 31 January at nine; a conversation opened on 28 February at ten is counted in the
   window that ended an hour before.
   */
  lemma ClampedOpeningMiscounted(createdAt: Tenant -> Moment)
    requires createdAt(TENANT) == Instant(Date(2026, 1, 31), 9)
    ensures var i := Opening(false, Instant(Date(2026, 2, 28), 10));
            !CountersRight(Run(Empty(createdAt, 3), CONNECTING + Delivery(1, i, false)).db, TENANT, createdAt(TENANT))
  {
    assert PastClampedAnniversary(createdAt(TENANT), Instant(Date(2026, 2, 28), 10));
    MisplacedOpeningReachable(createdAt, Instant(Date(2026, 2, 28), 10));
  }

  const FEBRUARY: Period := Period(Instant(Date(2026, 2, 1), 0), Instant(Date(2026, 3, 1), 0))

  const LATE: Item := Inbound(Some(CUSTOMER), 100, Instant(Date(2026, 1, 31), 23))

  /** A message stamped before the subscription's period began and delivered in it is counted there all the same. */
  lemma LateDeliveryMiscounted(createdAt: Tenant -> Moment)
    ensures var steps := CONNECTING + [SetSubscription(TENANT, Some(FEBRUARY))] + Delivery(1, LATE, false);
            CountedThough(Run(Empty(createdAt, 3), steps).db)
  {
    var s := ConnectedReady(createdAt);
    var billed := Next(s, SetSubscription(TENANT, Some(FEBRUARY)));
    RunPlus(Empty(createdAt, 3), CONNECTING, SetSubscription(TENANT, Some(FEBRUARY)));
    assert Ready(billed, 1) && BillingFor(billed, TENANT, LATE.at) == Billing(FEBRUARY, Some(1));
    var t := DeliveryApplies(billed, 1, LATE, false);
    RunAppend(Empty(createdAt, 3), CONNECTING + [SetSubscription(TENANT, Some(FEBRUARY))], Delivery(1, LATE, false));
    LateCounted();
  }

  /** February counts a conversation, has none of its own, and so is not a count of its own. */
  ghost predicate CountedThough(db: Db) {
    && Usage.ValueAt(db.counters, MeterKey(TENANT, FEBRUARY.start)) == 1
    && OpenedIn(db, TENANT, FEBRUARY) == {} && !EachCountedItsOwn(db, TENANT)
  }

  lemma LateCounted()
    ensures CountedThough(Applied(NO_TRAFFIC, NUMBER, LATE, Billing(FEBRUARY, Some(1)), false))
  {
    var after := Applied(NO_TRAFFIC, NUMBER, LATE, Billing(FEBRUARY, Some(1)), false);
    OpenedFirst(LATE, Billing(FEBRUARY, Some(1)), false);
    assert THREAD in MeteredAt(after, TENANT, FEBRUARY.start);
  }

  const UPGRADE: Period := Period(Instant(Date(2026, 2, 10), 0), Instant(Date(2026, 3, 10), 0))

  const BEFORE_UPGRADE: Moment := Instant(Date(2026, 2, 5), 0)
  const AFTER_UPGRADE: Moment := Instant(Date(2026, 2, 15), 0)

  /**
   A tenant created on 1 February subscribes on the tenth, between two customers' messages. Both openings
   fall in the period in force as they are written, and the first window still counts one of the two
   conversations opened in it.
   */
  lemma UpgradeMiscounted(createdAt: Tenant -> Moment)
    requires createdAt(TENANT) == FEBRUARY.start
    ensures var steps := CONNECTING + Delivery(1, Opening(false, BEFORE_UPGRADE), false) + [SetSubscription(TENANT, Some(UPGRADE))]
                         + Delivery(2, Inbound(Some(OTHER_CUSTOMER), 200, AFTER_UPGRADE), false);
            StraddledThough(Run(Empty(createdAt, 3), steps).db)
  {
    var one := CONNECTING + Delivery(1, Opening(false, BEFORE_UPGRADE), false);
    var second := Inbound(Some(OTHER_CUSTOMER), 200, AFTER_UPGRADE);
    var s := FirstDelivery(createdAt, Opening(false, BEFORE_UPGRADE), false);
    RunPlus(Empty(createdAt, 3), one, SetSubscription(TENANT, Some(UPGRADE)));
    var upgraded := Next(s, SetSubscription(TENANT, Some(UPGRADE)));
    assert Ready(upgraded, 2) && BillingFor(upgraded, TENANT, AFTER_UPGRADE) == Billing(UPGRADE, Some(1));
    var t := DeliveryApplies(upgraded, 2, second, false);
    RunAppend(Empty(createdAt, 3), one + [SetSubscription(TENANT, Some(UPGRADE))], Delivery(2, second, false));
    FebruaryWindow(createdAt(TENANT));
    UpgradeStraddles();
  }

  lemma FebruaryWindow(anchor: Moment)
    requires anchor == FEBRUARY.start
    ensures Anniversary(anchor, BEFORE_UPGRADE) == FEBRUARY
  {
    assert MonthIndex(anchor.date) == MonthIndex(BEFORE_UPGRADE.date) == 24313;
    assert AddMonths(anchor, 0) == FEBRUARY.start && AddMonths(anchor, 1) == FEBRUARY.end;
  }

  /** Every conversation was opened in the period it was counted in, and February counts one of its two. */
  ghost predicate StraddledThough(db: Db) {
    && (forall key :: key in db.threads ==> Contains(db.threads[key].metered, db.threads[key].openedAt))
    && Usage.ValueAt(db.counters, MeterKey(TENANT, FEBRUARY.start)) == 1
    && OpenedIn(db, TENANT, FEBRUARY) == {THREAD, OTHER} && !EachCountedItsOwn(db, TENANT)
  }

  lemma UpgradeStraddles()
    ensures var one := Applied(NO_TRAFFIC, NUMBER, Opening(false, BEFORE_UPGRADE), Billing(FEBRUARY, Some(1)), false);
            StraddledThough(Applied(one, NUMBER, Inbound(Some(OTHER_CUSTOMER), 200, AFTER_UPGRADE), Billing(UPGRADE, Some(1)), false))
  {
    var one := Applied(NO_TRAFFIC, NUMBER, Opening(false, BEFORE_UPGRADE), Billing(FEBRUARY, Some(1)), false);
    OpenedFirst(Opening(false, BEFORE_UPGRADE), Billing(FEBRUARY, Some(1)), false);
    OpenedSecond(one, AFTER_UPGRADE, Billing(UPGRADE, Some(1)));
    var db := Applied(one, NUMBER, Inbound(Some(OTHER_CUSTOMER), 200, AFTER_UPGRADE), Billing(UPGRADE, Some(1)), false);
    assert OTHER in OpenedIn(db, TENANT, FEBRUARY) && OTHER !in MeteredAt(db, TENANT, FEBRUARY.start);
  }
}
