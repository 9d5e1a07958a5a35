/**
 What holds of tenant rows after every run of the ingestion machine: counters equal the rows that caused
 them, effects happen once per provider message id, and `processed` means applied.
 */
module IngestionLaws {
  import opened Common
  import opened UsagePeriod
  import opened Ingestion
  import Usage
  import Ladder = MessageStatus

  // --- Invariants of tenant rows ----------------------------------------------------------------

  ghost predicate Filed(db: Db) {
    forall mk :: mk in db.messages ==>
      db.messages[mk].thread in db.threads && db.messages[mk].thread.account.tenant == mk.tenant
  }

  function InboundOf(db: Db, key: ThreadKey): set<MessageKey> {
    set mk | mk in db.messages && db.messages[mk].thread == key && db.messages[mk].status.None?
  }

  /** Every stored inbound message was counted unread exactly once. */
  ghost predicate UnreadConserved(db: Db) {
    forall key :: key in db.threads ==> db.threads[key].unread + db.threads[key].cleared == |InboundOf(db, key)|
  }

  function MeteredAt(db: Db, t: Tenant, start: Instant): set<ThreadKey> {
    set key | key in db.threads && key.account.tenant == t && db.threads[key].metered.start == start
  }

  /** A period's counter is the number of threads whose opening was counted in it. */
  ghost predicate CountersExact(db: Db) {
    forall t, start :: Usage.ValueAt(db.counters, MeterKey(t, start)) == |MeteredAt(db, t, start)|
  }

  ghost predicate AnnouncedOnce(db: Db) {
    forall mk :: db.announced[mk] <= 1 && (db.announced[mk] > 0 ==> mk in db.messages)
  }

  ghost predicate DbInv(db: Db) { RowsInv(db) && AnnouncedOnce(db) }

  ghost predicate RowsInv(db: Db) { Filed(db) && UnreadConserved(db) && CountersExact(db) }

  lemma OpenCountsAt(db: Db, key: ThreadKey, at: Moment, byReceipt: bool, resolved: Period, t: Tenant, start: Instant)
    requires key !in db.threads
    requires Usage.ValueAt(db.counters, MeterKey(t, start)) == |MeteredAt(db, t, start)|
    ensures var after := OpenThread(db, key, at, byReceipt, resolved);
            Usage.ValueAt(after.counters, MeterKey(t, start)) == |MeteredAt(after, t, start)|
  {
    var after := OpenThread(db, key, at, byReceipt, resolved);
    if t == key.account.tenant && start == resolved.start {
      assert MeteredAt(after, t, start) == MeteredAt(db, t, start) + {key};
    } else {
      assert MeteredAt(after, t, start) == MeteredAt(db, t, start);
    }
  }

  lemma OpenCounts(db: Db, key: ThreadKey, at: Moment, byReceipt: bool, resolved: Period)
    requires key !in db.threads && CountersExact(db)
    ensures CountersExact(OpenThread(db, key, at, byReceipt, resolved))
  {
    forall t, start
      ensures var after := OpenThread(db, key, at, byReceipt, resolved);
              Usage.ValueAt(after.counters, MeterKey(t, start)) == |MeteredAt(after, t, start)|
    {
      OpenCountsAt(db, key, at, byReceipt, resolved, t, start);
    }
  }

  /** A thread's row may change, but not the period its opening was counted in. */
  lemma SameMetering(a: Db, b: Db)
    requires CountersExact(a) && a.counters == b.counters && a.threads.Keys == b.threads.Keys
    requires forall key :: key in a.threads ==> a.threads[key].metered == b.threads[key].metered
    ensures CountersExact(b)
  {
    forall t, start
      ensures MeteredAt(b, t, start) == MeteredAt(a, t, start)
    {
    }
  }

  lemma OpenKeepsInv(db: Db, key: ThreadKey, at: Moment, byReceipt: bool, resolved: Period)
    requires RowsInv(db)
    ensures RowsInv(OpenThread(db, key, at, byReceipt, resolved))
  {
    var after := OpenThread(db, key, at, byReceipt, resolved);
    if key !in db.threads {
      OpenCounts(db, key, at, byReceipt, resolved);
      assert InboundOf(db, key) == {};
      SameInbound(db, after, key);
    }
  }

  /** Same messages and same counts on every thread but one, which balances by itself. */
  lemma SameInbound(a: Db, b: Db, key: ThreadKey)
    requires UnreadConserved(a)
    requires forall k :: InboundOf(b, k) == InboundOf(a, k)
    requires forall k :: k in b.threads && k != key ==> k in a.threads && b.threads[k] == a.threads[k]
    requires key in b.threads ==> b.threads[key].unread + b.threads[key].cleared == |InboundOf(a, key)|
    ensures UnreadConserved(b)
  {
  }

  lemma StoreInboundKeepsInv(db: Db, key: ThreadKey, mk: MessageKey, at: Moment)
    requires RowsInv(db) && key in db.threads && mk !in db.messages && mk.tenant == key.account.tenant
    ensures RowsInv(StoreInbound(db, key, mk, at))
  {
    var after := StoreInbound(db, key, mk, at);
    SameMetering(db, after);
    StoreInboundCounts(db, key, mk, at);
  }

  lemma StoredInbound(db: Db, key: ThreadKey, mk: MessageKey, at: Moment, k: ThreadKey)
    requires key in db.threads && mk !in db.messages
    ensures InboundOf(StoreInbound(db, key, mk, at), k) == InboundOf(db, k) + (if k == key then {mk} else {})
    ensures mk !in InboundOf(db, k)
  {
  }

  lemma StoreInboundCounts(db: Db, key: ThreadKey, mk: MessageKey, at: Moment)
    requires UnreadConserved(db) && key in db.threads && mk !in db.messages
    ensures UnreadConserved(StoreInbound(db, key, mk, at))
  {
    var after := StoreInbound(db, key, mk, at);
    forall k | k in after.threads
      ensures after.threads[k].unread + after.threads[k].cleared == |InboundOf(after, k)|
    {
      StoredInbound(db, key, mk, at, k);
    }
  }

  lemma StoreReceiptKeepsInv(db: Db, key: ThreadKey, mk: MessageKey, status: Ladder.Status, at: Moment)
    requires RowsInv(db) && key in db.threads && mk !in db.messages && mk.tenant == key.account.tenant
    ensures RowsInv(StoreReceipt(db, key, mk, status, at))
  {
    var after := StoreReceipt(db, key, mk, status, at);
    SameMetering(db, after);
    assert forall k :: InboundOf(after, k) == InboundOf(db, k);
    SameInbound(db, after, key);
  }

  lemma ClimbKeepsInv(db: Db, mk: MessageKey, status: Ladder.Status)
    requires RowsInv(db) && mk in db.messages
    ensures RowsInv(ClimbStatus(db, mk, status))
  {
    var after := ClimbStatus(db, mk, status);
    ClimbTouchesNoThread(db, mk, status);
    SameMetering(db, after);
    SameInbound(db, after, db.messages[mk].thread);
  }

  lemma ClimbTouchesNoThread(db: Db, mk: MessageKey, status: Ladder.Status)
    requires mk in db.messages
    ensures var after := ClimbStatus(db, mk, status);
            && after.threads == db.threads && after.counters == db.counters
            && (Filed(db) ==> Filed(after))
            && forall k :: InboundOf(after, k) == InboundOf(db, k)
  {
  }

  lemma ClearedKeepsMessages(db: Db, key: ThreadKey)
    ensures var after := MarkedRead(db, key);
            && after.counters == db.counters && after.threads.Keys == db.threads.Keys
            && (Filed(db) ==> Filed(after))
            && forall k :: InboundOf(after, k) == InboundOf(db, k)
  {
  }

  lemma ClearedKeepsInv(db: Db, key: ThreadKey)
    requires RowsInv(db)
    ensures RowsInv(MarkedRead(db, key))
  {
    var after := MarkedRead(db, key);
    ClearedKeepsMessages(db, key);
    SameMetering(db, after);
    SameInbound(db, after, key);
  }

  lemma ItemKeepsInv(db: Db, account: Account, i: Item, resolved: Period)
    requires Attributable(i) && !Ignored(i) && RowsInv(db)
    ensures RowsInv(ApplyItem(db, account, i, resolved))
  {
    var mk := ItemKey(account, i);
    match i
    case Inbound(from, id, at) =>
      var key := ThreadKey(account, from.value);
      OpenKeepsInv(db, key, at, false, resolved);
      if mk !in db.messages {
        StoreInboundKeepsInv(OpenThread(db, key, at, false, resolved), key, mk, at);
      }
    case Receipt(to, id, status, at) =>
      var key := ThreadKey(account, to.value);
      if mk in db.messages {
        ClimbKeepsInv(db, mk, status.value);
      } else {
        OpenKeepsInv(db, key, at, true, resolved);
        StoreReceiptKeepsInv(OpenThread(db, key, at, true, resolved), key, mk, status.value, at);
      }
  }

  lemma EmitKeepsInv(before: Db, after: Db, key: ThreadKey, mk: MessageKey, inbound: bool, cap: Option<nat>)
    requires RowsInv(after)
    ensures RowsInv(Emit(before, after, key, mk, inbound, cap))
  {
    var emitted := Emit(before, after, key, mk, inbound, cap);
    SameMetering(after, emitted);
    assert forall k :: InboundOf(emitted, k) == InboundOf(after, k);
  }

  lemma EmittedOnce(db: Db, account: Account, i: Item, billing: Billing, dies: bool)
    requires Attributable(i) && !Ignored(i) && AnnouncedOnce(db)
    ensures AnnouncedOnce(Applied(db, account, i, billing, dies))
  {
    ItemWritesOnlyItsMessage(db, account, i, billing.period);
  }

  lemma ItemWritesOnlyItsMessage(db: Db, account: Account, i: Item, resolved: Period)
    requires Attributable(i) && !Ignored(i)
    ensures var after := ApplyItem(db, account, i, resolved);
            after.messages.Keys == db.messages.Keys + {ItemKey(account, i)} && after.announced == db.announced
  {
  }

  lemma ConnectedKeepsInv(db: Db, e: Effect)
    requires e.Connected? && RowsInv(db)
    ensures RowsInv(DbAfter(db, e))
  {
    SameMetering(db, DbAfter(db, e));
    assert forall k :: InboundOf(DbAfter(db, e), k) == InboundOf(db, k);
  }

  lemma EffectKeepsInv(db: Db, e: Effect)
    requires IsEffect(e) && DbInv(db)
    ensures DbInv(DbAfter(db, e))
  {
    match e
    case NoEffect =>
    case Cleared(key) => ClearedKeepsInv(db, key);
    case Connected(_, _) => ConnectedKeepsInv(db, e);
    case ItemApplied(account, i, billing, dies) =>
      EmittedOnce(db, account, i, billing, dies);
      ItemKeepsInv(db, account, i, billing.period);
      EmitKeepsInv(db, ApplyItem(db, account, i, billing.period), ItemThread(account, i), ItemKey(account, i), i.Inbound?,
                   billing.cap);
  }

  /**
   In every run, the empty store's among them, with duplicate deliveries, lost jobs, crashes, sweeps, parking and
   replay: each unread count is the inbound messages stored and not yet cleared, each period's counter is
   the threads counted in it, and no message is announced twice.
   */
  lemma {:induction false} RunKeepsInv(s: State, steps: seq<Step>)
    requires DbInv(s.db)
    ensures DbInv(Run(s, steps).db)
  {
    if steps == [] {
    } else {
      var sofar := Run(s, steps[..|steps| - 1]);
      RunKeepsInv(s, steps[..|steps| - 1]);
      var e := EffectOf(sofar, steps[|steps| - 1]);
      EffectKeepsInv(sofar.db, e);
    }
  }

  lemma EmptyInv()
    ensures DbInv(NO_ROWS)
  {
    forall t, start
      ensures MeteredAt(NO_ROWS, t, start) == {}
    {
    }
  }

  // --- Counters against a recomputation ---------------------------------------------------------

  function OpenedIn(db: Db, t: Tenant, q: Period): set<ThreadKey> {
    set key | key in db.threads && key.account.tenant == t && Contains(q, db.threads[key].openedAt)
  }

  // --- At most once -----------------------------------------------------------------------------

  /** Everything but the triggers: rows, counters and announcements. */
  predicate SameRows(a: Db, b: Db) {
    a.threads == b.threads && a.messages == b.messages && a.counters == b.counters && a.announced == b.announced
  }

  /** An item whose message and thread are there, with nothing to climb: its transaction writes nothing. */
  lemma AppliedAgain(db: Db, account: Account, i: Item, q: Billing, dies: bool)
    requires Attributable(i) && !Ignored(i) && ItemKey(account, i) in db.messages
    requires i.Inbound? ==> ThreadKey(account, i.from.value) in db.threads
    requires i.Receipt? ==> Reported(db, ItemKey(account, i), i.status.value)
    ensures SameRows(Applied(db, account, i, q, dies), db)
  {
    var mk := ItemKey(account, i);
    assert db.messages[mk := db.messages[mk]] == db.messages;
  }

  lemma AppliedOnceHolds(db: Db, account: Account, i: Item, p: Billing)
    requires Attributable(i) && !Ignored(i)
    ensures var once := Applied(db, account, i, p, false);
            && ItemKey(account, i) in once.messages
            && (i.Inbound? ==> ThreadKey(account, i.from.value) in once.threads && ItemKey(account, i) in once.triggered)
            && (i.Receipt? ==> Reported(once, ItemKey(account, i), i.status.value))
  {
  }

  lemma ReportedStays(a: Db, b: Db, mk: MessageKey, status: Ladder.Status)
    requires DbKept(a, b) && Reported(a, mk, status)
    ensures Reported(b, mk, status)
  {
    assert MessageKept(a.messages[mk], b.messages[mk]);
  }

  /**
   Once an item is applied, applying it again at any later point of any run, whatever billing then says,
   writes no row, moves no counter and announces nothing.
   */
  lemma {:induction false} AppliedAtMostOnce(s: State, account: Account, i: Item, p: Billing, steps: seq<Step>, q: Billing, dies: bool)
    requires Attributable(i) && !Ignored(i)
    ensures var later := Run(s.(db := Applied(s.db, account, i, p, false)), steps).db;
            SameRows(Applied(later, account, i, q, dies), later)
  {
    var once := s.(db := Applied(s.db, account, i, p, false));
    AppliedOnceHolds(s.db, account, i, p);
    RunKeeps(once, steps);
    var later := Run(once, steps).db;
    if i.Receipt? {
      ReportedStays(once.db, later, ItemKey(account, i), i.status.value);
    }
    AppliedAgain(later, account, i, q, dies);
  }

  predicate Reported(db: Db, mk: MessageKey, status: Ladder.Status) {
    mk in db.messages
    && (db.messages[mk].status.None? || Ladder.Rank(status) <= Ladder.Rank(db.messages[mk].status.value))
  }

  // --- The inbox clocks -------------------------------------------------------------------------

  ghost predicate IsInboundAt(db: Db, key: ThreadKey, mk: MessageKey, at: Instant) {
    mk in InboundOf(db, key) && db.messages[mk].at == at
  }

  /**
   `last_message_at` is the latest of the opening and every inbound message, whatever order they arrived
   in; the service window runs from it, or is closed on a thread a receipt opened and nothing has moved.
   */
  ghost predicate ClockRight(db: Db, key: ThreadKey)
    requires key in db.threads
  {
    var t := db.threads[key];
    && !Earlier(t.lastMessageAt, t.openedAt)
    && (forall mk :: mk in InboundOf(db, key) ==> !Earlier(t.lastMessageAt, db.messages[mk].at))
    && (t.lastMessageAt == t.openedAt || exists mk :: IsInboundAt(db, key, mk, t.lastMessageAt))
    && t.windowFrom == if t.byReceipt && t.lastMessageAt == t.openedAt then None else Some(t.lastMessageAt)
  }

  ghost predicate ClocksRight(db: Db) { forall key :: key in db.threads ==> ClockRight(db, key) }

  lemma OpenKeepsClocks(db: Db, key: ThreadKey, at: Moment, byReceipt: bool, resolved: Period)
    requires Filed(db) && ClocksRight(db)
    ensures ClocksRight(OpenThread(db, key, at, byReceipt, resolved))
  {
    var after := OpenThread(db, key, at, byReceipt, resolved);
    if key !in db.threads {
      assert InboundOf(after, key) == {};
      SameClocks(db, after, key);
    }
  }

  /** Clocks of every thread but `key` read nothing that changed. */
  lemma SameClocks(a: Db, b: Db, key: ThreadKey)
    requires ClocksRight(a)
    requires forall k :: k in b.threads && k != key ==>
               (k in a.threads && b.threads[k] == a.threads[k].(unread := b.threads[k].unread, cleared := b.threads[k].cleared))
    requires forall k :: k != key ==> InboundOf(b, k) == InboundOf(a, k)
    requires forall mk :: mk in a.messages ==> mk in b.messages && b.messages[mk].at == a.messages[mk].at
    requires key in b.threads ==> ClockRight(b, key)
    ensures ClocksRight(b)
  {
    forall k | k in b.threads && k != key
      ensures ClockRight(b, k)
    {
      assert ClockRight(a, k);
      if a.threads[k].lastMessageAt != a.threads[k].openedAt {
        var mk :| IsInboundAt(a, k, mk, a.threads[k].lastMessageAt);
        assert IsInboundAt(b, k, mk, b.threads[k].lastMessageAt);
      }
    }
  }

  lemma StoreInboundKeepsClocks(db: Db, key: ThreadKey, mk: MessageKey, at: Moment)
    requires ClocksRight(db) && key in db.threads && mk !in db.messages
    ensures ClocksRight(StoreInbound(db, key, mk, at))
  {
    var after := StoreInbound(db, key, mk, at);
    assert ClockRight(db, key);
    assert InboundOf(after, key) == InboundOf(db, key) + {mk};
    assert forall k :: k != key ==> InboundOf(after, k) == InboundOf(db, k);
    StoredClock(db, key, mk, at);
    SameClocks(db, after, key);
  }

  lemma StoredClock(db: Db, key: ThreadKey, mk: MessageKey, at: Moment)
    requires key in db.threads && ClockRight(db, key) && mk !in db.messages
    ensures ClockRight(StoreInbound(db, key, mk, at), key)
  {
    var after := StoreInbound(db, key, mk, at);
    var before, t := db.threads[key], after.threads[key];
    assert InboundOf(after, key) == InboundOf(db, key) + {mk};
    if Earlier(before.lastMessageAt, at) {
      assert IsInboundAt(after, key, mk, t.lastMessageAt);
    } else if before.lastMessageAt != before.openedAt {
      var latest :| IsInboundAt(db, key, latest, before.lastMessageAt);
      assert IsInboundAt(after, key, latest, t.lastMessageAt);
    }
  }

  /** Clocks read the opening, the high-water marks and the inbound messages, and nothing else. */
  lemma SameClocksEverywhere(a: Db, b: Db)
    requires ClocksRight(a) && a.threads.Keys == b.threads.Keys
    requires forall mk :: mk in a.messages ==> mk in b.messages && b.messages[mk].at == a.messages[mk].at
    requires forall k :: k in b.threads ==>
               b.threads[k] == a.threads[k].(unread := b.threads[k].unread, cleared := b.threads[k].cleared)
    requires forall k :: InboundOf(b, k) == InboundOf(a, k)
    ensures ClocksRight(b)
  {
    forall k | k in b.threads
      ensures ClockRight(b, k)
    {
      assert ClockRight(a, k);
      if a.threads[k].lastMessageAt != a.threads[k].openedAt {
        var mk :| IsInboundAt(a, k, mk, a.threads[k].lastMessageAt);
        assert IsInboundAt(b, k, mk, b.threads[k].lastMessageAt);
      }
    }
  }

  lemma StoreReceiptKeepsClocks(db: Db, key: ThreadKey, mk: MessageKey, status: Ladder.Status, at: Moment)
    requires ClocksRight(db) && mk !in db.messages
    ensures ClocksRight(StoreReceipt(db, key, mk, status, at))
  {
    assert forall k :: InboundOf(StoreReceipt(db, key, mk, status, at), k) == InboundOf(db, k);
    SameClocksEverywhere(db, StoreReceipt(db, key, mk, status, at));
  }

  lemma ClimbKeepsClocks(db: Db, mk: MessageKey, status: Ladder.Status)
    requires ClocksRight(db) && mk in db.messages
    ensures ClocksRight(ClimbStatus(db, mk, status))
  {
    assert forall k :: InboundOf(ClimbStatus(db, mk, status), k) == InboundOf(db, k);
    SameClocksEverywhere(db, ClimbStatus(db, mk, status));
  }

  lemma ClearedKeepsClocks(db: Db, key: ThreadKey)
    requires ClocksRight(db)
    ensures ClocksRight(MarkedRead(db, key))
  {
    assert forall k :: InboundOf(MarkedRead(db, key), k) == InboundOf(db, k);
    SameClocksEverywhere(db, MarkedRead(db, key));
  }

  lemma EmitKeepsClocks(before: Db, after: Db, key: ThreadKey, mk: MessageKey, inbound: bool, cap: Option<nat>)
    requires ClocksRight(after)
    ensures ClocksRight(Emit(before, after, key, mk, inbound, cap))
  {
    assert forall k :: InboundOf(Emit(before, after, key, mk, inbound, cap), k) == InboundOf(after, k);
    SameClocksEverywhere(after, Emit(before, after, key, mk, inbound, cap));
  }

  lemma ItemKeepsClocks(db: Db, account: Account, i: Item, resolved: Period)
    requires Attributable(i) && !Ignored(i) && Filed(db) && ClocksRight(db)
    ensures ClocksRight(ApplyItem(db, account, i, resolved))
  {
    var mk := ItemKey(account, i);
    match i
    case Inbound(from, id, at) =>
      var key := ThreadKey(account, from.value);
      OpenKeepsClocks(db, key, at, false, resolved);
      if mk !in db.messages {
        StoreInboundKeepsClocks(OpenThread(db, key, at, false, resolved), key, mk, at);
      }
    case Receipt(to, id, status, at) =>
      var key := ThreadKey(account, to.value);
      if mk in db.messages {
        ClimbKeepsClocks(db, mk, status.value);
      } else {
        OpenKeepsClocks(db, key, at, true, resolved);
        StoreReceiptKeepsClocks(OpenThread(db, key, at, true, resolved), key, mk, status.value, at);
      }
  }

  lemma ConnectedKeepsClocks(db: Db, e: Effect)
    requires e.Connected? && ClocksRight(db)
    ensures ClocksRight(DbAfter(db, e))
  {
    assert forall k :: InboundOf(DbAfter(db, e), k) == InboundOf(db, k);
    SameClocksEverywhere(db, DbAfter(db, e));
  }

  lemma EffectKeepsClocks(db: Db, e: Effect)
    requires IsEffect(e) && Filed(db) && ClocksRight(db)
    ensures ClocksRight(DbAfter(db, e))
  {
    match e
    case NoEffect =>
    case Cleared(key) => ClearedKeepsClocks(db, key);
    case Connected(_, _) => ConnectedKeepsClocks(db, e);
    case ItemApplied(account, i, billing, dies) =>
      ItemKeepsClocks(db, account, i, billing.period);
      EmitKeepsClocks(db, ApplyItem(db, account, i, billing.period), ItemThread(account, i), ItemKey(account, i), i.Inbound?,
                      billing.cap);
  }

  /** Out-of-order delivery never moves a clock back, in any run. */
  lemma {:induction false} RunKeepsClocks(s: State, steps: seq<Step>)
    requires DbInv(s.db) && ClocksRight(s.db)
    ensures ClocksRight(Run(s, steps).db)
  {
    if steps == [] {
    } else {
      var sofar := Run(s, steps[..|steps| - 1]);
      RunKeepsClocks(s, steps[..|steps| - 1]);
      RunKeepsInv(s, steps[..|steps| - 1]);
      var e := EffectOf(sofar, steps[|steps| - 1]);
      EffectKeepsClocks(sofar.db, e);
    }
  }

  /**
   "An inbound message opens the service window" has one exception, and this is exactly it: the window of
   a reachable thread is closed when a receipt opened the thread and no customer message is later than it.
   */
  lemma WindowClosedExactly(db: Db, key: ThreadKey)
    requires ClocksRight(db) && key in db.threads
    ensures db.threads[key].windowFrom.None? <==>
              db.threads[key].byReceipt
              && forall mk :: mk in InboundOf(db, key) ==> !Earlier(db.threads[key].openedAt, db.messages[mk].at)
  {
    assert ClockRight(db, key);
    var t := db.threads[key];
    if t.lastMessageAt != t.openedAt {
      var mk :| IsInboundAt(db, key, mk, t.lastMessageAt);
      assert Earlier(t.openedAt, db.messages[mk].at);
    }
  }
}
