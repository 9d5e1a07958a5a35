/**
 What a stored event's status promises: `processed` means applied, nothing stored is beyond recovery, and
 where the published lifecycle and the unguarded marks part ways.
 */
module IngestionRecovery {
  import opened Common
  import opened UsagePeriod
  import opened Ingestion
  import opened IngestionLaws
  import Ladder = MessageStatus

  // --- Processed means applied ------------------------------------------------------------------

  /** The item's effect is in the tenant's rows: the message with its linker trigger, or the status it reported. */
  predicate Recorded(db: Db, t: Tenant, i: Item) {
    Ignored(i)
    || (Attributable(i)
        && match i
           case Inbound(_, id, _) => MessageKey(t, id) in db.messages && MessageKey(t, id) in db.triggered
           case Receipt(_, id, status, _) => Reported(db, MessageKey(t, id), status.value))
  }

  ghost predicate ItemsRecorded(db: Db, t: Tenant, items: seq<Item>, n: nat)
    requires n <= |items|
  {
    forall k :: 0 <= k < n ==> Recorded(db, t, items[k])
  }

  /** All of a change is in the rows of one tenant whose account the number has been connected to. */
  ghost predicate RecordedFor(db: Db, phone: nat, account: Account, items: seq<Item>) {
    (phone, account) in db.bound && ItemsRecorded(db, account.tenant, items, |items|)
  }

  ghost predicate ChangeRecorded(db: Db, c: Change) {
    match c
    case OtherField => true
    case Unreadable => false
    case Messages(phone, items) => exists account :: RecordedFor(db, phone, account, items)
  }

  ghost predicate ChangesRecorded(db: Db, changes: seq<Change>, n: nat)
    requires n <= |changes|
  {
    forall k :: 0 <= k < n ==> ChangeRecorded(db, changes[k])
  }

  /** A worker stands inside its payload, and unless it must park, everything behind it is recorded. */
  ghost predicate PlaceRight(db: Db, changes: seq<Change>, w: Worker) {
    && w.change <= |changes|
    && (w.account.None? ==> w.item == 0)
    && (w.account.Some? ==>
          w.change < |changes| && changes[w.change].Messages? && w.item <= |changes[w.change].items|
          && (changes[w.change].phone, w.account.value) in db.bound)
    && (!w.park ==>
          ChangesRecorded(db, changes, w.change)
          && (w.account.Some? ==> ItemsRecorded(db, w.account.value.tenant, changes[w.change].items, w.item)))
  }

  ghost predicate WorkerRight(s: State, w: Worker) {
    w.event in s.rows && (s.rows[w.event].payload.Some? ==> PlaceRight(s.db, s.rows[w.event].payload.value, w))
  }

  ghost predicate RowRight(db: Db, r: Row) {
    r.status == Processed ==> r.payload.Some? && ChangesRecorded(db, r.payload.value, |r.payload.value|)
  }

  ghost predicate StateRight(s: State) {
    && (forall worker :: worker in s.workers ==> WorkerRight(s, s.workers[worker]))
    && (forall e :: e in s.rows ==> RowRight(s.db, s.rows[e]))
    && (forall phone :: phone in s.accounts ==> (phone, s.accounts[phone]) in s.db.bound)
  }

  lemma RecordedStays(a: Db, b: Db, t: Tenant, i: Item)
    requires DbKept(a, b) && Recorded(a, t, i)
    ensures Recorded(b, t, i)
  {
    if !Ignored(i) && i.Receipt? {
      ReportedStays(a, b, MessageKey(t, i.id), i.status.value);
    }
  }

  lemma ItemsStay(a: Db, b: Db, t: Tenant, items: seq<Item>, n: nat)
    requires DbKept(a, b) && n <= |items| && ItemsRecorded(a, t, items, n)
    ensures ItemsRecorded(b, t, items, n)
  {
    forall k | 0 <= k < n
      ensures Recorded(b, t, items[k])
    {
      RecordedStays(a, b, t, items[k]);
    }
  }

  lemma ChangesStay(a: Db, b: Db, changes: seq<Change>, n: nat)
    requires DbKept(a, b) && n <= |changes| && ChangesRecorded(a, changes, n)
    ensures ChangesRecorded(b, changes, n)
  {
    forall k | 0 <= k < n
      ensures ChangeRecorded(b, changes[k])
    {
      assert ChangeRecorded(a, changes[k]);
      if changes[k].Messages? {
        var account :| RecordedFor(a, changes[k].phone, account, changes[k].items);
        ItemsStay(a, b, account.tenant, changes[k].items, |changes[k].items|);
        assert RecordedFor(b, changes[k].phone, account, changes[k].items);
      }
    }
  }

  lemma PlaceStays(a: Db, b: Db, changes: seq<Change>, w: Worker)
    requires DbKept(a, b) && PlaceRight(a, changes, w)
    ensures PlaceRight(b, changes, w)
  {
    if !w.park {
      ChangesStay(a, b, changes, w.change);
      if w.account.Some? {
        ItemsStay(a, b, w.account.value.tenant, changes[w.change].items, w.item);
      }
    }
  }

  /** Rows keep their payload and tenant rows only grow, so a worker or row that was right stays right. */
  lemma RightStays(s: State, t: State, w: Worker)
    requires RowsKept(s, t) && DbKept(s.db, t.db) && WorkerRight(s, w)
    ensures WorkerRight(t, w) && t.rows[w.event].payload == s.rows[w.event].payload
  {
    if s.rows[w.event].payload.Some? {
      PlaceStays(s.db, t.db, s.rows[w.event].payload.value, w);
    }
  }

  lemma RowStays(a: Db, b: Db, r: Row)
    requires DbKept(a, b) && RowRight(a, r)
    ensures RowRight(b, r)
  {
    if r.status == Processed {
      ChangesStay(a, b, r.payload.value, |r.payload.value|);
    }
  }

  lemma NextChangeRight(db: Db, changes: seq<Change>, w: Worker, park: bool)
    requires PlaceRight(db, changes, w) && w.change < |changes|
    requires park || w.park || ChangeRecorded(db, changes[w.change])
    ensures PlaceRight(db, changes, NextChange(w, park))
  {
  }

  lemma NextItemRight(db: Db, changes: seq<Change>, w: Worker, park: bool)
    requires PlaceRight(db, changes, w) && w.account.Some? && w.item < |changes[w.change].items|
    requires park || w.park || Recorded(db, w.account.value.tenant, changes[w.change].items[w.item])
    ensures PlaceRight(db, changes, NextItem(w, park))
  {
  }

  /** Past an item, either it is recorded or the worker is going to park. */
  lemma ItemWorked(s: State, worker: WorkerId, w: Worker, changes: seq<Change>, dies: bool)
    requires PlaceRight(s.db, changes, w) && w.account.Some? && w.item < |changes[w.change].items|
    ensures var t := WorkItem(s, worker, w, w.account.value, changes[w.change].items[w.item], dies);
            worker in t.workers ==> PlaceRight(t.db, changes, t.workers[worker])
  {
    var account, i := w.account.value, changes[w.change].items[w.item];
    if Ignored(i) {
      NextItemRight(s.db, changes, w, false);
    } else if !Attributable(i) {
      NextItemRight(s.db, changes, w, true);
    } else if account.tenant !in s.activeTenants {
      NextChangeRight(s.db, changes, w, true);
    } else if !dies {
      var billing := BillingFor(s, account.tenant, i.at);
      var after := Applied(s.db, account, i, billing, false);
      EffectKeeps(s.db, ItemApplied(account, i, billing, false));
      PlaceStays(s.db, after, changes, w);
      AppliedIsRecorded(s.db, account, i, billing);
      NextItemRight(after, changes, w, false);
    }
  }

  lemma AppliedIsRecorded(db: Db, account: Account, i: Item, billing: Billing)
    requires Attributable(i) && !Ignored(i)
    ensures Recorded(Applied(db, account, i, billing, false), account.tenant, i)
  {
    AppliedOnceHolds(db, account, i, billing);
  }

  lemma ChangeWorked(s: State, worker: WorkerId, w: Worker, changes: seq<Change>)
    requires PlaceRight(s.db, changes, w) && w.account.None? && w.change < |changes|
    requires forall phone :: phone in s.accounts ==> (phone, s.accounts[phone]) in s.db.bound
    ensures var t := WorkChange(s, worker, w, changes[w.change]);
            t.db == s.db && worker in t.workers && PlaceRight(s.db, changes, t.workers[worker])
  {
    match changes[w.change]
    case OtherField => NextChangeRight(s.db, changes, w, false);
    case Unreadable => NextChangeRight(s.db, changes, w, true);
    case Messages(phone, _) =>
      if phone !in s.accounts {
        NextChangeRight(s.db, changes, w, true);
      }
  }

  /** The worker that acts moves to a right place. */
  lemma WorkedRight(s: State, worker: WorkerId, dies: bool)
    requires worker in s.workers && WorkerRight(s, s.workers[worker])
    requires forall phone :: phone in s.accounts ==> (phone, s.accounts[phone]) in s.db.bound
    ensures var t := WorkStep(s, worker, dies);
            worker in t.workers && s.rows[s.workers[worker].event].payload.Some? ==>
              PlaceRight(t.db, s.rows[s.workers[worker].event].payload.value, t.workers[worker])
  {
    var w := s.workers[worker];
    if s.rows[w.event].payload.Some? && w.change < |s.rows[w.event].payload.value| {
      var changes := s.rows[w.event].payload.value;
      if w.account.None? {
        ChangeWorked(s, worker, w, changes);
      } else if w.item < |changes[w.change].items| {
        ItemWorked(s, worker, w, changes, dies);
      } else {
        assert !w.park ==> RecordedFor(s.db, changes[w.change].phone, w.account.value, changes[w.change].items);
        NextChangeRight(s.db, changes, w, false);
      }
    }
  }

  /** A worker keeps its event, and only its own step or a claim moves it. */
  lemma WorkersMove(s: State, step: Step, worker: WorkerId)
    requires worker in Next(s, step).workers
    ensures var t := Next(s, step);
            || (worker in s.workers && t.workers[worker] == s.workers[worker])
            || (step.Work? && step.worker == worker && worker in s.workers
                && t.workers[worker].event == s.workers[worker].event)
            || (step.Claim? && step.worker == worker && t.workers[worker] == Worker(step.event, t.workers[worker].attempts, 0, 0, None, false)
                && step.event in s.rows)
  {
    if step.Work? {
      WorkMovesOne(s, step.worker, step.dies);
    } else if !step.Claim? {
      OthersKeepWorkers(s, step);
    }
  }

  /** Only that worker's place, if it still has one, and never its event. */
  predicate MovesOne(s: State, t: State, worker: WorkerId, event: EventId) {
    && t.workers.Keys <= s.workers.Keys + {worker}
    && (forall w | w in t.workers && w != worker :: w in s.workers && t.workers[w] == s.workers[w])
    && (worker in t.workers ==> t.workers[worker].event == event)
  }

  lemma ItemMovesOne(s: State, worker: WorkerId, w: Worker, account: Account, i: Item, dies: bool)
    ensures MovesOne(s, WorkItem(s, worker, w, account, i, dies), worker, w.event)
  {
    if !Ignored(i) && Attributable(i) && account.tenant in s.activeTenants {
      var t := s.(db := Applied(s.db, account, i, BillingFor(s, account.tenant, i.at), dies));
      assert WorkItem(s, worker, w, account, i, dies) == if dies then Without(t, worker) else Put(t, worker, NextItem(w, false));
    }
  }

  lemma ChangeMovesOne(s: State, worker: WorkerId, w: Worker, c: Change)
    ensures MovesOne(s, WorkChange(s, worker, w, c), worker, w.event)
  {
  }

  lemma WorkMovesOne(s: State, worker: WorkerId, dies: bool)
    ensures worker in s.workers ==> MovesOne(s, WorkStep(s, worker, dies), worker, s.workers[worker].event)
    ensures worker !in s.workers ==> WorkStep(s, worker, dies) == s
  {
    if worker in s.workers && s.workers[worker].event in s.rows && s.rows[s.workers[worker].event].payload.Some? {
      var w, changes := s.workers[worker], s.rows[s.workers[worker].event].payload.value;
      if w.change < |changes| {
        ChangeMovesOne(s, worker, w, changes[w.change]);
        if w.account.Some? && changes[w.change].Messages? && w.item < |changes[w.change].items| {
          ItemMovesOne(s, worker, w, w.account.value, changes[w.change].items[w.item], dies);
        }
      }
    }
  }

  lemma OthersKeepWorkers(s: State, step: Step)
    requires !step.Work? && !step.Claim?
    ensures Next(s, step).workers.Keys <= s.workers.Keys
    ensures forall w :: w in Next(s, step).workers ==> Next(s, step).workers[w] == s.workers[w]
  {
  }

  lemma NextKeepsWorkers(s: State, step: Step, worker: WorkerId)
    requires StateRight(s) && worker in Next(s, step).workers
    ensures WorkerRight(Next(s, step), Next(s, step).workers[worker])
  {
    NextKeeps(s, step);
    WorkersMove(s, step, worker);
    var t := Next(s, step);
    if worker in s.workers && t.workers[worker] == s.workers[worker] {
      RightStays(s, t, s.workers[worker]);
    } else if step.Work? {
      RightStays(s, t, s.workers[worker]);
      WorkedRight(s, worker, step.dies);
    }
  }

  /** Only a finishing worker with nothing to park marks an event processed. */
  lemma MarkedBy(s: State, step: Step, e: EventId)
    requires e in s.rows && e in Next(s, step).rows
    requires Next(s, step).rows[e].status == Processed && s.rows[e].status != Processed
    ensures step.Work? && step.worker in s.workers && s.workers[step.worker].event == e
    ensures !s.workers[step.worker].park && s.rows[e].payload.Some?
    ensures s.workers[step.worker].change >= |s.rows[e].payload.value| && Next(s, step).db == s.db
  {
    if step.Work? {
      WorkMarks(s, step.worker, step.dies);
    }
  }

  lemma NewRowReceived(s: State, step: Step, e: EventId)
    requires e !in s.rows && e in Next(s, step).rows
    ensures Next(s, step).rows[e].status == Received
  {
    if step.Work? {
      WorkMarks(s, step.worker, step.dies);
    }
  }

  lemma NextKeepsRowRight(s: State, step: Step, e: EventId)
    requires StateRight(s) && e in Next(s, step).rows
    ensures RowRight(Next(s, step).db, Next(s, step).rows[e])
  {
    NextKeeps(s, step);
    if e !in s.rows {
      NewRowReceived(s, step, e);
    } else if s.rows[e].status == Processed {
      RowStays(s.db, Next(s, step).db, s.rows[e]);
    } else if Next(s, step).rows[e].status == Processed {
      MarkedBy(s, step, e);
      assert WorkerRight(s, s.workers[step.worker]);
    }
  }

  lemma NextKeepsBound(s: State, step: Step)
    requires forall phone :: phone in s.accounts ==> (phone, s.accounts[phone]) in s.db.bound
    ensures forall phone :: phone in Next(s, step).accounts ==>
              (phone, Next(s, step).accounts[phone]) in Next(s, step).db.bound
  {
    NextKeeps(s, step);
    if !step.SetAccount? {
      AccountsFixed(s, step);
    }
  }

  lemma AccountsFixed(s: State, step: Step)
    requires !step.SetAccount?
    ensures Next(s, step).accounts == s.accounts
  {
  }

  lemma NextKeepsRight(s: State, step: Step)
    requires StateRight(s)
    ensures StateRight(Next(s, step))
  {
    NextKeepsBound(s, step);
    forall worker | worker in Next(s, step).workers
      ensures WorkerRight(Next(s, step), Next(s, step).workers[worker])
    {
      NextKeepsWorkers(s, step, worker);
    }
    forall e | e in Next(s, step).rows
      ensures RowRight(Next(s, step).db, Next(s, step).rows[e])
    {
      NextKeepsRowRight(s, step, e);
    }
  }

  /**
   In every run, an event marked `processed` has every inbound message it carried stored and handed to the
   ticket linker, and every delivery status it reported reached: a batch is never marked done part-way.
   */
  lemma {:induction false} ProcessedMeansApplied(s: State, steps: seq<Step>, event: EventId)
    requires StateRight(s) && event in Run(s, steps).rows && Run(s, steps).rows[event].status == Processed
    ensures Run(s, steps).rows[event].payload.Some?
    ensures forall c :: c in Run(s, steps).rows[event].payload.value ==> ChangeRecorded(Run(s, steps).db, c)
  {
    RunKeepsRight(s, steps);
    var row := Run(s, steps).rows[event];
    assert RowRight(Run(s, steps).db, row);
  }

  lemma {:induction false} RunKeepsRight(s: State, steps: seq<Step>)
    requires StateRight(s)
    ensures StateRight(Run(s, steps))
  {
    if steps == [] {
    } else {
      RunKeepsRight(s, steps[..|steps| - 1]);
      NextKeepsRight(Run(s, steps[..|steps| - 1]), steps[|steps| - 1]);
    }
  }

  lemma EmptyRight(createdAt: Tenant -> Moment, budget: nat)
    ensures StateRight(Empty(createdAt, budget))
  {
  }

  // --- Is `processed` final? --------------------------------------------------------------------

  /** The unguarded marks: a second worker on the event parks it after the first one finished. */
  predicate Unmarks(s: State, step: Step, e: EventId)
    requires e in s.rows
  {
    match step
    case Work(worker, _) =>
      worker in s.workers && s.workers[worker].event == e
      && (s.rows[e].payload.None? || (s.workers[worker].park && s.workers[worker].change >= |s.rows[e].payload.value|))
    case Fault(worker) =>
      worker in s.workers && s.workers[worker].event == e && s.workers[worker].attempts >= s.budget
    case _ => false
  }

  /** A processed event stops being processed exactly when another worker that had claimed it parks it. */
  lemma ProcessedLostExactly(s: State, step: Step, e: EventId)
    requires e in s.rows && s.rows[e].status == Processed
    ensures e in Next(s, step).rows && (Next(s, step).rows[e].status != Processed <==> Unmarks(s, step, e))
  {
    if step.Work? {
      WorkMarks(s, step.worker, step.dies);
    }
  }

  /** It happens: two claims, one finish, one fault, and the event is parked, replayed and claimed a third time. */
  lemma ProcessedIsNotFinal(createdAt: Tenant -> Moment, now: nat)
    ensures var s := Next(Next(Next(Empty(createdAt, 1), Deliver(1, 5, Some([]), now)), Claim(1, 1)), Claim(2, 1));
            var finished := Next(s, Work(1, false));
            var parked := Next(finished, Fault(2));
            var again := Next(Next(parked, Replay(1)), Claim(3, 1));
            && StateRight(Empty(createdAt, 1))
            && finished.rows[1].status == Processed
            && parked.rows[1].status == Parked
            && 3 in again.workers && again.rows[1].status == Processing
  {
    EmptyRight(createdAt, 1);
    var stored := Next(Empty(createdAt, 1), Deliver(1, 5, Some([]), now));
    assert stored.rows == map[1 := Row(5, Some([]), now, Received, 0)];
    var s := Next(Next(stored, Claim(1, 1)), Claim(2, 1));
    assert s.workers == map[1 := Worker(1, 1, 0, 0, None, false), 2 := Worker(1, 2, 0, 0, None, false)];
    var finished := Next(s, Work(1, false));
    assert finished.workers == map[2 := Worker(1, 2, 0, 0, None, false)];
    var parked := Next(finished, Fault(2));
    assert parked.workers == map[];
  }

  predicate Settled(s: State, e: EventId) {
    e in s.rows && s.rows[e].status == Processed
    && forall worker :: worker in s.workers ==> s.workers[worker].event != e
  }

  lemma NextKeepsSettled(s: State, step: Step, e: EventId)
    requires Settled(s, e)
    ensures Settled(Next(s, step), e)
  {
    forall worker | worker in Next(s, step).workers
      ensures Next(s, step).workers[worker].event != e
    {
      WorkersMove(s, step, worker);
    }
    ProcessedLostExactly(s, step, e);
  }

  /** Once processed with no worker still holding it, an event is processed for ever and never claimed again. */
  lemma {:induction false} SettledForEver(s: State, steps: seq<Step>, e: EventId)
    requires Settled(s, e)
    ensures Settled(Run(s, steps), e)
  {
    if steps == [] {
    } else {
      SettledForEver(s, steps[..|steps| - 1], e);
      NextKeepsSettled(Run(s, steps[..|steps| - 1]), steps[|steps| - 1], e);
    }
  }

  // --- Nothing stored is beyond recovery --------------------------------------------------------

  predicate Fine(i: Item) { Ignored(i) || Attributable(i) }

  predicate AllFine(items: seq<Item>) { forall k | 0 <= k < |items| :: Fine(items[k]) }

  /** Nothing about this change forces the event to be parked, as numbers and tenants now stand. */
  predicate Deliverable(s: State, c: Change) {
    match c
    case OtherField => true
    case Unreadable => false
    case Messages(phone, items) => phone in s.accounts && s.accounts[phone].tenant in s.activeTenants && AllFine(items)
  }

  predicate AllDeliverable(s: State, changes: seq<Change>, from: nat) {
    forall k | from <= k < |changes| :: Deliverable(s, changes[k])
  }

  predicate Smooth(s: State, changes: seq<Change>, w: Worker) {
    && !w.park
    && (w.account.Some? ==>
          w.change < |changes| && changes[w.change].Messages? && w.account.value.tenant in s.activeTenants
          && AllFine(changes[w.change].items) && AllDeliverable(s, changes, w.change + 1))
    && (w.account.None? ==> AllDeliverable(s, changes, w.change))
  }

  function Cost(c: Change): nat { if c.Messages? then |c.items| + 2 else 1 }

  function CostFrom(changes: seq<Change>, k: nat): nat
    decreases |changes| - k
  {
    if k >= |changes| then 0 else Cost(changes[k]) + CostFrom(changes, k + 1)
  }

  function Remaining(changes: seq<Change>, w: Worker): int {
    if w.account.Some? && w.change < |changes| && changes[w.change].Messages?
    then |changes[w.change].items| - w.item + 1 + CostFrom(changes, w.change + 1)
    else CostFrom(changes, w.change)
  }

  /** What an undisturbed step of `w` to `v` must do: same event, strictly less left, and nothing wrong if nothing was. */
  ghost predicate Forward(s: State, t: State, changes: seq<Change>, w: Worker, v: Worker) {
    && v.event == w.event
    && t.rows == s.rows && t.accounts == s.accounts && t.activeTenants == s.activeTenants
    && 0 <= Remaining(changes, v) < Remaining(changes, w)
    && (Smooth(s, changes, w) ==> Smooth(t, changes, v))
  }

  lemma {:induction false} ChangeProgress(s: State, worker: WorkerId, w: Worker, changes: seq<Change>)
    requires PlaceRight(s.db, changes, w) && w.account.None? && w.change < |changes|
    ensures var t := WorkChange(s, worker, w, changes[w.change]);
            worker in t.workers && Forward(s, t, changes, w, t.workers[worker])
  {
    assert CostFrom(changes, w.change) == Cost(changes[w.change]) + CostFrom(changes, w.change + 1);
    assert Smooth(s, changes, w) ==> Deliverable(s, changes[w.change]);
  }

  /** Where an item's step leaves the worker, and what it cannot touch. */
  lemma {:induction false} ItemStep(s: State, worker: WorkerId, w: Worker, account: Account, i: Item)
    ensures var t := WorkItem(s, worker, w, account, i, false);
            && t.rows == s.rows && t.accounts == s.accounts && t.activeTenants == s.activeTenants
            && worker in t.workers
            && t.workers[worker] == (if !Ignored(i) && Attributable(i) && account.tenant !in s.activeTenants then NextChange(w, true)
                                     else NextItem(w, !Fine(i)))
  {
    if !Ignored(i) && Attributable(i) && account.tenant in s.activeTenants {
      var db := Applied(s.db, account, i, BillingFor(s, account.tenant, i.at), false);
      assert WorkItem(s, worker, w, account, i, false) == Put(s.(db := db), worker, NextItem(w, false));
    }
  }

  lemma {:induction false} ItemProgress(s: State, worker: WorkerId, w: Worker, changes: seq<Change>)
    requires PlaceRight(s.db, changes, w) && w.account.Some? && w.item < |changes[w.change].items|
    ensures var t := WorkItem(s, worker, w, w.account.value, changes[w.change].items[w.item], false);
            worker in t.workers && Forward(s, t, changes, w, t.workers[worker])
  {
    var i := changes[w.change].items[w.item];
    ItemStep(s, worker, w, w.account.value, i);
    if Smooth(s, changes, w) {
      assert Fine(i);
      SmoothStays(s, WorkItem(s, worker, w, w.account.value, i, false), changes, NextItem(w, false));
    }
  }

  /** Only numbers, tenants and the payload say whether the rest is smooth. */
  lemma {:induction false} SmoothStays(s: State, t: State, changes: seq<Change>, w: Worker)
    requires t.accounts == s.accounts && t.activeTenants == s.activeTenants && Smooth(s, changes, w)
    ensures Smooth(t, changes, w)
  {
    forall k | 0 <= k < |changes| && Deliverable(s, changes[k])
      ensures Deliverable(t, changes[k])
    {
    }
  }

  /** An undisturbed step moves the worker strictly forward, and keeps it off the park list if nothing is wrong. */
  lemma {:induction false} Progress(s: State, worker: WorkerId, changes: seq<Change>)
    requires worker in s.workers && s.workers[worker].event in s.rows
    requires s.rows[s.workers[worker].event].payload == Some(changes)
    requires PlaceRight(s.db, changes, s.workers[worker]) && s.workers[worker].change < |changes|
    ensures var t := WorkStep(s, worker, false);
            worker in t.workers && Forward(s, t, changes, s.workers[worker], t.workers[worker])
  {
    var w := s.workers[worker];
    if w.account.None? {
      ChangeProgress(s, worker, w, changes);
    } else if w.item < |changes[w.change].items| {
      ItemProgress(s, worker, w, changes);
    }
  }

  lemma {:induction false} RunCons(s: State, step: Step, rest: seq<Step>)
    ensures Run(s, [step] + rest) == Run(Next(s, step), rest)
  {
    RunPlus(s, [], step);
    assert [] + [step] == [step];
    RunAppend(s, [step], rest);
  }

  lemma {:induction false} Finish(s: State, worker: WorkerId) returns (steps: seq<Step>)
    requires StateRight(s) && worker in s.workers && s.workers[worker].event in s.rows
    ensures var e := s.workers[worker].event;
            var t := Run(s, steps);
            && e in t.rows && (t.rows[e].status == Processed || t.rows[e].status == Parked)
            && (s.rows[e].payload.Some? && Smooth(s, s.rows[e].payload.value, s.workers[worker]) ==> t.rows[e].status == Processed)
    decreases if s.rows[s.workers[worker].event].payload.Some?
              then Remaining(s.rows[s.workers[worker].event].payload.value, s.workers[worker]) else 0
  {
    var w := s.workers[worker];
    var step := Work(worker, false);
    var t := Next(s, step);
    assert WorkerRight(s, w);
    if s.rows[w.event].payload.None? || w.change >= |s.rows[w.event].payload.value| {
      steps := [step];
      RunCons(s, step, []);
      assert [step] + [] == [step];
    } else {
      Progress(s, worker, s.rows[w.event].payload.value);
      NextKeepsRight(s, step);
      var rest := Finish(t, worker);
      RunCons(s, step, rest);
      steps := [step] + rest;
    }
  }

  /**
   From any reachable state any stored event can be brought to an end by one free worker: replayed if it
   is parked, claimed, and worked through. It ends `processed` whenever its numbers are connected, its
   tenants active and its contacts usable, however it was lost, crashed or parked before.
   */
  lemma {:induction false} Recoverable(s: State, e: EventId, worker: WorkerId) returns (steps: seq<Step>)
    requires StateRight(s) && e in s.rows && worker !in s.workers
    ensures var t := Run(s, steps);
            && e in t.rows && (t.rows[e].status == Processed || t.rows[e].status == Parked)
            && (s.rows[e].payload.Some? && AllDeliverable(s, s.rows[e].payload.value, 0) ==> t.rows[e].status == Processed)
  {
    steps := [];
    if s.rows[e].status == Parked {
      NextKeepsRight(s, Replay(e));
      var rest := ClaimAndFinish(Next(s, Replay(e)), e, worker);
      RunCons(s, Replay(e), rest);
      steps := [Replay(e)] + rest;
    } else if Claimable(s.rows[e]) {
      steps := ClaimAndFinish(s, e, worker);
    }
  }

  lemma {:induction false} ClaimAndFinish(s: State, e: EventId, worker: WorkerId) returns (steps: seq<Step>)
    requires StateRight(s) && e in s.rows && worker !in s.workers && Claimable(s.rows[e])
    ensures var t := Run(s, steps);
            && e in t.rows && (t.rows[e].status == Processed || t.rows[e].status == Parked)
            && (s.rows[e].payload.Some? && AllDeliverable(s, s.rows[e].payload.value, 0) ==> t.rows[e].status == Processed)
  {
    var claimed := Next(s, Claim(worker, e));
    NextKeepsRight(s, Claim(worker, e));
    if s.rows[e].payload.Some? && AllDeliverable(s, s.rows[e].payload.value, 0) {
      var changes := s.rows[e].payload.value;
      forall k | 0 <= k < |changes|
        ensures Deliverable(claimed, changes[k])
      {
        assert Deliverable(s, changes[k]);
      }
    }
    var rest := Finish(claimed, worker);
    RunCons(s, Claim(worker, e), rest);
    steps := [Claim(worker, e)] + rest;
  }

  // --- The sweep --------------------------------------------------------------------------------

  const SWEEP_BATCH_SIZE: nat := 200

  predicate Stale(rows: map<EventId, Row>, before: int, e: EventId) {
    e in rows && Claimable(rows[e]) && rows[e].receivedAt < before
  }

  /** `WHERE status IN ('received', 'processing') AND received_at < before ORDER BY received_at`. */
  ghost predicate IsStaleListing(rows: map<EventId, Row>, before: int, listing: seq<EventId>) {
    && (forall e :: e in listing <==> Stale(rows, before, e))
    && (forall j, k :: 0 <= j < k < |listing| ==>
          listing[j] in rows && listing[k] in rows && rows[listing[j]].receivedAt <= rows[listing[k]].receivedAt)
  }

  function Swept(listing: seq<EventId>): seq<EventId> {
    if |listing| <= SWEEP_BATCH_SIZE then listing else listing[..SWEEP_BATCH_SIZE]
  }

  /**
   A sweep re-enqueues exactly what a claim would take: a stale event is in it, or it is full and every
   event in it arrived no later. Nothing processed or parked is ever in it.
   */
  lemma {:induction false} SweepTakesTheOldest(rows: map<EventId, Row>, before: int, listing: seq<EventId>, e: EventId)
    requires IsStaleListing(rows, before, listing)
    ensures e in Swept(listing) ==> Stale(rows, before, e)
    ensures Stale(rows, before, e) && e !in Swept(listing) ==>
              |Swept(listing)| == SWEEP_BATCH_SIZE
              && forall k :: 0 <= k < SWEEP_BATCH_SIZE ==>
                   Swept(listing)[k] in rows && rows[Swept(listing)[k]].receivedAt <= rows[e].receivedAt
  {
  }
}
