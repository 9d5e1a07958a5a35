/**
 Inbound webhooks as a state machine: store, then enqueue; claim; apply item by item; mark, park,
 sweep, replay. A worker may die between any two transactions, a job may be lost or run twice, and two
 workers may hold one event.

 The queue itself is absent: a claim may happen for any stored event at any time, which covers every
 order a lossy, duplicating queue and the sweeper can produce.
 */
module Ingestion {
  import opened Common
  import opened UsagePeriod
  import Usage
  import Ladder = MessageStatus

  type Tenant = Usage.Tenant
  type EventId = nat
  type WorkerId = nat

  datatype Account = Account(tenant: Tenant, id: nat)

  /** One message or status update. A contact is `None` when the `wa_id` is not an E.164 number. */
  datatype Item =
    | Inbound(from: Option<nat>, id: nat, at: Moment)
    | Receipt(to: Option<nat>, id: nat, status: Option<Ladder.Status>, at: Moment)

  datatype Change = OtherField | Unreadable | Messages(phone: nat, items: seq<Item>)

  datatype EventStatus = Received | Processing | Processed | Parked

  /** A `webhook_events` row. `digest` is the provider event id; `payload` is `None` when no schema fits it. */
  datatype Row = Row(digest: nat, payload: Option<seq<Change>>, receivedAt: nat, status: EventStatus, attempts: nat)

  datatype ThreadKey = ThreadKey(account: Account, contact: nat)

  /**
   A conversation row. `cleared`, `openedAt`, `byReceipt`, `metered` and `ordinal` are its history: how many
   unread messages agents have cleared, the delivery that opened it, the period its opening was counted in
   and the total that made. `windowFrom` is the message the 24-hour service window runs from.
   */
  datatype Thread = Thread(
    lastMessageAt: Instant,
    windowFrom: Option<Instant>,
    unread: nat,
    cleared: nat,
    openedAt: Moment,
    byReceipt: bool,
    metered: Period,
    ordinal: nat)

  datatype MessageKey = MessageKey(tenant: Tenant, id: nat)

  /** `status` is `None` for an inbound message, which is `received` for ever. */
  datatype Message = Message(thread: ThreadKey, status: Option<Ladder.Status>, at: Moment)

  /** A worker's position in its event's payload, and whether anything so far means the event must be parked. */
  datatype Worker = Worker(event: EventId, attempts: nat, change: nat, item: nat, account: Option<Account>, park: bool)

  /**
   Tenant rows, and what has been emitted about them: messages, linker triggers, and the threads whose
   opening's total was announced to billing, with the allowance it was announced against. `bound` is
   history: every account a number was connected to.
   */
  datatype Db = Db(
    threads: map<ThreadKey, Thread>,
    messages: map<MessageKey, Message>,
    counters: Usage.Rows,
    announced: multiset<MessageKey>,
    triggered: set<MessageKey>,
    volumes: map<ThreadKey, nat>,
    bound: set<(nat, Account)>)

  datatype State = State(
    db: Db,
    rows: map<EventId, Row>,
    accounts: map<nat, Account>,
    activeTenants: set<Tenant>,
    workers: map<WorkerId, Worker>,
    createdAt: Tenant -> Moment,
    subscriptions: map<Tenant, Period>,
    caps: map<Tenant, nat>,
    budget: nat)

  // --- Transactions on tenant rows --------------------------------------------------------------

  function MeterKey(t: Tenant, start: Instant): Usage.Key { Usage.Key(t, Usage.ConversationsOpened, start) }

  /** `INSERT ... ON CONFLICT DO NOTHING` of the conversation, with its increment in the same transaction. */
  function OpenThread(db: Db, key: ThreadKey, at: Moment, byReceipt: bool, resolved: Period): Db {
    if key in db.threads then db
    else
      db.(threads := db.threads[key := 
             Thread(at, if byReceipt then None else Some(at), 0, 0, at, byReceipt, resolved,
                    Usage.ValueAt(db.counters, MeterKey(key.account.tenant, resolved.start)) + 1)],
          counters := Usage.Incremented(db.counters, MeterKey(key.account.tenant, resolved.start), resolved.end, 1))
  }

  function Advanced(t: Thread, at: Moment): Thread {
    var counted := t.(unread := t.unread + 1);
    if Earlier(t.lastMessageAt, at) then counted.(lastMessageAt := at, windowFrom := Some(at)) else counted
  }

  /** A newly stored inbound message: its row, one more unread, and the forward-only high-water marks. */
  function StoreInbound(db: Db, key: ThreadKey, mk: MessageKey, at: Moment): Db
    requires key in db.threads
  {
    db.(messages := db.messages[mk := Message(key, None, at)],
        threads := db.threads[key := Advanced(db.threads[key], at)])
  }

  function StoreReceipt(db: Db, key: ThreadKey, mk: MessageKey, status: Ladder.Status, at: Moment): Db {
    db.(messages := db.messages[mk := Message(key, Some(status), at)])
  }

  /** The guarded status UPDATE; an inbound message matches no rung of the ladder. */
  function ClimbStatus(db: Db, mk: MessageKey, status: Ladder.Status): Db
    requires mk in db.messages
  {
    var m := db.messages[mk];
    if m.status.None? then db
    else db.(messages := db.messages[mk := m.(status := Some(Ladder.Advanced(m.status.value, status)))])
  }

  function ApplyInbound(db: Db, key: ThreadKey, id: nat, at: Moment, resolved: Period): Db {
    var mk := MessageKey(key.account.tenant, id);
    var threaded := OpenThread(db, key, at, false, resolved);
    if mk in db.messages then threaded else StoreInbound(threaded, key, mk, at)
  }

  function ApplyReceipt(db: Db, key: ThreadKey, id: nat, status: Ladder.Status, at: Moment, resolved: Period): Db {
    var mk := MessageKey(key.account.tenant, id);
    if mk in db.messages then ClimbStatus(db, mk, status)
    else StoreReceipt(OpenThread(db, key, at, true, resolved), key, mk, status, at)
  }

  /** The total is announced when an inbound message the transaction was the first to write opened the thread. */
  predicate AnnouncesVolume(before: Db, key: ThreadKey, mk: MessageKey, inbound: bool) {
    inbound && mk !in before.messages && key !in before.threads
  }

  /** What billing says as a transaction asks: the period an opening is metered in, and the allowance if there is one. */
  datatype Billing = Billing(period: Period, cap: Option<nat>)

  /**
   After the commit: announce a message this transaction was the first to write, announce the total of a
   thread it opened for one if there is an allowance to measure it against, and trigger the linker every time.
   */
  function Emit(before: Db, after: Db, key: ThreadKey, mk: MessageKey, inbound: bool, cap: Option<nat>): Db {
    after.(announced := if mk in before.messages then after.announced else after.announced + multiset{mk},
           triggered := if inbound then after.triggered + {mk} else after.triggered,
           volumes := if AnnouncesVolume(before, key, mk, inbound) && cap.Some? then after.volumes[key := cap.value]
                      else after.volumes)
  }

  function MarkedRead(db: Db, key: ThreadKey): Db {
    if key !in db.threads then db
    else
      var t := db.threads[key];
      db.(threads := db.threads[key := t.(unread := 0, cleared := t.cleared + t.unread)])
  }

  // --- Steps ------------------------------------------------------------------------------------

  datatype Step =
    | Deliver(event: EventId, digest: nat, payload: Option<seq<Change>>, now: nat)
    | Claim(worker: WorkerId, event: EventId)
    /** The worker's next action. `dies` loses the process after the commit, before anything is emitted. */
    | Work(worker: WorkerId, dies: bool)
    /** A fault: parked once the budget is spent, else left for a retry. */
    | Fault(worker: WorkerId)
    | Crash(worker: WorkerId)
    | Replay(event: EventId)
    | MarkRead(thread: ThreadKey)
    | SetAccount(phone: nat, account: Option<Account>)
    | SetActive(tenant: Tenant, isActive: bool)
    /** Billing writes the subscription's period, or clears it. */
    | SetSubscription(tenant: Tenant, period: Option<Period>)
    /** And the plan's conversation allowance. */
    | SetCap(tenant: Tenant, cap: Option<nat>)

  predicate Claimable(r: Row) { r.status == Received || r.status == Processing }

  function WithStatus(s: State, event: EventId, status: EventStatus): State
    requires event in s.rows
  {
    s.(rows := s.rows[event := s.rows[event].(status := status)])
  }

  function Without(s: State, worker: WorkerId): State { s.(workers := s.workers - {worker}) }

  function Put(s: State, worker: WorkerId, w: Worker): State { s.(workers := s.workers[worker := w]) }

  function NextChange(w: Worker, park: bool): Worker {
    w.(change := w.change + 1, item := 0, account := None, park := w.park || park)
  }

  function NextItem(w: Worker, park: bool): Worker { w.(item := w.item + 1, park := w.park || park) }

  /** Nothing to apply and nothing wrong: a provider status this product does not model. */
  predicate Ignored(i: Item) { i.Receipt? && i.status.None? }

  predicate Attributable(i: Item) { if i.Inbound? then i.from.Some? else i.to.Some? }

  function ItemKey(account: Account, i: Item): MessageKey { MessageKey(account.tenant, i.id) }

  function ItemThread(account: Account, i: Item): ThreadKey
    requires Attributable(i)
  {
    ThreadKey(account, if i.Inbound? then i.from.value else i.to.value)
  }

  /** The period an opening at `at` is metered in: resolved by the event's own time, on billing as it then stands. */
  function PeriodFor(s: State, t: Tenant, at: Moment): Period {
    Resolve(if t in s.subscriptions then Some(s.subscriptions[t]) else None, s.createdAt(t), at)
  }

  /** Absent, and anything that is not positive, is no ceiling. */
  function CapOf(s: State, t: Tenant): Option<nat> {
    if t in s.caps && s.caps[t] > 0 then Some(s.caps[t]) else None
  }

  function BillingFor(s: State, t: Tenant, at: Moment): Billing { Billing(PeriodFor(s, t, at), CapOf(s, t)) }

  function ApplyItem(db: Db, account: Account, i: Item, resolved: Period): Db
    requires Attributable(i) && !Ignored(i)
  {
    match i
    case Inbound(from, id, at) => ApplyInbound(db, ThreadKey(account, from.value), id, at, resolved)
    case Receipt(to, id, status, at) => ApplyReceipt(db, ThreadKey(account, to.value), id, status.value, at, resolved)
  }

  /** The item's transaction, and what is emitted after it unless the process dies first. */
  function Applied(db: Db, account: Account, i: Item, billing: Billing, dies: bool): Db
    requires Attributable(i) && !Ignored(i)
  {
    var after := ApplyItem(db, account, i, billing.period);
    if dies then after else Emit(db, after, ItemThread(account, i), ItemKey(account, i), i.Inbound?, billing.cap)
  }

  function WorkItem(s: State, worker: WorkerId, w: Worker, account: Account, i: Item, dies: bool): State {
    if Ignored(i) then Put(s, worker, NextItem(w, false))
    else if !Attributable(i) then Put(s, worker, NextItem(w, true))
    else if account.tenant !in s.activeTenants then Put(s, worker, NextChange(w, true))
    else
      var t := s.(db := Applied(s.db, account, i, BillingFor(s, account.tenant, i.at), dies));
      if dies then Without(t, worker) else Put(t, worker, NextItem(w, false))
  }

  function WorkChange(s: State, worker: WorkerId, w: Worker, c: Change): State {
    match c
    case OtherField => Put(s, worker, NextChange(w, false))
    case Unreadable => Put(s, worker, NextChange(w, true))
    case Messages(phone, _) =>
      if phone in s.accounts then Put(s, worker, w.(account := Some(s.accounts[phone])))
      else Put(s, worker, NextChange(w, true))
  }

  function WorkStep(s: State, worker: WorkerId, dies: bool): State {
    if worker !in s.workers || s.workers[worker].event !in s.rows then s
    else
      var w := s.workers[worker];
      match s.rows[w.event].payload
      case None => Without(WithStatus(s, w.event, Parked), worker)
      case Some(changes) =>
        if w.change >= |changes| then Without(WithStatus(s, w.event, if w.park then Parked else Processed), worker)
        else if w.account.None? || !changes[w.change].Messages? then WorkChange(s, worker, w, changes[w.change])
        else if w.item >= |changes[w.change].items| then Put(s, worker, NextChange(w, false))
        else WorkItem(s, worker, w, w.account.value, changes[w.change].items[w.item], dies)
  }

  function Next(s: State, step: Step): State {
    match step
    case Deliver(event, digest, payload, now) =>
      if event in s.rows || exists e | e in s.rows :: s.rows[e].digest == digest then s
      else s.(rows := s.rows[event := Row(digest, payload, now, Received, 0)])
    case Claim(worker, event) =>
      if worker in s.workers || event !in s.rows || !Claimable(s.rows[event]) then s
      else
        var row := s.rows[event].(status := Processing, attempts := s.rows[event].attempts + 1);
        Put(s.(rows := s.rows[event := row]), worker, Worker(event, row.attempts, 0, 0, None, false))
    case Work(worker, dies) => WorkStep(s, worker, dies)
    case Fault(worker) =>
      if worker !in s.workers || s.workers[worker].event !in s.rows then s
      else if s.workers[worker].attempts >= s.budget then Without(WithStatus(s, s.workers[worker].event, Parked), worker)
      else Without(s, worker)
    case Crash(worker) => Without(s, worker)
    case Replay(event) =>
      if event !in s.rows || s.rows[event].status != Parked then s
      else s.(rows := s.rows[event := s.rows[event].(status := Received, attempts := 0)])
    case MarkRead(key) => s.(db := MarkedRead(s.db, key))
    case SetAccount(phone, None) => s.(accounts := s.accounts - {phone})
    case SetAccount(phone, Some(account)) =>
      s.(accounts := s.accounts[phone := account], db := s.db.(bound := s.db.bound + {(phone, account)}))
    case SetActive(tenant, isActive) =>
      s.(activeTenants := if isActive then s.activeTenants + {tenant} else s.activeTenants - {tenant})
    case SetSubscription(tenant, period) =>
      s.(subscriptions := if period.Some? then s.subscriptions[tenant := period.value] else s.subscriptions - {tenant})
    case SetCap(tenant, cap) => s.(caps := if cap.Some? then s.caps[tenant := cap.value] else s.caps - {tenant})
  }

  function Run(s: State, steps: seq<Step>): State {
    if steps == [] then s else Next(Run(s, steps[..|steps| - 1]), steps[|steps| - 1])
  }

  lemma RunPlus(s: State, steps: seq<Step>, last: Step)
    ensures Run(s, steps + [last]) == Next(Run(s, steps), last)
  {
    assert (steps + [last])[..|steps|] == steps;
  }

  lemma {:induction false} RunAppend(s: State, a: seq<Step>, b: seq<Step>)
    ensures Run(s, a + b) == Run(Run(s, a), b)
  {
    if b == [] {
      assert a + b == a;
    } else {
      var rest, last := b[..|b| - 1], b[|b| - 1];
      RunAppend(s, a, rest);
      RunPlus(s, a + rest, last);
      assert a + b == (a + rest) + [last];
    }
  }

  const NO_ROWS: Db := Db(map[], map[], map[], multiset{}, {}, map[], {})

  function Empty(createdAt: Tenant -> Moment, budget: nat): State {
    State(NO_ROWS, map[], map[], {}, map[], createdAt, map[], map[], budget)
  }

  // --- What every step keeps --------------------------------------------------------------------

  /** The one thing a step may do to tenant rows. */
  datatype Effect =
    | NoEffect
    | ItemApplied(account: Account, i: Item, billing: Billing, dies: bool)
    | Cleared(thread: ThreadKey)
    | Connected(phone: nat, to: Account)

  predicate IsEffect(e: Effect) { e.ItemApplied? ==> Attributable(e.i) && !Ignored(e.i) }

  function DbAfter(db: Db, e: Effect): Db
    requires IsEffect(e)
  {
    match e
    case NoEffect => db
    case ItemApplied(account, i, billing, dies) => Applied(db, account, i, billing, dies)
    case Cleared(thread) => MarkedRead(db, thread)
    case Connected(phone, account) => db.(bound := db.bound + {(phone, account)})
  }

  lemma WorkEffect(s: State, worker: WorkerId, dies: bool) returns (e: Effect)
    ensures IsEffect(e) && WorkStep(s, worker, dies).db == DbAfter(s.db, e) && (e.NoEffect? || e.ItemApplied?)
    ensures e.ItemApplied? ==> e.billing == BillingFor(s, e.account.tenant, e.i.at) && e.dies == dies
  {
    e := NoEffect;
    if worker in s.workers && s.workers[worker].event in s.rows {
      var w := s.workers[worker];
      var payload := s.rows[w.event].payload;
      if payload.Some? && w.change < |payload.value| && payload.value[w.change].Messages? && w.account.Some?
         && w.item < |payload.value[w.change].items| {
        var i := payload.value[w.change].items[w.item];
        if Attributable(i) && !Ignored(i) && w.account.value.tenant in s.activeTenants {
          e := ItemApplied(w.account.value, i, BillingFor(s, w.account.value.tenant, i.at), dies);
        }
      }
    }
  }

  lemma EffectOf(s: State, step: Step) returns (e: Effect)
    ensures IsEffect(e) && Next(s, step).db == DbAfter(s.db, e)
    ensures e.ItemApplied? ==> step.Work? && e.billing == BillingFor(s, e.account.tenant, e.i.at) && e.dies == step.dies
  {
    e := NoEffect;
    if step.MarkRead? {
      e := Cleared(step.thread);
    } else if step.SetAccount? && step.account.Some? {
      e := Connected(step.phone, step.account.value);
    } else if step.Work? {
      e := WorkEffect(s, step.worker, step.dies);
    }
  }

  /** An acknowledged delivery stays stored, with the bytes it came with. */
  ghost predicate RowsKept(s: State, t: State) {
    forall e :: e in s.rows ==>
      (e in t.rows && t.rows[e] == s.rows[e].(status := t.rows[e].status, attempts := t.rows[e].attempts))
  }

  /** A message and a thread, once written, stay where they are; a delivery status only climbs. */
  ghost predicate DbKept(a: Db, b: Db) {
    && (forall mk :: mk in a.messages ==> mk in b.messages && MessageKept(a.messages[mk], b.messages[mk]))
    && (forall key :: key in a.threads ==> key in b.threads && ThreadKept(a.threads[key], b.threads[key]))
    && a.triggered <= b.triggered && a.bound <= b.bound
  }

  predicate MessageKept(a: Message, b: Message) {
    a.thread == b.thread && a.at == b.at && (a.status.None? <==> b.status.None?)
    && (a.status.Some? ==> Ladder.Rank(a.status.value) <= Ladder.Rank(b.status.value))
  }

  predicate ThreadKept(a: Thread, b: Thread) {
    a.openedAt == b.openedAt && a.byReceipt == b.byReceipt && a.metered == b.metered && a.ordinal == b.ordinal
    && !Earlier(b.lastMessageAt, a.lastMessageAt) && a.cleared <= b.cleared
  }

  lemma OpenKeeps(db: Db, key: ThreadKey, at: Moment, byReceipt: bool, resolved: Period)
    ensures DbKept(db, OpenThread(db, key, at, byReceipt, resolved))
  {
  }

  lemma InboundKeeps(db: Db, key: ThreadKey, id: nat, at: Moment, resolved: Period)
    ensures DbKept(db, ApplyInbound(db, key, id, at, resolved))
  {
    OpenKeeps(db, key, at, false, resolved);
  }

  lemma ClimbKeeps(db: Db, mk: MessageKey, status: Ladder.Status)
    requires mk in db.messages
    ensures DbKept(db, ClimbStatus(db, mk, status))
  {
  }

  lemma ReceiptKeeps(db: Db, key: ThreadKey, id: nat, status: Ladder.Status, at: Moment, resolved: Period)
    ensures DbKept(db, ApplyReceipt(db, key, id, status, at, resolved))
  {
    var mk := MessageKey(key.account.tenant, id);
    if mk in db.messages {
      ClimbKeeps(db, mk, status);
    } else {
      OpenKeeps(db, key, at, true, resolved);
    }
  }

  lemma EmitKeeps(db: Db, before: Db, after: Db, key: ThreadKey, mk: MessageKey, inbound: bool, cap: Option<nat>)
    requires DbKept(db, after)
    ensures DbKept(db, Emit(before, after, key, mk, inbound, cap))
  {
  }

  lemma EffectKeeps(db: Db, e: Effect)
    requires IsEffect(e)
    ensures DbKept(db, DbAfter(db, e))
  {
    match e
    case NoEffect =>
    case Cleared(_) =>
    case Connected(_, _) =>
    case ItemApplied(account, i, billing, dies) =>
      match i {
        case Inbound(from, id, at) => InboundKeeps(db, ThreadKey(account, from.value), id, at, billing.period);
        case Receipt(to, id, status, at) => ReceiptKeeps(db, ThreadKey(account, to.value), id, status.value, at, billing.period);
      }
      EmitKeeps(db, db, ApplyItem(db, account, i, billing.period), ItemThread(account, i), ItemKey(account, i), i.Inbound?, billing.cap);
  }

  /** What an item or a change does to workers and tenant rows, it does without touching an event. */
  lemma ItemKeepsRows(s: State, worker: WorkerId, w: Worker, account: Account, i: Item, dies: bool)
    ensures WorkItem(s, worker, w, account, i, dies).rows == s.rows
  {
  }

  lemma ChangeKeepsRows(s: State, worker: WorkerId, w: Worker, c: Change)
    ensures WorkChange(s, worker, w, c).rows == s.rows
  {
  }

  /** A worker's step marks its own event, and only at the end of its payload. */
  lemma WorkMarks(s: State, worker: WorkerId, dies: bool)
    ensures var t := WorkStep(s, worker, dies);
            if worker in s.workers && s.workers[worker].event in s.rows
               && (s.rows[s.workers[worker].event].payload.None?
                   || s.workers[worker].change >= |s.rows[s.workers[worker].event].payload.value|)
            then
              var (w, e) := (s.workers[worker], s.workers[worker].event);
              t.db == s.db
              && t.rows == s.rows[e := s.rows[e].(status := if s.rows[e].payload.None? || w.park then Parked else Processed)]
            else t.rows == s.rows
  {
    if worker in s.workers && s.workers[worker].event in s.rows && s.rows[s.workers[worker].event].payload.Some? {
      var w, changes := s.workers[worker], s.rows[s.workers[worker].event].payload.value;
      if w.change < |changes| {
        ChangeKeepsRows(s, worker, w, changes[w.change]);
        if w.account.Some? && changes[w.change].Messages? && w.item < |changes[w.change].items| {
          ItemKeepsRows(s, worker, w, w.account.value, changes[w.change].items[w.item], dies);
        }
      }
    }
  }

  lemma NextKeepsRows(s: State, step: Step)
    ensures RowsKept(s, Next(s, step))
  {
    if step.Work? {
      WorkMarks(s, step.worker, step.dies);
    }
  }

  lemma NextKeeps(s: State, step: Step)
    ensures RowsKept(s, Next(s, step)) && DbKept(s.db, Next(s, step).db)
  {
    NextKeepsRows(s, step);
    var e := EffectOf(s, step);
    EffectKeeps(s.db, e);
  }

  lemma KeptTransitive(a: Db, b: Db, c: Db)
    requires DbKept(a, b) && DbKept(b, c)
    ensures DbKept(a, c)
  {
  }

  /** Nothing acknowledged is ever lost, in any run. */
  lemma {:induction false} RunKeeps(s: State, steps: seq<Step>)
    ensures RowsKept(s, Run(s, steps)) && DbKept(s.db, Run(s, steps).db)
  {
    if steps == [] {
    } else {
      var sofar := Run(s, steps[..|steps| - 1]);
      RunKeeps(s, steps[..|steps| - 1]);
      NextKeeps(sofar, steps[|steps| - 1]);
      KeptTransitive(s.db, sofar.db, Run(s, steps).db);
    }
  }
}
