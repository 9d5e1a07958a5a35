/**
 Ticket rows, their append-only event log, and every transaction that writes them.

 Each `Write` is one committed transaction together with whatever the writer had read beforehand.
 Nothing relates that reading to the row at commit time, so a run of writes is an arbitrary
 interleaving of linker workers, agents, workflows, routing jobs, bot turns and user removals.
 */
module Tickets {
  import opened Common

  type Id = nat

  // --- The published tables ---------------------------------------------------------------------

  datatype Status = Open | Pending | Resolved | Closed

  datatype Priority = Low | Normal | High | Urgent

  datatype RoutingState = Unrouted | Assigned | Deferred | Manual

  datatype DeferReason = AllAtCapacity | NoneAvailable | NoCandidatePool

  predicate IsActive(s: Status) { s == Open || s == Pending }

  function Transitions(from: Status): set<Status> {
    match from
    case Open => {Pending, Resolved, Closed}
    case Pending => {Open, Resolved, Closed}
    case Resolved => {Closed}
    case Closed => {}
  }

  predicate CanAgentTransition(from: Status, to: Status) { to in Transitions(from) }

  // --- Rows -------------------------------------------------------------------------------------

  datatype Ticket = Ticket(
    number: nat,
    contact: Option<Id>,
    conversation: Option<Id>,
    status: Status,
    priority: Priority,
    user: Option<Id>,
    team: Option<Id>,
    routing: RoutingState,
    deferredReason: Option<DeferReason>,
    deferredSince: Option<nat>)

  datatype Cause = ByAgent | ByInboundMessage | ByWorkflow

  datatype Event =
    | CreatedEvent
    | ConversationLinked(conversation: Id)
    | StatusChanged(from: Status, to: Status, cause: Cause)
    | PriorityChanged(fromPriority: Priority, toPriority: Priority)
    | AssignedEvent(fromUser: Option<Id>, fromTeam: Option<Id>, toUser: Option<Id>, toTeam: Option<Id>)
    | UnassignedEvent(fromUser: Option<Id>, fromTeam: Option<Id>)
    | Escalated(supervisor: Option<Id>)
    | AssignmentDeferred(reason: DeferReason)

  /** `log` holds one append-only sequence per ticket; `nextNumber` is the tenant's ticket counter. */
  datatype Db = Db(tickets: map<Id, Ticket>, log: map<Id, seq<Event>>, nextNumber: nat)

  const EMPTY: Db := Db(map[], map[], 1)

  function NewTicket(number: nat, contact: Id, conversation: Id): Ticket {
    Ticket(number, Some(contact), Some(conversation), Open, Normal, None, None, Unrouted, None, None)
  }

  // --- Writes -----------------------------------------------------------------------------------

  datatype Write =
    /** The linker's create statement: allocate a number, insert unless the contact holds an active ticket. */
    | LinkCreate(ticket: Id, contact: Id, conversation: Id)
    /** The linker's attach to a ticket it read as `pending`; `linked` when the message came by another conversation. */
    | LinkReopen(ticket: Id, linked: Option<Id>)
    /** The linker's attach to a ticket it read as `open`. */
    | LinkAttach(ticket: Id, linked: Option<Id>)
    /** `PATCH /tickets/{id}` and a workflow's status or priority action, from the row `seen`. */
    | Update(ticket: Id, seen: Ticket, status: Option<Status>, priority: Option<Priority>, cause: Cause)
    /** `POST /tickets/{id}/assign` and a workflow's assignment, from the row `seen`. */
    | Assign(ticket: Id, seen: Ticket, userField: Field, teamField: Field)
    | Escalate(ticket: Id, supervisor: Option<Id>)
    /** The router's compare-and-set, for a matched rule or rotation. */
    | RouteAssign(ticket: Id, user: Option<Id>, team: Option<Id>)
    | RouteDefer(ticket: Id, reason: DeferReason, now: nat)
    /** A bot reply pausing the SLA clock. Writes no event. */
    | BotPause(ticket: Id)
    /** A user removed from the tenant. Writes no ticket event. */
    | RemoveUser(removed: Id)

  /** A body field that leaves its column alone, or sets it (`Set(None)` clears it). */
  datatype Field = Absent | Set(value: Option<Id>)

  function FieldAfter(before: Option<Id>, f: Field): Option<Id> {
    match f
    case Absent => before
    case Set(v) => v
  }

  function Append(db: Db, id: Id, ticket: Ticket, events: seq<Event>): Db {
    db.(tickets := db.tickets[id := ticket],
        log := db.log[id := (if id in db.log then db.log[id] else []) + events])
  }

  predicate HoldsActive(db: Db, id: Id, contact: Id) {
    id in db.tickets && db.tickets[id].contact == Some(contact) && IsActive(db.tickets[id].status)
  }

  predicate HasActive(db: Db, contact: Id) {
    exists id :: id in db.tickets && HoldsActive(db, id, contact)
  }

  /** `ON CONFLICT (tenant_id, contact_id) WHERE status IN ('open', 'pending') DO NOTHING`. */
  function LinkCreateTx(db: Db, id: Id, contact: Id, conversation: Id): Db {
    if id in db.tickets then db
    else
      var counted := db.(nextNumber := db.nextNumber + 1);
      if HasActive(db, contact) then counted
      else Append(counted, id, NewTicket(db.nextNumber, contact, conversation), [CreatedEvent])
  }

  function LinkedEvents(linked: Option<Id>): seq<Event> {
    if linked.Some? then [ConversationLinked(linked.value)] else []
  }

  function LinkReopenTx(db: Db, id: Id, linked: Option<Id>): Db {
    if id !in db.tickets || db.tickets[id].status != Pending then db
    else Append(db, id, db.tickets[id].(status := Open),
                [StatusChanged(Pending, Open, ByInboundMessage)] + LinkedEvents(linked))
  }

  function LinkAttachTx(db: Db, id: Id, linked: Option<Id>): Db {
    if id !in db.tickets then db else Append(db, id, db.tickets[id], LinkedEvents(linked))
  }

  datatype UpdateOutcome = UpdateNoOp | UpdateRefused | UpdateConflict | UpdateApplied

  /** The part of a requested value that moves: absent and unchanged are the same. */
  function Moves<T(==)>(before: T, requested: Option<T>): Option<T> {
    if requested == Some(before) then None else requested
  }

  function UpdateDecision(db: Db, id: Id, seen: Ticket, status: Option<Status>, priority: Option<Priority>): UpdateOutcome {
    var toStatus, toPriority := Moves(seen.status, status), Moves(seen.priority, priority);
    if toStatus.Some? && !CanAgentTransition(seen.status, toStatus.value) then UpdateRefused
    else if toStatus.None? && toPriority.None? then UpdateNoOp
    else if id !in db.tickets || db.tickets[id].status != seen.status then UpdateConflict
    else UpdateApplied
  }

  function UpdatedRow(row: Ticket, seen: Ticket, status: Option<Status>, priority: Option<Priority>): Ticket {
    var toStatus, toPriority := Moves(seen.status, status), Moves(seen.priority, priority);
    row.(status := if toStatus.Some? then toStatus.value else row.status,
         priority := if toPriority.Some? then toPriority.value else row.priority)
  }

  function StatusEvents(seen: Ticket, status: Option<Status>, cause: Cause): seq<Event> {
    var to := Moves(seen.status, status);
    if to.Some? then [StatusChanged(seen.status, to.value, cause)] else []
  }

  function PriorityEvents(seen: Ticket, priority: Option<Priority>): seq<Event> {
    var to := Moves(seen.priority, priority);
    if to.Some? then [PriorityChanged(seen.priority, to.value)] else []
  }

  function UpdateTx(db: Db, id: Id, seen: Ticket, status: Option<Status>, priority: Option<Priority>, cause: Cause): Db {
    if UpdateDecision(db, id, seen, status, priority) != UpdateApplied then db
    else
      Append(db, id, UpdatedRow(db.tickets[id], seen, status, priority),
             StatusEvents(seen, status, cause) + PriorityEvents(seen, priority))
  }

  function RoutingStateFor(user: Option<Id>, team: Option<Id>): RoutingState {
    if user.Some? || team.Some? then Manual else Unrouted
  }

  predicate AssignMovesAnything(seen: Ticket, user: Option<Id>, team: Option<Id>) {
    seen.user != user || seen.team != team || seen.routing != RoutingStateFor(user, team)
    || seen.deferredReason.Some? || seen.deferredSince.Some?
  }

  /** No compare-and-set: the last assignment written wins. */
  function AssignTx(db: Db, id: Id, seen: Ticket, userField: Field, teamField: Field): Db {
    var user, team := FieldAfter(seen.user, userField), FieldAfter(seen.team, teamField);
    if id !in db.tickets || !AssignMovesAnything(seen, user, team) then db
    else
      Append(db, id,
             db.tickets[id].(user := user, team := team, routing := RoutingStateFor(user, team),
                             deferredReason := None, deferredSince := None),
             [if user.Some? || team.Some? then AssignedEvent(seen.user, seen.team, user, team)
              else UnassignedEvent(seen.user, seen.team)])
  }

  function EscalateTx(db: Db, id: Id, supervisor: Option<Id>): Db {
    if id !in db.tickets then db else Append(db, id, db.tickets[id], [Escalated(supervisor)])
  }

  function RouteAssignTx(db: Db, id: Id, user: Option<Id>, team: Option<Id>): Db {
    if id !in db.tickets || db.tickets[id].user.Some? || db.tickets[id].team.Some? then db
    else
      Append(db, id,
             db.tickets[id].(user := user, team := team, routing := Assigned,
                             deferredReason := None, deferredSince := None),
             [AssignedEvent(None, None, user, team)])
  }

  /** The column write is guarded on `routing_state` alone; the event is appended either way. */
  function RouteDeferTx(db: Db, id: Id, reason: DeferReason, now: nat): Db {
    if id !in db.tickets then db
    else
      var row := db.tickets[id];
      Append(db, id,
             if row.routing == Deferred then row
             else row.(routing := Deferred, deferredReason := Some(reason), deferredSince := Some(now)),
             [AssignmentDeferred(reason)])
  }

  function BotPauseTx(db: Db, id: Id): Db {
    if id in db.tickets && db.tickets[id].status == Open
    then db.(tickets := db.tickets[id := db.tickets[id].(status := Pending)]) else db
  }

  function RemoveUserTx(db: Db, user: Id): Db {
    db.(tickets := map id | id in db.tickets ::
                     if db.tickets[id].user == Some(user) then db.tickets[id].(user := None) else db.tickets[id])
  }

  function Commit(db: Db, w: Write): Db {
    match w
    case LinkCreate(id, contact, conversation) => LinkCreateTx(db, id, contact, conversation)
    case LinkReopen(id, linked) => LinkReopenTx(db, id, linked)
    case LinkAttach(id, linked) => LinkAttachTx(db, id, linked)
    case Update(id, seen, status, priority, cause) => UpdateTx(db, id, seen, status, priority, cause)
    case Assign(id, seen, userField, teamField) => AssignTx(db, id, seen, userField, teamField)
    case Escalate(id, supervisor) => EscalateTx(db, id, supervisor)
    case RouteAssign(id, user, team) => RouteAssignTx(db, id, user, team)
    case RouteDefer(id, reason, now) => RouteDeferTx(db, id, reason, now)
    case BotPause(id) => BotPauseTx(db, id)
    case RemoveUser(user) => RemoveUserTx(db, user)
  }

  function Run(db: Db, writes: seq<Write>): Db {
    if writes == [] then db else Commit(Run(db, writes[..|writes| - 1]), writes[|writes| - 1])
  }

  // --- What every commit keeps ------------------------------------------------------------------

  /** `tickets_one_active_per_contact`. */
  ghost predicate OneActivePerContact(db: Db) {
    forall i, j, c :: i in db.tickets && j in db.tickets && HoldsActive(db, i, c) && HoldsActive(db, j, c) ==> i == j
  }

  /** `UNIQUE (tenant_id, number)`, and the counter is ahead of every number handed out. */
  ghost predicate NumbersUnique(db: Db) {
    && (forall i :: i in db.tickets ==> db.tickets[i].number < db.nextNumber)
    && (forall i, j :: i in db.tickets && j in db.tickets && i != j ==> db.tickets[i].number != db.tickets[j].number)
  }

  /** `tickets_routing_deferred_consistent`. */
  ghost predicate DeferralConsistent(db: Db) {
    forall i :: i in db.tickets ==>
      (db.tickets[i].routing == Deferred <==> db.tickets[i].deferredReason.Some?)
      && (db.tickets[i].routing == Deferred <==> db.tickets[i].deferredSince.Some?)
  }

  ghost predicate Logged(db: Db) {
    db.log.Keys == db.tickets.Keys && forall i :: i in db.log ==> db.log[i] != [] && db.log[i][0] == CreatedEvent
  }

  /** The log is append-only: no entry is ever rewritten or removed. */
  ghost predicate LogsGrow(before: Db, after: Db) {
    forall i :: i in before.log ==> i in after.log && before.log[i] <= after.log[i]
  }

  ghost predicate Consistent(db: Db) {
    OneActivePerContact(db) && NumbersUnique(db) && DeferralConsistent(db) && Logged(db)
  }

  lemma EmptyConsistent()
    ensures Consistent(EMPTY)
  {
  }

  /** Every write but a create touches ids that exist, keeps their contact and number, and never re-activates one. */
  lemma CommitFrame(db: Db, w: Write)
    ensures db.tickets.Keys <= Commit(db, w).tickets.Keys
    ensures db.nextNumber <= Commit(db, w).nextNumber
    ensures forall i :: i in db.tickets ==>
              var before, after := db.tickets[i], Commit(db, w).tickets[i];
              && after.contact == before.contact && after.number == before.number
              && after.conversation == before.conversation
              && (IsActive(after.status) ==> IsActive(before.status))
              && (before.status == Closed ==> after.status == Closed)
    ensures !w.LinkCreate? ==> Commit(db, w).tickets.Keys == db.tickets.Keys && Commit(db, w).nextNumber == db.nextNumber
    ensures w.LinkCreate? ==>
              || Commit(db, w).tickets == db.tickets
              || (w.ticket !in db.tickets && !HasActive(db, w.contact)
                  && Commit(db, w).tickets == db.tickets[w.ticket := NewTicket(db.nextNumber, w.contact, w.conversation)]
                  && Commit(db, w).nextNumber == db.nextNumber + 1)
  {
  }

  /**
   Any transaction, computed from any stale reading, leaves at most one active ticket per contact: no
   move the table allows an agent, and nothing else that writes a status, can raise a unique violation.
   */
  lemma CommitKeepsOneActive(db: Db, w: Write)
    requires OneActivePerContact(db)
    ensures OneActivePerContact(Commit(db, w))
  {
    CommitFrame(db, w);
    var after := Commit(db, w);
    forall i, j, c | i in after.tickets && j in after.tickets && HoldsActive(after, i, c) && HoldsActive(after, j, c)
      ensures i == j
    {
      assert i in db.tickets ==> HoldsActive(db, i, c);
      assert j in db.tickets ==> HoldsActive(db, j, c);
    }
  }

  lemma CommitKeepsNumbers(db: Db, w: Write)
    requires NumbersUnique(db)
    ensures NumbersUnique(Commit(db, w))
  {
    CommitFrame(db, w);
  }

  lemma CommitKeepsDeferral(db: Db, w: Write)
    requires DeferralConsistent(db)
    ensures DeferralConsistent(Commit(db, w))
  {
  }

  lemma AppendKeepsLog(db: Db, id: Id, t: Ticket, events: seq<Event>)
    requires Logged(db) && id in db.tickets
    ensures Logged(Append(db, id, t, events)) && LogsGrow(db, Append(db, id, t, events))
  {
  }

  lemma CommitKeepsLog(db: Db, w: Write)
    requires Logged(db)
    ensures Logged(Commit(db, w)) && LogsGrow(db, Commit(db, w))
  {
    var row := if !w.RemoveUser? && w.ticket in db.tickets then db.tickets[w.ticket] else NewTicket(0, 0, 0);
    match w
    case LinkReopen(id, linked) =>
      if id in db.tickets {
        AppendKeepsLog(db, id, row.(status := Open), [StatusChanged(Pending, Open, ByInboundMessage)] + LinkedEvents(linked));
      }
    case LinkAttach(id, linked) =>
      if id in db.tickets {
        AppendKeepsLog(db, id, row, LinkedEvents(linked));
      }
    case Update(id, seen, status, priority, cause) =>
      if id in db.tickets {
        AppendKeepsLog(db, id, UpdatedRow(row, seen, status, priority),
                       StatusEvents(seen, status, cause) + PriorityEvents(seen, priority));
      }
    case _ =>
  }

  lemma CommitKeepsConsistent(db: Db, w: Write)
    requires Consistent(db)
    ensures Consistent(Commit(db, w)) && LogsGrow(db, Commit(db, w))
  {
    CommitKeepsOneActive(db, w);
    CommitKeepsNumbers(db, w);
    CommitKeepsDeferral(db, w);
    CommitKeepsLog(db, w);
  }

  lemma {:induction false} RunSplit(db: Db, a: seq<Write>, b: seq<Write>)
    ensures Run(db, a + b) == Run(Run(db, a), b)
  {
    if b == [] {
      assert a + b == a;
    } else {
      assert (a + b)[..|a + b| - 1] == a + b[..|b| - 1];
      RunSplit(db, a, b[..|b| - 1]);
    }
  }

  lemma RunOne(db: Db, w: Write)
    ensures Run(db, [w]) == Commit(db, w)
  {
    assert [w][..0] == [];
  }

  /** Every constraint the schema declares on ticket rows holds after every run of transactions. */
  lemma {:induction false} RunKeepsConsistent(db: Db, writes: seq<Write>)
    requires Consistent(db)
    ensures Consistent(Run(db, writes)) && LogsGrow(db, Run(db, writes))
  {
    if writes == [] {
    } else {
      var rest, w := writes[..|writes| - 1], writes[|writes| - 1];
      RunKeepsConsistent(db, rest);
      CommitKeepsConsistent(Run(db, rest), w);
    }
  }

  /** Resolved and closed are terminal for activity, in every run and for every writer. */
  lemma {:induction false} RunNeverReactivates(db: Db, writes: seq<Write>, id: Id)
    requires id in db.tickets
    ensures id in Run(db, writes).tickets
    ensures Run(db, writes).tickets[id].contact == db.tickets[id].contact
    ensures Run(db, writes).tickets[id].number == db.tickets[id].number
    ensures !IsActive(db.tickets[id].status) ==> !IsActive(Run(db, writes).tickets[id].status)
    ensures db.tickets[id].status == Closed ==> Run(db, writes).tickets[id].status == Closed
  {
    if writes == [] {
    } else {
      RunNeverReactivates(db, writes[..|writes| - 1], id);
      CommitFrame(Run(db, writes[..|writes| - 1]), writes[|writes| - 1]);
    }
  }

  /**
   Why the table refuses to re-activate: moving a finished ticket back to an active status breaks the
   unique index exactly when its contact has since opened another one.
   */
  lemma ReactivationConflict(db: Db, id: Id, contact: Id, to: Status)
    requires OneActivePerContact(db)
    requires id in db.tickets && db.tickets[id].contact == Some(contact)
    requires !IsActive(db.tickets[id].status) && IsActive(to)
    ensures !CanAgentTransition(db.tickets[id].status, to)
    ensures var moved := db.(tickets := db.tickets[id := db.tickets[id].(status := to)]);
            OneActivePerContact(moved) <==> !HasActive(db, contact)
  {
    var moved := db.(tickets := db.tickets[id := db.tickets[id].(status := to)]);
    assert HoldsActive(moved, id, contact);
    if HasActive(db, contact) {
      var other :| other in db.tickets && HoldsActive(db, other, contact);
      assert HoldsActive(moved, other, contact);
    } else {
      forall i, j, c | i in moved.tickets && j in moved.tickets && HoldsActive(moved, i, c) && HoldsActive(moved, j, c)
        ensures i == j
      {
        if i != id {
          assert HoldsActive(db, i, c);
        }
        if j != id {
          assert HoldsActive(db, j, c);
        }
      }
    }
  }

  /**
   What an agent's update did is what the row says: applied exactly when something was to move, the
   table allows it and the status is still the one the agent saw. A lost compare-and-set writes nothing.
   */
  lemma UpdateMeaning(db: Db, id: Id, seen: Ticket, status: Option<Status>, priority: Option<Priority>, cause: Cause)
    requires id in db.tickets
    ensures var after := Commit(db, Update(id, seen, status, priority, cause));
            var outcome := UpdateDecision(db, id, seen, status, priority);
            && (outcome != UpdateApplied ==> after == db)
            && (outcome == UpdateApplied ==>
                  && db.tickets[id].status == seen.status
                  && (status.Some? ==> after.tickets[id].status == status.value)
                  && (status.None? ==> after.tickets[id].status == db.tickets[id].status)
                  && (after.tickets[id].status != seen.status ==> CanAgentTransition(seen.status, after.tickets[id].status))
                  && (priority.Some? && priority != Some(seen.priority) ==> after.tickets[id].priority == priority.value)
                  && after.tickets[id].user == db.tickets[id].user && after.tickets[id].team == db.tickets[id].team)
  {
  }
}
