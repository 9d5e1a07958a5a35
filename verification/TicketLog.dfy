/**
 The append-only event log against the row it describes: can status, priority and holder be rebuilt
 from the log alone, at any point of any run?

 For agent moves, assignments, releases, routing, deferrals, escalations and customer-reply reopens
 they can. Two writers move a row and append nothing, a bot reply's pause and a user removal; the log
 parts from the row exactly when one of those matches it.
 */
module TicketLog {
  import opened Common
  import opened Tickets

  // --- The published encoding -------------------------------------------------------------------

  datatype EventType =
    | TypeCreated | TypeConversationLinked | TypeStatusChanged | TypePriorityChanged
    | TypeAssigned | TypeUnassigned | TypeEscalated | TypeAssignmentDeferred

  datatype Value = StatusValue(status: Status) | PriorityValue(priority: Priority) | UserValue(user: Id)

  datatype Assignment = Assignment(fromUser: Option<Id>, fromTeam: Option<Id>, toUser: Option<Id>, toTeam: Option<Id>)

  datatype Published = Published(kind: EventType, fromValue: Option<Value>, toValue: Option<Value>, assignment: Option<Assignment>)

  function Publish(e: Event): Published {
    match e
    case CreatedEvent => Published(TypeCreated, None, None, None)
    case ConversationLinked(_) => Published(TypeConversationLinked, None, None, None)
    case StatusChanged(from, to, _) => Published(TypeStatusChanged, Some(StatusValue(from)), Some(StatusValue(to)), None)
    case PriorityChanged(from, to) => Published(TypePriorityChanged, Some(PriorityValue(from)), Some(PriorityValue(to)), None)
    case AssignedEvent(fu, ft, tu, tt) => Published(TypeAssigned, None, None, Some(Assignment(fu, ft, tu, tt)))
    case UnassignedEvent(fu, ft) => Published(TypeUnassigned, None, None, Some(Assignment(fu, ft, None, None)))
    case Escalated(to) => Published(TypeEscalated, None, if to.Some? then Some(UserValue(to.value)) else None, None)
    case AssignmentDeferred(_) => Published(TypeAssignmentDeferred, None, None, None)
  }

  // --- Replay -----------------------------------------------------------------------------------

  /** What a reader of the log wants back. */
  datatype Facts = Facts(status: Status, priority: Priority, user: Option<Id>, team: Option<Id>)

  function FactsOf(t: Ticket): Facts { Facts(t.status, t.priority, t.user, t.team) }

  function Step(facts: Facts, e: Published): Facts {
    match (e.kind, e.toValue, e.assignment)
    case (TypeStatusChanged, Some(StatusValue(s)), _) => facts.(status := s)
    case (TypePriorityChanged, Some(PriorityValue(p)), _) => facts.(priority := p)
    case (TypeAssigned, _, Some(a)) => facts.(user := a.toUser, team := a.toTeam)
    case (TypeUnassigned, _, Some(a)) => facts.(user := a.toUser, team := a.toTeam)
    case _ => facts
  }

  /** A ticket is born open, normal and held by nobody. */
  function Replay(events: seq<Event>): Facts {
    if |events| <= 1 then Facts(Open, Normal, None, None)
    else Step(Replay(events[..|events| - 1]), Publish(events[|events| - 1]))
  }

  function StepAll(facts: Facts, events: seq<Event>): Facts {
    if events == [] then facts else Step(StepAll(facts, events[..|events| - 1]), Publish(events[|events| - 1]))
  }

  lemma {:induction false} ReplayAppend(log: seq<Event>, events: seq<Event>)
    requires log != []
    ensures Replay(log + events) == StepAll(Replay(log), events)
  {
    if events == [] {
      assert log + events == log;
    } else {
      ReplayAppend(log, events[..|events| - 1]);
      assert (log + events)[..|log + events| - 1] == log + events[..|events| - 1];
    }
  }

  lemma StepOne(facts: Facts, e: Event)
    ensures StepAll(facts, [e]) == Step(facts, Publish(e))
  {
    assert [e][..0] == [];
  }

  lemma StepTwo(facts: Facts, e: Event, e2: Event)
    ensures StepAll(facts, [e] + [e2]) == Step(Step(facts, Publish(e)), Publish(e2))
  {
    StepOne(facts, e);
    assert ([e] + [e2])[..1] == [e];
  }

  ghost predicate Faithful(db: Db, id: Id)
    requires id in db.tickets && id in db.log
  {
    Replay(db.log[id]) == FactsOf(db.tickets[id])
  }

  ghost predicate AllFaithful(db: Db) {
    Logged(db) && forall id :: id in db.tickets ==> Faithful(db, id)
  }

  // --- One commit -------------------------------------------------------------------------------

  /** The write moves this row and appends nothing about it. */
  predicate Silent(db: Db, w: Write, id: Id) {
    id in db.tickets
    && match w
       case BotPause(t) => t == id && db.tickets[id].status == Open
       case RemoveUser(u) => db.tickets[id].user == Some(u)
       case _ => false
  }

  /** Appending to one ticket's log keeps every row faithful when the events say what the row did. */
  lemma AppendFaithful(db: Db, target: Id, after: Ticket, events: seq<Event>, id: Id)
    requires Logged(db) && id in db.tickets && Faithful(db, id) && target in db.tickets
    requires id == target ==> FactsOf(after) == StepAll(FactsOf(db.tickets[id]), events)
    ensures id in Append(db, target, after, events).tickets && id in Append(db, target, after, events).log
    ensures Faithful(Append(db, target, after, events), id)
  {
    if id == target {
      ReplayAppend(db.log[id], events);
    }
  }

  lemma LinkFaithful(db: Db, w: Write, id: Id)
    requires w.LinkCreate? || w.LinkReopen? || w.LinkAttach?
    requires Logged(db) && id in db.tickets && Faithful(db, id)
    ensures id in Commit(db, w).tickets && id in Commit(db, w).log && Faithful(Commit(db, w), id)
  {
    if !w.LinkCreate? && w.ticket in db.tickets {
      var row := db.tickets[w.ticket];
      var reopened := StatusChanged(Pending, Open, ByInboundMessage);
      StepOne(FactsOf(row), reopened);
      assert [reopened] + [] == [reopened];
      if w.linked.Some? {
        StepOne(FactsOf(row), ConversationLinked(w.linked.value));
        StepTwo(FactsOf(row), reopened, ConversationLinked(w.linked.value));
      }
      if w.LinkAttach? {
        AppendFaithful(db, w.ticket, row, LinkedEvents(w.linked), id);
      } else if row.status == Pending {
        AppendFaithful(db, w.ticket, row.(status := Open), [reopened] + LinkedEvents(w.linked), id);
      }
    }
  }

  lemma {:induction false} StepAllSplit(facts: Facts, a: seq<Event>, b: seq<Event>)
    ensures StepAll(facts, a + b) == StepAll(StepAll(facts, a), b)
  {
    if b == [] {
      assert a + b == a;
    } else {
      assert (a + b)[..|a + b| - 1] == a + b[..|b| - 1];
      StepAllSplit(facts, a, b[..|b| - 1]);
    }
  }

  lemma {:induction false} StatusSteps(facts: Facts, seen: Ticket, status: Option<Status>, cause: Cause)
    ensures StepAll(facts, StatusEvents(seen, status, cause))
              == (if Moves(seen.status, status).Some? then facts.(status := Moves(seen.status, status).value) else facts)
  {
    if Moves(seen.status, status).Some? {
      StepOne(facts, StatusChanged(seen.status, Moves(seen.status, status).value, cause));
    }
  }

  lemma {:induction false} PrioritySteps(facts: Facts, seen: Ticket, priority: Option<Priority>)
    ensures StepAll(facts, PriorityEvents(seen, priority))
              == (if Moves(seen.priority, priority).Some? then facts.(priority := Moves(seen.priority, priority).value) else facts)
  {
    if Moves(seen.priority, priority).Some? {
      StepOne(facts, PriorityChanged(seen.priority, Moves(seen.priority, priority).value));
    }
  }

  lemma UpdateFaithful(db: Db, t: Id, seen: Ticket, status: Option<Status>, priority: Option<Priority>, cause: Cause, id: Id)
    requires Logged(db) && id in db.tickets && Faithful(db, id)
    ensures var after := UpdateTx(db, t, seen, status, priority, cause);
            id in after.tickets && id in after.log && Faithful(after, id)
  {
    if UpdateDecision(db, t, seen, status, priority) == UpdateApplied {
      var facts := FactsOf(db.tickets[t]);
      StepAllSplit(facts, StatusEvents(seen, status, cause), PriorityEvents(seen, priority));
      StatusSteps(facts, seen, status, cause);
      PrioritySteps(StepAll(facts, StatusEvents(seen, status, cause)), seen, priority);
      AppendFaithful(db, t, UpdatedRow(db.tickets[t], seen, status, priority),
                     StatusEvents(seen, status, cause) + PriorityEvents(seen, priority), id);
    }
  }

  lemma AssignFaithful(db: Db, w: Write, id: Id)
    requires w.Assign? || w.Escalate? || w.RouteAssign? || w.RouteDefer?
    requires Logged(db) && id in db.tickets && Faithful(db, id)
    ensures id in Commit(db, w).tickets && id in Commit(db, w).log && Faithful(Commit(db, w), id)
  {
    var t := w.ticket;
    if t in db.tickets && |Commit(db, w).log[t]| > |db.log[t]| {
      var after := Commit(db, w);
      var e := after.log[t][|db.log[t]|];
      StepOne(FactsOf(db.tickets[t]), e);
      assert after == Append(db, t, after.tickets[t], [e]);
      AppendFaithful(db, t, after.tickets[t], [e], id);
    }
  }

  /** A commit keeps the log true of the row exactly when it is not a silent write that matches it. */
  lemma CommitFaithful(db: Db, w: Write, id: Id)
    requires Logged(db) && id in db.tickets && Faithful(db, id)
    ensures id in Commit(db, w).tickets && id in Commit(db, w).log
    ensures Faithful(Commit(db, w), id) <==> !Silent(db, w, id)
  {
    match w
    case LinkCreate(_, _, _) => LinkFaithful(db, w, id);
    case LinkReopen(_, _) => LinkFaithful(db, w, id);
    case LinkAttach(_, _) => LinkFaithful(db, w, id);
    case Update(t, seen, status, priority, cause) => UpdateFaithful(db, t, seen, status, priority, cause, id);
    case Assign(_, _, _, _) => AssignFaithful(db, w, id);
    case Escalate(_, _) => AssignFaithful(db, w, id);
    case RouteAssign(_, _, _) => AssignFaithful(db, w, id);
    case RouteDefer(_, _, _) => AssignFaithful(db, w, id);
    case BotPause(_) =>
    case RemoveUser(_) =>
  }

  lemma CommitAllFaithful(db: Db, w: Write)
    requires AllFaithful(db)
    requires forall id :: id in db.tickets ==> !Silent(db, w, id)
    ensures AllFaithful(Commit(db, w))
  {
    CommitKeepsLog(db, w);
    var after := Commit(db, w);
    forall id | id in after.tickets
      ensures Faithful(after, id)
    {
      if id in db.tickets {
        CommitFaithful(db, w, id);
      } else {
        CommitFrame(db, w);
        assert after.log[id] == [CreatedEvent];
      }
    }
  }

  // --- Whole runs -------------------------------------------------------------------------------

  /** No silent write of the run matches a row at the moment it commits. */
  ghost predicate NoSilentHit(db: Db, writes: seq<Write>) {
    forall k, id :: 0 <= k < |writes| && id in Run(db, writes[..k]).tickets ==> !Silent(Run(db, writes[..k]), writes[k], id)
  }

  lemma NoSilentHitPrefix(db: Db, writes: seq<Write>, n: nat)
    requires NoSilentHit(db, writes) && n <= |writes|
    ensures NoSilentHit(db, writes[..n])
  {
    forall k, id | 0 <= k < n && id in Run(db, writes[..n][..k]).tickets
      ensures !Silent(Run(db, writes[..n][..k]), writes[..n][k], id)
    {
      assert writes[..n][..k] == writes[..k];
    }
  }

  lemma {:induction false} RunFaithful(db: Db, writes: seq<Write>)
    requires AllFaithful(db) && NoSilentHit(db, writes)
    ensures AllFaithful(Run(db, writes))
  {
    if writes == [] {
    } else {
      var n := |writes| - 1;
      NoSilentHitPrefix(db, writes, n);
      RunFaithful(db, writes[..n]);
      CommitAllFaithful(Run(db, writes[..n]), writes[n]);
    }
  }

  /** Every log is true of its row at the end of the run, and at the end of every shorter part of it. */
  ghost predicate FaithfulThroughout(db: Db, writes: seq<Write>) {
    AllFaithful(Run(db, writes)) && (writes == [] || FaithfulThroughout(db, writes[..|writes| - 1]))
  }

  ghost predicate HitsNothing(db: Db, w: Write) { forall id :: id in db.tickets ==> !Silent(db, w, id) }

  lemma {:induction false} SilentHitSnoc(db: Db, writes: seq<Write>)
    requires writes != []
    ensures var rest := writes[..|writes| - 1];
            NoSilentHit(db, writes) <==> NoSilentHit(db, rest) && HitsNothing(Run(db, rest), writes[|writes| - 1])
  {
    var n := |writes| - 1;
    if NoSilentHit(db, writes) {
      NoSilentHitPrefix(db, writes, n);
    } else {
      var k, id :| 0 <= k < |writes| && id in Run(db, writes[..k]).tickets && Silent(Run(db, writes[..k]), writes[k], id);
      if k < n {
        assert writes[..n][..k] == writes[..k] && writes[..n][k] == writes[k];
      }
    }
  }

  lemma CommitAllFaithfulExactly(db: Db, w: Write)
    requires AllFaithful(db)
    ensures AllFaithful(Commit(db, w)) <==> HitsNothing(db, w)
  {
    if HitsNothing(db, w) {
      CommitAllFaithful(db, w);
    } else {
      var id :| id in db.tickets && Silent(db, w, id);
      CommitFaithful(db, w, id);
    }
  }

  /** Every log is true of its row at every point of a run exactly when no silent write of the run matches a row. */
  lemma {:induction false} FaithfulExactly(db: Db, writes: seq<Write>)
    requires AllFaithful(db)
    ensures FaithfulThroughout(db, writes) <==> NoSilentHit(db, writes)
  {
    if writes == [] {
    } else {
      var rest := writes[..|writes| - 1];
      FaithfulExactly(db, rest);
      SilentHitSnoc(db, writes);
      if FaithfulThroughout(db, rest) {
        CommitAllFaithfulExactly(Run(db, rest), writes[|writes| - 1]);
      }
    }
  }

  /** Logs only grow: the log at any point of a run is a prefix of the log at the end. */
  lemma RunGrowsLogs(db: Db, writes: seq<Write>, k: nat, id: Id)
    requires Consistent(db) && k <= |writes| && id in Run(db, writes[..k]).tickets
    ensures id in Run(db, writes[..k]).log && id in Run(db, writes).log
    ensures Run(db, writes[..k]).log[id] <= Run(db, writes).log[id]
  {
    RunKeepsConsistent(db, writes[..k]);
    RunKeepsConsistent(Run(db, writes[..k]), writes[k..]);
    RunFrom(db, writes, k);
  }

  lemma RunFrom(db: Db, writes: seq<Write>, k: nat)
    requires k <= |writes|
    ensures Run(db, writes) == Run(Run(db, writes[..k]), writes[k..])
  {
    RunSplit(db, writes[..k], writes[k..]);
    assert writes == writes[..k] + writes[k..];
  }

  lemma ReplaySoFar(db: Db, writes: seq<Write>, k: nat, id: Id)
    requires AllFaithful(db) && NoSilentHit(db, writes)
    requires k <= |writes| && id in Run(db, writes[..k]).tickets
    ensures id in Run(db, writes[..k]).log
    ensures Replay(Run(db, writes[..k]).log[id]) == FactsOf(Run(db, writes[..k]).tickets[id])
  {
    NoSilentHitPrefix(db, writes, k);
    RunFaithful(db, writes[..k]);
    assert Faithful(Run(db, writes[..k]), id);
  }

  lemma PrefixTaken(p: seq<Event>, q: seq<Event>)
    requires p <= q
    ensures q[..|p|] == p
  {
  }

  /**
   At any point of such a run, the log written so far is a prefix of the log at the end, and replaying
   that prefix gives exactly the status, priority and holder in force at that point.
   */
  lemma ReplayAnyPoint(db: Db, writes: seq<Write>, k: nat, id: Id)
    requires Consistent(db) && AllFaithful(db) && NoSilentHit(db, writes)
    requires k <= |writes| && id in Run(db, writes[..k]).tickets
    ensures var sofar, end := Run(db, writes[..k]), Run(db, writes);
            && id in sofar.log && id in end.log && sofar.log[id] <= end.log[id]
            && Replay(end.log[id][..|sofar.log[id]|]) == FactsOf(sofar.tickets[id])
  {
    ReplaySoFar(db, writes, k, id);
    RunGrowsLogs(db, writes, k, id);
    PrefixTaken(Run(db, writes[..k]).log[id], Run(db, writes).log[id]);
  }

  /** The row is where the event says it went. */
  predicate SaysRow(e: Event, t: Ticket) {
    match e
    case StatusChanged(_, to, _) => t.status == to
    case PriorityChanged(_, to) => t.priority == to
    case AssignedEvent(_, _, user, team) => t.user == user && t.team == team
    case UnassignedEvent(_, _) => t.user.None? && t.team.None?
    case _ => true
  }

  /** What one commit appends about a ticket: nothing, one event, or two of different fields, all true of the row. */
  ghost predicate Appended(events: seq<Event>, t: Ticket) {
    && |events| <= 2 && (forall k :: 0 <= k < |events| ==> SaysRow(events[k], t))
    && (|events| == 2 ==> events[0].StatusChanged? && (events[1].PriorityChanged? || events[1].ConversationLinked?))
  }

  lemma AppendedBy(db: Db, target: Id, t: Ticket, events: seq<Event>, id: Id) returns (mine: seq<Event>)
    requires Logged(db) && id in db.tickets && target in db.tickets && Appended(events, t)
    ensures var after := Append(db, target, t, events);
            id in after.tickets && id in after.log && after.log[id] == db.log[id] + mine && Appended(mine, after.tickets[id])
  {
    mine := if target == id then events else [];
  }

  lemma UpdateAppends(db: Db, w: Write, id: Id) returns (events: seq<Event>)
    requires Logged(db) && id in db.tickets && w.Update? && UpdateDecision(db, w.ticket, w.seen, w.status, w.priority) == UpdateApplied
    ensures id in Commit(db, w).log && id in Commit(db, w).tickets
    ensures Commit(db, w).log[id] == db.log[id] + events && Appended(events, Commit(db, w).tickets[id])
  {
    events := AppendedBy(db, w.ticket, UpdatedRow(db.tickets[w.ticket], w.seen, w.status, w.priority),
                         StatusEvents(w.seen, w.status, w.cause) + PriorityEvents(w.seen, w.priority), id);
  }

  lemma CommitAppends(db: Db, w: Write, id: Id) returns (events: seq<Event>)
    requires Logged(db) && id in db.tickets
    ensures id in Commit(db, w).log && id in Commit(db, w).tickets
    ensures Commit(db, w).log[id] == db.log[id] + events && Appended(events, Commit(db, w).tickets[id])
  {
    if w.Update? && UpdateDecision(db, w.ticket, w.seen, w.status, w.priority) == UpdateApplied {
      events := UpdateAppends(db, w, id);
    } else if w.LinkReopen? && w.ticket in db.tickets && db.tickets[w.ticket].status == Pending {
      events := AppendedBy(db, w.ticket, db.tickets[w.ticket].(status := Open),
                           [StatusChanged(Pending, Open, ByInboundMessage)] + LinkedEvents(w.linked), id);
    } else if w.LinkAttach? && w.ticket in db.tickets {
      events := AppendedBy(db, w.ticket, db.tickets[w.ticket], LinkedEvents(w.linked), id);
    } else {
      events := Commit(db, w).log[id][|db.log[id]|..];
    }
  }

  /** A rebuilt log agrees with the row in every field the last events say something about. */
  lemma ReplaySaysRow(log: seq<Event>, events: seq<Event>, t: Ticket, k: nat)
    requires log != [] && Appended(events, t) && k < |events|
    ensures events[k].StatusChanged? ==> Replay(log + events).status == t.status
    ensures events[k].PriorityChanged? ==> Replay(log + events).priority == t.priority
    ensures events[k].AssignedEvent? || events[k].UnassignedEvent? ==>
              Replay(log + events).user == t.user && Replay(log + events).team == t.team
  {
    ReplayAppend(log, events);
    if |events| == 1 {
      assert events == [events[0]];
      StepOne(Replay(log), events[0]);
    } else {
      assert events == [events[0]] + [events[1]];
      StepTwo(Replay(log), events[0], events[1]);
    }
  }

  /**
   A drifted log is put right, field by field, by the next commit that records a change of that field,
   whatever else the same commit records: `k` is any position the commit appended.
   */
  lemma NextEventRepairs(db: Db, w: Write, id: Id, k: nat)
    requires Logged(db) && id in db.tickets && id in Commit(db, w).log
    requires |db.log[id]| <= k < |Commit(db, w).log[id]|
    ensures var (log, row) := (Commit(db, w).log[id], Commit(db, w).tickets[id]);
            && (log[k].StatusChanged? ==> Replay(log).status == row.status)
            && (log[k].PriorityChanged? ==> Replay(log).priority == row.priority)
            && (log[k].AssignedEvent? || log[k].UnassignedEvent? ==>
                  Replay(log).user == row.user && Replay(log).team == row.team)
  {
    var events := CommitAppends(db, w, id);
    ReplaySaysRow(db.log[id], events, Commit(db, w).tickets[id], k - |db.log[id]|);
  }

  /** The drift is real: a bot reply, then a removal, leave a log that names the wrong status and a departed holder. */
  lemma {:induction false} SilentWritesDrift()
    ensures var db := Run(EMPTY, [LinkCreate(1, 7, 70), RouteAssign(1, Some(9), None), BotPause(1), RemoveUser(9)]);
            && 1 in db.tickets && 1 in db.log
            && FactsOf(db.tickets[1]) == Facts(Pending, Normal, None, None)
            && Replay(db.log[1]) == Facts(Open, Normal, Some(9), None)
  {
    var w1, w2, w3, w4 := LinkCreate(1, 7, 70), RouteAssign(1, Some(9), None), BotPause(1), RemoveUser(9);
    RunOfFour(w1, w2, w3, w4);
    var placed := Commit(Commit(EMPTY, w1), w2);
    PlacedFaithful(w1, w2);
    var drifted := Commit(Commit(placed, w3), w4);
    assert drifted.log == placed.log;
  }

  /** Up to the silent writes, the log is true of the row. */
  lemma {:induction false} PlacedFaithful(w1: Write, w2: Write)
    requires w1 == LinkCreate(1, 7, 70) && w2 == RouteAssign(1, Some(9), None)
    ensures var db := Commit(Commit(EMPTY, w1), w2);
            1 in db.tickets && 1 in db.log && FactsOf(db.tickets[1]) == Facts(Open, Normal, Some(9), None)
            && Replay(db.log[1]) == Facts(Open, Normal, Some(9), None)
  {
    CommitAllFaithful(EMPTY, w1);
    CommitAllFaithful(Commit(EMPTY, w1), w2);
    assert Faithful(Commit(Commit(EMPTY, w1), w2), 1);
  }

  lemma RunSnoc(db: Db, writes: seq<Write>, w: Write)
    ensures Run(db, writes + [w]) == Commit(Run(db, writes), w)
  {
    assert (writes + [w])[..|writes|] == writes;
  }

  lemma RunOfFour(w1: Write, w2: Write, w3: Write, w4: Write)
    ensures Run(EMPTY, [w1, w2, w3, w4]) == Commit(Commit(Commit(Commit(EMPTY, w1), w2), w3), w4)
  {
    RunSnoc(EMPTY, [], w1);
    RunSnoc(EMPTY, [w1], w2);
    RunSnoc(EMPTY, [w1, w2], w3);
    RunSnoc(EMPTY, [w1, w2, w3], w4);
    assert [] + [w1] == [w1] && [w1] + [w2] == [w1, w2];
    assert [w1, w2] + [w3] == [w1, w2, w3] && [w1, w2, w3] + [w4] == [w1, w2, w3, w4];
  }

  // --- Escalations ------------------------------------------------------------------------------

  function WithoutEscalations(writes: seq<Write>): seq<Write> {
    if writes == [] then []
    else
      var rest, last := WithoutEscalations(writes[..|writes| - 1]), writes[|writes| - 1];
      if last.Escalate? then rest else rest + [last]
  }

  /** The same rows, and logs that rebuild the same facts. */
  ghost predicate Alike(a: Db, b: Db) {
    && a.tickets == b.tickets && a.nextNumber == b.nextNumber && Logged(a) && Logged(b)
    && forall id :: id in a.tickets ==> Replay(a.log[id]) == Replay(b.log[id])
  }

  /** What a commit does to rows, and what it appends, is read from rows alone. */
  lemma SameRowsSameCommit(a: Db, b: Db, w: Write)
    requires a.tickets == b.tickets && a.nextNumber == b.nextNumber && Logged(a) && Logged(b)
    ensures Commit(a, w).tickets == Commit(b, w).tickets && Commit(a, w).nextNumber == Commit(b, w).nextNumber
  {
    match w
    case LinkCreate(id, contact, _) => assert HasActive(a, contact) == HasActive(b, contact);
    case Update(id, seen, status, priority, _) =>
      assert UpdateDecision(a, id, seen, status, priority) == UpdateDecision(b, id, seen, status, priority);
    case _ =>
  }

  lemma SameRowsSameEvents(a: Db, b: Db, w: Write, id: Id, ea: seq<Event>, eb: seq<Event>)
    requires a.tickets == b.tickets && a.nextNumber == b.nextNumber && Logged(a) && Logged(b) && id in a.tickets
    requires id in Commit(a, w).log && Commit(a, w).log[id] == a.log[id] + ea
    requires id in Commit(b, w).log && Commit(b, w).log[id] == b.log[id] + eb
    ensures ea == eb
  {
    assert ea == Commit(a, w).log[id][|a.log[id]|..] && eb == Commit(b, w).log[id][|b.log[id]|..];
  }

  lemma CommitKeepsAlike(a: Db, b: Db, w: Write)
    requires Alike(a, b)
    ensures Alike(Commit(a, w), Commit(b, w))
  {
    SameRowsSameCommit(a, b, w);
    CommitKeepsLog(a, w);
    CommitKeepsLog(b, w);
    forall id | id in Commit(a, w).tickets
      ensures Replay(Commit(a, w).log[id]) == Replay(Commit(b, w).log[id])
    {
      if id in a.tickets {
        var ea := CommitAppends(a, w, id);
        var eb := CommitAppends(b, w, id);
        SameRowsSameEvents(a, b, w, id, ea, eb);
        ReplayAppend(a.log[id], ea);
        ReplayAppend(b.log[id], eb);
      } else {
        CommitFrame(a, w);
      }
    }
  }

  /** An escalation records who was asked and moves nothing on any row. */
  lemma EscalationMovesNothing(db: Db, id: Id, supervisor: Option<Id>)
    requires Logged(db) && id in db.tickets
    ensures Commit(db, Escalate(id, supervisor)).tickets == db.tickets
    ensures Commit(db, Escalate(id, supervisor)).log[id] == db.log[id] + [Escalated(supervisor)]
    ensures Publish(Escalated(supervisor)).assignment.None?
    ensures Publish(Escalated(supervisor)).toValue.None? <==> supervisor.None?
  {
    assert db.tickets[id := db.tickets[id]] == db.tickets;
  }

  lemma EscalateKeepsAlike(a: Db, b: Db, w: Write)
    requires Alike(a, b) && w.Escalate?
    ensures Alike(Commit(a, w), b)
  {
    CommitKeepsLog(a, w);
    if w.ticket in a.tickets {
      EscalationMovesNothing(a, w.ticket, w.supervisor);
      EscalationReplaysAlike(a.log[w.ticket], w.supervisor);
      forall id | id in a.tickets
        ensures Replay(Commit(a, w).log[id]) == Replay(a.log[id])
      {
      }
    }
  }

  lemma EscalationReplaysAlike(log: seq<Event>, supervisor: Option<Id>)
    requires log != []
    ensures Replay(log + [Escalated(supervisor)]) == Replay(log)
  {
    ReplayAppend(log, [Escalated(supervisor)]);
    StepOne(Replay(log), Escalated(supervisor));
  }

  /**
   Erasing every escalation from a run, whatever else it interleaves with, changes no row of any ticket,
   its holder included, and nothing a reader rebuilds from any log.
   */
  lemma {:induction false} EscalationsMoveNothing(db: Db, writes: seq<Write>)
    requires Logged(db)
    ensures Alike(Run(db, writes), Run(db, WithoutEscalations(writes)))
  {
    if writes == [] {
    } else {
      var rest, last := writes[..|writes| - 1], writes[|writes| - 1];
      EscalationsMoveNothing(db, rest);
      if last.Escalate? {
        EscalateKeepsAlike(Run(db, rest), Run(db, WithoutEscalations(rest)), last);
      } else {
        CommitKeepsAlike(Run(db, rest), Run(db, WithoutEscalations(rest)), last);
        RunSnoc(db, WithoutEscalations(rest), last);
      }
    }
  }
}
