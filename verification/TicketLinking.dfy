/**
 The auto-linker: create-or-attach for one inbound message, over a queue that redelivers, against
 other linker workers and agents who write the same rows between its read and its write.

 The repository has no `messages.ticket_id`: a message is on whichever ticket of its contact is active
 when the job runs. What that does and does not promise under redelivery is stated at the end.
 */
module TicketLinking {
  import opened Common
  import opened Tickets

  const MAX_LINK_ATTEMPTS: nat := 3

  datatype Message = Message(inbound: bool, conversation: Id, contact: Id)

  datatype LinkResult =
    | Created(ticket: Id, number: nat)
    | Attached(ticket: Id, number: nat, previousStatus: Status)
    | SkippedNotInbound
    /** The three errors: the message is not visible yet, three lost races, and a ticket id that already exists. */
    | MessageNotVisible
    | RaceUnresolved
    | DuplicateTicketId

  predicate OnTicket(r: LinkResult, id: Id) { (r.Created? || r.Attached?) && r.ticket == id }

  /** What the rest of the world commits around one attempt: up to its read, then up to its write. */
  datatype Attempt = Attempt(before: seq<Write>, newId: Id, during: seq<Write>)

  // --- One attempt ------------------------------------------------------------------------------

  /** The contact's active ticket; the unique index leaves no choice of which. */
  ghost function ActiveTicket(db: Db, contact: Id): (found: Option<Id>)
    ensures found.Some? ==> HoldsActive(db, found.value, contact)
    ensures found.None? <==> !HasActive(db, contact)
  {
    if HasActive(db, contact) then
      var id :| id in db.tickets && HoldsActive(db, id, contact);
      Some(id)
    else None
  }

  lemma ActiveTicketIs(db: Db, contact: Id, id: Id)
    requires OneActivePerContact(db) && HoldsActive(db, id, contact)
    ensures ActiveTicket(db, contact) == Some(id)
  {
    assert HasActive(db, contact);
  }

  function OtherConversation(row: Ticket, m: Message): Option<Id> {
    if row.conversation == Some(m.conversation) then None else Some(m.conversation)
  }

  /** The transaction an attempt commits, from what it read. */
  ghost function AttemptWrite(read: Db, m: Message, newId: Id): Write {
    match ActiveTicket(read, m.contact)
    case None => LinkCreate(newId, m.contact, m.conversation)
    case Some(id) =>
      var linked := OtherConversation(read.tickets[id], m);
      if read.tickets[id].status == Pending then LinkReopen(id, linked) else LinkAttach(id, linked)
  }

  /** What the attempt learns when that transaction commits on `at`; `None` is a lost race. */
  ghost function AttemptAnswer(read: Db, at: Db, m: Message, newId: Id): Option<LinkResult> {
    match ActiveTicket(read, m.contact)
    case None =>
      if newId in at.tickets then Some(DuplicateTicketId)
      else if HasActive(at, m.contact) then None
      else Some(Created(newId, at.nextNumber))
    case Some(id) =>
      var row := read.tickets[id];
      if row.status == Pending && (id !in at.tickets || at.tickets[id].status != Pending) then None
      else Some(Attached(id, row.number, row.status))
  }

  ghost function Reading(db: Db, a: Attempt): Db { Run(db, a.before) }

  ghost function Writing(db: Db, a: Attempt): Db { Run(Reading(db, a), a.during) }

  ghost function Answer(db: Db, m: Message, a: Attempt): Option<LinkResult> {
    AttemptAnswer(Reading(db, a), Writing(db, a), m, a.newId)
  }

  ghost function After(db: Db, m: Message, a: Attempt): Db {
    Commit(Writing(db, a), AttemptWrite(Reading(db, a), m, a.newId))
  }

  /** The whole call: attempts in order until one is not lost. */
  ghost function Ensure(db: Db, m: Message, schedule: seq<Attempt>): (Db, LinkResult)
    decreases |schedule|
  {
    if schedule == [] then (db, RaceUnresolved)
    else
      var after := After(db, m, schedule[0]);
      match Answer(db, m, schedule[0])
      case Some(r) => (after, r)
      case None => Ensure(after, m, schedule[1..])
  }

  /** The service over stored rows. `schedule` is what other writers commit while it runs. */
  class TicketLinker {
    var db: Db
    const messages: map<Id, Message>

    constructor (db: Db, messages: map<Id, Message>)
      requires Consistent(db)
      ensures this.db == db && this.messages == messages
    {
      this.db, this.messages := db, messages;
    }

    /** The contact has a live ticket, read as `row`: reopen it if it was pending, note a second conversation. */
    method Attach(id: Id, row: Ticket, m: Message) returns (linked: Option<LinkResult>)
      modifies this
      ensures db == Commit(old(db), if row.status == Pending then LinkReopen(id, OtherConversation(row, m))
                                    else LinkAttach(id, OtherConversation(row, m)))
      ensures linked == if row.status == Pending && (id !in old(db).tickets || old(db).tickets[id].status != Pending)
                        then None else Some(Attached(id, row.number, row.status))
    {
      if row.status == Pending {
        var reopened := id in db.tickets && db.tickets[id].status == Pending;
        db := LinkReopenTx(db, id, OtherConversation(row, m));
        if !reopened {
          return None;
        }
      } else {
        db := LinkAttachTx(db, id, OtherConversation(row, m));
      }
      return Some(Attached(id, row.number, row.status));
    }

    /** One statement allocates a number and inserts, unless the contact holds an active ticket by now. */
    method Create(newId: Id, m: Message) returns (linked: Option<LinkResult>)
      modifies this
      ensures db == Commit(old(db), LinkCreate(newId, m.contact, m.conversation))
      ensures linked == if newId in old(db).tickets then Some(DuplicateTicketId)
                        else if HasActive(old(db), m.contact) then None
                        else Some(Created(newId, old(db).nextNumber))
    {
      var number := db.nextNumber;
      linked := if newId in db.tickets then Some(DuplicateTicketId)
                else if HasActive(db, m.contact) then None
                else Some(Created(newId, number));
      db := LinkCreateTx(db, newId, m.contact, m.conversation);
    }

    /** One transaction: attach to the contact's active ticket, or create one. `None` is a lost race. */
    method LinkOnce(m: Message, attempt: Attempt) returns (linked: Option<LinkResult>)
      requires Consistent(db)
      modifies this
      ensures Consistent(db)
      ensures db == After(old(db), m, attempt)
      ensures linked == Answer(old(db), m, attempt)
    {
      AttemptKeepsConsistent(db, m, attempt);
      var read := Run(db, attempt.before);
      db := Run(read, attempt.during);
      if HasActive(read, m.contact) {
        var id :| id in read.tickets && HoldsActive(read, id, m.contact);
        ActiveTicketIs(read, m.contact, id);
        linked := Attach(id, read.tickets[id], m);
      } else {
        linked := Create(attempt.newId, m);
      }
    }

    method EnsureTicketForMessage(message: Id, schedule: seq<Attempt>) returns (result: LinkResult)
      requires Consistent(db) && |schedule| == MAX_LINK_ATTEMPTS
      modifies this
      ensures Consistent(db)
      ensures message !in messages ==> result == MessageNotVisible && db == old(db)
      ensures message in messages && !messages[message].inbound ==> result == SkippedNotInbound && db == old(db)
      ensures message in messages && messages[message].inbound ==>
                (db, result) == Ensure(old(db), messages[message], schedule)
    {
      if message !in messages {
        return MessageNotVisible;
      }
      var m := messages[message];
      if !m.inbound {
        return SkippedNotInbound;
      }
      for attempt := 0 to MAX_LINK_ATTEMPTS
        invariant Consistent(db)
        invariant Ensure(db, m, schedule[attempt..]) == Ensure(old(db), m, schedule)
      {
        assert schedule[attempt..][1..] == schedule[attempt + 1..];
        var linked := LinkOnce(m, schedule[attempt]);
        if linked.Some? {
          return linked.value;
        }
      }
      return RaceUnresolved;
    }
  }

  // --- The call is a run of transactions --------------------------------------------------------

  /** Every transaction committed from the start of the call to its end, its own among everyone else's. */
  ghost function Trace(db: Db, m: Message, schedule: seq<Attempt>): seq<Write>
    decreases |schedule|
  {
    if schedule == [] then []
    else
      var a := schedule[0];
      a.before + a.during + [AttemptWrite(Reading(db, a), m, a.newId)]
      + (if Answer(db, m, a).Some? then [] else Trace(After(db, m, a), m, schedule[1..]))
  }

  /** So whatever every run of transactions keeps, every call under every interference keeps. */
  lemma {:induction false} EnsureIsARun(db: Db, m: Message, schedule: seq<Attempt>)
    ensures Ensure(db, m, schedule).0 == Run(db, Trace(db, m, schedule))
    decreases |schedule|
  {
    if schedule == [] {
    } else {
      var a := schedule[0];
      var w := AttemptWrite(Reading(db, a), m, a.newId);
      var own := a.before + a.during + [w];
      RunSplit(db, a.before, a.during);
      RunSplit(db, a.before + a.during, [w]);
      RunOne(Writing(db, a), w);
      assert Run(db, own) == After(db, m, a);
      if Answer(db, m, a).Some? {
        assert own + [] == own;
      } else {
        EnsureIsARun(After(db, m, a), m, schedule[1..]);
        RunSplit(db, own, Trace(After(db, m, a), m, schedule[1..]));
      }
    }
  }

  lemma {:induction false} EnsureKeepsConsistent(db: Db, m: Message, schedule: seq<Attempt>)
    requires Consistent(db)
    ensures Consistent(Ensure(db, m, schedule).0)
  {
    EnsureIsARun(db, m, schedule);
    RunKeepsConsistent(db, Trace(db, m, schedule));
  }

  // --- What an answer means ---------------------------------------------------------------------

  /**
   The state an answered attempt read, and the state it wrote on. `created` put a new, open ticket of
   this contact there and nothing else of the contact was active; `attached` names the ticket of this
   contact that was active at the read, in the status it reports, reopened it if it was pending, and
   noted a message from another conversation without moving the ticket to it.
   */
  ghost predicate AnswerHolds(read: Db, at: Db, after: Db, m: Message, r: LinkResult) {
    Logged(after)
    && match r
       case Created(id, number) =>
         && !HasActive(read, m.contact) && !HasActive(at, m.contact) && id !in at.tickets
         && id in after.tickets && after.tickets[id] == NewTicket(number, m.contact, m.conversation)
         && after.log[id] == [CreatedEvent]
         && number == at.nextNumber && after.nextNumber == number + 1
         && HoldsActive(after, id, m.contact)
       case Attached(id, number, previousStatus) =>
         && HoldsActive(read, id, m.contact)
         && read.tickets[id].number == number && read.tickets[id].status == previousStatus
         && id in at.tickets && id in after.tickets && after.tickets[id].contact == Some(m.contact)
         && (previousStatus == Pending ==>
               after.tickets[id].status == Open && StatusChanged(Pending, Open, ByInboundMessage) in after.log[id])
         && (read.tickets[id].conversation != Some(m.conversation) ==>
               after.log[id] != [] && after.log[id][|after.log[id]| - 1] == ConversationLinked(m.conversation))
         && after.tickets[id].conversation == at.tickets[id].conversation
         && (HoldsActive(at, id, m.contact) ==> HoldsActive(after, id, m.contact))
         && after.nextNumber == at.nextNumber
       case DuplicateTicketId => after == at && !HasActive(read, m.contact)
       case _ => false
  }

  lemma AttemptAnswerHolds(read: Db, at: Db, m: Message, newId: Id)
    requires Consistent(at)
    requires forall i :: i in read.tickets ==> i in at.tickets && at.tickets[i].contact == read.tickets[i].contact
    requires AttemptAnswer(read, at, m, newId).Some?
    ensures AnswerHolds(read, at, Commit(at, AttemptWrite(read, m, newId)), m, AttemptAnswer(read, at, m, newId).value)
  {
    var after := Commit(at, AttemptWrite(read, m, newId));
    CommitKeepsLog(at, AttemptWrite(read, m, newId));
    if ActiveTicket(read, m.contact).Some? {
      var id := ActiveTicket(read, m.contact).value;
      if read.tickets[id].status == Pending {
        assert after.log[id][|at.log[id]|] == StatusChanged(Pending, Open, ByInboundMessage);
      }
    }
  }

  /** The rows as the first `k` attempts leave them. */
  ghost function StateBefore(db: Db, m: Message, schedule: seq<Attempt>, k: nat): Db
    requires k <= |schedule|
    decreases k
  {
    if k == 0 then db else StateBefore(After(db, m, schedule[0]), m, schedule[1..], k - 1)
  }

  ghost predicate FirstLost(db: Db, m: Message, schedule: seq<Attempt>, k: nat) {
    forall j :: 0 <= j < k <= |schedule| ==> Answer(StateBefore(db, m, schedule, j), m, schedule[j]).None?
  }

  /** An attempt that started on `start` answered `r` and left `after`, and the answer is true of what it read and wrote. */
  ghost predicate AnsweredBy(start: Db, m: Message, a: Attempt, after: Db, r: LinkResult) {
    && after == After(start, m, a) && Answer(start, m, a) == Some(r)
    && Consistent(start) && Consistent(Reading(start, a)) && Consistent(Writing(start, a))
    && AnswerHolds(Reading(start, a), Writing(start, a), after, m, r)
  }

  lemma {:induction false} FirstLostCons(db: Db, m: Message, schedule: seq<Attempt>, k: nat)
    requires schedule != [] && k < |schedule| && Answer(db, m, schedule[0]).None?
    requires FirstLost(After(db, m, schedule[0]), m, schedule[1..], k)
    ensures FirstLost(db, m, schedule, k + 1)
  {
    forall j | 0 <= j < k + 1
      ensures Answer(StateBefore(db, m, schedule, j), m, schedule[j]).None?
    {
      if j > 0 {
        assert schedule[j] == schedule[1..][j - 1];
      }
    }
  }

  /**
   Which attempt answered, and on what: every attempt before the `k`-th was lost, and the `k`-th, on the
   rows those left, read and wrote the states its answer speaks of. A call that runs out lost them all.
   */
  lemma {:induction false} EnsureMeaning(db: Db, m: Message, schedule: seq<Attempt>) returns (k: nat)
    requires Consistent(db)
    ensures k <= |schedule| && FirstLost(db, m, schedule, k)
    ensures k == |schedule| ==> Ensure(db, m, schedule) == (StateBefore(db, m, schedule, k), RaceUnresolved)
    ensures k < |schedule| ==>
              AnsweredBy(StateBefore(db, m, schedule, k), m, schedule[k], Ensure(db, m, schedule).0, Ensure(db, m, schedule).1)
    decreases |schedule|
  {
    k := 0;
    if schedule != [] {
      var a := schedule[0];
      AttemptKeepsConsistent(db, m, a);
      if Answer(db, m, a).Some? {
        AnsweredHolds(db, m, a);
      } else {
        k := EnsureMeaning(After(db, m, a), m, schedule[1..]);
        FirstLostCons(db, m, schedule, k);
        k := k + 1;
      }
    }
  }

  lemma {:induction false} AnsweredHolds(db: Db, m: Message, a: Attempt)
    requires Consistent(db) && Answer(db, m, a).Some?
    ensures AnswerHolds(Reading(db, a), Writing(db, a), After(db, m, a), m, Answer(db, m, a).value)
  {
    AttemptKeepsConsistent(db, m, a);
    forall i | i in Reading(db, a).tickets
      ensures i in Writing(db, a).tickets && Writing(db, a).tickets[i].contact == Reading(db, a).tickets[i].contact
    {
      RunNeverReactivates(Reading(db, a), a.during, i);
    }
    AttemptAnswerHolds(Reading(db, a), Writing(db, a), m, a.newId);
  }

  lemma AttemptKeepsConsistent(db: Db, m: Message, a: Attempt)
    requires Consistent(db)
    ensures Consistent(Reading(db, a)) && Consistent(Writing(db, a)) && Consistent(After(db, m, a))
  {
    RunKeepsConsistent(db, a.before);
    RunKeepsConsistent(Reading(db, a), a.during);
    CommitKeepsConsistent(Writing(db, a), AttemptWrite(Reading(db, a), m, a.newId));
  }

  // --- Races ------------------------------------------------------------------------------------

  /** A linker's create that inserts a ticket for the contact. */
  predicate Inserts(db: Db, w: Write, contact: Id) {
    w.LinkCreate? && w.contact == contact && w.ticket !in db.tickets && !HasActive(db, contact)
  }

  /** One of the writes between read and write brought the contact a ticket, and that ticket is still active. */
  ghost predicate Beaten(read: Db, during: seq<Write>, contact: Id) {
    exists k :: 0 <= k < |during| && Inserts(Run(read, during[..k]), during[k], contact)
      && HoldsActive(Run(read, during), during[k].ticket, contact)
  }

  predicate TakesOff(w: Write, id: Id) { (w.LinkReopen? || w.Update?) && w.ticket == id }

  predicate IsPending(db: Db, id: Id) { id in db.tickets && db.tickets[id].status == Pending }

  ghost predicate OffPendingFrom(read: Db, during: seq<Write>, id: Id, k: nat) {
    forall j :: k < j <= |during| ==> !IsPending(Run(read, during[..j]), id)
  }

  /** One of the writes, a reopening or an update of that ticket, took it off pending, for good as far as this attempt sees. */
  ghost predicate TakenOffPending(read: Db, during: seq<Write>, id: Id) {
    exists k :: 0 <= k < |during| && TakesOff(during[k], id) && IsPending(Run(read, during[..k]), id)
      && OffPendingFrom(read, during, id, k)
  }

  /** A ticket that was not there at the read was inserted by one of the writes since. */
  lemma {:induction false} WhoInserted(read: Db, during: seq<Write>, id: Id, contact: Id) returns (k: nat)
    requires id !in read.tickets && id in Run(read, during).tickets
    requires Run(read, during).tickets[id].contact == Some(contact)
    ensures k < |during| && Inserts(Run(read, during[..k]), during[k], contact) && during[k].ticket == id
  {
    var n := |during| - 1;
    var sofar := Run(read, during[..n]);
    CommitFrame(sofar, during[n]);
    if id in sofar.tickets {
      k := WhoInserted(read, during[..n], id, contact);
      assert during[..n][..k] == during[..k];
    } else {
      k := n;
    }
  }

  lemma OffPendingStill(read: Db, during: seq<Write>, id: Id, k: nat)
    requires during != [] && k < |during|
    requires OffPendingFrom(read, during[..|during| - 1], id, k) && !IsPending(Run(read, during), id)
    ensures OffPendingFrom(read, during, id, k)
  {
    forall j | k < j <= |during|
      ensures !IsPending(Run(read, during[..j]), id)
    {
      if j < |during| {
        assert during[..|during| - 1][..j] == during[..j];
      } else {
        assert during[..j] == during;
      }
    }
  }

  lemma OnlyTheseTakeOff(db: Db, w: Write, id: Id)
    requires IsPending(db, id) && !IsPending(Commit(db, w), id)
    ensures TakesOff(w, id)
  {
  }

  /** A ticket pending at the read and not at the end was taken off pending by one of the writes since. */
  lemma {:induction false} WhoTookOffPending(read: Db, during: seq<Write>, id: Id) returns (k: nat)
    requires IsPending(read, id) && !IsPending(Run(read, during), id)
    ensures k < |during| && TakesOff(during[k], id) && IsPending(Run(read, during[..k]), id)
    ensures OffPendingFrom(read, during, id, k)
  {
    var n := |during| - 1;
    if IsPending(Run(read, during[..n]), id) {
      k := n;
      OnlyTheseTakeOff(Run(read, during[..n]), during[n], id);
    } else {
      k := WhoTookOffPending(read, during[..n], id);
      assert during[..n][..k] == during[..k] && during[..n][k] == during[k];
    }
    OffPendingStill(read, during, id, k);
  }

  /**
   An attempt is lost exactly to a write between its read and its own: a create, when another worker's
   create brought the contact a ticket that is still active; an attach to a pending ticket, when a
   reopening or an update took that ticket off pending; an attach to an open ticket, never.
   */
  lemma {:induction false} LostExactly(db: Db, m: Message, a: Attempt)
    requires Consistent(db)
    ensures var read := Reading(db, a);
            match ActiveTicket(read, m.contact)
            case None =>
              Answer(db, m, a).None? <==> a.newId !in Writing(db, a).tickets && Beaten(read, a.during, m.contact)
            case Some(id) =>
              Answer(db, m, a).None? <==> IsPending(read, id) && TakenOffPending(read, a.during, id)
  {
    var read, at := Reading(db, a), Writing(db, a);
    AttemptKeepsConsistent(db, m, a);
    assert a.during[..|a.during|] == a.during;
    match ActiveTicket(read, m.contact)
    case None =>
      if HasActive(at, m.contact) {
        var id :| id in at.tickets && HoldsActive(at, id, m.contact);
        if id in read.tickets {
          RunNeverReactivates(read, a.during, id);
          assert HoldsActive(read, id, m.contact);
        }
        var k := WhoInserted(read, a.during, id, m.contact);
      }
    case Some(id) =>
      RunNeverReactivates(read, a.during, id);
      if IsPending(read, id) && !IsPending(at, id) {
        var k := WhoTookOffPending(read, a.during, id);
      }
  }

  /** The three attempts run out only when every one of them was interfered with between read and write. */
  lemma {:induction false} RaceNeedsEveryInterference(db: Db, m: Message, schedule: seq<Attempt>)
    requires Ensure(db, m, schedule).1 == RaceUnresolved
    ensures forall k :: 0 <= k < |schedule| ==> schedule[k].during != []
    decreases |schedule|
  {
    if schedule == [] {
    } else {
      RaceNeedsEveryInterference(After(db, m, schedule[0]), m, schedule[1..]);
      assert forall k :: 0 < k < |schedule| ==> schedule[k] == schedule[1..][k - 1];
    }
  }

  predicate ByLinkers(writes: seq<Write>) {
    forall w :: w in writes ==> w.LinkCreate? || w.LinkReopen? || w.LinkAttach?
  }

  /** Linkers never pause or finish a ticket: an open one stays open while only they write. */
  lemma {:induction false} LinkersKeepOpen(db: Db, writes: seq<Write>, id: Id)
    requires ByLinkers(writes) && id in db.tickets
    ensures id in Run(db, writes).tickets && Run(db, writes).tickets[id].contact == db.tickets[id].contact
    ensures db.tickets[id].status == Open ==> Run(db, writes).tickets[id].status == Open
    ensures db.tickets[id].status == Pending ==> IsActive(Run(db, writes).tickets[id].status)
    ensures !IsActive(db.tickets[id].status) ==> Run(db, writes).tickets[id].status == db.tickets[id].status
  {
    if writes == [] {
    } else {
      LinkersKeepOpen(db, writes[..|writes| - 1], id);
    }
  }

  /** A ticket that linkers alone brought a contact is open. */
  lemma {:induction false} LinkersBringOpen(db: Db, writes: seq<Write>, contact: Id)
    requires ByLinkers(writes) && !HasActive(db, contact)
    ensures forall id :: HoldsActive(Run(db, writes), id, contact) ==> Run(db, writes).tickets[id].status == Open
  {
    if writes == [] {
    } else {
      var sofar, w := Run(db, writes[..|writes| - 1]), writes[|writes| - 1];
      LinkersBringOpen(db, writes[..|writes| - 1], contact);
      CommitFrame(sofar, w);
      forall id | HoldsActive(Commit(sofar, w), id, contact)
        ensures Commit(sofar, w).tickets[id].status == Open
      {
        assert id in sofar.tickets ==> HoldsActive(sofar, id, contact);
      }
    }
  }

  /** Among linkers alone, a lost attempt leaves the contact an open ticket ... */
  lemma {:induction false} LinkersLossLeavesOpen(db: Db, m: Message, a: Attempt) returns (id: Id)
    requires ByLinkers(a.during) && Answer(db, m, a).None?
    ensures HoldsActive(After(db, m, a), id, m.contact) && After(db, m, a).tickets[id].status == Open
  {
    match ActiveTicket(Reading(db, a), m.contact)
    case None =>
      LinkersBringOpen(Reading(db, a), a.during, m.contact);
      id :| id in Writing(db, a).tickets && HoldsActive(Writing(db, a), id, m.contact);
    case Some(found) =>
      LinkersKeepOpen(Reading(db, a), a.during, found);
      id := found;
  }

  /** ... which the next attempt attaches to with nothing left to lose. */
  lemma {:induction false} OpenTicketAnswers(db: Db, m: Message, a: Attempt, id: Id)
    requires Consistent(db) && HoldsActive(db, id, m.contact) && db.tickets[id].status == Open
    requires ByLinkers(a.before)
    ensures Answer(db, m, a).Some?
  {
    LinkersKeepOpen(db, a.before, id);
    RunKeepsConsistent(db, a.before);
    ActiveTicketIs(Reading(db, a), m.contact, id);
  }

  /** Linker workers racing each other alone never need a third attempt, however many there are. */
  lemma {:induction false} LinkersAloneNeedTwo(db: Db, m: Message, schedule: seq<Attempt>)
    requires Consistent(db) && |schedule| >= 2
    requires forall a :: a in schedule ==> ByLinkers(a.before) && ByLinkers(a.during)
    ensures Ensure(db, m, schedule).1 != RaceUnresolved
  {
    var a, b := schedule[0], schedule[1];
    assert a in schedule && b in schedule && schedule[1..][0] == b;
    if Answer(db, m, a).None? {
      AttemptKeepsConsistent(db, m, a);
      var id := LinkersLossLeavesOpen(db, m, a);
      OpenTicketAnswers(After(db, m, a), m, b, id);
    }
  }

  ghost function FreshId(taken: set<Id>): (id: Id)
    ensures forall i :: i in taken ==> i < id
  {
    if taken == {} then 0
    else
      var one :| one in taken;
      var rest := FreshId(taken - {one});
      assert taken == (taken - {one}) + {one};
      if one < rest then rest else one + 1
  }

  /**
   With an agent finishing each winner in between, no bound on the attempts is enough: for every state,
   every message and every number of attempts there is an interference that exhausts them. "Never throws
   a race" is therefore a promise about likelihood; the two lemmas above say when it is a certainty.
   */
  lemma {:induction false} EveryBoundCanBeExhausted(db: Db, m: Message, attempts: nat) returns (schedule: seq<Attempt>)
    requires Consistent(db)
    ensures |schedule| == attempts && Ensure(db, m, schedule).1 == RaceUnresolved
    decreases attempts
  {
    schedule := [];
    if attempts > 0 {
      var a := LosingAttempt(db, m);
      AttemptKeepsConsistent(db, m, a);
      var rest := EveryBoundCanBeExhausted(After(db, m, a), m, attempts - 1);
      schedule := [a] + rest;
      assert schedule[1..] == rest;
    }
  }

  /** An agent closes what is active before the read, and another worker creates before the write. */
  lemma {:induction false} LosingAttempt(db: Db, m: Message) returns (a: Attempt)
    requires Consistent(db)
    ensures Answer(db, m, a).None?
  {
    var unused := FreshId(db.tickets.Keys);
    var closing := ClosingWrites(db, m.contact);
    a := Attempt(closing, unused + 1, [LinkCreate(unused, m.contact, m.conversation)]);
    RunOne(Reading(db, a), a.during[0]);
    CreateWins(Reading(db, a), unused, m);
  }

  lemma CreateWins(db: Db, id: Id, m: Message)
    requires id !in db.tickets && !HasActive(db, m.contact)
    ensures var after := Commit(db, LinkCreate(id, m.contact, m.conversation));
            HasActive(after, m.contact) && after.tickets.Keys == db.tickets.Keys + {id}
  {
    assert HoldsActive(Commit(db, LinkCreate(id, m.contact, m.conversation)), id, m.contact);
  }

  lemma {:induction false} ClosingWrites(db: Db, contact: Id) returns (closing: seq<Write>)
    requires OneActivePerContact(db)
    ensures !HasActive(Run(db, closing), contact) && Run(db, closing).tickets.Keys == db.tickets.Keys
  {
    closing := [];
    if HasActive(db, contact) {
      var id := ActiveTicket(db, contact).value;
      closing := [Update(id, db.tickets[id], Some(Closed), None, ByAgent)];
      RunOne(db, closing[0]);
      CloseLeavesNone(db, id, contact);
    }
  }

  lemma CloseLeavesNone(db: Db, id: Id, contact: Id)
    requires OneActivePerContact(db) && HoldsActive(db, id, contact)
    ensures var after := Commit(db, Update(id, db.tickets[id], Some(Closed), None, ByAgent));
            after.tickets.Keys == db.tickets.Keys && !HasActive(after, contact)
  {
    var after := Commit(db, Update(id, db.tickets[id], Some(Closed), None, ByAgent));
    forall i | i in after.tickets
      ensures !HoldsActive(after, i, contact)
    {
      assert i != id ==> !HoldsActive(db, i, contact);
    }
  }

  // --- Bursts -----------------------------------------------------------------------------------

  function Creates(ids: seq<Id>, m: Message): (writes: seq<Write>)
    ensures |writes| == |ids| && forall k :: 0 <= k < |ids| ==> writes[k] == LinkCreate(ids[k], m.contact, m.conversation)
  {
    seq(|ids|, k requires 0 <= k < |ids| => LinkCreate(ids[k], m.contact, m.conversation))
  }

  /**
   However many workers read "no active ticket" at the same instant, their inserts create exactly one
   ticket, the first to commit; every other consumes a number and writes nothing.
   */
  lemma {:induction false} BurstCreatesOne(db: Db, m: Message, ids: seq<Id>)
    requires !HasActive(db, m.contact) && ids != []
    requires forall k :: 0 <= k < |ids| ==> ids[k] !in db.tickets
    requires forall j, k :: 0 <= j < k < |ids| ==> ids[j] != ids[k]
    ensures var after := Run(db, Creates(ids, m));
            && after.tickets == db.tickets[ids[0] := NewTicket(db.nextNumber, m.contact, m.conversation)]
            && after.nextNumber == db.nextNumber + |ids|
  {
    var n := |ids| - 1;
    assert Creates(ids, m)[..n] == Creates(ids[..n], m);
    if n > 0 {
      BurstCreatesOne(db, m, ids[..n]);
      assert HoldsActive(Run(db, Creates(ids[..n], m)), ids[0], m.contact);
    } else {
      assert Run(db, Creates(ids[..n], m)) == db;
    }
  }

  // --- Redelivery -------------------------------------------------------------------------------

  predicate Quiet(a: Attempt) { a.before == [] && a.during == [] }

  /** An undisturbed call: which ticket answers, and when it writes nothing at all. */
  lemma {:induction false} UndisturbedCall(db: Db, m: Message, schedule: seq<Attempt>, id: Id)
    requires Consistent(db) && schedule != [] && Quiet(schedule[0]) && schedule[0].newId !in db.tickets
    requires id in db.tickets
    ensures var (after, r) := Ensure(db, m, schedule);
            && (OnTicket(r, id) <==> HoldsActive(db, id, m.contact))
            && (r.Created? <==> !HasActive(db, m.contact))
            && (r.Attached? <==> HasActive(db, m.contact))
            && (HoldsActive(db, id, m.contact) ==>
                  (after == db <==> db.tickets[id].status == Open && db.tickets[id].conversation == Some(m.conversation)))
  {
    if HoldsActive(db, id, m.contact) {
      ActiveTicketIs(db, m.contact, id);
      assert db.tickets[id := db.tickets[id]] == db.tickets;
      assert db.log[id] + [] == db.log[id];
      assert db.log[id := db.log[id]] == db.log;
      assert |db.log[id] + LinkedEvents(Some(m.conversation))| > |db.log[id]|;
    }
  }

  /** A ticket that is there stays there, with its contact, through lost attempts and up to any attempt's reading. */
  lemma {:induction false} TicketStays(db: Db, m: Message, schedule: seq<Attempt>, k: nat, id: Id)
    requires Consistent(db) && k <= |schedule| && id in db.tickets
    ensures var start := StateBefore(db, m, schedule, k);
            && Consistent(start) && id in start.tickets && start.tickets[id].contact == db.tickets[id].contact
    decreases k
  {
    if k > 0 {
      AttemptKeepsTicket(db, m, schedule[0], id);
      TicketStays(After(db, m, schedule[0]), m, schedule[1..], k - 1, id);
    }
  }

  lemma {:induction false} AttemptKeepsTicket(db: Db, m: Message, a: Attempt, id: Id)
    requires Consistent(db) && id in db.tickets
    ensures Consistent(After(db, m, a)) && id in After(db, m, a).tickets
    ensures After(db, m, a).tickets[id].contact == db.tickets[id].contact
  {
    AttemptKeepsConsistent(db, m, a);
    RunNeverReactivates(db, a.before, id);
    RunNeverReactivates(Reading(db, a), a.during, id);
    CommitFrame(Writing(db, a), AttemptWrite(Reading(db, a), m, a.newId));
  }

  /** An attempt that answers with a ticket already there found it active at its reading. */
  lemma {:induction false} LandsExactly(start: Db, m: Message, a: Attempt, id: Id)
    requires Consistent(start) && id in start.tickets && Answer(start, m, a).Some?
    ensures OnTicket(Answer(start, m, a).value, id) <==> HoldsActive(Reading(start, a), id, m.contact)
  {
    AttemptKeepsConsistent(start, m, a);
    RunNeverReactivates(start, a.before, id);
    RunNeverReactivates(Reading(start, a), a.during, id);
    if HoldsActive(Reading(start, a), id, m.contact) {
      ActiveTicketIs(Reading(start, a), m.contact, id);
    }
  }

  /**
   "The same message yields the same ticket" is decided by the ticket's status at the redelivery: after a
   first delivery and any writes since, a redelivery, whatever interferes with either, lands on the same
   ticket exactly when one of its attempts answers, the `k`-th, and the ticket is the contact's active one
   when that attempt reads. Undisturbed, that is whether the ticket is still active.
   */
  lemma {:induction false} RedeliverySameTicket(db: Db, m: Message, first: seq<Attempt>, since: seq<Write>, second: seq<Attempt>)
      returns (k: nat)
    requires Consistent(db)
    requires Ensure(db, m, first).1.Created? || Ensure(db, m, first).1.Attached?
    ensures var (delivered, r) := Ensure(db, m, first);
            var later := Run(delivered, since);
            && r.ticket in later.tickets && k <= |second| && FirstLost(later, m, second, k)
            && (OnTicket(Ensure(later, m, second).1, r.ticket) <==>
                  k < |second| && HoldsActive(Reading(StateBefore(later, m, second, k), second[k]), r.ticket, m.contact))
            && (second != [] && Quiet(second[0]) ==>
                  k == 0
                  && (HoldsActive(Reading(StateBefore(later, m, second, k), second[k]), r.ticket, m.contact)
                      <==> IsActive(later.tickets[r.ticket].status)))
  {
    var (delivered, r) := Ensure(db, m, first);
    var j := EnsureMeaning(db, m, first);
    EnsureKeepsConsistent(db, m, first);
    assert r.ticket in delivered.tickets && delivered.tickets[r.ticket].contact == Some(m.contact);
    RunKeepsConsistent(delivered, since);
    RunNeverReactivates(delivered, since, r.ticket);
    k := RedeliveredLands(Run(delivered, since), m, second, r.ticket);
  }

  lemma {:induction false} RedeliveredLands(later: Db, m: Message, second: seq<Attempt>, id: Id) returns (k: nat)
    requires Consistent(later) && id in later.tickets && later.tickets[id].contact == Some(m.contact)
    ensures k <= |second| && FirstLost(later, m, second, k)
    ensures OnTicket(Ensure(later, m, second).1, id) <==>
              k < |second| && HoldsActive(Reading(StateBefore(later, m, second, k), second[k]), id, m.contact)
    ensures second != [] && Quiet(second[0]) ==>
              k == 0 && (HoldsActive(Reading(later, second[0]), id, m.contact) <==> IsActive(later.tickets[id].status))
  {
    k := EnsureMeaning(later, m, second);
    if k < |second| {
      TicketStays(later, m, second, k, id);
      LandsExactly(StateBefore(later, m, second, k), m, second[k], id);
    }
    if second != [] && Quiet(second[0]) {
      LostExactly(later, m, second[0]);
      assert StateBefore(later, m, second, 0) == later;
    }
  }

  /** So one message can be `created` twice: its ticket is resolved, then the job is redelivered. */
  lemma {:induction false} OneMessageCreatedTwice()
    ensures var m := Message(true, 70, 7);
            var (first, r) := Ensure(EMPTY, m, [Attempt([], 1, [])]);
            && Consistent(EMPTY)
            && r == Created(1, 1)
            && 1 in first.tickets
            && var resolve := Update(1, first.tickets[1], Some(Resolved), None, ByAgent);
               Ensure(Run(first, [resolve]), m, [Attempt([], 2, [])]).1 == Created(2, 2)
  {
    EmptyConsistent();
  }
}
