/**
 The routing job: first usable rule, else rotation, else a deferral with its reason, decided on one
 reading of the ticket and written against whatever the ticket has become.
 */
module TicketRouting {
  import opened Common
  import opened Tickets
  import opened RoutingRules
  import Rotation

  type Id = Tickets.Id

  /** What one job reads besides the ticket: people, rules, facts, and the rotation query's listing. */
  datatype World = World(
    lower: Lowering,
    people: People,
    facts: RoutingRules.Facts,
    rules: seq<RuleRow>,
    candidates: seq<Rotation.CandidateRow>,
    tenantDefault: Option<nat>,
    now: nat)

  datatype SkipReason = AlreadyAssigned | TicketNotActive

  datatype RoutingResult =
    | Routed(rule: Id, user: Option<Id>, team: Option<Id>)
    | FallbackAssigned(taker: Id)
    | RoutingDeferred(reason: DeferReason)
    | Skipped(why: SkipReason)
    /** The error a job raises when its ticket is not visible yet. */
    | TicketNotVisible

  datatype Plan = Skip(why: SkipReason) | ByRule(rule: CompiledRule) | ByRotation(user: Id) | Defer(reason: DeferReason)

  // --- One job ----------------------------------------------------------------------------------

  predicate Held(t: Ticket) { t.user.Some? || t.team.Some? }

  function UserColumn(target: Target): Option<Id> { if target.UserTarget? then Some(target.user) else None }

  function TeamColumn(target: Target): Option<Id> { if target.TeamTarget? then Some(target.team) else None }

  function PoolOf(w: World, tickets: map<Id, Ticket>, cursor: Option<Id>): Rotation.Pool {
    Rotation.Pool(w.people, tickets, w.tenantDefault, None, cursor, w.now)
  }

  function ConditionsOf(rules: seq<CompiledRule>): (c: seq<seq<Condition>>)
    ensures |c| == |rules| && forall i :: 0 <= i < |rules| ==> c[i] == rules[i].conditions
  {
    seq(|rules|, i requires 0 <= i < |rules| => rules[i].conditions)
  }

  /** Only the sources some active rule names are read. */
  function FactsFor(w: World): RoutingRules.Facts {
    Loaded(FactsNeededBy(ConditionsOf(LoadActiveRules(w.rules))), w.facts)
  }

  function PlanFor(row: Ticket, w: World, pool: Rotation.Pool): Plan {
    if !IsActive(row.status) then Skip(TicketNotActive)
    else if Held(row) then Skip(AlreadyAssigned)
    else
      match Selected(w.lower, w.people, FactsFor(w), w.rules)
      case Some(rule) => ByRule(rule)
      case None =>
        match Rotation.Resolve(pool, w.candidates)
        case Take(user) => ByRotation(user)
        case Nobody(reason) => Defer(reason)
  }

  function PlanWrite(id: Id, plan: Plan, now: nat): Option<Write> {
    match plan
    case Skip(_) => None
    case ByRule(rule) => Some(RouteAssign(id, UserColumn(rule.target), TeamColumn(rule.target)))
    case ByRotation(user) => Some(RouteAssign(id, Some(user), None))
    case Defer(reason) => Some(RouteDefer(id, reason, now))
  }

  function After(at: Db, id: Id, plan: Plan, now: nat): Db {
    match PlanWrite(id, plan, now)
    case None => at
    case Some(w) => Commit(at, w)
  }

  /** The compare-and-set loses exactly when somebody holds the ticket by now. */
  function Answer(at: Db, id: Id, plan: Plan): RoutingResult {
    match plan
    case Skip(why) => Skipped(why)
    case ByRule(rule) =>
      if id in at.tickets && !Held(at.tickets[id])
      then Routed(rule.id, UserColumn(rule.target), TeamColumn(rule.target)) else Skipped(AlreadyAssigned)
    case ByRotation(user) =>
      if id in at.tickets && !Held(at.tickets[id]) then FallbackAssigned(user) else Skipped(AlreadyAssigned)
    case Defer(reason) => RoutingDeferred(reason)
  }

  /** A job with nobody else writing. */
  function Route(db: Db, cursor: Option<Id>, id: Id, w: World): (Db, RoutingResult) {
    if id !in db.tickets then (db, TicketNotVisible)
    else
      var plan := PlanFor(db.tickets[id], w, PoolOf(w, db.tickets, cursor));
      (After(db, id, plan, w.now), Answer(db, id, plan))
  }

  class TicketRouter {
    var db: Db
    var cursor: Option<Id>

    constructor (db: Db, cursor: Option<Id>)
      ensures this.db == db && this.cursor == cursor
    {
      this.db, this.cursor := db, cursor;
    }

    /**
     `during` is what others commit between the job's reads and its write. The cursor moves as soon as
     rotation decides, whether or not the assignment then wins.
     */
    method RouteTicket(id: Id, w: World, during: seq<Write>) returns (result: RoutingResult)
      modifies this
      ensures id !in old(db).tickets ==> result == TicketNotVisible && db == old(db) && cursor == old(cursor)
      ensures id in old(db).tickets ==>
                var plan := PlanFor(old(db).tickets[id], w, PoolOf(w, old(db).tickets, old(cursor)));
                var at := Run(old(db), during);
                && db == After(at, id, plan, w.now)
                && result == Answer(at, id, plan)
                && cursor == if plan.ByRotation? then Some(plan.user) else old(cursor)
    {
      if id !in db.tickets {
        return TicketNotVisible;
      }
      var row := db.tickets[id];
      if !IsActive(row.status) {
        db := Run(db, during);
        return Skipped(TicketNotActive);
      }
      if Held(row) {
        db := Run(db, during);
        return Skipped(AlreadyAssigned);
      }
      var matched := FirstUsableMatch(w.lower, w.people, FactsFor(w), LoadActiveRules(w.rules));
      var plan: Plan;
      if matched.Some? {
        plan := ByRule(matched.value);
      } else {
        var decision := Rotation.ResolveFallbackAssignment(PoolOf(w, db.tickets, cursor), w.candidates);
        match decision {
          case Take(user) =>
            cursor := Some(user);
            plan := ByRotation(user);
          case Nobody(reason) =>
            plan := Defer(reason);
        }
      }
      db := Run(db, during);
      result := Answer(db, id, plan);
      db := After(db, id, plan, w.now);
    }
  }

  // --- The declarative specification ------------------------------------------------------------

  /** Loading only what the rules read selects the same rule as loading everything. */
  lemma LazySelection(w: World)
    ensures Selected(w.lower, w.people, FactsFor(w), w.rules) == Selected(w.lower, w.people, w.facts, w.rules)
  {
    var rules := LoadActiveRules(w.rules);
    forall k | 0 <= k < |rules|
      ensures Usable(w.lower, w.people, FactsFor(w), rules[k]) == Usable(w.lower, w.people, w.facts, rules[k])
    {
      LazyFactsSuffice(w.lower, ConditionsOf(rules), k, w.facts);
    }
    SameFirst(w.lower, w.people, FactsFor(w), w.facts, rules);
  }

  lemma {:induction false} SameFirst(lower: Lowering, people: People, f: RoutingRules.Facts, g: RoutingRules.Facts,
                                     rules: seq<CompiledRule>)
    requires forall k :: 0 <= k < |rules| ==> Usable(lower, people, f, rules[k]) == Usable(lower, people, g, rules[k])
    ensures FirstUsable(lower, people, f, rules) == FirstUsable(lower, people, g, rules)
    decreases |rules|
  {
    if rules == [] {
    } else {
      assert Usable(lower, people, f, rules[0]) == Usable(lower, people, g, rules[0]);
      SameFirst(lower, people, f, g, rules[1..]);
    }
  }

  /** The published precedence: someone could take it but for their cap, else someone is in scope, else nobody is. */
  ghost predicate DefersFor(pool: Rotation.Pool, reason: DeferReason) {
    match reason
    case AllAtCapacity =>
      && (exists u :: Rotation.Eligible(pool, u))
      && forall u :: Rotation.Eligible(pool, u) ==> Rotation.ActiveCount(pool.tickets, u) >= Rotation.Cap(pool, u)
    case NoneAvailable => (forall u :: !Rotation.Eligible(pool, u)) && exists u :: Rotation.InScope(pool, u)
    case NoCandidatePool => forall u :: !Rotation.InScope(pool, u)
  }

  /** What the design says the answer is, over the stored rules, users and tickets. */
  ghost predicate Specified(row: Ticket, w: World, stored: set<RuleRow>, pool: Rotation.Pool, r: RoutingResult) {
    var noRule := forall rule :: rule in stored ==> !Candidate(w.lower, w.people, w.facts, rule);
    match r
    case Skipped(why) => if IsActive(row.status) then Held(row) && why == AlreadyAssigned else why == TicketNotActive
    case Routed(id, user, team) =>
      IsActive(row.status) && !Held(row)
      && exists rule :: Wins(w.lower, w.people, w.facts, stored, rule) && rule.id == id
           && user == rule.targetUser && team == (if rule.targetUser.Some? then None else rule.targetTeam)
    case FallbackAssigned(taker) =>
      IsActive(row.status) && !Held(row) && noRule && Rotation.IsChoice(pool, taker)
    case RoutingDeferred(reason) =>
      IsActive(row.status) && !Held(row) && noRule && DefersFor(pool, reason)
    case TicketNotVisible => false
  }

  lemma RoutedBy(w: World, stored: set<RuleRow>, id: Id, user: Option<Id>, team: Option<Id>)
    requires IsListing(stored, w.rules)
    ensures (exists c :: Selected(w.lower, w.people, w.facts, w.rules) == Some(c)
               && c.id == id && user == UserColumn(c.target) && team == TeamColumn(c.target))
            <==> exists rule :: Wins(w.lower, w.people, w.facts, stored, rule) && rule.id == id
                   && user == rule.targetUser && team == (if rule.targetUser.Some? then None else rule.targetTeam)
  {
    SelectedSpecified(w, stored);
  }

  /**
   Routing equals its specification: with the listings the queries return, an undisturbed job answers
   `r` exactly when `r` is what the design prescribes for the stored rows.
   */
  lemma RouteMeetsSpecification(db: Db, cursor: Option<Id>, id: Id, w: World, stored: set<RuleRow>, r: RoutingResult)
    requires id in db.tickets
    requires IsListing(stored, w.rules)
    requires Rotation.IsListing(PoolOf(w, db.tickets, cursor), w.candidates)
    ensures Route(db, cursor, id, w).1 == r <==> Specified(db.tickets[id], w, stored, PoolOf(w, db.tickets, cursor), r)
  {
    var row, pool := db.tickets[id], PoolOf(w, db.tickets, cursor);
    if IsActive(row.status) && !Held(row) {
      LazySelection(w);
      SelectedSpecified(w, stored);
      match r {
        case Routed(rule, user, team) => RoutedBy(w, stored, rule, user, team);
        case FallbackAssigned(taker) =>
          Rotation.ResolveMeaning(pool, w.candidates);
          assert Rotation.Resolve(pool, w.candidates) == Rotation.Take(taker) <==> Rotation.IsChoice(pool, taker);
        case RoutingDeferred(reason) => DeferralSpecified(pool, w.candidates, reason);
        case _ =>
      }
    }
  }

  lemma DeferralSpecified(pool: Rotation.Pool, listing: seq<Rotation.CandidateRow>, reason: DeferReason)
    requires Rotation.IsListing(pool, listing)
    ensures Rotation.Resolve(pool, listing) == Rotation.Nobody(reason) <==> DefersFor(pool, reason)
  {
    Rotation.ResolveMeaning(pool, listing);
  }

  lemma SelectedSpecified(w: World, stored: set<RuleRow>)
    requires IsListing(stored, w.rules)
    ensures Selected(w.lower, w.people, w.facts, w.rules).None? <==>
              forall rule :: rule in stored ==> !Candidate(w.lower, w.people, w.facts, rule)
    ensures forall rule :: Wins(w.lower, w.people, w.facts, stored, rule) ==>
              Selected(w.lower, w.people, w.facts, w.rules) == Compile(rule)
    ensures Selected(w.lower, w.people, w.facts, w.rules).Some? ==>
              exists rule :: Wins(w.lower, w.people, w.facts, stored, rule)
                && Selected(w.lower, w.people, w.facts, w.rules) == Compile(rule)
  {
    forall rule
      ensures Wins(w.lower, w.people, w.facts, stored, rule) ==>
                Selected(w.lower, w.people, w.facts, w.rules) == Compile(rule)
    {
      SelectedWins(w.lower, w.people, w.facts, stored, w.rules, rule);
    }
    SelectedWins(w.lower, w.people, w.facts, stored, w.rules, RuleRow(0, 0, false, None, None, None));
  }

  // --- The published result ---------------------------------------------------------------------

  datatype Reason = DeferralReason(deferral: DeferReason) | SkippedReason(skip: SkipReason)

  datatype PublishedResult = PublishedResult(ruleId: Option<Id>, user: Option<Id>, team: Option<Id>, reason: Option<Reason>)

  function Publish(r: RoutingResult): Option<PublishedResult> {
    match r
    case Routed(rule, user, team) => Some(PublishedResult(Some(rule), user, team, None))
    case FallbackAssigned(taker) => Some(PublishedResult(None, Some(taker), None, None))
    case RoutingDeferred(reason) => Some(PublishedResult(None, None, None, Some(DeferralReason(reason))))
    case Skipped(why) => Some(PublishedResult(None, None, None, Some(SkippedReason(why))))
    case TicketNotVisible => None
  }

  /** The published table: a reason exactly on a deferral or a skip, a rule exactly when one routed, one target exactly when assigned. */
  predicate FollowsTable(r: RoutingResult) {
    && Publish(r).Some?
    && (Publish(r).value.reason.None? <==> r.Routed? || r.FallbackAssigned?)
    && (Publish(r).value.ruleId.Some? <==> r.Routed?)
    && (r.Routed? || r.FallbackAssigned? ==> (Publish(r).value.user.Some? <==> Publish(r).value.team.None?))
  }

  /**
   A job that answers with an assignment left exactly that on the row, to one person or one team; one that
   deferred left the row flagged and unheld; one that skipped left everything alone.
   */
  lemma ResultMatchesRow(db: Db, cursor: Option<Id>, id: Id, w: World)
    requires Consistent(db) && id in db.tickets
    ensures var (after, r) := Route(db, cursor, id, w);
            && FollowsTable(r)
            && Consistent(after) && id in after.tickets && after.tickets[id].status == db.tickets[id].status
            && (r.Routed? || r.FallbackAssigned? ==>
                  after.tickets[id].routing == Assigned && Held(after.tickets[id])
                  && Publish(r) == Some(PublishedResult(if r.Routed? then Some(r.rule) else None,
                                                        after.tickets[id].user, after.tickets[id].team, None)))
            && (r.RoutingDeferred? ==>
                  after.tickets[id].routing == Deferred && !Held(after.tickets[id]) && IsActive(db.tickets[id].status))
            && (r.Skipped? ==> after == db)
  {
    var plan := PlanFor(db.tickets[id], w, PoolOf(w, db.tickets, cursor));
    PlanOutcome(db, id, plan, w.now);
  }

  lemma PlanOutcome(db: Db, id: Id, plan: Plan, now: nat)
    requires Consistent(db) && id in db.tickets && (plan.Skip? || !Held(db.tickets[id]))
    ensures var (after, r) := (After(db, id, plan, now), Answer(db, id, plan));
            && Consistent(after) && id in after.tickets && after.tickets[id].status == db.tickets[id].status
            && (plan.ByRule? || plan.ByRotation? ==>
                  after.tickets[id].routing == Assigned && Held(after.tickets[id])
                  && Publish(r) == Some(PublishedResult(if r.Routed? then Some(r.rule) else None,
                                                        after.tickets[id].user, after.tickets[id].team, None)))
            && (plan.Defer? ==> after.tickets[id].routing == Deferred && !Held(after.tickets[id]))
            && (plan.Skip? ==> after == db)
  {
    if PlanWrite(id, plan, now).Some? {
      CommitKeepsConsistent(db, PlanWrite(id, plan, now).value);
    }
  }

  // --- Redelivery -------------------------------------------------------------------------------

  /** On a row already deferred, any plan that writes appends one event, and a second deferral moves no column. */
  lemma SecondWrite(once: Db, id: Id, plan: Plan, now: nat)
    requires Logged(once) && id in once.tickets && once.tickets[id].routing == Deferred && !plan.Skip?
    requires !Held(once.tickets[id])
    ensures var twice := After(once, id, plan, now);
            && id in twice.log && |twice.log[id]| == |once.log[id]| + 1
            && (plan.Defer? ==>
                  twice.tickets == once.tickets && twice.log[id] == once.log[id] + [AssignmentDeferred(plan.reason)])
  {
    assert once.tickets[id := once.tickets[id]] == once.tickets;
  }

  lemma SettledRowSkips(db: Db, cursor: Option<Id>, id: Id, w: World)
    requires id in db.tickets && (Held(db.tickets[id]) || !IsActive(db.tickets[id].status))
    ensures Route(db, cursor, id, w) ==
              (db, Skipped(if IsActive(db.tickets[id].status) then AlreadyAssigned else TicketNotActive))
  {
  }

  /** A job writes nothing exactly when its ticket is finished or somebody holds it. */
  lemma WritesNothingExactly(db: Db, cursor: Option<Id>, id: Id, w: World)
    requires Logged(db) && id in db.tickets
    ensures Route(db, cursor, id, w).0 == db <==> !IsActive(db.tickets[id].status) || Held(db.tickets[id])
    ensures Route(db, cursor, id, w).1 == Skipped(AlreadyAssigned) <==> IsActive(db.tickets[id].status) && Held(db.tickets[id])
  {
    if IsActive(db.tickets[id].status) && !Held(db.tickets[id]) {
      WriteAppends(db, id, PlanFor(db.tickets[id], w, PoolOf(w, db.tickets, cursor)), w.now);
    } else {
      SettledRowSkips(db, cursor, id, w);
    }
  }

  lemma WriteAppends(db: Db, id: Id, plan: Plan, now: nat)
    requires Logged(db) && id in db.tickets && !Held(db.tickets[id]) && !plan.Skip?
    ensures id in After(db, id, plan, now).log && |After(db, id, plan, now).log[id]| == |db.log[id]| + 1
  {
  }

  /** The rows as a job leaves them that decided on `db` and wrote after `during`. */
  function AfterJob(db: Db, cursor: Option<Id>, id: Id, w: World, during: seq<Write>): Db
    requires id in db.tickets
  {
    After(Run(db, during), id, PlanFor(db.tickets[id], w, PoolOf(w, db.tickets, cursor)), w.now)
  }

  lemma {:induction false} JobKeepsTicket(db: Db, cursor: Option<Id>, id: Id, w: World, during: seq<Write>)
    requires Consistent(db) && id in db.tickets
    ensures Consistent(AfterJob(db, cursor, id, w, during)) && id in AfterJob(db, cursor, id, w, during).tickets
  {
    var plan := PlanFor(db.tickets[id], w, PoolOf(w, db.tickets, cursor));
    RunKeepsConsistent(db, during);
    RunNeverReactivates(db, during, id);
    if PlanWrite(id, plan, w.now).Some? {
      CommitKeepsConsistent(Run(db, during), PlanWrite(id, plan, w.now).value);
      CommitFrame(Run(db, during), PlanWrite(id, plan, w.now).value);
    }
  }

  /** What a redelivered job does to the ticket it meets. */
  ghost predicate RedeliveredRight(later: Db, id: Id, twice: Db, r: RoutingResult)
    requires id in later.tickets && id in later.log
  {
    var row := later.tickets[id];
    && (twice == later <==> !IsActive(row.status) || Held(row))
    && (r == Skipped(AlreadyAssigned) <==> IsActive(row.status) && Held(row))
    && (r.RoutingDeferred? && row.routing == Deferred ==>
          id in twice.log && twice.tickets == later.tickets
          && twice.log[id] == later.log[id] + [AssignmentDeferred(r.reason)])
  }

  lemma RedeliveredOn(later: Db, cursor: Option<Id>, id: Id, w: World)
    requires Consistent(later) && id in later.tickets
    ensures RedeliveredRight(later, id, Route(later, cursor, id, w).0, Route(later, cursor, id, w).1)
  {
    WritesNothingExactly(later, cursor, id, w);
    if IsActive(later.tickets[id].status) && !Held(later.tickets[id]) && later.tickets[id].routing == Deferred {
      SecondWrite(later, id, PlanFor(later.tickets[id], w, PoolOf(w, later.tickets, cursor)), w.now);
    }
  }

  /**
   A job redelivered after any interference and any writes since changes nothing exactly when the ticket is
   then finished or held by somebody, and skips as assigned exactly when it is active and held: what the
   first job answered does not decide it. If it defers a ticket still deferred it moves no column, so the
   ageing clock keeps running, and appends its event.
   */
  lemma {:induction false} Redelivered(db: Db, cursor: Option<Id>, id: Id, w: World, during: seq<Write>, since: seq<Write>,
                                       cursor2: Option<Id>, w2: World)
    requires Consistent(db) && id in db.tickets
    ensures var later := Run(AfterJob(db, cursor, id, w, during), since);
            && id in later.tickets && id in later.log
            && RedeliveredRight(later, id, Route(later, cursor2, id, w2).0, Route(later, cursor2, id, w2).1)
  {
    var once := AfterJob(db, cursor, id, w, during);
    JobKeepsTicket(db, cursor, id, w, during);
    RunKeepsConsistent(once, since);
    RunNeverReactivates(once, since, id);
    RedeliveredOn(Run(once, since), cursor2, id, w2);
  }

  /** Straight after an undisturbed first job, that comes down to whether the first one deferred. */
  lemma RedeliveredAtOnce(db: Db, cursor: Option<Id>, id: Id, w: World, cursor2: Option<Id>, w2: World)
    requires Consistent(db) && id in db.tickets
    ensures var (once, r) := Route(db, cursor, id, w);
            var (twice, r2) := Route(once, cursor2, id, w2);
            && (twice == once <==> !r.RoutingDeferred?)
            && (!r.RoutingDeferred? && IsActive(db.tickets[id].status) ==> r2 == Skipped(AlreadyAssigned))
            && (r2.RoutingDeferred? ==> twice.tickets == once.tickets)
  {
    ResultMatchesRow(db, cursor, id, w);
    RedeliveredOn(Route(db, cursor, id, w).0, cursor2, id, w2);
  }

  /** It does so on the simplest tenant, one with nobody in it: two deliveries, two identical events. */
  lemma DeferredTwice()
    ensures var db := Commit(EMPTY, LinkCreate(1, 7, 70));
            var (once, r) := Route(db, None, 1, NobodyWorld());
            var (twice, r2) := Route(once, None, 1, NobodyWorld());
            && r == RoutingDeferred(NoCandidatePool) == r2
            && 1 in twice.log
            && twice.log[1] == [CreatedEvent, AssignmentDeferred(NoCandidatePool), AssignmentDeferred(NoCandidatePool)]
  {
    var db := Commit(EMPTY, LinkCreate(1, 7, 70));
    var w := NobodyWorld();
    assert Selected(w.lower, w.people, FactsFor(w), w.rules) == None;
    assert forall tickets: map<Id, Ticket> :: Rotation.ScopeCount(PoolOf(w, tickets, None)) == 0 by {
      forall tickets: map<Id, Ticket>
        ensures Rotation.ScopeCount(PoolOf(w, tickets, None)) == 0
      {
        Rotation.ScopeCountZero(PoolOf(w, tickets, None));
      }
    }
  }

  // --- Manual tickets ---------------------------------------------------------------------------

  /**
   When a job's write meets a ticket that a human assignment made `manual`, the row is left alone
   exactly when the job has nothing to write, or wants to assign and somebody holds the ticket. A
   deferral is guarded on `routing_state` alone and always lands.
   */
  lemma ManualSurvivesExactly(at: Db, id: Id, plan: Plan, now: nat)
    requires id in at.tickets && at.tickets[id].routing == Manual
    ensures After(at, id, plan, now).tickets[id] == at.tickets[id] <==>
              plan.Skip? || (!plan.Defer? && Held(at.tickets[id]))
    ensures plan.Defer? ==> After(at, id, plan, now).tickets[id].routing == Deferred
  {
  }

  /** The columns routing owns. */
  predicate SamePlacement(a: Ticket, b: Ticket) {
    a.user == b.user && a.team == b.team && a.routing == b.routing
    && a.deferredReason == b.deferredReason && a.deferredSince == b.deferredSince
  }

  /** The writes that move a manual ticket: a deferral of it, the removal of its holder, or a person assigning it elsewhere. */
  predicate Disturbs(db: Db, w: Write, id: Id)
    requires id in db.tickets
  {
    var row := db.tickets[id];
    match w
    case RouteDefer(t, _, _) => t == id
    case RouteAssign(t, _, _) => t == id && !Held(row)
    case RemoveUser(u) => row.user == Some(u)
    case Assign(t, seen, userField, teamField) =>
      var user, team := FieldAfter(seen.user, userField), FieldAfter(seen.team, teamField);
      t == id && AssignMovesAnything(seen, user, team)
      && (user != row.user || team != row.team || RoutingStateFor(user, team) != Manual)
    case _ => false
  }

  lemma DisturbedExactly(db: Db, w: Write, id: Id)
    requires DeferralConsistent(db) && id in db.tickets && db.tickets[id].routing == Manual
    ensures id in Commit(db, w).tickets
    ensures SamePlacement(Commit(db, w).tickets[id], db.tickets[id]) <==> !Disturbs(db, w, id)
  {
  }

  ghost predicate PlacedAs(db: Db, id: Id, row: Ticket) { id in db.tickets && SamePlacement(db.tickets[id], row) }

  ghost predicate Undisturbed(db: Db, w: Write, id: Id) { id in db.tickets && !Disturbs(db, w, id) }

  ghost predicate KeptThroughout(db: Db, writes: seq<Write>, id: Id, row: Ticket) {
    forall k :: 0 <= k <= |writes| ==> PlacedAs(Run(db, writes[..k]), id, row)
  }

  ghost predicate UndisturbedThroughout(db: Db, writes: seq<Write>, id: Id) {
    forall k :: 0 <= k < |writes| ==> Undisturbed(Run(db, writes[..k]), writes[k], id)
  }

  lemma {:induction false} KeptSnoc(db: Db, writes: seq<Write>, id: Id, row: Ticket)
    requires writes != []
    ensures KeptThroughout(db, writes, id, row) <==>
              KeptThroughout(db, writes[..|writes| - 1], id, row) && PlacedAs(Run(db, writes), id, row)
  {
    var n := |writes| - 1;
    assert writes[..|writes|] == writes;
    forall k | 0 <= k <= n
      ensures writes[..n][..k] == writes[..k]
    {
    }
  }

  lemma {:induction false} UndisturbedSnoc(db: Db, writes: seq<Write>, id: Id)
    requires writes != []
    ensures UndisturbedThroughout(db, writes, id) <==>
              UndisturbedThroughout(db, writes[..|writes| - 1], id)
              && Undisturbed(Run(db, writes[..|writes| - 1]), writes[|writes| - 1], id)
  {
    var n := |writes| - 1;
    forall k | 0 <= k < n
      ensures writes[..n][..k] == writes[..k]
    {
    }
  }

  /**
   Over any run, a manual ticket keeps its holder and its state at every point exactly when no write of
   the run is one of those at the moment it commits; no number of rule or rotation assignments is, while
   somebody holds it.
   */
  lemma {:induction false} ManualKeptExactly(db: Db, writes: seq<Write>, id: Id)
    requires Consistent(db) && id in db.tickets && db.tickets[id].routing == Manual
    ensures KeptThroughout(db, writes, id, db.tickets[id]) <==> UndisturbedThroughout(db, writes, id)
  {
    if writes == [] {
      assert writes[..0] == [];
    } else {
      var n := |writes| - 1;
      ManualKeptExactly(db, writes[..n], id);
      KeptSnoc(db, writes, id, db.tickets[id]);
      UndisturbedSnoc(db, writes, id);
      if KeptThroughout(db, writes[..n], id, db.tickets[id]) {
        RunKeepsConsistent(db, writes[..n]);
        assert writes[..n][..n] == writes[..n];
        assert PlacedAs(Run(db, writes[..n]), id, db.tickets[id]);
        DisturbedExactly(Run(db, writes[..n]), writes[n], id);
      }
    }
  }

  /** Without interference a manual ticket is left alone exactly when it is finished or still held. */
  lemma UndisturbedManual(db: Db, cursor: Option<Id>, id: Id, w: World)
    requires id in db.tickets && db.tickets[id].routing == Manual
    ensures Route(db, cursor, id, w).0.tickets[id] == db.tickets[id] <==>
              !IsActive(db.tickets[id].status) || Held(db.tickets[id])
  {
    ManualSurvivesExactly(db, id, PlanFor(db.tickets[id], w, PoolOf(w, db.tickets, cursor)), w.now);
  }

  function NobodyWorld(): World {
    World(s => s, map[], RoutingRules.Facts(None, None, None, None), [], [], None, 0)
  }

  /**
   "A manual ticket is never touched by routing again" fails by a race: a supervisor assigns between the
   job's read and its deferral, and the ticket ends `deferred` while user 9 holds it.
   */
  lemma StaleDeferralOverwritesManual()
    ensures var db := Commit(EMPTY, LinkCreate(1, 7, 70));
            var plan := PlanFor(db.tickets[1], NobodyWorld(), PoolOf(NobodyWorld(), db.tickets, None));
            var at := Commit(db, Assign(1, db.tickets[1], Set(Some(9)), Absent));
            && at.tickets[1].routing == Manual && at.tickets[1].user == Some(9)
            && After(at, 1, plan, 0).tickets[1].routing == Deferred
            && After(at, 1, plan, 0).tickets[1].user == Some(9)
  {
    var db := Commit(EMPTY, LinkCreate(1, 7, 70));
    var w := NobodyWorld();
    assert Selected(w.lower, w.people, FactsFor(w), w.rules) == None;
    assert PlanFor(db.tickets[1], w, PoolOf(w, db.tickets, None)).Defer?;
  }

  /** One agent, online and idle. */
  function OneAgentWorld(agent: Id): World {
    World(s => s, map[agent := Person(true, true, true, Some(0), None, {})], RoutingRules.Facts(None, None, None, None), [],
          [Rotation.CandidateRow(agent, Rotation.DEFAULT_MAX_CONCURRENT_TICKETS, 0)], None, 0)
  }

  /** It also fails with no race: user 9 is removed, the ticket stays `manual` and unheld, and the next job gives it to user 5. */
  lemma RemovedHolderIsRerouted()
    ensures var db := Commit(EMPTY, LinkCreate(1, 7, 70));
            var claimed := Commit(db, Assign(1, db.tickets[1], Set(Some(9)), Absent));
            var orphaned := Commit(claimed, RemoveUser(9));
            var w := OneAgentWorld(5);
            var (after, r) := Route(orphaned, None, 1, w);
            && orphaned.tickets[1].routing == Manual && !Held(orphaned.tickets[1])
            && Rotation.IsListing(PoolOf(w, orphaned.tickets, None), w.candidates)
            && r == FallbackAssigned(5) && after.tickets[1].routing == Assigned && after.tickets[1].user == Some(5)
  {
    var db := Commit(EMPTY, LinkCreate(1, 7, 70));
    var claimed := Commit(db, Assign(1, db.tickets[1], Set(Some(9)), Absent));
    var orphaned := Commit(claimed, RemoveUser(9));
    var w := OneAgentWorld(5);
    var pool := PoolOf(w, orphaned.tickets, None);
    assert Selected(w.lower, w.people, FactsFor(w), w.rules) == None;
    assert Rotation.Held(orphaned.tickets, 5) == {};
    assert Rotation.RowFor(pool, 5) == w.candidates[0];
    assert Rotation.FirstUnderCap(w.candidates) == 0;
  }

  /**
   A ticket a person released is routed again too: the release writes `pending`, not `manual`, so the
   redelivered job of a ticket rotation once placed places it a second time.
   */
  lemma ReleasedIsRoutedAgain()
    ensures var w := OneAgentWorld(5);
            var (once, r) := Route(Commit(EMPTY, LinkCreate(1, 7, 70)), None, 1, w);
            && 1 in once.tickets
            && var released := Commit(once, Assign(1, once.tickets[1], Set(None), Absent));
               var (twice, r2) := Route(released, Some(5), 1, w);
               && r == FallbackAssigned(5) == r2 && released.tickets[1].routing == Unrouted
               && twice.tickets[1].user == Some(5) && twice != released
  {
    var db, w := Commit(EMPTY, LinkCreate(1, 7, 70)), OneAgentWorld(5);
    OneAgentTakes(db, None);
    var once := Commit(db, RouteAssign(1, Some(5), None));
    OneAgentTakes(Commit(once, Assign(1, once.tickets[1], Set(None), Absent)), Some(5));
  }

  lemma OneAgentTakes(db: Db, cursor: Option<Id>)
    requires Logged(db) && 1 in db.tickets && Rotation.Takeable(db.tickets[1])
    ensures Route(db, cursor, 1, OneAgentWorld(5)) == (Commit(db, RouteAssign(1, Some(5), None)), FallbackAssigned(5))
    ensures Route(db, cursor, 1, OneAgentWorld(5)).0 != db
  {
    var w := OneAgentWorld(5);
    assert Selected(w.lower, w.people, FactsFor(w), w.rules) == None;
    assert Rotation.FirstUnderCap(w.candidates) == 0;
    WritesNothingExactly(db, cursor, 1, w);
  }
}
