/**
 Rotation: who takes a ticket that no rule claimed, or why nobody does.

 The candidate query is modelled by what it returns: one row per eligible user, in the order of its
 `ORDER BY`. The resolver's scan of that listing is the method; the theorems restate its answer over
 the stored users and tickets.
 */
module Rotation {
  import opened Common
  import opened Tickets
  import RoutingRules

  const DEFAULT_MAX_CONCURRENT_TICKETS: nat := 5
  const PRESENCE_WINDOW_MS: int := 15 * 60 * 1000

  /** Everything the resolver reads: users, ticket rows, the tenant's default cap, the scope, the cursor, the clock. */
  datatype Pool = Pool(
    people: RoutingRules.People,
    tickets: map<Id, Ticket>,
    tenantDefault: Option<nat>,
    team: Option<Id>,
    cursor: Option<Id>,
    now: int)

  datatype CandidateRow = CandidateRow(userId: Id, cap: nat, activeCount: nat)

  datatype Decision = Take(user: Id) | Nobody(reason: DeferReason)

  // --- Eligibility and load ---------------------------------------------------------------------

  predicate InScope(p: Pool, u: Id) {
    u in p.people && p.people[u].active
    && (if p.team.Some? then p.team.value in p.people[u].teams else p.people[u].agent)
  }

  predicate Eligible(p: Pool, u: Id) {
    InScope(p, u) && p.people[u].available
    && p.people[u].lastSeenAt.Some? && p.people[u].lastSeenAt.value > p.now - PRESENCE_WINDOW_MS
  }

  function Held(tickets: map<Id, Ticket>, u: Id): set<Id> {
    set id | id in tickets && tickets[id].user == Some(u) && IsActive(tickets[id].status)
  }

  function ActiveCount(tickets: map<Id, Ticket>, u: Id): nat { |Held(tickets, u)| }

  function Cap(p: Pool, u: Id): nat
    requires u in p.people
  {
    match p.people[u].maxConcurrentTickets
    case Some(own) => own
    case None => if p.tenantDefault.Some? then p.tenantDefault.value else DEFAULT_MAX_CONCURRENT_TICKETS
  }

  function RowFor(p: Pool, u: Id): CandidateRow
    requires u in p.people
  {
    CandidateRow(u, Cap(p, u), ActiveCount(p.tickets, u))
  }

  predicate AfterCursor(cursor: Option<Id>, u: Id) { cursor.Some? && u > cursor.value }

  /** `ORDER BY "activeCount" ASC, coalesce(id > cursor, false) DESC, id ASC`. */
  predicate Precedes(cursor: Option<Id>, a: CandidateRow, b: CandidateRow) {
    || a.activeCount < b.activeCount
    || (a.activeCount == b.activeCount
        && (if AfterCursor(cursor, a.userId) == AfterCursor(cursor, b.userId) then a.userId < b.userId
            else AfterCursor(cursor, a.userId)))
  }

  ghost predicate IsListing(p: Pool, listing: seq<CandidateRow>) {
    && (forall row :: row in listing <==> Eligible(p, row.userId) && row == RowFor(p, row.userId))
    && (forall i, j :: 0 <= i < j < |listing| ==> Precedes(p.cursor, listing[i], listing[j]))
  }

  // --- The resolver -----------------------------------------------------------------------------

  function FirstUnderCap(listing: seq<CandidateRow>): (k: nat)
    ensures k <= |listing| && (k < |listing| ==> listing[k].activeCount < listing[k].cap)
    ensures forall j :: 0 <= j < k ==> listing[j].activeCount >= listing[j].cap
  {
    if listing == [] || listing[0].activeCount < listing[0].cap then 0 else 1 + FirstUnderCap(listing[1..])
  }

  function Explain(listing: seq<CandidateRow>, inScope: nat): DeferReason {
    if listing != [] then AllAtCapacity else if inScope > 0 then NoneAvailable else NoCandidatePool
  }

  function ScopeCount(p: Pool): nat { |set u | u in p.people && InScope(p, u)| }

  function Resolve(p: Pool, listing: seq<CandidateRow>): Decision {
    var k := FirstUnderCap(listing);
    if k < |listing| then Take(listing[k].userId) else Nobody(Explain(listing, ScopeCount(p)))
  }

  /** The declarative choice: eligible, under cap, and ahead of every other such user. */
  ghost predicate IsChoice(p: Pool, u: Id) {
    && Eligible(p, u) && ActiveCount(p.tickets, u) < Cap(p, u)
    && forall v :: Eligible(p, v) && ActiveCount(p.tickets, v) < Cap(p, v) && v != u ==>
         Precedes(p.cursor, RowFor(p, u), RowFor(p, v))
  }

  /**
   Whatever listing the query returns, the answer is the declarative one: the user who is the choice, or
   the first reason in the published precedence, each exactly when its condition holds of the stored rows.
   */
  lemma {:induction false} ResolveMeaning(p: Pool, listing: seq<CandidateRow>)
    requires IsListing(p, listing)
    ensures forall u :: Resolve(p, listing) == Take(u) <==> IsChoice(p, u)
    ensures Resolve(p, listing) == Nobody(AllAtCapacity) <==>
              (exists u :: Eligible(p, u)) && forall u :: Eligible(p, u) ==> ActiveCount(p.tickets, u) >= Cap(p, u)
    ensures Resolve(p, listing) == Nobody(NoneAvailable) <==>
              (forall u :: !Eligible(p, u)) && exists u :: InScope(p, u)
    ensures Resolve(p, listing) == Nobody(NoCandidatePool) <==> forall u :: !InScope(p, u)
  {
    var k := FirstUnderCap(listing);
    assert forall u :: Eligible(p, u) ==> RowFor(p, u) in listing;
    assert listing == [] <==> forall u :: !Eligible(p, u) by {
      assert listing != [] ==> listing[0] in listing;
    }
    ScopeCountZero(p);
    if k < |listing| {
      TakeMeaning(p, listing, k);
    } else {
      forall u | Eligible(p, u)
        ensures ActiveCount(p.tickets, u) >= Cap(p, u)
      {
        var j :| 0 <= j < |listing| && listing[j] == RowFor(p, u);
      }
    }
  }

  lemma ScopeCountZero(p: Pool)
    ensures ScopeCount(p) > 0 <==> exists u :: InScope(p, u)
  {
    var scope := set u | u in p.people && InScope(p, u);
    if u :| InScope(p, u) {
      assert u in scope;
    } else {
      assert scope == {};
    }
  }

  lemma {:induction false} TakeMeaning(p: Pool, listing: seq<CandidateRow>, k: nat)
    requires IsListing(p, listing) && k == FirstUnderCap(listing) && k < |listing|
    ensures IsChoice(p, listing[k].userId)
    ensures forall u :: IsChoice(p, u) ==> u == listing[k].userId
  {
  }

  method ResolveFallbackAssignment(p: Pool, listing: seq<CandidateRow>) returns (decision: Decision)
    ensures decision == Resolve(p, listing)
  {
    for k := 0 to |listing|
      invariant forall j :: 0 <= j < k ==> listing[j].activeCount >= listing[j].cap
    {
      if listing[k].activeCount < listing[k].cap {
        assert FirstUnderCap(listing) == k;
        return Take(listing[k].userId);
      }
    }
    return Nobody(Explain(listing, ScopeCount(p)));
  }

  // --- Load-based, and round-robin when loads are equal -----------------------------------------

  /** Nobody under cap is less loaded than the choice. */
  lemma LeastLoaded(p: Pool, u: Id, v: Id)
    requires IsChoice(p, u) && Eligible(p, v) && ActiveCount(p.tickets, v) < Cap(p, v)
    ensures ActiveCount(p.tickets, u) <= ActiveCount(p.tickets, v)
  {
  }

  /** At equal load the choice is the next id round the ring: the smallest past the cursor, else the smallest. */
  lemma NextInRing(p: Pool, u: Id, v: Id)
    requires IsChoice(p, u) && Eligible(p, v) && ActiveCount(p.tickets, v) < Cap(p, v)
    requires ActiveCount(p.tickets, u) == ActiveCount(p.tickets, v)
    ensures AfterCursor(p.cursor, v) ==> AfterCursor(p.cursor, u) && u <= v
    ensures !AfterCursor(p.cursor, v) && !AfterCursor(p.cursor, u) ==> u <= v
  {
  }

  predicate Takeable(t: Ticket) { IsActive(t.status) && t.user.None? && t.team.None? }

  /** Giving an active, unheld ticket to `u` raises that load by one and moves no other. */
  lemma TakingRaisesOneLoad(db: Db, id: Id, u: Id, v: Id)
    requires id in db.tickets && Takeable(db.tickets[id])
    ensures var after := Commit(db, RouteAssign(id, Some(u), None)).tickets;
            ActiveCount(after, v) == ActiveCount(db.tickets, v) + (if v == u then 1 else 0)
  {
    var after := Commit(db, RouteAssign(id, Some(u), None)).tickets;
    if v == u {
      assert Held(after, v) == Held(db.tickets, v) + {id};
    } else {
      assert Held(after, v) == Held(db.tickets, v);
    }
  }

  function AssignAll(ids: seq<Id>, u: Id): (writes: seq<Write>)
    ensures |writes| == |ids|
    ensures forall k :: 0 <= k < |ids| ==> writes[k] == RouteAssign(ids[k], Some(u), None)
  {
    seq(|ids|, k requires 0 <= k < |ids| => RouteAssign(ids[k], Some(u), None))
  }

  /**
   The cap is exact when one job decides and writes before the next decides (`ids` of length one). When
   `n` jobs decide on the same reading, the chosen user ends exactly `n` heavier: over the cap by at
   most the other `n - 1`.
   */
  lemma {:induction false} ConcurrentOvershoot(p: Pool, db: Db, ids: seq<Id>, u: Id)
    requires p.tickets == db.tickets && IsChoice(p, u)
    requires forall k :: 0 <= k < |ids| ==> ids[k] in db.tickets && Takeable(db.tickets[ids[k]])
    requires forall j, k :: 0 <= j < k < |ids| ==> ids[j] != ids[k]
    ensures ActiveCount(Run(db, AssignAll(ids, u)).tickets, u) == ActiveCount(db.tickets, u) + |ids|
    ensures ids != [] ==> ActiveCount(Run(db, AssignAll(ids, u)).tickets, u) <= Cap(p, u) + |ids| - 1
    ensures forall t :: t in db.tickets && t !in ids ==>
              t in Run(db, AssignAll(ids, u)).tickets && Run(db, AssignAll(ids, u)).tickets[t] == db.tickets[t]
  {
    if ids == [] {
      assert Run(db, AssignAll(ids, u)) == db;
    } else {
      var n := |ids| - 1;
      assert AssignAll(ids, u)[..n] == AssignAll(ids[..n], u);
      ConcurrentOvershoot(p, db, ids[..n], u);
      var sofar := Run(db, AssignAll(ids[..n], u));
      assert ids[n] !in ids[..n];
      TakingRaisesOneLoad(sofar, ids[n], u, u);
    }
  }

  // --- Fairness over a round --------------------------------------------------------------------

  /** Loads alone: `u` is what rotation takes when everyone in `loads` is eligible. */
  ghost predicate Picks(loads: map<Id, nat>, caps: map<Id, nat>, cursor: Option<Id>, u: Id)
    requires caps.Keys == loads.Keys
  {
    && u in loads && loads[u] < caps[u]
    && forall v :: v in loads && loads[v] < caps[v] && v != u ==>
         Precedes(cursor, CandidateRow(u, caps[u], loads[u]), CandidateRow(v, caps[v], loads[v]))
  }

  /** Each pick lands on the loads the picks before it left, with the cursor on the last one taken. */
  ghost predicate Round(loads: map<Id, nat>, caps: map<Id, nat>, cursor: Option<Id>, picks: seq<Id>)
    requires caps.Keys == loads.Keys
    decreases |picks|
  {
    picks == []
    || (Picks(loads, caps, cursor, picks[0])
        && Round(loads[picks[0] := loads[picks[0]] + 1], caps, Some(picks[0]), picks[1..]))
  }

  function LoadsAfter(loads: map<Id, nat>, picks: seq<Id>): map<Id, nat>
    requires forall u :: u in picks ==> u in loads
    decreases |picks|
  {
    if picks == [] then loads else LoadsAfter(loads[picks[0] := loads[picks[0]] + 1], picks[1..])
  }

  function Low(loads: map<Id, nat>, level: nat): set<Id> { set u | u in loads && loads[u] == level }

  lemma PickIsLow(loads: map<Id, nat>, caps: map<Id, nat>, cursor: Option<Id>, u: Id, level: nat)
    requires caps.Keys == loads.Keys && Picks(loads, caps, cursor, u)
    requires forall v :: v in loads ==> loads[v] >= level && caps[v] > level
    requires Low(loads, level) != {}
    ensures u in Low(loads, level)
  {
    var waiting :| waiting in Low(loads, level);
    if waiting != u {
      assert Precedes(cursor, CandidateRow(u, caps[u], loads[u]), CandidateRow(waiting, caps[waiting], loads[waiting]));
    }
  }

  lemma TakenLeavesLow(loads: map<Id, nat>, u: Id, level: nat)
    requires u in Low(loads, level)
    requires forall v :: v in loads ==> loads[v] == level || loads[v] == level + 1
    ensures var next := loads[u := loads[u] + 1];
            && next.Keys == loads.Keys
            && Low(next, level) == Low(loads, level) - {u}
            && forall v :: v in next ==> next[v] == level || next[v] == level + 1
  {
  }

  /** A round takes exactly the agents at the lower level, each once. */
  lemma {:induction false} RoundTakesLow(loads: map<Id, nat>, caps: map<Id, nat>, cursor: Option<Id>, picks: seq<Id>, level: nat)
    requires caps.Keys == loads.Keys && Round(loads, caps, cursor, picks)
    requires forall v :: v in loads ==> loads[v] == level || loads[v] == level + 1
    requires forall v :: v in loads ==> caps[v] > level
    requires |picks| == |Low(loads, level)|
    ensures multiset(picks) == multiset(Low(loads, level))
    decreases |picks|
  {
    if picks == [] {
    } else {
      var u := picks[0];
      PickIsLow(loads, caps, cursor, u, level);
      TakenLeavesLow(loads, u, level);
      RoundTakesLow(loads[u := loads[u] + 1], caps, Some(u), picks[1..], level);
      assert picks == [u] + picks[1..];
    }
  }

  /** Every load grows by the number of times its agent was taken. */
  lemma {:induction false} LoadsCountPicks(loads: map<Id, nat>, picks: seq<Id>)
    requires forall u :: u in picks ==> u in loads
    ensures LoadsAfter(loads, picks).Keys == loads.Keys
    ensures forall u :: u in loads ==> LoadsAfter(loads, picks)[u] == loads[u] + multiset(picks)[u]
    decreases |picks|
  {
    if picks == [] {
    } else {
      LoadsCountPicks(loads[picks[0] := loads[picks[0]] + 1], picks[1..]);
      assert picks == [picks[0]] + picks[1..];
    }
  }

  /**
   From equal loads, as many picks as there are agents give each agent exactly one ticket, whatever the
   cursor was: nobody is passed over and nobody is taken twice.
   */
  lemma OneRoundIsFair(loads: map<Id, nat>, caps: map<Id, nat>, cursor: Option<Id>, picks: seq<Id>, level: nat)
    requires caps.Keys == loads.Keys && Round(loads, caps, cursor, picks) && |picks| == |loads|
    requires forall u :: u in loads ==> loads[u] == level && caps[u] > level
    ensures multiset(picks) == multiset(loads.Keys)
    ensures forall u :: u in picks ==> u in loads
    ensures forall u :: u in loads ==> u in LoadsAfter(loads, picks) && LoadsAfter(loads, picks)[u] == level + 1
  {
    assert Low(loads, level) == loads.Keys;
    RoundTakesLow(loads, caps, cursor, picks, level);
    forall u | u in picks
      ensures u in loads
    {
      assert u in multiset(picks);
    }
    LoadsCountPicks(loads, picks);
  }
}
