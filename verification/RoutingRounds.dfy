/**
 Routing jobs one after another on tickets no rule claims: the resolver's choices, the commits they lead
 to and the cursor they leave, and what a round of them does to everybody's load.
 */
module RoutingRounds {
  import opened Common
  import opened Tickets
  import opened TicketRouting
  import Rotation
  import RoutingRules

  type Id = Tickets.Id

  datatype Job = Job(ticket: Id, world: World)

  function CursorAfter(cursor: Option<Id>, r: RoutingResult): Option<Id> {
    if r.FallbackAssigned? then Some(r.taker) else cursor
  }

  /** The jobs in order, each on the rows and the cursor the one before left. */
  function RouteAll(db: Db, cursor: Option<Id>, jobs: seq<Job>): (Db, seq<RoutingResult>)
    decreases |jobs|
  {
    if jobs == [] then (db, [])
    else
      var (next, r) := Route(db, cursor, jobs[0].ticket, jobs[0].world);
      var (end, rest) := RouteAll(next, CursorAfter(cursor, r), jobs[1..]);
      (end, [r] + rest)
  }

  /**
   What one job meets on a quiet morning: an active ticket nobody holds and no rule matches, the listing
   the query returns, and the same `agents` eligible under the same caps.
   */
  ghost predicate Meets(db: Db, cursor: Option<Id>, j: Job, caps: map<Id, nat>) {
    var pool := PoolOf(j.world, db.tickets, cursor);
    && j.ticket in db.tickets && Rotation.Takeable(db.tickets[j.ticket])
    && RoutingRules.Selected(j.world.lower, j.world.people, FactsFor(j.world), j.world.rules).None?
    && Rotation.IsListing(pool, j.world.candidates)
    && forall u :: (Rotation.Eligible(pool, u) <==> u in caps) && (u in caps ==> Rotation.Cap(pool, u) == caps[u])
  }

  ghost predicate AllMeet(db: Db, cursor: Option<Id>, jobs: seq<Job>, caps: map<Id, nat>)
    decreases |jobs|
  {
    jobs == []
    || (Meets(db, cursor, jobs[0], caps)
        && var (next, r) := Route(db, cursor, jobs[0].ticket, jobs[0].world);
           AllMeet(next, CursorAfter(cursor, r), jobs[1..], caps))
  }

  ghost function Loads(tickets: map<Id, Ticket>, caps: map<Id, nat>): (loads: map<Id, nat>)
    ensures loads.Keys == caps.Keys
  {
    map u | u in caps :: Rotation.ActiveCount(tickets, u)
  }

  function Takers(results: seq<RoutingResult>): seq<Id> {
    if results == [] then []
    else (if results[0].FallbackAssigned? then [results[0].taker] else []) + Takers(results[1..])
  }

  lemma ResolverTakes(pool: Rotation.Pool, listing: seq<Rotation.CandidateRow>, free: Id) returns (taker: Id)
    requires Rotation.IsListing(pool, listing)
    requires Rotation.Eligible(pool, free) && Rotation.ActiveCount(pool.tickets, free) < Rotation.Cap(pool, free)
    ensures Rotation.Resolve(pool, listing) == Rotation.Take(taker) && Rotation.IsChoice(pool, taker)
  {
    Rotation.ResolveMeaning(pool, listing);
    var decision := Rotation.Resolve(pool, listing);
    assert Rotation.InScope(pool, free);
    if decision.Nobody? {
      match decision.reason
      case AllAtCapacity => assert false;
      case NoneAvailable => assert false;
      case NoCandidatePool => assert false;
    }
    taker := decision.user;
  }

  lemma JobAssigns(db: Db, cursor: Option<Id>, j: Job, caps: map<Id, nat>, taker: Id)
    requires Meets(db, cursor, j, caps)
    requires Rotation.Resolve(PoolOf(j.world, db.tickets, cursor), j.world.candidates) == Rotation.Take(taker)
    ensures Route(db, cursor, j.ticket, j.world) == (Commit(db, RouteAssign(j.ticket, Some(taker), None)), FallbackAssigned(taker))
  {
    var pool := PoolOf(j.world, db.tickets, cursor);
    assert PlanFor(db.tickets[j.ticket], j.world, pool) == ByRotation(taker);
  }

  lemma LoadsMove(db: Db, ticket: Id, caps: map<Id, nat>, taker: Id)
    requires ticket in db.tickets && Rotation.Takeable(db.tickets[ticket]) && taker in caps
    ensures Loads(Commit(db, RouteAssign(ticket, Some(taker), None)).tickets, caps)
              == Loads(db.tickets, caps)[taker := Loads(db.tickets, caps)[taker] + 1]
  {
    forall u | u in caps
      ensures Rotation.ActiveCount(Commit(db, RouteAssign(ticket, Some(taker), None)).tickets, u)
                == Rotation.ActiveCount(db.tickets, u) + (if u == taker then 1 else 0)
    {
      Rotation.TakingRaisesOneLoad(db, ticket, taker, u);
    }
  }

  /** The job assigns to whoever the loads and the cursor pick, and only that load moves. */
  ghost predicate Gives(db: Db, cursor: Option<Id>, j: Job, caps: map<Id, nat>, next: Db, taker: Id) {
    && Route(db, cursor, j.ticket, j.world) == (next, FallbackAssigned(taker))
    && Rotation.Picks(Loads(db.tickets, caps), caps, cursor, taker)
    && Loads(next.tickets, caps) == Loads(db.tickets, caps)[taker := Loads(db.tickets, caps)[taker] + 1]
  }

  /** While someone is under the cap, the job gives its ticket away. */
  lemma JobPicks(db: Db, cursor: Option<Id>, j: Job, caps: map<Id, nat>, free: Id) returns (next: Db, taker: Id)
    requires Meets(db, cursor, j, caps)
    requires free in caps && Rotation.ActiveCount(db.tickets, free) < caps[free]
    ensures Gives(db, cursor, j, caps, next, taker)
  {
    var pool := PoolOf(j.world, db.tickets, cursor);
    assert Rotation.Eligible(pool, free);
    taker := ResolverTakes(pool, j.world.candidates, free);
    next := Commit(db, RouteAssign(j.ticket, Some(taker), None));
    JobAssigns(db, cursor, j, caps, taker);
    ChoiceIsPick(pool, caps, taker);
    LoadsMove(db, j.ticket, caps, taker);
  }

  lemma TailMeets(db: Db, cursor: Option<Id>, jobs: seq<Job>, caps: map<Id, nat>, next: Db, taker: Id)
    requires AllMeet(db, cursor, jobs, caps) && jobs != [] && Gives(db, cursor, jobs[0], caps, next, taker)
    ensures AllMeet(next, Some(taker), jobs[1..], caps)
  {
  }

  lemma ChoiceIsPick(pool: Rotation.Pool, caps: map<Id, nat>, u: Id)
    requires Rotation.IsChoice(pool, u)
    requires forall v :: (Rotation.Eligible(pool, v) <==> v in caps) && (v in caps ==> Rotation.Cap(pool, v) == caps[v])
    ensures Rotation.Picks(Loads(pool.tickets, caps), caps, pool.cursor, u)
  {
    var loads := Loads(pool.tickets, caps);
    forall v | v in loads && loads[v] < caps[v] && v != u
      ensures Rotation.Precedes(pool.cursor, Rotation.CandidateRow(u, caps[u], loads[u]),
                                Rotation.CandidateRow(v, caps[v], loads[v]))
    {
      assert Rotation.Eligible(pool, v);
    }
  }

  lemma RouteAllCons(db: Db, cursor: Option<Id>, jobs: seq<Job>, next: Db, taker: Id)
    requires jobs != [] && Route(db, cursor, jobs[0].ticket, jobs[0].world) == (next, FallbackAssigned(taker))
    ensures var (end, rest) := RouteAll(next, Some(taker), jobs[1..]);
            RouteAll(db, cursor, jobs) == (end, [FallbackAssigned(taker)] + rest)
            && Takers([FallbackAssigned(taker)] + rest) == [taker] + Takers(rest)
  {
    var (end, rest) := RouteAll(next, Some(taker), jobs[1..]);
    assert ([FallbackAssigned(taker)] + rest)[1..] == rest;
  }

  ghost predicate MakesARound(loads: map<Id, nat>, caps: map<Id, nat>, cursor: Option<Id>, picks: seq<Id>, after: map<Id, nat>)
    requires caps.Keys == loads.Keys
  {
    && Rotation.Round(loads, caps, cursor, picks)
    && (forall u :: u in picks ==> u in loads)
    && after == Rotation.LoadsAfter(loads, picks)
  }

  /** Every job assigned, and the takers are a round of picks that moves the loads as the commits did. */
  ghost predicate RoundMade(db: Db, cursor: Option<Id>, jobs: seq<Job>, caps: map<Id, nat>) {
    var (end, results) := RouteAll(db, cursor, jobs);
    && |Takers(results)| == |results| == |jobs|
    && MakesARound(Loads(db.tickets, caps), caps, cursor, Takers(results), Loads(end.tickets, caps))
  }

  /** No more jobs than there are agents at the lower of two levels. */
  ghost predicate Balanced(loads: map<Id, nat>, level: nat, jobs: nat) {
    (forall u :: u in loads ==> loads[u] == level || loads[u] == level + 1) && jobs <= |Rotation.Low(loads, level)|
  }

  lemma PickKeepsBalance(loads: map<Id, nat>, caps: map<Id, nat>, cursor: Option<Id>, u: Id, level: nat, jobs: nat)
    requires caps.Keys == loads.Keys && Rotation.Picks(loads, caps, cursor, u) && forall v :: v in caps ==> caps[v] > level
    requires Balanced(loads, level, jobs) && jobs > 0
    ensures Balanced(loads[u := loads[u] + 1], level, jobs - 1)
  {
    assert Rotation.Low(loads, level) != {};
    Rotation.PickIsLow(loads, caps, cursor, u, level);
    Rotation.TakenLeavesLow(loads, u, level);
  }

  lemma SomeoneIsFree(tickets: map<Id, Ticket>, caps: map<Id, nat>, level: nat, jobs: nat) returns (free: Id)
    requires Balanced(Loads(tickets, caps), level, jobs) && jobs > 0 && forall u :: u in caps ==> caps[u] > level
    ensures free in caps && Rotation.ActiveCount(tickets, free) < caps[free]
  {
    var low := Rotation.Low(Loads(tickets, caps), level);
    assert low != {};
    free :| free in low;
  }

  lemma NoJobs(db: Db, cursor: Option<Id>, caps: map<Id, nat>)
    ensures RoundMade(db, cursor, [], caps)
  {
  }

  lemma FirstJob(db: Db, cursor: Option<Id>, jobs: seq<Job>, caps: map<Id, nat>, level: nat) returns (next: Db, taker: Id)
    requires AllMeet(db, cursor, jobs, caps) && jobs != []
    requires forall u :: u in caps ==> caps[u] > level
    requires Balanced(Loads(db.tickets, caps), level, |jobs|)
    ensures Gives(db, cursor, jobs[0], caps, next, taker) && AllMeet(next, Some(taker), jobs[1..], caps)
    ensures Balanced(Loads(next.tickets, caps), level, |jobs| - 1)
  {
    var free := SomeoneIsFree(db.tickets, caps, level, |jobs|);
    next, taker := JobPicks(db, cursor, jobs[0], caps, free);
    TailMeets(db, cursor, jobs, caps, next, taker);
    PickKeepsBalance(Loads(db.tickets, caps), caps, cursor, taker, level, |jobs|);
  }

  /** The jobs' choices are picks, and the commits they lead to move the loads as the picks do. */
  lemma {:induction false} JobsMakeARound(db: Db, cursor: Option<Id>, jobs: seq<Job>, caps: map<Id, nat>, level: nat)
    requires AllMeet(db, cursor, jobs, caps)
    requires forall u :: u in caps ==> caps[u] > level
    requires Balanced(Loads(db.tickets, caps), level, |jobs|)
    ensures RoundMade(db, cursor, jobs, caps)
    decreases |jobs|
  {
    if jobs == [] {
      NoJobs(db, cursor, caps);
    } else {
      var next, taker := FirstJob(db, cursor, jobs, caps, level);
      JobsMakeARound(next, Some(taker), jobs[1..], caps, level);
      OneMoreJob(db, cursor, jobs, caps, next, taker);
    }
  }

  lemma OneMoreJob(db: Db, cursor: Option<Id>, jobs: seq<Job>, caps: map<Id, nat>, next: Db, taker: Id)
    requires jobs != [] && Gives(db, cursor, jobs[0], caps, next, taker)
    requires RoundMade(next, Some(taker), jobs[1..], caps)
    ensures RoundMade(db, cursor, jobs, caps)
  {
    RouteAllCons(db, cursor, jobs, next, taker);
    RoundCons(Loads(db.tickets, caps), caps, cursor, taker, Takers(RouteAll(next, Some(taker), jobs[1..]).1));
  }

  lemma RoundCons(loads: map<Id, nat>, caps: map<Id, nat>, cursor: Option<Id>, u: Id, rest: seq<Id>)
    requires caps.Keys == loads.Keys && Rotation.Picks(loads, caps, cursor, u)
    requires Rotation.Round(loads[u := loads[u] + 1], caps, Some(u), rest)
    requires forall v :: v in rest ==> v in loads
    ensures Rotation.Round(loads, caps, cursor, [u] + rest)
    ensures forall v :: v in [u] + rest ==> v in loads
    ensures Rotation.LoadsAfter(loads, [u] + rest) == Rotation.LoadsAfter(loads[u := loads[u] + 1], rest)
  {
    assert ([u] + rest)[1..] == rest;
  }

  /**
   As many jobs as there are eligible agents, from equal loads and any cursor: every job assigns, each
   agent is given exactly one of the tickets, and every load ends one higher.
   */
  lemma {:induction false} RoundOfJobsIsFair(db: Db, cursor: Option<Id>, jobs: seq<Job>, caps: map<Id, nat>, level: nat)
    requires AllMeet(db, cursor, jobs, caps) && |jobs| == |caps|
    requires forall u :: u in caps ==> Rotation.ActiveCount(db.tickets, u) == level < caps[u]
    ensures var (end, results) := RouteAll(db, cursor, jobs);
            && |Takers(results)| == |results| == |jobs|
            && multiset(Takers(results)) == multiset(caps.Keys)
            && forall u :: u in caps ==> Rotation.ActiveCount(end.tickets, u) == level + 1
  {
    var loads := Loads(db.tickets, caps);
    assert Rotation.Low(loads, level) == caps.Keys;
    assert |caps| == |caps.Keys| && |loads| == |loads.Keys|;
    JobsMakeARound(db, cursor, jobs, caps, level);
    var (end, results) := RouteAll(db, cursor, jobs);
    Rotation.OneRoundIsFair(loads, caps, cursor, Takers(results), level);
    assert forall u :: u in caps ==> Rotation.ActiveCount(end.tickets, u) == Loads(end.tickets, caps)[u];
  }
}
