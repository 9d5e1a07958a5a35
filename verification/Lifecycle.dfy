/**
 The tenant lifecycle: the published graph, which trigger may cause which edge, the clocks each arrival
 starts and each departure stops, and the two jobs that act on an elapsed clock.

 A job reads a clock, works, and only later commits its transition; the commit re-reads the status and
 the edge, not the clock. Every run of steps is therefore an interleaving, in non-decreasing time.
 */
module Lifecycle {
  import opened Common

  datatype Status = Created | Trialing | Active | PastDue | Suspended | Cancelled | Deleted

  datatype Trigger = Timer | UserAction | OperatorAction | BillingEvent | System

  const DAY_MS: nat := 24 * 60 * 60 * 1000
  const TRIAL_DAYS: nat := 14
  const PAST_DUE_GRACE_DAYS: nat := 21
  const CANCELLED_GRACE_DAYS: nat := 7
  const PURGE_AFTER_SUSPENDED_DAYS: nat := 30

  function Transitions(from: Status): set<Status> {
    match from
    case Created => {Trialing, Active}
    case Trialing => {Active, PastDue, Cancelled, Suspended}
    case Active => {PastDue, Cancelled, Suspended}
    case PastDue => {Active, Suspended, Cancelled}
    case Suspended => {Active, Cancelled, Deleted}
    case Cancelled => {Active, Suspended}
    case Deleted => {}
  }

  function EdgeTriggers(from: Status, to: Status): set<Trigger> {
    match (from, to)
    case (Created, Trialing) => {System}
    case (Created, Active) => {System}
    case (Trialing, Active) => {BillingEvent, OperatorAction}
    case (Trialing, PastDue) => {Timer, BillingEvent}
    case (Trialing, Cancelled) => {UserAction, OperatorAction, BillingEvent}
    case (Trialing, Suspended) => {OperatorAction}
    case (Active, PastDue) => {BillingEvent}
    case (Active, Cancelled) => {UserAction, OperatorAction, BillingEvent}
    case (Active, Suspended) => {OperatorAction}
    case (PastDue, Active) => {BillingEvent, OperatorAction}
    case (PastDue, Suspended) => {Timer, OperatorAction}
    case (PastDue, Cancelled) => {UserAction, OperatorAction, BillingEvent}
    case (Suspended, Active) => {BillingEvent, OperatorAction}
    case (Suspended, Cancelled) => {UserAction, OperatorAction, BillingEvent}
    case (Suspended, Deleted) => {Timer}
    case (Cancelled, Active) => {UserAction, OperatorAction, BillingEvent}
    case (Cancelled, Suspended) => {Timer, OperatorAction}
    case _ => {}
  }

  /** The load-time check: the two tables describe one graph. */
  lemma TablesAgree(from: Status, to: Status)
    ensures to in Transitions(from) <==> EdgeTriggers(from, to) != {}
  {
  }

  datatype Refusal = EdgeNotAllowed | TriggerNotAllowed

  function RefuseTransition(from: Status, to: Status, trigger: Trigger): Option<Refusal> {
    if to !in Transitions(from) then Some(EdgeNotAllowed)
    else if trigger in EdgeTriggers(from, to) then None
    else Some(TriggerNotAllowed)
  }

  // --- The row and its clocks -------------------------------------------------------------------

  /**
   A tenant's lifecycle columns. `suspension`, `grace` and `forced` are history: how many suspensions and
   grace periods it has entered, and whether an operator brought the running suspension's purge forward.
   */
  datatype Tenant = Tenant(
    status: Status,
    trialEndsAt: Option<nat>,
    gracePeriodEndsAt: Option<nat>,
    suspendedAt: Option<nat>,
    cancelledAt: Option<nat>,
    purgeAt: Option<nat>,
    deletedAt: Option<nat>,
    suspension: nat,
    grace: nat,
    forced: bool)

  /** Rule 1: leaving a state stops the clock it started. */
  function Leave(t: Tenant): Tenant {
    match t.status
    case Trialing => t.(trialEndsAt := None)
    case PastDue => t.(gracePeriodEndsAt := None)
    case Cancelled => t.(gracePeriodEndsAt := None)
    case Suspended => t.(purgeAt := None)
    case _ => t
  }

  /** Rule 2: arriving in a state starts its own. */
  function Arrive(t: Tenant, to: Status, now: nat): Tenant {
    var moved := t.(status := to);
    match to
    case Trialing => moved.(trialEndsAt := Some(now + TRIAL_DAYS * DAY_MS))
    case PastDue => moved.(gracePeriodEndsAt := Some(now + PAST_DUE_GRACE_DAYS * DAY_MS), grace := t.grace + 1)
    case Cancelled =>
      moved.(cancelledAt := Some(now), gracePeriodEndsAt := Some(now + CANCELLED_GRACE_DAYS * DAY_MS), grace := t.grace + 1)
    case Suspended =>
      moved.(suspendedAt := Some(now), purgeAt := Some(now + PURGE_AFTER_SUSPENDED_DAYS * DAY_MS),
             suspension := t.suspension + 1, forced := false)
    case Deleted => moved.(deletedAt := Some(now), purgeAt := None, gracePeriodEndsAt := None)
    case _ => moved
  }

  predicate Applies(t: Tenant, to: Status, trigger: Trigger) {
    t.status != to && RefuseTransition(t.status, to, trigger).None?
  }

  /** `applyTransition`: already there, or refused, writes nothing. */
  function Transitioned(t: Tenant, to: Status, trigger: Trigger, now: nat): Tenant {
    if Applies(t, to, trigger) then Arrive(Leave(t), to, now) else t
  }

  // --- Steps ------------------------------------------------------------------------------------

  /**
   The row, the rows of its data, and the jobs in flight that have read a clock: whether a sweep saw the
   trial elapsed, which grace period it saw elapsed, and which suspension each purge saw elapsed.
   */
  datatype State = State(
    tenant: Tenant,
    clock: nat,
    trialSeen: bool,
    graceSeen: Option<nat>,
    purging: seq<nat>,
    data: set<nat>)

  datatype Step =
    | Tick(duration: nat)
    /** A request, a webhook or provisioning: any trigger but a timer. */
    | Request(to: Status, trigger: Trigger)
    | SweepReads
    | TrialCommits
    | GraceCommits
    /** The due check before the first delete, and the transition after the last. */
    | PurgeReads
    | PurgeCommits(job: nat)
    /** A batch of the deletion in between. Nothing is read again before it. */
    | PurgeDeletes(job: nat, batch: set<nat>)
    /** The product writing a row of the tenant's data. */
    | Stores(row: nat)
    /** `force`: the purge clock of a suspended tenant is brought forward to now. */
    | Expedite

  predicate TrialDue(t: Tenant, now: nat) { t.status == Trialing && t.trialEndsAt.Some? && t.trialEndsAt.value <= now }

  predicate GraceDue(t: Tenant, now: nat) {
    (t.status == PastDue || t.status == Cancelled) && t.gracePeriodEndsAt.Some? && t.gracePeriodEndsAt.value <= now
  }

  predicate PurgeDue(t: Tenant, now: nat) { t.status == Suspended && t.purgeAt.Some? && t.purgeAt.value <= now }

  function Next(s: State, step: Step): State {
    match step
    case Tick(d) => s.(clock := s.clock + d)
    case Request(to, trigger) =>
      if trigger == Timer then s else s.(tenant := Transitioned(s.tenant, to, trigger, s.clock))
    case SweepReads =>
      s.(trialSeen := TrialDue(s.tenant, s.clock),
         graceSeen := if GraceDue(s.tenant, s.clock) then Some(s.tenant.grace) else None)
    case TrialCommits =>
      if s.trialSeen then s.(tenant := Transitioned(s.tenant, PastDue, Timer, s.clock), trialSeen := false) else s
    case GraceCommits =>
      if s.graceSeen.Some? then s.(tenant := Transitioned(s.tenant, Suspended, Timer, s.clock), graceSeen := None) else s
    case PurgeReads =>
      if PurgeDue(s.tenant, s.clock) then s.(purging := s.purging + [s.tenant.suspension]) else s
    case PurgeCommits(job) =>
      if job >= |s.purging| then s
      else s.(tenant := Transitioned(s.tenant, Deleted, Timer, s.clock), purging := s.purging[..job] + s.purging[job + 1..])
    case PurgeDeletes(job, batch) => if job >= |s.purging| then s else s.(data := s.data - batch)
    case Stores(row) => s.(data := s.data + {row})
    case Expedite =>
      if s.tenant.status == Suspended then s.(tenant := s.tenant.(purgeAt := Some(s.clock), forced := true)) else s
  }

  function Run(s: State, steps: seq<Step>): State {
    if steps == [] then s else Next(Run(s, steps[..|steps| - 1]), steps[|steps| - 1])
  }

  // --- The graph over whole runs ----------------------------------------------------------------

  /** All a step can do to the row: nothing, one published edge, or moving a suspended tenant's purge clock to now. */
  datatype Move = Stay | Edge(to: Status) | Force

  predicate IsMove(t: Tenant, m: Move) {
    match m
    case Stay => true
    case Edge(to) => to in Transitions(t.status) && to != t.status
    case Force => t.status == Suspended
  }

  function Moved(t: Tenant, m: Move, now: nat): Tenant {
    match m
    case Stay => t
    case Edge(to) => Arrive(Leave(t), to, now)
    case Force => t.(purgeAt := Some(now), forced := true)
  }

  lemma AppliesIsEdge(t: Tenant, to: Status, trigger: Trigger)
    ensures Applies(t, to, trigger) ==> to in Transitions(t.status)
  {
  }

  function MoveFor(t: Tenant, to: Status, trigger: Trigger): (m: Move)
    ensures IsMove(t, m)
    ensures forall now :: Transitioned(t, to, trigger, now) == Moved(t, m, now)
  {
    AppliesIsEdge(t, to, trigger);
    if Applies(t, to, trigger) then Edge(to) else Stay
  }

  function MoveOf(s: State, step: Step): Move {
    match step
    case Request(to, trigger) => if trigger == Timer then Stay else MoveFor(s.tenant, to, trigger)
    case TrialCommits => if s.trialSeen then MoveFor(s.tenant, PastDue, Timer) else Stay
    case GraceCommits => if s.graceSeen.Some? then MoveFor(s.tenant, Suspended, Timer) else Stay
    case PurgeCommits(job) => if job < |s.purging| then MoveFor(s.tenant, Deleted, Timer) else Stay
    case Expedite => if s.tenant.status == Suspended then Force else Stay
    case _ => Stay
  }

  lemma NextMoves(s: State, step: Step)
    ensures IsMove(s.tenant, MoveOf(s, step))
    ensures Next(s, step).tenant == Moved(s.tenant, MoveOf(s, step), s.clock)
    ensures MoveOf(s, step) == Edge(Deleted) ==> step.PurgeCommits? && step.job < |s.purging|
    ensures Next(s, step).clock >= s.clock && (!step.Tick? ==> Next(s, step).clock == s.clock)
  {
  }

  /** Every clock runs in exactly the state it belongs to; no clock outlives its state. */
  predicate ClocksMatch(t: Tenant) {
    && (t.trialEndsAt.Some? <==> t.status == Trialing)
    && (t.gracePeriodEndsAt.Some? <==> t.status == PastDue || t.status == Cancelled)
    && (t.purgeAt.Some? <==> t.status == Suspended)
    && (t.deletedAt.Some? <==> t.status == Deleted)
    && (t.status == Suspended || t.status == Deleted ==> t.suspendedAt.Some?)
  }

  lemma MoveKeepsClocks(t: Tenant, m: Move, now: nat)
    requires ClocksMatch(t) && IsMove(t, m)
    ensures ClocksMatch(Moved(t, m, now))
  {
  }

  lemma {:induction false} RunKeepsClocks(s: State, steps: seq<Step>)
    requires ClocksMatch(s.tenant)
    ensures ClocksMatch(Run(s, steps).tenant)
  {
    if steps == [] {
    } else {
      var sofar, last := Run(s, steps[..|steps| - 1]), steps[|steps| - 1];
      RunKeepsClocks(s, steps[..|steps| - 1]);
      NextMoves(sofar, last);
      MoveKeepsClocks(sofar.tenant, MoveOf(sofar, last), sofar.clock);
    }
  }

  /** `deleted` is absorbing: no column of the tombstone changes again. */
  lemma {:induction false} DeletedForEver(s: State, steps: seq<Step>)
    requires s.tenant.status == Deleted
    ensures Run(s, steps).tenant == s.tenant
  {
    if steps == [] {
    } else {
      DeletedForEver(s, steps[..|steps| - 1]);
      NextMoves(Run(s, steps[..|steps| - 1]), steps[|steps| - 1]);
    }
  }

  /** The only road into `deleted` is a purge job committing on a suspended tenant. */
  lemma OneRoadToDeleted(s: State, step: Step)
    requires s.tenant.status != Deleted
    ensures Next(s, step).tenant.status == Deleted <==>
              s.tenant.status == Suspended && step.PurgeCommits? && step.job < |s.purging|
  {
    NextMoves(s, step);
  }

  lemma {:induction false} CreatedNeverReentered(s: State, steps: seq<Step>)
    requires s.tenant.status != Created
    ensures Run(s, steps).tenant.status != Created
  {
    if steps == [] {
    } else {
      CreatedNeverReentered(s, steps[..|steps| - 1]);
      NextMoves(Run(s, steps[..|steps| - 1]), steps[|steps| - 1]);
    }
  }

  /** `active` is one step from every state but `deleted`, which it cannot be reached from at all. */
  lemma {:induction false} ActiveReachable(s: State, steps: seq<Step>)
    ensures s.tenant.status != Deleted ==>
              exists step: Step :: step.Request? && Next(s, step).tenant.status == Active
    ensures s.tenant.status == Deleted ==> Run(s, steps).tenant.status != Active
  {
    if s.tenant.status == Deleted {
      DeletedForEver(s, steps);
    } else if s.tenant.status == Created {
      assert Next(s, Request(Active, System)).tenant.status == Active;
    } else {
      assert Next(s, Request(Active, OperatorAction)).tenant.status == Active
          || Next(s, Request(Active, BillingEvent)).tenant.status == Active;
    }
  }

  /** Applying a transition twice is applying it once, whenever the second arrives. */
  lemma TransitionIdempotent(t: Tenant, to: Status, trigger: Trigger, now: nat, other: Trigger, later: nat)
    ensures Applies(t, to, trigger) ==>
              Transitioned(Transitioned(t, to, trigger, now), to, other, later) == Transitioned(t, to, trigger, now)
  {
  }

  /** A timer never skips a human: no timer edge leads to `active` or out of it, and none but the purge leads to `deleted`. */
  lemma TimersOnlyWithdraw(from: Status, to: Status)
    requires Timer in EdgeTriggers(from, to)
    ensures from != Active && to != Active
    ensures to == Deleted ==> EdgeTriggers(from, to) == {Timer}
  {
  }

  // --- The retention window ---------------------------------------------------------------------

  /** The running suspension's purge clock: thirty days from its start, or earlier by an operator's hand. */
  predicate PurgeClockHonest(s: State) {
    s.tenant.status == Suspended && s.tenant.suspendedAt.Some? && s.tenant.purgeAt.Some? ==>
      s.tenant.suspendedAt.value <= s.clock
      && (s.tenant.purgeAt.value == s.tenant.suspendedAt.value + PURGE_AFTER_SUSPENDED_DAYS * DAY_MS
          || (s.tenant.forced && s.tenant.purgeAt.value <= s.clock))
  }

  /** What the policy promises of a tombstone. */
  predicate RetentionServed(t: Tenant) {
    t.status == Deleted && t.suspendedAt.Some? && t.deletedAt.Some? ==>
      t.forced || t.suspendedAt.value + PURGE_AFTER_SUSPENDED_DAYS * DAY_MS <= t.deletedAt.value
  }

  /** A purge job that saw this very suspension saw its clock elapsed, and the clock only ever moves nearer. */
  predicate JobsSawElapsed(s: State) {
    && (forall k :: 0 <= k < |s.purging| ==> s.purging[k] <= s.tenant.suspension)
    && (s.tenant.status == Suspended && s.tenant.purgeAt.Some? ==>
          forall k :: 0 <= k < |s.purging| && s.purging[k] == s.tenant.suspension ==> s.tenant.purgeAt.value <= s.clock)
  }

  predicate Sound(s: State) { ClocksMatch(s.tenant) && PurgeClockHonest(s) && JobsSawElapsed(s) }

  /** A job in flight either read an earlier suspension or the running one. */
  lemma PurgingAfter(s: State, step: Step)
    ensures forall k :: 0 <= k < |Next(s, step).purging| ==>
              Next(s, step).purging[k] in s.purging
              || (step.PurgeReads? && PurgeDue(s.tenant, s.clock) && Next(s, step).purging[k] == s.tenant.suspension)
  {
  }

  /** Entering `suspended` starts a new count; nothing else touches it, or moves the purge clock later. */
  lemma MoveKeepsPurgeClock(t: Tenant, m: Move, now: nat)
    requires ClocksMatch(t) && IsMove(t, m)
    ensures var u := Moved(t, m, now);
            && u.suspension == t.suspension + (if m == Edge(Suspended) then 1 else 0)
            && u.grace == t.grace + (if m == Edge(PastDue) || m == Edge(Cancelled) then 1 else 0)
            && (u.status == Suspended ==>
                  if m == Edge(Suspended)
                  then u.suspendedAt == Some(now) && u.purgeAt == Some(now + PURGE_AFTER_SUSPENDED_DAYS * DAY_MS) && !u.forced
                  else t.status == Suspended && u.suspendedAt == t.suspendedAt
                       && (if m == Force then u.purgeAt == Some(now) && u.forced
                           else u.purgeAt == t.purgeAt && u.forced == t.forced))
  {
  }

  lemma NextKeepsSound(s: State, step: Step)
    requires Sound(s)
    ensures Sound(Next(s, step))
  {
    NextMoves(s, step);
    MoveKeepsClocks(s.tenant, MoveOf(s, step), s.clock);
    MoveKeepsPurgeClock(s.tenant, MoveOf(s, step), s.clock);
    PurgingAfter(s, step);
    SoundAgain(s, Next(s, step), MoveOf(s, step));
  }

  lemma SoundAgain(s: State, t: State, m: Move)
    requires Sound(s) && ClocksMatch(t.tenant) && t.clock >= s.clock && IsMove(s.tenant, m)
    requires t.tenant == Moved(s.tenant, m, s.clock)
    requires forall k :: 0 <= k < |t.purging| ==>
               t.purging[k] in s.purging || (PurgeDue(s.tenant, s.clock) && t.purging[k] == s.tenant.suspension)
    ensures Sound(t)
  {
    MoveKeepsPurgeClock(s.tenant, m, s.clock);
  }

  lemma {:induction false} RunKeepsSound(s: State, steps: seq<Step>)
    requires Sound(s)
    ensures Sound(Run(s, steps))
  {
    if steps == [] {
    } else {
      RunKeepsSound(s, steps[..|steps| - 1]);
      NextKeepsSound(Run(s, steps[..|steps| - 1]), steps[|steps| - 1]);
    }
  }

  /**
   A purge commit on a suspended tenant serves the retention promise exactly when the tenant's own purge
   clock has elapsed at that moment, a check the commit does not make. It always has when the job read
   this same suspension, whatever else happened in between.
   */
  lemma PurgeServesRetentionExactly(s: State, job: nat)
    requires Sound(s) && s.tenant.status == Suspended && job < |s.purging|
    ensures Next(s, PurgeCommits(job)).tenant.status == Deleted
    ensures RetentionServed(Next(s, PurgeCommits(job)).tenant) <==> s.tenant.forced || PurgeDue(s.tenant, s.clock)
    ensures s.purging[job] == s.tenant.suspension ==> RetentionServed(Next(s, PurgeCommits(job)).tenant)
  {
  }

  /** Every purge of the run commits on the suspension it read. */
  ghost predicate PurgesUnbroken(s: State, steps: seq<Step>) {
    forall k :: 0 <= k < |steps| && steps[k].PurgeCommits? ==>
      var before := Run(s, steps[..k]);
      steps[k].job < |before.purging| ==> before.purging[steps[k].job] == before.tenant.suspension
  }

  /** In such runs a tenant is deleted only after thirty unbroken suspended days, or by an operator's force. */
  lemma {:induction false} UnbrokenRunsServeRetention(s: State, steps: seq<Step>)
    requires Sound(s) && s.tenant.status != Deleted && PurgesUnbroken(s, steps)
    ensures RetentionServed(Run(s, steps).tenant)
  {
    if steps == [] {
    } else {
      var n := |steps| - 1;
      var before := Run(s, steps[..n]);
      forall k | 0 <= k < n && steps[..n][k].PurgeCommits?
        ensures var b := Run(s, steps[..n][..k]);
                steps[..n][k].job < |b.purging| ==> b.purging[steps[..n][k].job] == b.tenant.suspension
      {
        assert steps[..n][..k] == steps[..k];
      }
      UnbrokenRunsServeRetention(s, steps[..n]);
      RunKeepsSound(s, steps[..n]);
      if before.tenant.status == Suspended && steps[n].PurgeCommits? && steps[n].job < |before.purging| {
        PurgeServesRetentionExactly(before, steps[n].job);
      } else if before.tenant.status == Deleted {
        DeletedForEver(before, [steps[n]]);
        assert [steps[n]][..0] == [];
        assert Run(before, [steps[n]]) == Next(Run(before, []), steps[n]);
      } else {
        OneRoadToDeleted(before, steps[n]);
      }
    }
  }

  function Provisioned(now: nat): State {
    State(Tenant(Trialing, Some(now + TRIAL_DAYS * DAY_MS), None, None, None, None, None, 0, 0, false), now, false, None, [], {})
  }

  lemma ProvisionedSound(now: nat)
    ensures Sound(Provisioned(now)) && Provisioned(now).tenant.status != Deleted
  {
  }

  /**
   Without that condition the promise fails: suspended thirty days, the purge job starts deleting, the
   customer pays and is reactivated, an operator suspends the tenant again, and the job commits. The tenant
   is deleted in the instant its second suspension began.
   */
  lemma ReactivatedTenantPurged()
    ensures var s0 := Next(Provisioned(0), Request(Suspended, OperatorAction));
            var s1 := Next(Next(s0, Tick(PURGE_AFTER_SUSPENDED_DAYS * DAY_MS)), PurgeReads);
            var s2 := Next(Next(s1, Request(Active, BillingEvent)), Request(Suspended, OperatorAction));
            var s3 := Next(s2, PurgeCommits(0));
            && Sound(Provisioned(0))
            && s1.purging == [1] && s2.tenant.suspension == 2 && !PurgeDue(s2.tenant, s2.clock)
            && s3.tenant.status == Deleted && !RetentionServed(s3.tenant)
  {
    ProvisionedSound(0);
  }

  // --- The grace periods ------------------------------------------------------------------------

  /**
   The sweep's commit suspends a tenant early exactly when it is in a grace period that has not elapsed:
   the clock the sweep read belonged to an earlier one.
   */
  lemma GraceCommitEarlyExactly(s: State)
    requires ClocksMatch(s.tenant) && s.graceSeen.Some?
    ensures var early := s.tenant.status != Suspended && Next(s, GraceCommits).tenant.status == Suspended
                         && !GraceDue(s.tenant, s.clock);
            early <==> (s.tenant.status == PastDue || s.tenant.status == Cancelled)
                       && s.tenant.gracePeriodEndsAt.value > s.clock
  {
  }

  /** A sweep that saw this very grace period saw its clock elapsed. */
  predicate SweepSawElapsed(s: State) {
    s.graceSeen.Some? ==>
      s.graceSeen.value <= s.tenant.grace
      && (s.graceSeen.value == s.tenant.grace && (s.tenant.status == PastDue || s.tenant.status == Cancelled) ==>
            GraceDue(s.tenant, s.clock))
  }

  lemma NextKeepsSweep(s: State, step: Step)
    requires ClocksMatch(s.tenant) && SweepSawElapsed(s)
    ensures SweepSawElapsed(Next(s, step))
  {
    NextMoves(s, step);
    MoveKeepsPurgeClock(s.tenant, MoveOf(s, step), s.clock);
  }

  /**
   In every run from provisioning, a sweep's commit suspends a tenant early exactly when the tenant is in a
   grace period other than the one the sweep read, and that one has not elapsed: a commit that finds the
   period it read never does.
   */
  lemma {:induction false} GraceCutShortExactly(now: nat, steps: seq<Step>)
    ensures var s := Run(Provisioned(now), steps);
            && ClocksMatch(s.tenant) && SweepSawElapsed(s)
            && (s.graceSeen.Some? ==>
                  var early := s.tenant.status != Suspended && Next(s, GraceCommits).tenant.status == Suspended
                               && !GraceDue(s.tenant, s.clock);
                  early <==> (s.tenant.status == PastDue || s.tenant.status == Cancelled)
                             && s.graceSeen.value != s.tenant.grace && s.tenant.gracePeriodEndsAt.value > s.clock)
  {
    if steps == [] {
    } else {
      var rest := steps[..|steps| - 1];
      GraceCutShortExactly(now, rest);
      RunKeepsClocks(Provisioned(now), steps);
      NextKeepsSweep(Run(Provisioned(now), rest), steps[|steps| - 1]);
    }
    var s := Run(Provisioned(now), steps);
    if s.graceSeen.Some? {
      GraceCommitEarlyExactly(s);
    }
  }

  /** It happens: the payment goes through and the next one fails between the sweep's read and its commit. */
  lemma PayingTenantSuspended()
    ensures var s0 := Next(Provisioned(0), Request(PastDue, BillingEvent));
            var s1 := Next(Next(s0, Tick(PAST_DUE_GRACE_DAYS * DAY_MS)), SweepReads);
            var s2 := Next(Next(s1, Request(Active, BillingEvent)), Request(PastDue, BillingEvent));
            s1.graceSeen.Some? && !GraceDue(s2.tenant, s2.clock) && Next(s2, GraceCommits).tenant.status == Suspended
  {
  }

  /** The trial sweep has no such case: nothing re-enters `trialing`, so a trial it read as due is still due or over. */
  lemma {:induction false} TrialCommitNeverEarly(s: State, steps: seq<Step>)
    requires ClocksMatch(s.tenant) && TrialDue(s.tenant, s.clock)
    ensures Run(s, steps).clock >= s.clock
    ensures Run(s, steps).tenant.status == Trialing ==>
              Run(s, steps).tenant.trialEndsAt == s.tenant.trialEndsAt
              && TrialDue(Run(s, steps).tenant, Run(s, steps).clock)
    ensures Run(s, steps).tenant.status != Created
  {
    if steps == [] {
    } else {
      TrialCommitNeverEarly(s, steps[..|steps| - 1]);
      NextMoves(Run(s, steps[..|steps| - 1]), steps[|steps| - 1]);
    }
  }

  // --- Data during a purge ----------------------------------------------------------------------

  ghost predicate ActiveThroughout(s: State, steps: seq<Step>) {
    forall k :: 0 <= k <= |steps| ==> Run(s, steps[..k]).tenant.status == Active
  }

  /** Some run loses one of the rows the tenant has now, without the tenant ever ceasing to be active. */
  ghost predicate CanLoseWhileActive(s: State) {
    exists steps :: ActiveThroughout(s, steps) && !(s.data <= Run(s, steps).data)
  }

  lemma {:induction false} SafeWithoutPurge(s: State, steps: seq<Step>)
    requires s.purging == [] && ActiveThroughout(s, steps)
    ensures Run(s, steps).purging == [] && s.data <= Run(s, steps).data
  {
    if steps == [] {
    } else {
      var n := |steps| - 1;
      forall k | 0 <= k <= n
        ensures Run(s, steps[..n][..k]).tenant.status == Active
      {
        assert steps[..n][..k] == steps[..k];
      }
      SafeWithoutPurge(s, steps[..n]);
      assert steps[..n][..n] == steps[..n];
    }
  }

  /**
   The deletion runs in batches and checks the tenant once, before the first. So the data of an active
   tenant are safe, whatever happens while it stays active, exactly when no purge begun in an earlier
   suspension is still in flight or there is nothing to delete.
   */
  lemma ActiveDataSafeExactly(s: State)
    requires s.tenant.status == Active
    ensures CanLoseWhileActive(s) <==> s.purging != [] && s.data != {}
  {
    if s.purging != [] && s.data != {} {
      var steps := [PurgeDeletes(0, s.data)];
      assert steps[..0] == [] && steps[..1] == steps;
      assert Run(s, steps) == s.(data := {});
      assert ActiveThroughout(s, steps);
    }
    if CanLoseWhileActive(s) {
      var steps :| ActiveThroughout(s, steps) && !(s.data <= Run(s, steps).data);
      if s.purging == [] {
        SafeWithoutPurge(s, steps);
      }
    }
  }

  /** Such a state is reachable: the customer pays while the purge is running. */
  lemma ActiveWithPurgeInFlight()
    ensures var s0 := Next(Next(Provisioned(0), Stores(1)), Request(Suspended, OperatorAction));
            var s1 := Next(Next(s0, Tick(PURGE_AFTER_SUSPENDED_DAYS * DAY_MS)), PurgeReads);
            var s2 := Next(s1, Request(Active, BillingEvent));
            s2.tenant.status == Active && s2.purging == [1] && s2.data == {1} && CanLoseWhileActive(s2)
  {
    var s0 := Next(Next(Provisioned(0), Stores(1)), Request(Suspended, OperatorAction));
    var s1 := Next(Next(s0, Tick(PURGE_AFTER_SUSPENDED_DAYS * DAY_MS)), PurgeReads);
    ActiveDataSafeExactly(Next(s1, Request(Active, BillingEvent)));
  }

  // --- A trial nobody touches -------------------------------------------------------------------

  /** Only time passes and the sweeps run. */
  predicate Untouched(steps: seq<Step>) {
    forall k | 0 <= k < |steps| :: !steps[k].Request? && !steps[k].Expedite?
  }

  const TRIAL_OVER: nat := TRIAL_DAYS * DAY_MS
  const GRACE_OVER: nat := TRIAL_OVER + PAST_DUE_GRACE_DAYS * DAY_MS
  const RETENTION_OVER: nat := GRACE_OVER + PURGE_AFTER_SUSPENDED_DAYS * DAY_MS

  /** How far a trial provisioned at `start` can have got by now, and no further. */
  predicate OnSchedule(s: State, start: nat) {
    && (s.trialSeen ==> s.clock >= start + TRIAL_OVER)
    && match s.tenant.status
       case Trialing => s.tenant.trialEndsAt == Some(start + TRIAL_OVER) && s.graceSeen.None? && s.purging == []
       case PastDue =>
         && s.clock >= start + TRIAL_OVER && s.purging == []
         && s.tenant.gracePeriodEndsAt.Some? && s.tenant.gracePeriodEndsAt.value >= start + GRACE_OVER
         && (s.graceSeen.Some? ==> s.clock >= start + GRACE_OVER)
       case Suspended =>
         && s.clock >= start + GRACE_OVER
         && s.tenant.purgeAt.Some? && s.tenant.purgeAt.value >= start + RETENTION_OVER
         && (s.purging != [] ==> s.clock >= start + RETENTION_OVER)
       case Deleted => s.clock >= start + RETENTION_OVER
       case _ => false
  }

  lemma NextKeepsSchedule(s: State, step: Step, start: nat)
    requires OnSchedule(s, start) && !step.Request? && !step.Expedite?
    ensures OnSchedule(Next(s, step), start)
  {
  }

  /** Left alone, a trial is past due after fourteen days, suspended after thirty-five and deleted after sixty-five, never sooner. */
  lemma {:induction false} UntouchedTrialTimeline(start: nat, steps: seq<Step>)
    requires Untouched(steps)
    ensures OnSchedule(Run(Provisioned(start), steps), start)
    ensures Run(Provisioned(start), steps).tenant.status == Deleted ==>
              Run(Provisioned(start), steps).clock >= start + 65 * DAY_MS
  {
    if steps == [] {
    } else {
      UntouchedTrialTimeline(start, steps[..|steps| - 1]);
      NextKeepsSchedule(Run(Provisioned(start), steps[..|steps| - 1]), steps[|steps| - 1], start);
    }
  }
}
