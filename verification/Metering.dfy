/**
 The conversations counter over whole runs of ingestion: every opening is metered in the period billing
 resolves for it, and the counters are held against a recount of the conversation rows.
 */
module Metering {
  import opened Common
  import opened UsagePeriod
  import opened Ingestion
  import opened IngestionLaws
  import Usage

  // --- The recount ------------------------------------------------------------------------------

  /** The conversation rows, in some order. */
  ghost predicate IsListing(db: Db, listing: seq<ThreadKey>) {
    && (forall key :: key in listing <==> key in db.threads)
    && (forall i, j :: 0 <= i < j < |listing| ==> listing[i] != listing[j])
  }

  function Sources(db: Db, listing: seq<ThreadKey>): (source: seq<Usage.Source>)
    requires forall key :: key in listing ==> key in db.threads
    ensures |source| == |listing|
  {
    seq(|listing|, k requires 0 <= k < |listing| =>
      Usage.Source(listing[k].account.tenant, Usage.ConversationsOpened, db.threads[listing[k]].openedAt))
  }

  function OpenedAmong(db: Db, t: Tenant, q: Period, listing: seq<ThreadKey>): set<ThreadKey> {
    set key | key in listing && key in OpenedIn(db, t, q)
  }

  /** Recounting the rows of a period is counting the conversations opened in it; no other metric has rows here. */
  lemma {:induction false} RecountIsOpened(db: Db, t: Tenant, q: Period, listing: seq<ThreadKey>, metric: Usage.Metric)
    requires forall key :: key in listing ==> key in db.threads
    requires forall i, j :: 0 <= i < j < |listing| ==> listing[i] != listing[j]
    ensures Usage.CountIn(Sources(db, listing), t, metric, q)
              == if metric == Usage.ConversationsOpened then |OpenedAmong(db, t, q, listing)| else 0
  {
    if listing == [] {
      assert OpenedAmong(db, t, q, listing) == {};
    } else {
      var rest, last := listing[..|listing| - 1], listing[|listing| - 1];
      RecountIsOpened(db, t, q, rest, metric);
      assert Sources(db, listing)[..|listing| - 1] == Sources(db, rest);
      assert listing == rest + [last] && last !in rest;
      OneMoreOpened(db, t, q, rest, last);
    }
  }

  lemma OneMoreOpened(db: Db, t: Tenant, q: Period, rest: seq<ThreadKey>, last: ThreadKey)
    requires last !in rest
    ensures |OpenedAmong(db, t, q, rest + [last])| == |OpenedAmong(db, t, q, rest)| + (if last in OpenedIn(db, t, q) then 1 else 0)
  {
    assert OpenedAmong(db, t, q, rest + [last]) ==
      OpenedAmong(db, t, q, rest) + (if last in OpenedIn(db, t, q) then {last} else {});
  }

  /** The machine increments no other metric. */
  ghost predicate OnlyOpenings(db: Db) { forall k :: k in db.counters ==> k.metric == Usage.ConversationsOpened }

  /** `reconcile` is a no-op for a period exactly when its counter is the number of conversations opened in it. */
  lemma ReconcileNoOpExactly(db: Db, t: Tenant, q: Period, listing: seq<ThreadKey>)
    requires IsListing(db, listing) && OnlyOpenings(db)
    ensures Usage.Reconciled(db.counters, t, q, Sources(db, listing)) == db.counters <==>
              Usage.ValueAt(db.counters, MeterKey(t, q.start)) == |OpenedIn(db, t, q)|
  {
    var source := Sources(db, listing);
    Usage.ReconcileAgrees(db.counters, t, q, source);
    assert OpenedAmong(db, t, q, listing) == OpenedIn(db, t, q);
    assert Usage.KeyFor(t, Usage.ConversationsOpened, q) == MeterKey(t, q.start);
    assert Usage.ConversationsOpened == Usage.COUNTERS[0];
    forall metric | metric in Usage.COUNTERS
      ensures Usage.CountIn(source, t, metric, q)
                == if metric == Usage.ConversationsOpened then |OpenedIn(db, t, q)| else 0
    {
      RecountIsOpened(db, t, q, listing, metric);
    }
  }

  // --- A tenant without a subscription ----------------------------------------------------------

  /** Every conversation of the tenant was counted in the anniversary window resolved for its opening. */
  ghost predicate ByAnniversary(db: Db, t: Tenant, anchor: Moment) {
    forall key :: key in db.threads && key.account.tenant == t ==>
      db.threads[key].metered == Anniversary(anchor, db.threads[key].openedAt)
  }

  ghost predicate AllWellPlaced(db: Db, t: Tenant, anchor: Moment) {
    forall key :: key in db.threads && key.account.tenant == t ==> WellPlaced(anchor, db.threads[key].openedAt)
  }

  /** Every anniversary window's counter is the number of conversations opened in that window. */
  ghost predicate CountersRight(db: Db, t: Tenant, anchor: Moment) {
    forall n: int :: WindowRight(db, t, anchor, n)
  }

  ghost predicate WindowRight(db: Db, t: Tenant, anchor: Moment, n: int) {
    Usage.ValueAt(db.counters, MeterKey(t, Window(anchor, n).start)) == |OpenedIn(db, t, Window(anchor, n))|
  }

  function MeteredIndex(db: Db, anchor: Moment, key: ThreadKey): int
    requires key in db.threads
  {
    MonthsElapsed(anchor, db.threads[key].openedAt)
  }

  function OpenedIndex(db: Db, anchor: Moment, key: ThreadKey): int
    requires key in db.threads
  {
    HomeIndex(anchor, db.threads[key].openedAt)
  }

  /** The two sets a window compares, by number. */
  lemma SetsByIndex(db: Db, t: Tenant, anchor: Moment, n: int)
    requires ByAnniversary(db, t, anchor)
    ensures forall key :: key in MeteredAt(db, t, Window(anchor, n).start) <==>
              key in db.threads && key.account.tenant == t && MeteredIndex(db, anchor, key) == n
    ensures forall key :: key in OpenedIn(db, t, Window(anchor, n)) <==>
              key in db.threads && key.account.tenant == t && OpenedIndex(db, anchor, key) == n
  {
    forall key | key in db.threads && key.account.tenant == t
      ensures db.threads[key].metered.start == Window(anchor, n).start <==> MeteredIndex(db, anchor, key) == n
      ensures Contains(Window(anchor, n), db.threads[key].openedAt) <==> OpenedIndex(db, anchor, key) == n
    {
      MeteredNextDoor(anchor, db.threads[key].openedAt);
      WindowStartsDiffer(anchor, MeteredIndex(db, anchor, key), n);
      InOneWindow(anchor, db.threads[key].openedAt, n);
    }
  }

  /** A window that holds a stray, and all of whose own openings it also counted, counts too many. */
  lemma StrayIsSurplus(db: Db, t: Tenant, anchor: Moment, stray: ThreadKey, n: int)
    requires CountersExact(db) && ByAnniversary(db, t, anchor)
    requires stray in db.threads && stray.account.tenant == t
    requires MeteredIndex(db, anchor, stray) == n != OpenedIndex(db, anchor, stray)
    requires forall key :: key in db.threads && key.account.tenant == t && OpenedIndex(db, anchor, key) == n ==>
               MeteredIndex(db, anchor, key) == n
    ensures !WindowRight(db, t, anchor, n)
  {
    SetsByIndex(db, t, anchor, n);
    var metered, within := MeteredAt(db, t, Window(anchor, n).start), OpenedIn(db, t, Window(anchor, n));
    assert within <= metered - {stray};
    SubsetSmaller(within, metered - {stray});
  }

  lemma SubsetSmaller<T>(a: set<T>, b: set<T>)
    requires a <= b
    ensures |a| <= |b|
  {
    assert b == a + (b - a) && a !! (b - a);
  }

  predicate TooEarly(db: Db, anchor: Moment, key: ThreadKey)
    requires key in db.threads
  {
    MeteredIndex(db, anchor, key) >= 0 && OpenedIndex(db, anchor, key) == MeteredIndex(db, anchor, key) + 1
  }

  predicate TooLate(db: Db, anchor: Moment, key: ThreadKey)
    requires key in db.threads
  {
    MeteredIndex(db, anchor, key) <= 0 && OpenedIndex(db, anchor, key) == MeteredIndex(db, anchor, key) - 1
  }

  function Abs(n: int): nat { if n < 0 then -n else n }

  /** Among openings counted too early the earliest is alone in spoiling its window, and among those too late the latest. */
  lemma {:induction false} NoStrays(db: Db, t: Tenant, anchor: Moment, key: ThreadKey)
    requires CountersExact(db) && ByAnniversary(db, t, anchor) && CountersRight(db, t, anchor)
    requires key in db.threads && key.account.tenant == t
    ensures !TooEarly(db, anchor, key) && !TooLate(db, anchor, key)
    decreases Abs(MeteredIndex(db, anchor, key))
  {
    var n := MeteredIndex(db, anchor, key);
    assert WindowRight(db, t, anchor, n);
    if TooEarly(db, anchor, key) || TooLate(db, anchor, key) {
      forall k | k in db.threads && k.account.tenant == t && OpenedIndex(db, anchor, k) == n
        ensures MeteredIndex(db, anchor, k) == n
      {
        MeteredNextDoor(anchor, db.threads[k].openedAt);
        if Abs(MeteredIndex(db, anchor, k)) < Abs(n) {
          NoStrays(db, t, anchor, k);
        }
      }
      StrayIsSurplus(db, t, anchor, key, n);
    }
  }

  /** Errors never cancel: every window's counter is right exactly when every single opening is well placed. */
  lemma CountersRightExactly(db: Db, t: Tenant, anchor: Moment)
    requires CountersExact(db) && ByAnniversary(db, t, anchor)
    ensures CountersRight(db, t, anchor) <==> AllWellPlaced(db, t, anchor)
  {
    if CountersRight(db, t, anchor) {
      forall key | key in db.threads && key.account.tenant == t
        ensures WellPlaced(anchor, db.threads[key].openedAt)
      {
        MeteredNextDoor(anchor, db.threads[key].openedAt);
        NoStrays(db, t, anchor, key);
      }
    }
    if AllWellPlaced(db, t, anchor) {
      forall n
        ensures WindowRight(db, t, anchor, n)
      {
        WellPlacedWindow(db, t, anchor, n);
      }
    }
  }

  lemma WellPlacedWindow(db: Db, t: Tenant, anchor: Moment, n: int)
    requires CountersExact(db) && ByAnniversary(db, t, anchor) && AllWellPlaced(db, t, anchor)
    ensures WindowRight(db, t, anchor, n)
  {
    SetsByIndex(db, t, anchor, n);
    forall key | key in db.threads && key.account.tenant == t
      ensures MeteredIndex(db, anchor, key) == OpenedIndex(db, anchor, key)
    {
      MeteredNextDoor(anchor, db.threads[key].openedAt);
    }
    assert MeteredAt(db, t, Window(anchor, n).start) == OpenedIn(db, t, Window(anchor, n));
  }

  // --- Over runs --------------------------------------------------------------------------------

  lemma ItemOpens(db: Db, account: Account, i: Item, resolved: Period, key: ThreadKey)
    requires Attributable(i) && !Ignored(i) && key in ApplyItem(db, account, i, resolved).threads
    ensures var after := ApplyItem(db, account, i, resolved).threads[key];
            && (key in db.threads ==> after.metered == db.threads[key].metered && after.openedAt == db.threads[key].openedAt)
            && (key !in db.threads ==> key == ItemThread(account, i) && after.openedAt == i.at && after.metered == resolved)
  {
  }

  /** What an effect does to the openings: at most one more, metered as it was resolved. */
  lemma EffectOpens(db: Db, e: Effect, key: ThreadKey)
    requires IsEffect(e) && key in DbAfter(db, e).threads
    ensures key in db.threads ==>
              DbAfter(db, e).threads[key].metered == db.threads[key].metered
              && DbAfter(db, e).threads[key].openedAt == db.threads[key].openedAt
    ensures key !in db.threads ==>
              e.ItemApplied? && key == ItemThread(e.account, e.i) && DbAfter(db, e).threads[key].openedAt == e.i.at
              && DbAfter(db, e).threads[key].metered == e.billing.period
  {
    match e
    case ItemApplied(account, i, billing, dies) => ItemOpens(db, account, i, billing.period, key);
    case _ =>
  }

  lemma EffectKeepsOnlyOpenings(db: Db, e: Effect)
    requires IsEffect(e) && OnlyOpenings(db)
    ensures OnlyOpenings(DbAfter(db, e))
  {
    match e
    case ItemApplied(account, i, billing, dies) =>
      assert OnlyOpenings(OpenThread(db, ItemThread(account, i), i.at, i.Receipt?, billing.period));
      assert OnlyOpenings(ApplyItem(db, account, i, billing.period));
    case _ =>
  }

  /** Billing writes no period for the tenant. */
  predicate NeverSubscribed(steps: seq<Step>, t: Tenant) {
    forall k | 0 <= k < |steps| :: steps[k].SetSubscription? ==> steps[k].tenant != t || steps[k].period.None?
  }

  lemma BillingFixed(s: State, step: Step, t: Tenant)
    requires step.SetSubscription? ==> step.tenant != t || step.period.None?
    ensures t !in s.subscriptions ==> t !in Next(s, step).subscriptions
    ensures Next(s, step).createdAt == s.createdAt
  {
  }

  lemma {:induction false} RunMeters(createdAt: Tenant -> Moment, budget: nat, steps: seq<Step>, t: Tenant)
    requires NeverSubscribed(steps, t)
    ensures var s := Run(Empty(createdAt, budget), steps);
            && DbInv(s.db) && OnlyOpenings(s.db) && ByAnniversary(s.db, t, createdAt(t))
            && t !in s.subscriptions && s.createdAt == createdAt
  {
    EmptyInv();
    RunKeepsInv(Empty(createdAt, budget), steps);
    if steps != [] {
      var rest, last := steps[..|steps| - 1], steps[|steps| - 1];
      var s := Run(Empty(createdAt, budget), rest);
      RunMeters(createdAt, budget, rest, t);
      BillingFixed(s, last, t);
      var e := EffectOf(s, last);
      EffectKeepsOnlyOpenings(s.db, e);
      forall key | key in DbAfter(s.db, e).threads && key.account.tenant == t
        ensures DbAfter(s.db, e).threads[key].metered == Anniversary(createdAt(t), DbAfter(s.db, e).threads[key].openedAt)
      {
        EffectOpens(s.db, e, key);
      }
    }
  }

  /** Reconciling any anniversary window of the tenant changes nothing. */
  ghost predicate ReconcileIsNoOp(db: Db, t: Tenant, anchor: Moment, listing: seq<ThreadKey>)
    requires IsListing(db, listing)
  {
    forall n: int :: WindowReconciled(db, t, anchor, listing, n)
  }

  ghost predicate WindowReconciled(db: Db, t: Tenant, anchor: Moment, listing: seq<ThreadKey>, n: int)
    requires IsListing(db, listing)
  {
    Usage.Reconciled(db.counters, t, Window(anchor, n), Sources(db, listing)) == db.counters
  }

  /**
   In every run from the empty store, with duplicate deliveries, lost jobs, crashes, sweeps, parking and
   replay, of a tenant billing has given no period: every window's counter equals the number of
   conversations opened in it, and `reconcile` is a no-op in every window, exactly when no opening lies
   past a clamped anniversary, nor before the tenant's creation off a boundary.
   */
  lemma {:induction false} CountersReconcileExactly(createdAt: Tenant -> Moment, budget: nat, steps: seq<Step>, t: Tenant,
                                                    listing: seq<ThreadKey>)
    requires NeverSubscribed(steps, t)
    requires IsListing(Run(Empty(createdAt, budget), steps).db, listing)
    ensures var db := Run(Empty(createdAt, budget), steps).db;
            && (CountersRight(db, t, createdAt(t)) <==> AllWellPlaced(db, t, createdAt(t)))
            && (ReconcileIsNoOp(db, t, createdAt(t), listing) <==> AllWellPlaced(db, t, createdAt(t)))
  {
    var db := Run(Empty(createdAt, budget), steps).db;
    var anchor := createdAt(t);
    RunMeters(createdAt, budget, steps, t);
    CountersRightExactly(db, t, anchor);
    forall n
      ensures WindowReconciled(db, t, anchor, listing, n) <==> WindowRight(db, t, anchor, n)
    {
      ReconcileNoOpExactly(db, t, Window(anchor, n), listing);
    }
    SameWindows(db, t, anchor, listing);
  }

  lemma SameWindows(db: Db, t: Tenant, anchor: Moment, listing: seq<ThreadKey>)
    requires IsListing(db, listing)
    requires forall n :: WindowReconciled(db, t, anchor, listing, n) <==> WindowRight(db, t, anchor, n)
    ensures ReconcileIsNoOp(db, t, anchor, listing) <==> CountersRight(db, t, anchor)
  {
    if CountersRight(db, t, anchor) {
      forall n
        ensures WindowReconciled(db, t, anchor, listing, n)
      {
        assert WindowRight(db, t, anchor, n);
      }
    }
    if ReconcileIsNoOp(db, t, anchor, listing) {
      forall n
        ensures WindowRight(db, t, anchor, n)
      {
        assert WindowReconciled(db, t, anchor, listing, n);
      }
    }
  }

  // --- A tenant whose periods come from billing -------------------------------------------------

  /** Each period that counted anything of the tenant counted exactly the conversations opened in it. */
  ghost predicate EachCountedItsOwn(db: Db, t: Tenant) {
    forall key :: key in db.threads && key.account.tenant == t ==>
      MeteredAt(db, t, db.threads[key].metered.start) == OpenedIn(db, t, db.threads[key].metered)
  }

  /** A conversation counted in `p` with its opening at `at` is one of `q`'s in both senses or in neither. */
  predicate Agrees(q: Period, p: Period, at: Instant) { q.start == p.start <==> Contains(q, at) }

  /** The same, for every two conversations of the tenant. */
  ghost predicate PairwiseAgreed(db: Db, t: Tenant) {
    forall j, k :: j in db.threads && k in db.threads && j.account.tenant == t && k.account.tenant == t ==>
      Agrees(db.threads[j].metered, db.threads[k].metered, db.threads[k].openedAt)
  }

  lemma CountedOwnPairwise(db: Db, t: Tenant)
    ensures EachCountedItsOwn(db, t) <==> PairwiseAgreed(db, t)
  {
    if EachCountedItsOwn(db, t) {
      forall j, k | j in db.threads && k in db.threads && j.account.tenant == t && k.account.tenant == t
        ensures Agrees(db.threads[j].metered, db.threads[k].metered, db.threads[k].openedAt)
      {
        var q := db.threads[j].metered;
        assert k in MeteredAt(db, t, q.start) <==> k in OpenedIn(db, t, q);
      }
    }
    if PairwiseAgreed(db, t) {
      forall j | j in db.threads && j.account.tenant == t
        ensures MeteredAt(db, t, db.threads[j].metered.start) == OpenedIn(db, t, db.threads[j].metered)
      {
        assert forall k :: k in db.threads && k.account.tenant == t ==>
            Agrees(db.threads[j].metered, db.threads[k].metered, db.threads[k].openedAt);
      }
    }
  }

  /**
   What a caller can check of an opening at `at` before it is metered in `p`: it falls in `p`; and of every
   conversation already counted, its period starts with `p` exactly when it contains `at`, and exactly when
   that conversation was opened in `p`.
   */
  ghost predicate FitsIn(db: Db, t: Tenant, p: Period, at: Instant) {
    && Contains(p, at)
    && forall k :: k in db.threads && k.account.tenant == t ==>
         Agrees(db.threads[k].metered, p, at) && Agrees(p, db.threads[k].metered, db.threads[k].openedAt)
  }

  /** Any opening of the tenant that the step makes fits in the period billing then has in force. */
  ghost predicate OpensApart(s: State, step: Step, t: Tenant) {
    forall key :: key in Next(s, step).db.threads && key !in s.db.threads && key.account.tenant == t ==>
      var at := Next(s, step).db.threads[key].openedAt;
      FitsIn(s.db, t, PeriodFor(s, t, at), at)
  }

  ghost predicate AllOpenApart(s: State, steps: seq<Step>, t: Tenant) {
    steps == []
    || (AllOpenApart(s, steps[..|steps| - 1], t)
        && OpensApart(Run(s, steps[..|steps| - 1]), steps[|steps| - 1], t))
  }

  /** A conversation is metered for good in the period in force as it is written. */
  lemma NextMeters(s: State, step: Step, t: Tenant, key: ThreadKey)
    requires key in Next(s, step).db.threads && key.account.tenant == t
    ensures var after := Next(s, step).db.threads[key];
            if key in s.db.threads
            then after.metered == s.db.threads[key].metered && after.openedAt == s.db.threads[key].openedAt
            else after.metered == PeriodFor(s, t, after.openedAt)
  {
    var e := EffectOf(s, step);
    EffectOpens(s.db, e, key);
  }

  /** At most one conversation is opened in a step. */
  lemma OneOpening(s: State, step: Step, j: ThreadKey, k: ThreadKey)
    requires j in Next(s, step).db.threads && j !in s.db.threads
    requires k in Next(s, step).db.threads && k !in s.db.threads
    ensures j == k
  {
    var e := EffectOf(s, step);
    EffectOpens(s.db, e, j);
    EffectOpens(s.db, e, k);
  }

  ghost predicate SameOpening(a: Db, b: Db, key: ThreadKey)
    requires key in a.threads && key in b.threads
  {
    b.threads[key].metered == a.threads[key].metered && b.threads[key].openedAt == a.threads[key].openedAt
  }

  /** One conversation more: it agrees with itself, and with every other both ways. */
  lemma OneMorePair(a: Db, b: Db, t: Tenant, key: ThreadKey)
    requires b.threads.Keys == a.threads.Keys + {key} && key !in a.threads && key.account.tenant == t
    requires forall k :: k in a.threads && k.account.tenant == t ==> SameOpening(a, b, k)
    ensures PairwiseAgreed(b, t) <==>
              PairwiseAgreed(a, t) && FitsIn(a, t, b.threads[key].metered, b.threads[key].openedAt)
  {
    var p, at := b.threads[key].metered, b.threads[key].openedAt;
    if PairwiseAgreed(b, t) {
      assert Agrees(p, p, at);
      forall k | k in a.threads && k.account.tenant == t
        ensures Agrees(a.threads[k].metered, p, at) && Agrees(p, a.threads[k].metered, a.threads[k].openedAt)
      {
        assert SameOpening(a, b, k);
      }
      forall j, k | j in a.threads && k in a.threads && j.account.tenant == t && k.account.tenant == t
        ensures Agrees(a.threads[j].metered, a.threads[k].metered, a.threads[k].openedAt)
      {
        assert SameOpening(a, b, j) && SameOpening(a, b, k);
      }
    }
    if PairwiseAgreed(a, t) && FitsIn(a, t, p, at) {
      forall j, k | j in b.threads && k in b.threads && j.account.tenant == t && k.account.tenant == t
        ensures Agrees(b.threads[j].metered, b.threads[k].metered, b.threads[k].openedAt)
      {
        assert j in a.threads ==> SameOpening(a, b, j);
        assert k in a.threads ==> SameOpening(a, b, k);
      }
    }
  }

  lemma SamePairs(a: Db, b: Db, t: Tenant)
    requires a.threads.Keys <= b.threads.Keys
    requires forall k :: k in b.threads && k.account.tenant == t ==> k in a.threads
    requires forall k :: k in a.threads && k.account.tenant == t ==> SameOpening(a, b, k)
    ensures PairwiseAgreed(b, t) <==> PairwiseAgreed(a, t)
  {
    forall j, k | j in a.threads && k in a.threads && j.account.tenant == t && k.account.tenant == t
      ensures Agrees(a.threads[j].metered, a.threads[k].metered, a.threads[k].openedAt)
                == Agrees(b.threads[j].metered, b.threads[k].metered, b.threads[k].openedAt)
    {
      assert SameOpening(a, b, j) && SameOpening(a, b, k);
    }
  }

  lemma OpeningsStay(s: State, step: Step, t: Tenant)
    ensures s.db.threads.Keys <= Next(s, step).db.threads.Keys
    ensures forall k :: k in s.db.threads && k.account.tenant == t ==> SameOpening(s.db, Next(s, step).db, k)
  {
    NextKeeps(s, step);
    assert s.db.threads.Keys <= Next(s, step).db.threads.Keys;
    forall k | k in s.db.threads && k.account.tenant == t
      ensures SameOpening(s.db, Next(s, step).db, k)
    {
      NextMeters(s, step, t, k);
    }
  }

  lemma NewPair(s: State, step: Step, t: Tenant, key: ThreadKey)
    requires key in Next(s, step).db.threads && key !in s.db.threads && key.account.tenant == t
    ensures PairwiseAgreed(Next(s, step).db, t) <==> PairwiseAgreed(s.db, t) && OpensApart(s, step, t)
  {
    OpeningsStay(s, step, t);
    NextMeters(s, step, t, key);
    forall k | k in Next(s, step).db.threads && k !in s.db.threads
      ensures k == key
    {
      OneOpening(s, step, key, k);
    }
    OneMorePair(s.db, Next(s, step).db, t, key);
  }

  lemma NextPairwise(s: State, step: Step, t: Tenant)
    ensures PairwiseAgreed(Next(s, step).db, t) <==> PairwiseAgreed(s.db, t) && OpensApart(s, step, t)
  {
    if key :| key in Next(s, step).db.threads && key !in s.db.threads && key.account.tenant == t {
      NewPair(s, step, t, key);
    } else {
      OpeningsStay(s, step, t);
      SamePairs(s.db, Next(s, step).db, t);
    }
  }

  /**
   In every run, with billing periods written, changed and cleared at any moment, overlapping or not: every
   period the tenant's openings were ever counted in counted exactly the conversations opened in it exactly
   when every opening, as it was written, fitted in the period in force.
   */
  lemma {:induction false} InForceExactly(createdAt: Tenant -> Moment, budget: nat, steps: seq<Step>, t: Tenant)
    ensures EachCountedItsOwn(Run(Empty(createdAt, budget), steps).db, t)
            <==> AllOpenApart(Empty(createdAt, budget), steps, t)
  {
    CountedOwnPairwise(Run(Empty(createdAt, budget), steps).db, t);
    RunPairwise(createdAt, budget, steps, t);
  }

  lemma {:induction false} RunPairwise(createdAt: Tenant -> Moment, budget: nat, steps: seq<Step>, t: Tenant)
    ensures PairwiseAgreed(Run(Empty(createdAt, budget), steps).db, t)
            <==> AllOpenApart(Empty(createdAt, budget), steps, t)
  {
    if steps == [] {
    } else {
      var rest := steps[..|steps| - 1];
      RunPairwise(createdAt, budget, rest, t);
      NextPairwise(Run(Empty(createdAt, budget), rest), steps[|steps| - 1], t);
    }
  }
}
