/**
 Allowance notices over runs of ingestion: which opening of a period makes the total that crosses a line,
 whether that total was ever announced, and so whether the notice goes out.
 */
module Notices {
  import opened Common
  import opened UsagePeriod
  import opened Ingestion
  import opened IngestionLaws
  import opened Metering
  import Usage
  import Ladder = MessageStatus

  // --- Totals -----------------------------------------------------------------------------------

  /** The conversations counted in a period carry the totals 1, 2, ... up to its counter, each once. */
  ghost predicate Numbered(db: Db) {
    && (forall key :: key in db.threads ==> 1 <= db.threads[key].ordinal <= Total(db, key))
    && (forall j, k :: j in db.threads && k in db.threads && SamePeriod(db, j, k) ==>
          db.threads[j].ordinal == db.threads[k].ordinal ==> j == k)
    && (forall t, start, n :: 1 <= n <= Usage.ValueAt(db.counters, MeterKey(t, start)) ==> HasTotal(db, t, start, n))
    && db.volumes.Keys <= db.threads.Keys
  }

  ghost predicate HasTotal(db: Db, t: Tenant, start: Instant, n: int) {
    exists key :: CarriesTotal(db, t, start, n, key)
  }

  predicate CarriesTotal(db: Db, t: Tenant, start: Instant, n: int, key: ThreadKey) {
    key in db.threads && key.account.tenant == t && db.threads[key].metered.start == start && db.threads[key].ordinal == n
  }

  function Total(db: Db, key: ThreadKey): nat
    requires key in db.threads
  {
    Usage.ValueAt(db.counters, MeterKey(key.account.tenant, db.threads[key].metered.start))
  }

  predicate SamePeriod(db: Db, j: ThreadKey, k: ThreadKey)
    requires j in db.threads && k in db.threads
  {
    j.account.tenant == k.account.tenant && db.threads[j].metered.start == db.threads[k].metered.start
  }

  lemma OpenKeepsNumbered(db: Db, key: ThreadKey, at: Moment, byReceipt: bool, resolved: Period)
    requires Numbered(db)
    ensures Numbered(OpenThread(db, key, at, byReceipt, resolved))
  {
    var after := OpenThread(db, key, at, byReceipt, resolved);
    if key !in db.threads {
      forall t, start, n | 1 <= n <= Usage.ValueAt(after.counters, MeterKey(t, start))
        ensures HasTotal(after, t, start, n)
      {
        if n <= Usage.ValueAt(db.counters, MeterKey(t, start)) {
          assert HasTotal(db, t, start, n);
          var k :| CarriesTotal(db, t, start, n, k);
          assert CarriesTotal(after, t, start, n, k);
        } else {
          assert CarriesTotal(after, t, start, n, key);
        }
      }
    }
  }

  /** Everything else leaves counters, periods and totals alone. */
  lemma SameNumbers(a: Db, b: Db)
    requires Numbered(a) && a.counters == b.counters && a.threads.Keys == b.threads.Keys && b.volumes.Keys <= b.threads.Keys
    requires forall key :: key in a.threads ==>
               b.threads[key].metered == a.threads[key].metered && b.threads[key].ordinal == a.threads[key].ordinal
    ensures Numbered(b)
  {
    forall t, start, n | 1 <= n <= Usage.ValueAt(b.counters, MeterKey(t, start))
      ensures HasTotal(b, t, start, n)
    {
      assert HasTotal(a, t, start, n);
      var k :| CarriesTotal(a, t, start, n, k);
      assert CarriesTotal(b, t, start, n, k);
    }
  }

  /** Nothing that totals see. */
  ghost predicate Unseen(a: Db, b: Db) {
    && b.counters == a.counters && b.threads.Keys == a.threads.Keys && b.volumes == a.volumes
    && forall key :: key in a.threads ==>
         b.threads[key].metered == a.threads[key].metered && b.threads[key].ordinal == a.threads[key].ordinal
  }

  lemma InboundStores(db: Db, key: ThreadKey, id: nat, at: Moment, resolved: Period)
    ensures Unseen(OpenThread(db, key, at, false, resolved), ApplyInbound(db, key, id, at, resolved))
  {
  }

  lemma ReceiptStores(db: Db, key: ThreadKey, id: nat, status: Ladder.Status, at: Moment, resolved: Period)
    ensures Unseen(if MessageKey(key.account.tenant, id) in db.messages then db else OpenThread(db, key, at, true, resolved),
                   ApplyReceipt(db, key, id, status, at, resolved))
  {
  }

  /** An item is one opening, and then nothing that totals see. */
  lemma ItemOpensThenStores(db: Db, account: Account, i: Item, resolved: Period) returns (before: Db)
    requires Attributable(i) && !Ignored(i) && Numbered(db)
    ensures Numbered(before) && Unseen(before, ApplyItem(db, account, i, resolved))
  {
    var key := ItemThread(account, i);
    OpenKeepsNumbered(db, key, i.at, i.Receipt?, resolved);
    match i
    case Inbound(_, id, at) =>
      InboundStores(db, key, id, at, resolved);
      before := OpenThread(db, key, at, false, resolved);
    case Receipt(_, id, status, at) =>
      ReceiptStores(db, key, id, status.value, at, resolved);
      before := if ItemKey(account, i) in db.messages then db else OpenThread(db, key, at, true, resolved);
  }

  lemma ItemKeepsNumbered(db: Db, account: Account, i: Item, resolved: Period)
    requires Attributable(i) && !Ignored(i) && Numbered(db)
    ensures Numbered(ApplyItem(db, account, i, resolved))
  {
    var before := ItemOpensThenStores(db, account, i, resolved);
    SameNumbers(before, ApplyItem(db, account, i, resolved));
  }

  lemma EffectKeepsNumbered(db: Db, e: Effect)
    requires IsEffect(e) && Numbered(db)
    ensures Numbered(DbAfter(db, e))
  {
    match e
    case ItemApplied(account, i, billing, dies) =>
      ItemKeepsNumbered(db, account, i, billing.period);
      ItemThreadThere(db, account, i, billing.period);
      SameNumbers(ApplyItem(db, account, i, billing.period), DbAfter(db, e));
    case _ => SameNumbers(db, DbAfter(db, e));
  }

  /** An item that may be announced has its thread by then. */
  lemma ItemThreadThere(db: Db, account: Account, i: Item, resolved: Period)
    requires Attributable(i) && !Ignored(i)
    ensures i.Inbound? ==> ItemThread(account, i) in ApplyItem(db, account, i, resolved).threads
  {
  }

  lemma {:induction false} RunKeepsNumbered(s: State, steps: seq<Step>)
    requires Numbered(s.db)
    ensures Numbered(Run(s, steps).db)
  {
    if steps == [] {
    } else {
      var sofar := Run(s, steps[..|steps| - 1]);
      RunKeepsNumbered(s, steps[..|steps| - 1]);
      var e := EffectOf(sofar, steps[|steps| - 1]);
      EffectKeepsNumbered(sofar.db, e);
    }
  }

  // --- Which totals are announced ---------------------------------------------------------------

  /**
   The step opens the thread for a message it is the first to store, on a plan with an allowance, and
   survives to say so.
   */
  ghost predicate OpensAloud(s: State, step: Step, key: ThreadKey) {
    exists account, i :: Opens(s, step, account, i, key)
      && i.Inbound? && ItemKey(account, i) !in s.db.messages && !step.dies && CapOf(s, account.tenant).Some?
  }

  /** The step's transaction is that item's, and the thread is new in it. */
  ghost predicate Opens(s: State, step: Step, account: Account, i: Item, key: ThreadKey) {
    && step.Work? && Attributable(i) && !Ignored(i) && key == ItemThread(account, i)
    && key !in s.db.threads && key in Next(s, step).db.threads
    && Next(s, step).db == Applied(s.db, account, i, BillingFor(s, account.tenant, i.at), step.dies)
  }

  predicate SameVolume(a: Db, b: Db, key: ThreadKey) {
    (key in b.volumes <==> key in a.volumes) && (key in a.volumes ==> b.volumes[key] == a.volumes[key])
  }

  lemma ItemAnnounces(db: Db, account: Account, i: Item, billing: Billing, dies: bool, key: ThreadKey)
    requires Attributable(i) && !Ignored(i)
    ensures var after := Applied(db, account, i, billing, dies);
            if !dies && i.Inbound? && key == ItemThread(account, i) && key !in db.threads && ItemKey(account, i) !in db.messages
               && billing.cap.Some?
            then key in after.volumes && after.volumes[key] == billing.cap.value
            else SameVolume(db, after, key)
  {
  }

  /**
   A total is announced only by the step that makes it, against the allowance the plan has then: a thread
   there already never becomes announced later, and a new one is exactly when an inbound message nobody had
   stored opened it, on a plan with an allowance, in a worker that lived past the commit. A receipt, a crash
   and a message already stored elsewhere all stay silent.
   */
  lemma AnnouncedExactly(s: State, step: Step, key: ThreadKey)
    requires Numbered(s.db) && key in Next(s, step).db.threads
    ensures key in s.db.threads ==> SameVolume(s.db, Next(s, step).db, key)
    ensures key !in s.db.threads ==>
              (key in Next(s, step).db.volumes <==> OpensAloud(s, step, key))
              && (key in Next(s, step).db.volumes ==> CapOf(s, key.account.tenant) == Some(Next(s, step).db.volumes[key]))
  {
    var e := EffectOf(s, step);
    if e.ItemApplied? {
      ItemAnnounces(s.db, e.account, e.i, e.billing, e.dies, key);
      EffectOpens(s.db, e, key);
      if key !in s.db.threads {
        assert Opens(s, step, e.account, e.i, key);
        forall account, i | Opens(s, step, account, i, key)
          ensures key in Next(s, step).db.volumes <==>
                    i.Inbound? && ItemKey(account, i) !in s.db.messages && !step.dies && CapOf(s, account.tenant).Some?
        {
          ItemAnnounces(s.db, account, i, BillingFor(s, account.tenant, i.at), step.dies, key);
        }
      }
    }
  }

  // --- Notices ----------------------------------------------------------------------------------

  /** The opening's total was announced against this allowance. */
  predicate AnnouncedUnder(db: Db, cap: nat, key: ThreadKey) { key in db.volumes && db.volumes[key] == cap }

  /** The openings whose announced total made the notifier send this notice about this allowance. */
  function NoticesSent(db: Db, t: Tenant, start: Instant, cap: nat, warnAt: real, notice: Usage.Notice): set<ThreadKey> {
    set key | key in MeteredAt(db, t, start) && AnnouncedUnder(db, cap, key)
              && Usage.CrossedNotice(db.threads[key].ordinal, cap, warnAt) == Some(notice)
  }

  /** The opening that takes the period's total to the notice's line. */
  predicate Crosses(db: Db, t: Tenant, start: Instant, line: Option<int>, key: ThreadKey) {
    key in MeteredAt(db, t, start) && line == Some(db.threads[key].ordinal)
  }

  /**
   In every run, with the allowance changed at any moment: each notice about an allowance goes out at most
   once a period, and it has gone out exactly when the one opening that crosses its line was announced
   against that allowance.
   */
  lemma {:induction false} NoticeSentExactly(s: State, steps: seq<Step>, t: Tenant, start: Instant, cap: nat, warnAt: real,
                                             notice: Usage.Notice)
    requires Numbered(s.db) && 0.0 < warnAt < 1.0 && cap >= 1
    ensures var db := Run(s, steps).db;
            var line := Usage.Line(notice, cap, warnAt);
            && |NoticesSent(db, t, start, cap, warnAt, notice)| <= 1
            && (forall j, k :: Crosses(db, t, start, line, j) && Crosses(db, t, start, line, k) ==> j == k)
            && (NoticesSent(db, t, start, cap, warnAt, notice) != {} <==>
                  exists key :: Crosses(db, t, start, line, key) && AnnouncedUnder(db, cap, key))
            && ((exists key :: Crosses(db, t, start, line, key)) <==>
                  line.Some? && 1 <= line.value <= Usage.ValueAt(db.counters, MeterKey(t, start)))
  {
    RunKeepsNumbered(s, steps);
    var db := Run(s, steps).db;
    var line := Usage.Line(notice, cap, warnAt);
    var notices := NoticesSent(db, t, start, cap, warnAt, notice);
    forall key | key in db.threads
      ensures Usage.CrossedNotice(db.threads[key].ordinal, cap, warnAt) == Some(notice) <==> line == Some(db.threads[key].ordinal)
    {
      Usage.CrossesItsLine(db.threads[key].ordinal, cap, warnAt, notice);
    }
    assert forall key :: key in notices <==> Crosses(db, t, start, line, key) && AnnouncedUnder(db, cap, key);
    forall j, k | Crosses(db, t, start, line, j) && Crosses(db, t, start, line, k)
      ensures j == k
    {
      assert SamePeriod(db, j, k);
    }
    if key :| key in notices {
      assert notices == {key};
    }
    ReachedMeansCrossed(db, t, start, line);
  }

  /** A period's total has reached a line exactly when one of its openings crossed it. */
  lemma ReachedMeansCrossed(db: Db, t: Tenant, start: Instant, line: Option<int>)
    requires Numbered(db)
    ensures (exists key :: Crosses(db, t, start, line, key)) <==>
              line.Some? && 1 <= line.value <= Usage.ValueAt(db.counters, MeterKey(t, start))
  {
    if line.Some? && 1 <= line.value <= Usage.ValueAt(db.counters, MeterKey(t, start)) {
      assert HasTotal(db, t, start, line.value);
      var key :| CarriesTotal(db, t, start, line.value, key);
      assert Crosses(db, t, start, line, key);
    }
  }

  /**
   An opening that crossed an allowance's line unannounced, or announced against another allowance, loses
   the notice for good: no run sends it afterwards.
   */
  lemma {:induction false} SilentCrossingIsFinal(s: State, steps: seq<Step>, t: Tenant, start: Instant, cap: nat, warnAt: real,
                                                 notice: Usage.Notice, key: ThreadKey)
    requires Numbered(s.db) && 0.0 < warnAt < 1.0 && cap >= 1
    requires Crosses(s.db, t, start, Usage.Line(notice, cap, warnAt), key) && !AnnouncedUnder(s.db, cap, key)
    ensures NoticesSent(Run(s, steps).db, t, start, cap, warnAt, notice) == {}
  {
    VolumeStays(s, steps, key);
    NoticeSentExactly(s, steps, t, start, cap, warnAt, notice);
    assert Crosses(Run(s, steps).db, t, start, Usage.Line(notice, cap, warnAt), key);
  }

  lemma {:induction false} VolumeStays(s: State, steps: seq<Step>, key: ThreadKey)
    requires Numbered(s.db) && key in s.db.threads
    ensures key in Run(s, steps).db.threads && SameVolume(s.db, Run(s, steps).db, key)
    ensures Run(s, steps).db.threads[key].metered == s.db.threads[key].metered
    ensures Run(s, steps).db.threads[key].ordinal == s.db.threads[key].ordinal
  {
    if steps == [] {
    } else {
      var sofar := Run(s, steps[..|steps| - 1]);
      VolumeStays(s, steps[..|steps| - 1], key);
      RunKeepsNumbered(s, steps[..|steps| - 1]);
      NextKeeps(sofar, steps[|steps| - 1]);
      AnnouncedExactly(sofar, steps[|steps| - 1], key);
    }
  }
}
