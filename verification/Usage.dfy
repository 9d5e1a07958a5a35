/**
 Usage counters and gauges: increments inside the caller's transaction, high-water marks, the nightly
 recomputation, and the once-per-period allowance notices that ride on the returned totals.
 */
module Usage {
  import opened Common
  import opened UsagePeriod

  type Tenant = nat

  datatype Metric = SeatsActive | ConversationsOpened | MessagesSent | MessagesReceived | AiReplies

  /** `USAGE_METRIC_KINDS`: every metric that is not the seat gauge. */
  const COUNTERS: seq<Metric> := [ConversationsOpened, MessagesSent, MessagesReceived, AiReplies]

  /** `UNIQUE (tenant_id, metric, period_start)`. */
  datatype Key = Key(tenant: Tenant, metric: Metric, start: Instant)

  datatype Row = Row(end: Instant, value: nat)

  type Rows = map<Key, Row>

  /** An absent row reads as zero. */
  function ValueAt(rows: Rows, key: Key): nat { if key in rows then rows[key].value else 0 }

  function KeyFor(tenant: Tenant, metric: Metric, p: Period): Key { Key(tenant, metric, p.start) }

  /** `period_end` is written on insert and never rewritten. */
  function Incremented(rows: Rows, key: Key, end: Instant, amount: nat): Rows {
    rows[key := if key in rows then rows[key].(value := rows[key].value + amount) else Row(end, amount)]
  }

  function Gauged(rows: Rows, key: Key, end: Instant, value: nat): Rows {
    if key in rows && rows[key].value >= value then rows
    else rows[key := Row(if key in rows then rows[key].end else end, value)]
  }

  // --- Recomputation from the source rows -------------------------------------------------------

  /** A row that caused one unit of a counter: a conversation or message, with its own timestamp. */
  datatype Source = Source(tenant: Tenant, metric: Metric, at: Instant)

  predicate CountsIn(s: Source, tenant: Tenant, metric: Metric, p: Period) {
    s.tenant == tenant && s.metric == metric && Contains(p, s.at)
  }

  function CountIn(source: seq<Source>, tenant: Tenant, metric: Metric, p: Period): nat {
    if source == [] then 0
    else CountIn(source[..|source| - 1], tenant, metric, p)
         + (if CountsIn(source[|source| - 1], tenant, metric, p) then 1 else 0)
  }

  function Corrected(rows: Rows, key: Key, end: Instant, count: nat): Rows {
    if ValueAt(rows, key) == count then rows
    else rows[key := Row(if key in rows then rows[key].end else end, count)]
  }

  function ReconciledFor(rows: Rows, tenant: Tenant, p: Period, source: seq<Source>, metrics: seq<Metric>): Rows {
    if metrics == [] then rows
    else
      var last := metrics[|metrics| - 1];
      Corrected(ReconciledFor(rows, tenant, p, source, metrics[..|metrics| - 1]),
                KeyFor(tenant, last, p), p.end, CountIn(source, tenant, last, p))
  }

  function Reconciled(rows: Rows, tenant: Tenant, p: Period, source: seq<Source>): Rows {
    ReconciledFor(rows, tenant, p, source, COUNTERS)
  }

  /** Every counter of the tenant's period equals the number of source rows that fall in it. */
  ghost predicate Agrees(rows: Rows, tenant: Tenant, p: Period, source: seq<Source>) {
    forall metric :: metric in COUNTERS ==>
      ValueAt(rows, KeyFor(tenant, metric, p)) == CountIn(source, tenant, metric, p)
  }

  // --- The service ------------------------------------------------------------------------------

  class UsageCounters {
    var rows: Rows

    constructor ()
      ensures rows == map[]
    {
      rows := map[];
    }

    method Increment(tenant: Tenant, metric: Metric, p: Period, amount: nat) returns (value: nat)
      modifies this
      ensures rows == Incremented(old(rows), KeyFor(tenant, metric, p), p.end, amount)
      ensures value == ValueAt(old(rows), KeyFor(tenant, metric, p)) + amount == ValueAt(rows, KeyFor(tenant, metric, p))
    {
      var key := KeyFor(tenant, metric, p);
      if key in rows {
        rows := rows[key := rows[key].(value := rows[key].value + amount)];
      } else {
        rows := rows[key := Row(p.end, amount)];
      }
      value := rows[key].value;
    }

    method RecordGauge(tenant: Tenant, metric: Metric, p: Period, value: nat)
      modifies this
      ensures rows == Gauged(old(rows), KeyFor(tenant, metric, p), p.end, value)
    {
      var key := KeyFor(tenant, metric, p);
      if key !in rows {
        rows := rows[key := Row(p.end, value)];
      } else if rows[key].value < value {
        rows := rows[key := rows[key].(value := value)];
      }
    }

    method Current(tenant: Tenant, metric: Metric, p: Period) returns (value: nat)
      ensures value == ValueAt(rows, KeyFor(tenant, metric, p))
    {
      var key := KeyFor(tenant, metric, p);
      value := 0;
      if key in rows {
        value := rows[key].value;
      }
    }

    method Reconcile(tenant: Tenant, p: Period, source: seq<Source>)
      modifies this
      ensures rows == Reconciled(old(rows), tenant, p, source)
      ensures Agrees(rows, tenant, p, source)
    {
      for m := 0 to |COUNTERS|
        invariant rows == ReconciledFor(old(rows), tenant, p, source, COUNTERS[..m])
      {
        assert COUNTERS[..m + 1][..m] == COUNTERS[..m];
        var count := 0;
        for k := 0 to |source|
          invariant count == CountIn(source[..k], tenant, COUNTERS[m], p)
        {
          assert source[..k + 1][..k] == source[..k];
          if CountsIn(source[k], tenant, COUNTERS[m], p) {
            count := count + 1;
          }
        }
        assert source[..|source|] == source;
        rows := Corrected(rows, KeyFor(tenant, COUNTERS[m], p), p.end, count);
      }
      assert COUNTERS[..|COUNTERS|] == COUNTERS;
      ReconcileAgrees(old(rows), tenant, p, source);
    }
  }

  // --- Reconciliation ---------------------------------------------------------------------------

  lemma {:induction false} ReconcileForAgrees(rows: Rows, tenant: Tenant, p: Period, source: seq<Source>, metrics: seq<Metric>)
    ensures var after := ReconciledFor(rows, tenant, p, source, metrics);
            && (forall m :: m in metrics ==> ValueAt(after, KeyFor(tenant, m, p)) == CountIn(source, tenant, m, p))
            && (forall key: Key :: (forall m :: m in metrics ==> key != KeyFor(tenant, m, p)) ==>
                  ValueAt(after, key) == ValueAt(rows, key))
            && (after == rows <==>
                  forall m :: m in metrics ==> ValueAt(rows, KeyFor(tenant, m, p)) == CountIn(source, tenant, m, p))
  {
    if metrics == [] {
    } else {
      var rest, last := metrics[..|metrics| - 1], metrics[|metrics| - 1];
      ReconcileForAgrees(rows, tenant, p, source, rest);
      assert metrics == rest + [last];
      var sofar := ReconciledFor(rows, tenant, p, source, rest);
      var after := ReconciledFor(rows, tenant, p, source, metrics);
      if after == rows {
        forall m | m in metrics
          ensures ValueAt(rows, KeyFor(tenant, m, p)) == CountIn(source, tenant, m, p)
        {
          if m != last {
            assert m in rest;
          }
        }
      }
    }
  }

  /**
   Reconciliation is right, changes nothing else, and is a no-op exactly when every counter already
   equals its source rows; so a second one never does anything.
   */
  lemma {:induction false} ReconcileAgrees(rows: Rows, tenant: Tenant, p: Period, source: seq<Source>)
    ensures var after := Reconciled(rows, tenant, p, source);
            && Agrees(after, tenant, p, source)
            && (after == rows <==> Agrees(rows, tenant, p, source))
            && Reconciled(after, tenant, p, source) == after
            && forall key: Key :: key.tenant != tenant || key.start != p.start || key.metric == SeatsActive ==>
                 ValueAt(after, key) == ValueAt(rows, key)
  {
    ReconcileForAgrees(rows, tenant, p, source, COUNTERS);
    ReconcileForAgrees(Reconciled(rows, tenant, p, source), tenant, p, source, COUNTERS);
    var after := Reconciled(rows, tenant, p, source);
    forall key: Key | key.tenant != tenant || key.start != p.start || key.metric == SeatsActive
      ensures ValueAt(after, key) == ValueAt(rows, key)
    {
      assert forall m :: m in COUNTERS ==> key != KeyFor(tenant, m, p);
    }
  }

  // --- The transactional increment rule ---------------------------------------------------------

  /**
   A source row and its increment, committed together against the period `resolved`: a period `q` whose
   counter agreed with its rows still agrees exactly when the increment went to `q` if and only if the
   row's own time falls in `q`.
   */
  lemma {:induction false} IncrementWithItsRow(rows: Rows, source: seq<Source>, row: Source, resolved: Period, q: Period)
    requires ValueAt(rows, KeyFor(row.tenant, row.metric, q)) == CountIn(source, row.tenant, row.metric, q)
    ensures ValueAt(Incremented(rows, KeyFor(row.tenant, row.metric, resolved), resolved.end, 1), KeyFor(row.tenant, row.metric, q))
              == CountIn(source + [row], row.tenant, row.metric, q)
            <==> (q.start == resolved.start <==> Contains(q, row.at))
  {
    assert (source + [row])[..|source|] == source;
  }

  datatype Increment = Increment(key: Key, end: Instant, amount: nat)

  function IncrementedAll(rows: Rows, incs: seq<Increment>): Rows {
    if incs == [] then rows
    else
      var last := incs[|incs| - 1];
      Incremented(IncrementedAll(rows, incs[..|incs| - 1]), last.key, last.end, last.amount)
  }

  function SumFor(incs: seq<Increment>, key: Key): nat {
    if incs == [] then 0
    else SumFor(incs[..|incs| - 1], key) + (if incs[|incs| - 1].key == key then incs[|incs| - 1].amount else 0)
  }

  /** Conservation: whatever transactions commit in whatever order, a counter holds what it held plus what was added to it. */
  lemma {:induction false} CounterIsTheSum(rows: Rows, incs: seq<Increment>, key: Key)
    ensures ValueAt(IncrementedAll(rows, incs), key) == ValueAt(rows, key) + SumFor(incs, key)
    ensures key in rows ==> key in IncrementedAll(rows, incs) && IncrementedAll(rows, incs)[key].end == rows[key].end
  {
    if incs == [] {
    } else {
      CounterIsTheSum(rows, incs[..|incs| - 1], key);
    }
  }

  function GaugedAll(rows: Rows, key: Key, end: Instant, values: seq<nat>): Rows {
    if values == [] then rows
    else Gauged(GaugedAll(rows, key, end, values[..|values| - 1]), key, end, values[|values| - 1])
  }

  /** A gauge holds the period's high-water mark: the largest of what it held and every value recorded, and nothing else. */
  lemma {:induction false} GaugeIsTheHighWater(rows: Rows, key: Key, end: Instant, values: seq<nat>)
    ensures var high := ValueAt(GaugedAll(rows, key, end, values), key);
            && (high == ValueAt(rows, key) || high in values)
            && ValueAt(rows, key) <= high && forall v :: v in values ==> v <= high
  {
    if values == [] {
    } else {
      GaugeIsTheHighWater(rows, key, end, values[..|values| - 1]);
      assert values == values[..|values| - 1] + [values[|values| - 1]];
    }
  }

  // --- Allowance notices ------------------------------------------------------------------------

  datatype Notice = LimitReached | Warning

  function Ceil(x: real): int { -((-x).Floor) }

  function WarnThreshold(cap: nat, warnAt: real): int { Ceil(cap as real * warnAt) }

  /** The notice an increment to `total` crosses into. The cap is checked first. */
  function CrossedNotice(total: nat, cap: nat, warnAt: real): Option<Notice> {
    var previous := total - 1;
    if previous < cap && total >= cap then Some(LimitReached)
    else if previous < WarnThreshold(cap, warnAt) && total >= WarnThreshold(cap, warnAt) then Some(Warning)
    else None
  }

  /** The total at which a notice is due: the cap, or the warning threshold where that is a line of its own. */
  function Line(notice: Notice, cap: nat, warnAt: real): Option<int> {
    match notice
    case LimitReached => Some(cap)
    case Warning => if WarnThreshold(cap, warnAt) == cap then None else Some(WarnThreshold(cap, warnAt))
  }

  /** A total crosses into a notice exactly when it is that notice's line. */
  lemma CrossesItsLine(total: nat, cap: nat, warnAt: real, notice: Notice)
    requires 0.0 < warnAt < 1.0 && cap >= 1
    ensures CrossedNotice(total, cap, warnAt) == Some(notice) <==> Line(notice, cap, warnAt) == Some(total)
  {
  }
}
