/**
 The delivery ladder of an outbound message, and what a stream of status webhooks does to it in any
 order, with any repetition.
 */
module MessageStatus {
  datatype Status = Queued | Sent | Delivered | Read | Failed

  function Rank(s: Status): nat {
    match s
    case Queued => 0
    case Sent => 1
    case Delivered => 2
    case Read => 3
    case Failed => 99
  }

  predicate IsAdvance(from: Status, to: Status) {
    from != Failed && Rank(to) > Rank(from)
  }

  /** The `WHERE status IN (...)` the writer computes from the ladder. */
  function AdvanceableFrom(to: Status): set<Status> {
    set from | from in {Queued, Sent, Delivered, Read, Failed} && IsAdvance(from, to)
  }

  /** The guarded UPDATE. */
  function Advanced(current: Status, to: Status): Status {
    if current in AdvanceableFrom(to) then to else current
  }

  function Fold(start: Status, deliveries: seq<Status>): Status {
    if deliveries == [] then start
    else Advanced(Fold(start, deliveries[..|deliveries| - 1]), deliveries[|deliveries| - 1])
  }

  /** The highest rank among the start and everything delivered; the ladder has one status per rank. */
  ghost predicate IsHighest(start: Status, deliveries: seq<Status>, s: Status) {
    && (s == start || s in deliveries)
    && Rank(start) <= Rank(s) && forall d :: d in deliveries ==> Rank(d) <= Rank(s)
  }

  /** Folding any finite stream of deliveries yields the highest status of the start and the stream, and nothing else. */
  lemma {:induction false} FoldIsHighest(start: Status, deliveries: seq<Status>, s: Status)
    ensures Fold(start, deliveries) == s <==> IsHighest(start, deliveries, s)
  {
    HighestReached(start, deliveries);
  }

  lemma {:induction false} HighestReached(start: Status, deliveries: seq<Status>)
    ensures IsHighest(start, deliveries, Fold(start, deliveries))
  {
    if deliveries == [] {
    } else {
      var rest, last := deliveries[..|deliveries| - 1], deliveries[|deliveries| - 1];
      HighestReached(start, rest);
      assert deliveries == rest + [last];
    }
  }

  /** So only which statuses were delivered matters: not their order, and not how often. */
  lemma {:induction false} OrderAndRepetitionIrrelevant(start: Status, one: seq<Status>, other: seq<Status>)
    requires forall d :: d in one <==> d in other
    ensures Fold(start, one) == Fold(start, other)
  {
    HighestReached(start, one);
    FoldIsHighest(start, other, Fold(start, one));
  }

  /** A failure, once recorded or delivered, is what the message stays. */
  lemma {:induction false} FailureIsFinal(start: Status, deliveries: seq<Status>)
    ensures Fold(start, deliveries) == Failed <==> start == Failed || Failed in deliveries
  {
    HighestReached(start, deliveries);
  }

  /** A `message.status_changed` is announced when the UPDATE matched. */
  predicate Announces(start: Status, deliveries: seq<Status>, k: nat)
    requires k < |deliveries|
  {
    Fold(start, deliveries[..k]) in AdvanceableFrom(deliveries[k])
  }

  /** No status is announced twice for one message, however often it is delivered. */
  lemma {:induction false} AnnouncedOnce(start: Status, deliveries: seq<Status>, j: nat, k: nat)
    requires j < k < |deliveries| && deliveries[j] == deliveries[k]
    ensures Announces(start, deliveries, j) ==> !Announces(start, deliveries, k)
  {
    var sofar := deliveries[..k];
    assert sofar[j] == deliveries[j];
    HighestReached(start, sofar);
  }
}
