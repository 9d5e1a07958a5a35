/**
 The chatbot's two gates: whether a turn may start, and whether an answer may be sent.
 Confidence arithmetic is over the reals.
 */
module BotGate {
  import opened Common
  import HexColour

  type Id = nat

  datatype BotState = Off | BotActive | HandedOff | HumanActive

  datatype HandoffReason = LowConfidence | NoMatch | CustomerRequested | MaxTurns | AgentRequested | BotError

  // --- May a turn start? ------------------------------------------------------------------------

  datatype Message = Message(inbound: bool, body: Option<string>)

  datatype Thread = Thread(state: BotState, engagedAt: Option<nat>, windowExpiresAt: Option<nat>)

  datatype Snapshot = Snapshot(
    providerConfigured: bool,
    featureIncluded: bool,
    enabled: bool,
    hasIndexedKnowledge: bool,
    message: Option<Message>,
    thread: Option<Thread>,
    optedOut: bool,
    replyCount: nat,
    maxBotTurns: nat,
    now: nat)

  datatype Suppression =
    | ProviderNotConfigured | FeatureNotInPlan | Disabled | NoKnowledgeBase | Unreadable | OptedOut
    | NotInbound | EmptyMessage | AlreadyReleased | WindowClosed

  datatype Decision = Admit(question: string) | Suppress(why: Suppression) | HandOff(reason: HandoffReason)

  function Question(m: Message): string { HexColour.Trim(if m.body.Some? then m.body.value else "") }

  predicate Released(state: BotState) { state == HandedOff || state == HumanActive }

  predicate WindowOpen(expiresAt: Option<nat>, now: nat) { expiresAt.Some? && expiresAt.value > now }

  function DecideEligibility(s: Snapshot): Decision {
    if !s.providerConfigured then Suppress(ProviderNotConfigured)
    else if !s.featureIncluded then Suppress(FeatureNotInPlan)
    else if !s.enabled then Suppress(Disabled)
    else if !s.hasIndexedKnowledge then Suppress(NoKnowledgeBase)
    else if s.message.None? || s.thread.None? then Suppress(Unreadable)
    else if s.optedOut then Suppress(OptedOut)
    else if !s.message.value.inbound then Suppress(NotInbound)
    else if Question(s.message.value) == "" then Suppress(EmptyMessage)
    else if Released(s.thread.value.state) then Suppress(AlreadyReleased)
    else if !WindowOpen(s.thread.value.windowExpiresAt, s.now) then Suppress(WindowClosed)
    else if s.replyCount >= s.maxBotTurns then HandOff(MaxTurns)
    else Admit(Question(s.message.value))
  }

  /** One refusal, on its own: what must be true of the snapshot for it not to apply. */
  predicate Clear(s: Snapshot, why: Suppression) {
    match why
    case ProviderNotConfigured => s.providerConfigured
    case FeatureNotInPlan => s.featureIncluded
    case Disabled => s.enabled
    case NoKnowledgeBase => s.hasIndexedKnowledge
    case Unreadable => s.message.Some? && s.thread.Some?
    case OptedOut => !s.optedOut
    case NotInbound => s.message.Some? && s.message.value.inbound
    case EmptyMessage => s.message.Some? && Question(s.message.value) != ""
    case AlreadyReleased => s.thread.Some? && !Released(s.thread.value.state)
    case WindowClosed => s.thread.Some? && WindowOpen(s.thread.value.windowExpiresAt, s.now)
  }

  /** The published order: the platform, the tenant, the knowledge base, the person, the message, the thread. */
  const ORDER: seq<Suppression> := [
    ProviderNotConfigured, FeatureNotInPlan, Disabled, NoKnowledgeBase, Unreadable, OptedOut,
    NotInbound, EmptyMessage, AlreadyReleased, WindowClosed]

  predicate ClearUpTo(s: Snapshot, n: nat)
    requires n <= |ORDER|
  {
    forall k | 0 <= k < n :: Clear(s, ORDER[k])
  }

  /**
   A turn starts exactly when nothing refuses it and the engagement is under its limit; a refusal is the
   first in the published order that applies; the turn limit hands off only what nothing suppresses, so a
   contact who opted out is never sent anything, not even a handoff message.
   */
  lemma DecisionMeaning(s: Snapshot)
    ensures DecideEligibility(s).Admit? <==> ClearUpTo(s, |ORDER|) && s.replyCount < s.maxBotTurns
    ensures DecideEligibility(s).HandOff? <==> ClearUpTo(s, |ORDER|) && s.replyCount >= s.maxBotTurns
    ensures forall k :: 0 <= k < |ORDER| ==>
              (DecideEligibility(s) == Suppress(ORDER[k]) <==> !Clear(s, ORDER[k]) && ClearUpTo(s, k))
    ensures s.optedOut ==> DecideEligibility(s).Suppress?
    ensures DecideEligibility(s).Admit? ==> DecideEligibility(s).question != ""
  {
    assert ORDER[0] == ProviderNotConfigured && ORDER[1] == FeatureNotInPlan && ORDER[2] == Disabled;
    assert ORDER[3] == NoKnowledgeBase && ORDER[4] == Unreadable && ORDER[5] == OptedOut && ORDER[6] == NotInbound;
    assert ORDER[7] == EmptyMessage && ORDER[8] == AlreadyReleased && ORDER[9] == WindowClosed;
  }

  // --- May an answer be sent? -------------------------------------------------------------------

  datatype Level = High | Medium | Low

  datatype Chunk = Chunk(id: Id, rank: real)

  datatype ModelAnswer = ModelAnswer(answered: bool, confidence: Level, cited: seq<Id>, text: Option<string>)

  const RANK_TARGET: real := 0.1

  function LevelConfidence(l: Level): real {
    match l
    case High => 1.0
    case Medium => 0.6
    case Low => 0.3
  }

  function ModelConfidence(a: ModelAnswer): real { if a.answered then LevelConfidence(a.confidence) else 0.0 }

  function RetrievalConfidence(topRank: real): real {
    if topRank <= 0.0 then 0.0 else MinReal(topRank / RANK_TARGET, 1.0)
  }

  function CompositeConfidence(model: real, retrieval: real): real { MinReal(model, retrieval) }

  function TopRank(chunks: seq<Chunk>): real { if chunks == [] then 0.0 else chunks[0].rank }

  predicate Retrieved(chunks: seq<Chunk>, id: Id) { exists k | 0 <= k < |chunks| :: chunks[k].id == id }

  /** The citations that are of this turn's retrieval, in order. */
  function Cited(chunks: seq<Chunk>, ids: seq<Id>): (kept: seq<Id>)
    ensures |kept| <= |ids|
    ensures |kept| == |ids| <==> forall id :: id in ids ==> Retrieved(chunks, id)
  {
    if ids == [] then []
    else
      var rest := Cited(chunks, ids[1..]);
      assert ids == [ids[0]] + ids[1..];
      if Retrieved(chunks, ids[0]) then [ids[0]] + rest else rest
  }

  predicate Grounded(chunks: seq<Chunk>, a: ModelAnswer) {
    var kept := Cited(chunks, a.cited);
    |kept| > 0 && |kept| == |a.cited|
  }

  datatype Verdict = Reply(text: string) | Refuse

  function Resolve(chunks: seq<Chunk>, a: ModelAnswer, minConfidence: real): Verdict {
    var score := CompositeConfidence(ModelConfidence(a), RetrievalConfidence(TopRank(chunks)));
    if !a.answered || !Grounded(chunks, a) || a.text.None? then Refuse
    else if score < minConfidence then Refuse
    else Reply(a.text.value)
  }

  /**
   A reply is authorised exactly when the model answered, cited something, cited nothing it was not
   given, and both signals on their own reach the threshold. Neither can rescue the other.
   */
  lemma ReplyMeaning(chunks: seq<Chunk>, a: ModelAnswer, minConfidence: real)
    ensures Resolve(chunks, a, minConfidence).Reply? <==>
              && a.answered && a.text.Some? && a.cited != []
              && (forall id :: id in a.cited ==> Retrieved(chunks, id))
              && ModelConfidence(a) >= minConfidence
              && RetrievalConfidence(TopRank(chunks)) >= minConfidence
    ensures Resolve(chunks, a, minConfidence).Reply? ==> Resolve(chunks, a, minConfidence).text == a.text.value && chunks != []
  {
    if a.cited != [] && forall id :: id in a.cited ==> Retrieved(chunks, id) {
      assert Retrieved(chunks, a.cited[0]);
    }
  }

  /** Raising the retrieval rank or the model's level never turns a reply into a refusal; raising the threshold never does the reverse. */
  lemma {:induction false} ReplyMonotone(chunks: seq<Chunk>, better: seq<Chunk>, a: ModelAnswer, low: real, high: real)
    requires |chunks| == |better| && TopRank(chunks) <= TopRank(better)
    requires forall k :: 0 <= k < |chunks| ==> better[k].id == chunks[k].id
    requires low <= high
    ensures Resolve(chunks, a, high).Reply? ==> Resolve(better, a, low).Reply?
  {
  }

  lemma RetrievalMonotone(r: real, s: real)
    requires r <= s
    ensures RetrievalConfidence(r) <= RetrievalConfidence(s)
    ensures 0.0 <= RetrievalConfidence(r) <= 1.0
    ensures RetrievalConfidence(r) == 1.0 <==> r >= RANK_TARGET
  {
  }
}
