/**
 Bot turns on one conversation: snapshot, claim, and a commit that comes after a model call, interleaved
 with other turns, agents taking the thread, and the thread being resolved.

 A snapshot's reads are one step. A reply is stamped later than its turn was claimed, a model call apart.
 */
module BotTurns {
  import opened Common
  import opened BotGate

  type MessageId = nat
  type JobId = nat

  datatype Outcome = Claimed | Replied | HandedOffTurn | SuppressedTurn

  /** A `bot_turns` row; `inbound_message_id` is unique. */
  datatype Turn = Turn(outcome: Outcome, createdAt: nat)

  datatype Conversation = Conversation(state: BotState, engagedAt: Option<nat>)

  /** What a turn reads besides the thread's bot columns: the gate's other inputs, the keyword match and the retrieval. */
  datatype Reading = Reading(gate: Snapshot, keyword: bool, chunks: seq<Chunk>, minConfidence: real)

  /** What the readings before the claim come to. */
  datatype Plan = SuppressTurn | GiveAwayTurn | AnswerFrom(chunks: seq<Chunk>, minConfidence: real)

  /** A turn in flight: what its snapshot read and decided, and whether it holds its message. */
  datatype Job = Job(message: MessageId, engagedSeen: Option<nat>, countSeen: nat, plan: Plan, claimed: bool)

  datatype CallResult = Failed | Answered(answer: ModelAnswer)

  /** A reply that went out: for which message, in which engagement, who owned the thread then, and on what grounds. */
  datatype Sent = Sent(
    message: MessageId,
    engagement: nat,
    state: BotState,
    chunks: seq<Chunk>,
    answer: ModelAnswer,
    minConfidence: real)

  datatype State = State(
    thread: Conversation,
    engagement: nat,
    turns: map<MessageId, Turn>,
    jobs: map<JobId, Job>,
    sent: seq<Sent>,
    clock: nat,
    maxTurns: nat)

  function RepliesSince(turns: map<MessageId, Turn>, since: nat): set<MessageId> {
    set m | m in turns && turns[m].outcome == Replied && turns[m].createdAt >= since
  }

  /** Replies of the running engagement as the service counts them: those since the stamp, and the one that wrote it. */
  function CountReplies(turns: map<MessageId, Turn>, engagedAt: Option<nat>): nat {
    match engagedAt
    case None => 0
    case Some(since) => |RepliesSince(turns, since)| + 1
  }

  function CountNow(s: State): nat { CountReplies(s.turns, s.thread.engagedAt) }

  // --- Before the claim -------------------------------------------------------------------------

  /** The gate's snapshot, on the thread as it is. */
  function SnapshotOf(s: State, r: Reading): Snapshot {
    r.gate.(thread := (match r.gate.thread
                       case None => None
                       case Some(t) => Some(t.(state := s.thread.state, engagedAt := s.thread.engagedAt))),
            replyCount := CountNow(s),
            maxBotTurns := s.maxTurns)
  }

  /** Refusals true of the tenant rather than the conversation, which record nothing. */
  predicate TenantLevel(why: Suppression) {
    why in {ProviderNotConfigured, FeatureNotInPlan, Disabled, NoKnowledgeBase, NotInbound, Unreadable}
  }

  predicate NeverEngaged(engagedSeen: Option<nat>, countSeen: nat) { engagedSeen.None? && countSeen == 0 }

  /** `None` leaves no trace. A keyword and the turn limit give the thread away; an empty retrieval only once engaged. */
  function PlanOf(s: State, r: Reading): Option<Plan> {
    match DecideEligibility(SnapshotOf(s, r))
    case Suppress(why) => if TenantLevel(why) then None else Some(SuppressTurn)
    case HandOff(_) => Some(GiveAwayTurn)
    case Admit(_) =>
      if r.keyword then Some(GiveAwayTurn)
      else if r.chunks == [] then Some(if NeverEngaged(s.thread.engagedAt, CountNow(s)) then SuppressTurn else GiveAwayTurn)
      else Some(AnswerFrom(r.chunks, r.minConfidence))
  }

  // --- Steps ------------------------------------------------------------------------------------

  datatype Step =
    | Tick(amount: nat)
    | Begin(job: JobId, message: MessageId, reading: Reading)
    /** The claim, or the end of a turn that has nothing to claim. */
    | Proceed(job: JobId)
    | Finish(job: JobId, result: CallResult)
    | Crash(job: JobId)
    /** An agent claims, is assigned, or writes: `human_active`. */
    | AgentTakes
    /** An agent asks for a thread the bot holds. */
    | AgentRequests
    /** The thread is resolved or closed. */
    | Reset

  function Drop(s: State, job: JobId): State { s.(jobs := s.jobs - {job}) }

  function WithOutcome(s: State, m: MessageId, outcome: Outcome): State
    requires m in s.turns
  {
    s.(turns := s.turns[m := s.turns[m].(outcome := outcome)])
  }

  /** The compare-and-set on `bot_state <> 'human_active'` guards the thread's row, not the reply. */
  function ReplyTo(s: State, j: Job, a: ModelAnswer): State
    requires j.message in s.turns && j.plan.AnswerFrom?
  {
    var t, sentAt := s.thread, s.clock + 1;
    WithOutcome(s, j.message, Replied).(
      clock := sentAt,
      sent := s.sent + [Sent(j.message, s.engagement, t.state, j.plan.chunks, a, j.plan.minConfidence)],
      thread := if t.state == HumanActive then t
                else Conversation(BotActive, if j.engagedSeen.None? then Some(sentAt) else t.engagedAt))
  }

  function GiveAway(s: State): Conversation {
    if s.thread.state == HumanActive then s.thread else s.thread.(state := HandedOff)
  }

  /** A failed call always gives the thread away; a weak answer does once the bot has spoken in this engagement. */
  function RefuseTo(s: State, j: Job, result: CallResult): State
    requires j.message in s.turns
  {
    if result.Answered? && NeverEngaged(j.engagedSeen, j.countSeen) then WithOutcome(s, j.message, SuppressedTurn)
    else WithOutcome(s, j.message, HandedOffTurn).(thread := GiveAway(s))
  }

  /** The answer clears the scoring gate of the plan it was asked under. */
  predicate Authorises(plan: Plan, result: CallResult) {
    plan.AnswerFrom? && result.Answered? && Resolve(plan.chunks, result.answer, plan.minConfidence).Reply?
  }

  function ProceedWith(s: State, job: JobId): State
    requires job in s.jobs
  {
    var j := s.jobs[job];
    match j.plan
    case SuppressTurn =>
      Drop(if j.message in s.turns then s else s.(turns := s.turns[j.message := Turn(SuppressedTurn, s.clock)]), job)
    case GiveAwayTurn => Drop(s.(thread := GiveAway(s)), job)
    case AnswerFrom(_, _) =>
      if j.claimed then s
      else if j.message in s.turns then Drop(s, job)
      else s.(turns := s.turns[j.message := Turn(Claimed, s.clock)], jobs := s.jobs[job := j.(claimed := true)])
  }

  predicate Holds(s: State, job: JobId) { job in s.jobs && s.jobs[job].claimed && s.jobs[job].message in s.turns }

  function Next(s: State, step: Step): State {
    match step
    case Tick(amount) => s.(clock := s.clock + amount)
    case Begin(job, message, reading) =>
      if job in s.jobs || PlanOf(s, reading).None? then s
      else s.(jobs := s.jobs[job := Job(message, s.thread.engagedAt, CountNow(s), PlanOf(s, reading).value, false)])
    case Proceed(job) => if job in s.jobs then ProceedWith(s, job) else s
    case Finish(job, result) =>
      if !Holds(s, job) then s
      else Drop(if Authorises(s.jobs[job].plan, result) then ReplyTo(s, s.jobs[job], result.answer)
                else RefuseTo(s, s.jobs[job], result), job)
    case Crash(job) => Drop(s, job)
    case AgentTakes => s.(thread := s.thread.(state := HumanActive))
    case AgentRequests => if s.thread.state == BotActive then s.(thread := GiveAway(s)) else s
    case Reset => s.(thread := Conversation(Off, None), engagement := s.engagement + 1)
  }

  function Run(s: State, steps: seq<Step>): State {
    if steps == [] then s else Next(Run(s, steps[..|steps| - 1]), steps[|steps| - 1])
  }

  function Fresh(maxTurns: nat): State { State(Conversation(Off, None), 0, map[], map[], [], 0, maxTurns) }

  /** The one kind of step that sends. */
  predicate Sends(s: State, step: Step) {
    step.Finish? && Holds(s, step.job) && Authorises(s.jobs[step.job].plan, step.result)
  }

  // --- At most one reply per message, and only on good grounds ----------------------------------

  ghost predicate OneHolder(s: State) {
    && (forall j :: j in s.jobs && s.jobs[j].claimed ==>
          s.jobs[j].plan.AnswerFrom? && s.jobs[j].message in s.turns && s.turns[s.jobs[j].message].outcome == Claimed)
    && (forall i, j :: i in s.jobs && j in s.jobs && s.jobs[i].claimed && s.jobs[j].claimed ==>
          s.jobs[i].message == s.jobs[j].message ==> i == j)
  }

  ghost predicate SentOnce(s: State) {
    && (forall k :: 0 <= k < |s.sent| ==> s.sent[k].message in s.turns && s.turns[s.sent[k].message].outcome == Replied)
    && (forall j, k :: 0 <= j < k < |s.sent| ==> s.sent[j].message != s.sent[k].message)
  }

  /** Instants read are past, and a reply belongs to no later engagement than the running one. */
  ghost predicate Dated(s: State) {
    && (forall m :: m in s.turns ==> s.turns[m].createdAt <= s.clock)
    && (s.thread.engagedAt.Some? ==> s.thread.engagedAt.value <= s.clock)
    && (forall k :: 0 <= k < |s.sent| ==> s.sent[k].engagement <= s.engagement)
  }

  /** The database's check: an `off` thread has no engagement stamp. */
  predicate StampMatches(s: State) { s.thread.state == Off ==> s.thread.engagedAt.None? }

  ghost predicate Right(s: State) { OneHolder(s) && SentOnce(s) && Dated(s) && StampMatches(s) }

  lemma NextKeepsHolder(s: State, step: Step)
    requires OneHolder(s)
    ensures OneHolder(Next(s, step))
  {
  }

  lemma NextKeepsSent(s: State, step: Step)
    requires OneHolder(s) && SentOnce(s)
    ensures SentOnce(Next(s, step))
  {
  }

  lemma NextKeepsDated(s: State, step: Step)
    requires Dated(s) && StampMatches(s)
    ensures Dated(Next(s, step)) && StampMatches(Next(s, step))
  {
  }

  lemma NextKeepsRight(s: State, step: Step)
    requires Right(s)
    ensures Right(Next(s, step))
  {
    NextKeepsHolder(s, step);
    NextKeepsSent(s, step);
    NextKeepsDated(s, step);
  }

  lemma {:induction false} RunKeepsRight(s: State, steps: seq<Step>)
    requires Right(s)
    ensures Right(Run(s, steps))
  {
    if steps == [] {
    } else {
      RunKeepsRight(s, steps[..|steps| - 1]);
      NextKeepsRight(Run(s, steps[..|steps| - 1]), steps[|steps| - 1]);
    }
  }

  /** Under any redelivery, crash and interleaving, a message gets at most one reply. */
  lemma {:induction false} AtMostOneReply(maxTurns: nat, steps: seq<Step>)
    ensures var s := Run(Fresh(maxTurns), steps);
            Right(s) && forall j, k :: 0 <= j < k < |s.sent| ==> s.sent[j].message != s.sent[k].message
  {
    RunKeepsRight(Fresh(maxTurns), steps);
  }

  /** What a reply owes the customer: an answer, cited from what was retrieved, with both signals at the threshold. */
  ghost predicate WellGrounded(r: Sent) {
    && r.answer.answered && r.answer.text.Some? && r.answer.cited != []
    && (forall id :: id in r.answer.cited ==> Retrieved(r.chunks, id))
    && ModelConfidence(r.answer) >= r.minConfidence
    && RetrievalConfidence(TopRank(r.chunks)) >= r.minConfidence
  }

  /** In every run, every reply that went out had both signals at or above the threshold its turn read. */
  lemma {:induction false} EveryReplyWellGrounded(maxTurns: nat, steps: seq<Step>)
    ensures forall r :: r in Run(Fresh(maxTurns), steps).sent ==> WellGrounded(r)
  {
    if steps == [] {
    } else {
      var before, step := Run(Fresh(maxTurns), steps[..|steps| - 1]), steps[|steps| - 1];
      EveryReplyWellGrounded(maxTurns, steps[..|steps| - 1]);
      if Sends(before, step) {
        var plan := before.jobs[step.job].plan;
        ReplyMeaning(plan.chunks, step.result.answer, plan.minConfidence);
      }
    }
  }

  // --- Replies after the thread was released ----------------------------------------------------

  predicate SentWhileReleased(s: State) { exists k | 0 <= k < |s.sent| :: Released(s.sent[k].state) }

  /**
   A step sends into a thread the bot had released exactly when it is an authorised finish of a claimed
   turn and the thread is released at that moment: the commit does not look.
   */
  lemma ReleasedReplyExactly(s: State, step: Step)
    requires !SentWhileReleased(s)
    ensures SentWhileReleased(Next(s, step)) <==> Sends(s, step) && Released(s.thread.state)
  {
    var t := Next(s, step);
    if Sends(s, step) {
      assert t.sent[|s.sent|].state == s.thread.state;
    }
    assert forall k :: 0 <= k < |s.sent| ==> t.sent[k] == s.sent[k];
  }

  /** The step gives the thread to a person: an agent's own doing, or another turn's give-away or refusal. */
  predicate Releases(s: State, step: Step) {
    match step
    case AgentTakes => true
    case AgentRequests => s.thread.state == BotActive
    case Proceed(job) => job in s.jobs && s.jobs[job].plan.GiveAwayTurn?
    case Finish(job, result) =>
      Holds(s, job) && !Authorises(s.jobs[job].plan, result)
      && !(result.Answered? && NeverEngaged(s.jobs[job].engagedSeen, s.jobs[job].countSeen))
    case _ => false
  }

  /** The step takes it back from one: the thread is resolved, or a reply lands that no agent's claim outranks. */
  predicate TakesBack(s: State, step: Step) { step.Reset? || (Sends(s, step) && s.thread.state != HumanActive) }

  lemma ReleasedAfter(s: State, step: Step)
    ensures Released(Next(s, step).thread.state) <==> Releases(s, step) || (Released(s.thread.state) && !TakesBack(s, step))
  {
  }

  /** Some step of the run released the thread and no later one took it back. */
  ghost predicate ReleasedSince(s: State, since: seq<Step>) {
    since != []
    && var rest, last := since[..|since| - 1], since[|since| - 1];
       Releases(Run(s, rest), last) || (ReleasedSince(s, rest) && !TakesBack(Run(s, rest), last))
  }

  lemma {:induction false} ReleasedSinceExactly(s: State, since: seq<Step>)
    requires !Released(s.thread.state)
    ensures Released(Run(s, since).thread.state) <==> ReleasedSince(s, since)
  {
    if since == [] {
    } else {
      ReleasedSinceExactly(s, since[..|since| - 1]);
      ReleasedAfter(Run(s, since[..|since| - 1]), since[|since| - 1]);
    }
  }

  lemma AdmittedUnreleased(s: State, r: Reading)
    requires PlanOf(s, r).Some? && PlanOf(s, r).value.AnswerFrom?
    ensures CountNow(s) < s.maxTurns && !Released(s.thread.state)
  {
  }

  /**
   From a snapshot that admitted a turn, over whatever runs until a reply goes out: that reply lands in a
   released thread exactly when, since the snapshot, the thread was released, by an agent or by another
   turn's give-away or refusal, and neither resolved nor taken back by another reply afterwards.
   */
  lemma {:induction false} ReplyLandsReleasedExactly(s: State, begin: Step, since: seq<Step>, send: Step)
    requires begin.Begin? && begin.job !in s.jobs
    requires PlanOf(s, begin.reading).Some? && PlanOf(s, begin.reading).value.AnswerFrom?
    requires Sends(Run(Next(s, begin), since), send)
    ensures var t := Run(Next(s, begin), since);
            var sent := Next(t, send).sent;
            && |sent| == |t.sent| + 1
            && (Released(sent[|t.sent|].state) <==> ReleasedSince(Next(s, begin), since))
  {
    AdmittedUnreleased(s, begin.reading);
    ReleasedSinceExactly(Next(s, begin), since);
  }

  /** And a thread given away is taken back: the guard excludes `human_active` only. */
  lemma ReplyTakesThreadBack(s: State, step: Step)
    requires Sends(s, step) && s.thread.state == HandedOff
    ensures Next(s, step).thread.state == BotActive && SentWhileReleased(Next(s, step))
  {
    assert Released(Next(s, step).sent[|s.sent|].state);
  }
}
