/**
 The turn limit over whole runs of bot turns: the service's count of an engagement against the replies it
 really had, when the two part, and when the limit holds.
 */
module BotLimit {
  import opened Common
  import opened BotGate
  import opened BotTurns
  import HexColour

  // --- The turn limit ---------------------------------------------------------------------------

  function RepliesIn(sent: seq<Sent>, engagement: nat): nat {
    if sent == [] then 0
    else RepliesIn(sent[..|sent| - 1], engagement) + (if sent[|sent| - 1].engagement == engagement then 1 else 0)
  }

  function RepliesNow(s: State): nat { RepliesIn(s.sent, s.engagement) }

  lemma RepliesSnoc(sent: seq<Sent>, last: Sent, engagement: nat)
    ensures RepliesIn(sent + [last], engagement) == RepliesIn(sent, engagement) + (if last.engagement == engagement then 1 else 0)
  {
    assert (sent + [last])[..|sent|] == sent;
  }

  lemma {:induction false} NoneIn(sent: seq<Sent>, engagement: nat)
    requires forall k :: 0 <= k < |sent| ==> sent[k].engagement < engagement
    ensures RepliesIn(sent, engagement) == 0
  {
    if sent == [] {
    } else {
      NoneIn(sent[..|sent| - 1], engagement);
    }
  }

  /** Rows written before a claim, and outcomes other than a reply, are not counted. */
  lemma SameReplies(s: State, t: State, message: MessageId)
    requires message in s.turns ==> s.turns[message].outcome != Replied
    requires message in t.turns && t.turns[message].outcome != Replied
    requires t.turns == s.turns[message := t.turns[message]]
    ensures CountReplies(t.turns, s.thread.engagedAt) == CountNow(s)
  {
    if s.thread.engagedAt.Some? {
      var since := s.thread.engagedAt.value;
      assert RepliesSince(t.turns, since) == RepliesSince(s.turns, since);
    }
  }

  /** Only a reply moves the count while the engagement runs; a reset starts it again. */
  lemma OtherStepsKeepCount(s: State, step: Step)
    requires OneHolder(s) && !Sends(s, step)
    ensures Next(s, step).sent == s.sent
    ensures !step.Reset? ==> Next(s, step).engagement == s.engagement && Next(s, step).thread.engagedAt == s.thread.engagedAt
    ensures !step.Reset? ==> CountNow(Next(s, step)) == CountNow(s)
  {
    var t := Next(s, step);
    if step.Proceed? && step.job in s.jobs && t.turns != s.turns {
      SameReplies(s, t, s.jobs[step.job].message);
    } else if step.Finish? && Holds(s, step.job) {
      SameReplies(s, t, s.jobs[step.job].message);
    }
  }

  /** The service's count is the replies the running engagement has really had. */
  ghost predicate CountIsTrue(s: State) { RepliesNow(s) == CountNow(s) }

  /**
   Whether a reply will be in the count from now on, from the stamp on the row, the stamp its snapshot
   saw and its own turn's timestamp: it opens the engagement it thinks it opens, or was claimed in the
   engagement that is running and does not restart it.
   */
  predicate CountsItself(s: State, j: Job)
    requires j.message in s.turns
  {
    match s.thread.engagedAt
    case None => j.engagedSeen.None? && s.thread.state != HumanActive
    case Some(since) => s.turns[j.message].createdAt >= since && (s.thread.state == HumanActive || j.engagedSeen.Some?)
  }

  /** A turn's row turning into a reply joins the count from `since` on exactly when it was claimed by then. */
  lemma OneMoreReply(turns: map<MessageId, Turn>, m: MessageId, since: nat)
    requires m in turns && turns[m].outcome != Replied
    ensures var after := turns[m := turns[m].(outcome := Replied)];
            |RepliesSince(after, since)| == |RepliesSince(turns, since)| + (if turns[m].createdAt >= since then 1 else 0)
  {
    var after := turns[m := turns[m].(outcome := Replied)];
    assert RepliesSince(after, since) == RepliesSince(turns, since) + (if turns[m].createdAt >= since then {m} else {});
  }

  lemma NoRepliesYet(turns: map<MessageId, Turn>, since: nat)
    requires forall m :: m in turns ==> turns[m].createdAt < since
    ensures RepliesSince(turns, since) == {}
  {
  }

  lemma SentOneMore(s: State, step: Step, e: nat)
    requires Sends(s, step)
    ensures RepliesIn(Next(s, step).sent, e) == RepliesIn(s.sent, e) + (if e == s.engagement then 1 else 0)
  {
    var t := Next(s, step);
    RepliesSnoc(s.sent, t.sent[|s.sent|], e);
    assert t.sent == s.sent + [t.sent[|s.sent|]];
  }

  lemma ReplyCounted(s: State, step: Step)
    requires Right(s) && Sends(s, step)
    ensures RepliesNow(Next(s, step)) == RepliesNow(s) + 1
    ensures CountNow(Next(s, step)) <= CountNow(s) + 1
    ensures CountNow(Next(s, step)) == CountNow(s) + 1 <==> CountsItself(s, s.jobs[step.job])
  {
    var j, t := s.jobs[step.job], Next(s, step);
    SentOneMore(s, step, s.engagement);
    assert t.turns == s.turns[j.message := s.turns[j.message].(outcome := Replied)];
    match t.thread.engagedAt
    case None =>
    case Some(since) =>
      OneMoreReply(s.turns, j.message, since);
      if since == s.clock + 1 {
        NoRepliesYet(s.turns, since);
      }
  }

  /** A step keeps the count true exactly when it sends nothing that will not be counted. */
  lemma CountTrueExactly(s: State, step: Step)
    requires Right(s) && CountIsTrue(s)
    ensures CountIsTrue(Next(s, step)) <==> (Sends(s, step) ==> CountsItself(s, s.jobs[step.job]))
  {
    if Sends(s, step) {
      ReplyCounted(s, step);
    } else {
      OtherStepsKeepCount(s, step);
      if step.Reset? {
        NoneIn(s.sent, s.engagement + 1);
      }
    }
  }

  /** How far a reply that does not count itself leaves the count further behind: it restarts it, or is just not in it. */
  function MissedBy(s: State, j: Job): nat
    requires j.message in s.turns
  {
    if CountsItself(s, j) then 0
    else if s.thread.engagedAt.Some? && s.thread.state != HumanActive && j.engagedSeen.None? then CountNow(s)
    else 1
  }

  function MissedAfter(s: State, step: Step, missed: nat): nat {
    if step.Reset? then 0 else missed + (if Sends(s, step) then MissedBy(s, s.jobs[step.job]) else 0)
  }

  /** The replies of the running engagement that the service's count has lost, over a run. */
  function Missed(s: State, steps: seq<Step>): nat {
    if steps == [] then 0
    else MissedAfter(Run(s, steps[..|steps| - 1]), steps[|steps| - 1], Missed(s, steps[..|steps| - 1]))
  }

  /** As it commits, every reply finds what the service counts, and what it has lost, below the limit. */
  ghost predicate EveryReplyBelow(s: State, steps: seq<Step>) {
    steps == []
    || var rest, last := steps[..|steps| - 1], steps[|steps| - 1];
       EveryReplyBelow(s, rest)
       && (Sends(Run(s, rest), last) ==> CountNow(Run(s, rest)) + Missed(s, rest) < s.maxTurns)
  }

  ghost predicate LimitKept(s: State) { forall e :: RepliesIn(s.sent, e) <= s.maxTurns }

  ghost predicate LimitKeptThroughout(s: State, steps: seq<Step>) {
    forall k :: 0 <= k <= |steps| ==> LimitKept(Run(s, steps[..k]))
  }

  lemma Prefixes(steps: seq<Step>)
    requires steps != []
    ensures forall k :: 0 <= k < |steps| ==> steps[..|steps| - 1][..k] == steps[..k]
    ensures steps[..|steps|] == steps
  {
  }

  lemma {:induction false} KeptSnoc(s: State, steps: seq<Step>)
    requires steps != []
    ensures LimitKeptThroughout(s, steps) <==> LimitKeptThroughout(s, steps[..|steps| - 1]) && LimitKept(Run(s, steps))
  {
    Prefixes(steps);
    var rest := steps[..|steps| - 1];
    assert rest[..|rest|] == rest;
    forall k | 0 <= k <= |rest|
      ensures Run(s, rest[..k]) == Run(s, steps[..k])
    {
    }
  }

  lemma {:induction false} MaxTurnsFixed(s: State, steps: seq<Step>)
    ensures Run(s, steps).maxTurns == s.maxTurns
  {
    if steps == [] {
    } else {
      MaxTurnsFixed(s, steps[..|steps| - 1]);
    }
  }

  lemma MissedByExactly(s: State, step: Step)
    requires Right(s) && Sends(s, step)
    ensures CountNow(Next(s, step)) + MissedBy(s, s.jobs[step.job]) == CountNow(s) + 1
  {
    var j, t := s.jobs[step.job], Next(s, step);
    ReplyCounted(s, step);
    if !CountsItself(s, j) && t.thread.engagedAt.Some? {
      OneMoreReply(s.turns, j.message, t.thread.engagedAt.value);
      if t.thread.engagedAt.value == s.clock + 1 {
        NoRepliesYet(s.turns, s.clock + 1);
      }
    }
  }

  lemma NextCountPlusMissed(s: State, step: Step, missed: nat)
    requires Right(s) && RepliesNow(s) == CountNow(s) + missed
    ensures RepliesNow(Next(s, step)) == CountNow(Next(s, step)) + MissedAfter(s, step, missed)
  {
    if Sends(s, step) {
      ReplyCounted(s, step);
      MissedByExactly(s, step);
    } else {
      OtherStepsKeepCount(s, step);
      if step.Reset? {
        NoneIn(s.sent, s.engagement + 1);
      }
    }
  }

  /** In every run the replies an engagement has really had are the service's count and the ones it has lost. */
  lemma {:induction false} CountPlusMissed(maxTurns: nat, steps: seq<Step>)
    ensures Right(Run(Fresh(maxTurns), steps))
    ensures RepliesNow(Run(Fresh(maxTurns), steps)) == CountNow(Run(Fresh(maxTurns), steps)) + Missed(Fresh(maxTurns), steps)
  {
    RunKeepsRight(Fresh(maxTurns), steps);
    if steps == [] {
    } else {
      var rest := steps[..|steps| - 1];
      CountPlusMissed(maxTurns, rest);
      NextCountPlusMissed(Run(Fresh(maxTurns), rest), steps[|steps| - 1], Missed(Fresh(maxTurns), rest));
    }
  }

  /** A step keeps the limit of every engagement exactly when it does not reply in a full one. */
  lemma LimitKeptExactly(s: State, step: Step)
    requires LimitKept(s)
    ensures LimitKept(Next(s, step)) <==> (Sends(s, step) ==> RepliesNow(s) < s.maxTurns)
  {
    if Sends(s, step) {
      forall e
        ensures RepliesIn(Next(s, step).sent, e) == RepliesIn(s.sent, e) + (if e == s.engagement then 1 else 0)
      {
        SentOneMore(s, step, e);
      }
    } else {
      assert Next(s, step).sent == s.sent;
    }
  }

  /**
   In every run, with any number of turns, agents and resolves interleaved: no engagement ever exceeds the
   turn limit exactly when every reply, as it commits, finds the service's count of the row as it then is,
   together with the replies that count has lost since the last resolve, below the limit.
   */
  lemma {:induction false} LimitHoldsExactly(maxTurns: nat, steps: seq<Step>)
    ensures LimitKeptThroughout(Fresh(maxTurns), steps) <==> EveryReplyBelow(Fresh(maxTurns), steps)
  {
    var s := Fresh(maxTurns);
    if steps == [] {
      assert steps[..0] == [];
    } else {
      var rest := steps[..|steps| - 1];
      KeptSnoc(s, steps);
      LimitHoldsExactly(maxTurns, rest);
      CountPlusMissed(maxTurns, rest);
      MaxTurnsFixed(s, rest);
      if LimitKeptThroughout(s, rest) {
        assert rest[..|rest|] == rest;
        LimitKeptExactly(Run(s, rest), steps[|steps| - 1]);
      }
    }
  }

  // --- One answering turn in flight -------------------------------------------------------------

  predicate Answering(s: State) { exists j | j in s.jobs :: s.jobs[j].plan.AnswerFrom? }

  /** The step neither admits a second answering turn beside one in flight, nor resolves the thread under one. */
  predicate Apart(s: State, step: Step) {
    match step
    case Begin(_, _, reading) => Answering(s) ==> PlanOf(s, reading).None? || !PlanOf(s, reading).value.AnswerFrom?
    case Reset => !Answering(s)
    case _ => true
  }

  /** The step does not release the thread under an answering turn in flight. */
  predicate LeavesItAlone(s: State, step: Step) {
    match step
    case AgentTakes => !Answering(s)
    case AgentRequests => !Answering(s)
    case Proceed(job) => Answering(s) && job in s.jobs ==> !s.jobs[job].plan.GiveAwayTurn?
    case _ => true
  }

  ghost predicate ApartThroughout(s: State, steps: seq<Step>) {
    forall k :: 0 <= k < |steps| ==> Apart(Run(s, steps[..k]), steps[k])
  }

  ghost predicate LeftAloneThroughout(s: State, steps: seq<Step>) {
    forall k :: 0 <= k < |steps| ==> LeavesItAlone(Run(s, steps[..k]), steps[k])
  }

  lemma {:induction false} ApartSnoc(s: State, steps: seq<Step>)
    requires steps != []
    ensures var rest, last := steps[..|steps| - 1], steps[|steps| - 1];
            && (ApartThroughout(s, steps) ==> ApartThroughout(s, rest) && Apart(Run(s, rest), last))
            && (LeftAloneThroughout(s, steps) ==> LeftAloneThroughout(s, rest) && LeavesItAlone(Run(s, rest), last))
  {
    var n := |steps| - 1;
    assert forall k :: 0 <= k <= n ==> steps[..n][..k] == steps[..k];
  }

  /** The answering turn's snapshot still describes the thread. */
  predicate Current(s: State, j: Job) {
    && j.engagedSeen == s.thread.engagedAt && j.countSeen == CountNow(s) < s.maxTurns
    && (j.claimed && j.engagedSeen.Some? ==>
          j.message in s.turns && s.turns[j.message].createdAt >= j.engagedSeen.value)
  }

  /**
   At most one answering turn, current; and the count is short of the truth only on a thread an agent
   took during its very first turn, which admits no other until it is resolved.
   */
  ghost predicate Solo(s: State) {
    && (forall i, j :: i in s.jobs && j in s.jobs && s.jobs[i].plan.AnswerFrom? && s.jobs[j].plan.AnswerFrom? ==> i == j)
    && (forall j :: j in s.jobs && s.jobs[j].plan.AnswerFrom? ==> Current(s, s.jobs[j]) && RepliesNow(s) <= CountNow(s))
    && (RepliesNow(s) <= CountNow(s) || (s.thread.state == HumanActive && s.thread.engagedAt.None?))
  }

  lemma BeginKeepsSolo(s: State, step: Step)
    requires Right(s) && Solo(s) && step.Begin? && Apart(s, step)
    ensures Solo(Next(s, step))
  {
    var p := PlanOf(s, step.reading);
    if p.Some? && p.value.AnswerFrom? {
      AdmittedUnreleased(s, step.reading);
    }
  }

  lemma SendKeepsSolo(s: State, step: Step)
    requires Right(s) && Solo(s) && Sends(s, step)
    ensures Solo(Next(s, step)) && RepliesNow(s) < s.maxTurns
  {
    ReplyCounted(s, step);
    var j := s.jobs[step.job];
    assert Current(s, j);
  }

  lemma ResetKeepsSolo(s: State)
    requires Right(s) && Solo(s) && !Answering(s)
    ensures Solo(Next(s, Reset))
  {
    NoneIn(s.sent, s.engagement + 1);
  }

  lemma ProceedKeepsSolo(s: State, job: JobId)
    requires Right(s) && Solo(s)
    ensures Solo(Next(s, Proceed(job)))
  {
    OtherStepsKeepCount(s, Proceed(job));
    if job in s.jobs && s.jobs[job].plan.AnswerFrom? {
      assert Current(s, s.jobs[job]);
    }
  }

  lemma OtherKeepsSolo(s: State, step: Step)
    requires Right(s) && Solo(s) && Apart(s, step) && !Sends(s, step) && !step.Begin?
    ensures Solo(Next(s, step))
  {
    OtherStepsKeepCount(s, step);
    if step.Reset? {
      ResetKeepsSolo(s);
    } else if step.Proceed? {
      ProceedKeepsSolo(s, step.job);
    }
  }

  lemma NextKeepsSolo(s: State, step: Step)
    requires Right(s) && Solo(s) && Apart(s, step) && LimitKept(s)
    ensures Solo(Next(s, step)) && LimitKept(Next(s, step))
  {
    if Sends(s, step) {
      SendKeepsSolo(s, step);
      forall e
        ensures RepliesIn(Next(s, step).sent, e) <= s.maxTurns
      {
        SentOneMore(s, step, e);
      }
    } else {
      OtherStepsKeepCount(s, step);
      if step.Begin? {
        BeginKeepsSolo(s, step);
      } else {
        OtherKeepsSolo(s, step);
      }
    }
  }

  /**
   With one answering turn in flight at a time and no resolve under it, but agents taking and asking for
   the thread at any moment, crashes and redeliveries: no engagement ever exceeds the turn limit. If
   moreover nobody releases the thread under a turn in flight, no reply reaches a released thread.
   */
  lemma {:induction false} OneInFlightIsSafe(maxTurns: nat, steps: seq<Step>)
    requires ApartThroughout(Fresh(maxTurns), steps)
    ensures var s := Run(Fresh(maxTurns), steps);
            && Right(s) && Solo(s) && LimitKept(s)
            && (LeftAloneThroughout(Fresh(maxTurns), steps) ==>
                  !SentWhileReleased(s) && (Answering(s) ==> !Released(s.thread.state)))
  {
    if steps == [] {
    } else {
      var n := |steps| - 1;
      var s := Run(Fresh(maxTurns), steps[..n]);
      ApartSnoc(Fresh(maxTurns), steps);
      OneInFlightIsSafe(maxTurns, steps[..n]);
      NextKeepsRight(s, steps[n]);
      NextKeepsSolo(s, steps[n]);
      if LeftAloneThroughout(Fresh(maxTurns), steps) {
        ReleasedReplyExactly(s, steps[n]);
        NextLeftAlone(s, steps[n]);
      }
    }
  }

  lemma NextLeftAlone(s: State, step: Step)
    requires Right(s) && Solo(s) && Apart(s, step) && LeavesItAlone(s, step)
    requires Answering(s) ==> !Released(s.thread.state)
    ensures Answering(Next(s, step)) ==> !Released(Next(s, step).thread.state)
    ensures Sends(s, step) ==> !Released(s.thread.state)
  {
    if step.Begin? && PlanOf(s, step.reading).Some? && PlanOf(s, step.reading).value.AnswerFrom? {
      AdmittedUnreleased(s, step.reading);
    }
    if step.Finish? && Holds(s, step.job) {
      assert s.jobs[step.job].plan.AnswerFrom?;
      assert forall i :: i in Next(s, step).jobs ==> i in s.jobs && i != step.job;
    }
  }

  // --- What goes wrong otherwise ----------------------------------------------------------------

  /** A reading every gate admits, and an answer every score clears. */
  const READY: Reading :=
    Reading(Snapshot(true, true, true, true, Some(Message(true, Some("q"))), Some(Thread(Off, None, Some(1))), false, 0, 0, 0),
            false, [Chunk(1, RANK_TARGET)], 0.5)

  const SURE: ModelAnswer := ModelAnswer(true, High, [1], Some("a"))

  const PLAN: Plan := AnswerFrom([Chunk(1, RANK_TARGET)], 0.5)

  lemma ReadyIsAdmitted(s: State)
    ensures PlanOf(s, READY) == Some(PLAN) <==> !Released(s.thread.state) && CountNow(s) < s.maxTurns
  {
    assert HexColour.Trim("q") == "q";
  }

  lemma SureIsAuthorised()
    ensures Authorises(PLAN, Answered(SURE))
  {
    ReplyMeaning(PLAN.chunks, SURE, PLAN.minConfidence);
    assert PLAN.chunks[0].id == 1;
    assert RetrievalConfidence(TopRank(PLAN.chunks)) == 1.0;
  }

  function WholeTurn(job: JobId, message: MessageId): seq<Step> {
    [Begin(job, message, READY), Proceed(job), Finish(job, Answered(SURE))]
  }

  /** One ready turn of a new message on a quiet thread below its limit. */
  lemma ReadyTurn(s: State, job: JobId, message: MessageId)
    requires Right(s) && s.jobs == map[] && message !in s.turns && !Released(s.thread.state) && CountNow(s) < s.maxTurns
    ensures var held := Next(Next(s, Begin(job, message, READY)), Proceed(job));
            && held == s.(jobs := map[job := Job(message, s.thread.engagedAt, CountNow(s), PLAN, true)],
                          turns := s.turns[message := Turn(Claimed, s.clock)])
            && Right(held) && CountNow(held) == CountNow(s) && Sends(held, Finish(job, Answered(SURE)))
  {
    ReadyIsAdmitted(s);
    SureIsAuthorised();
    var begun := Next(s, Begin(job, message, READY));
    NextKeepsRight(s, Begin(job, message, READY));
    NextKeepsRight(begun, Proceed(job));
    OtherStepsKeepCount(s, Begin(job, message, READY));
    OtherStepsKeepCount(begun, Proceed(job));
  }

  /** An agent takes the thread during the model call, and the customer hears from the bot all the same. */
  lemma ReplyTalksOverAgent()
    ensures var held := Next(Next(Fresh(5), Begin(1, 1, READY)), Proceed(1));
            var replied := Next(Next(held, AgentTakes), Finish(1, Answered(SURE)));
            SentWhileReleased(replied) && replied.thread.state == HumanActive
  {
    ReadyTurn(Fresh(5), 1, 1);
    var held := Next(Next(Fresh(5), Begin(1, 1, READY)), Proceed(1));
    var replied := Next(Next(held, AgentTakes), Finish(1, Answered(SURE)));
    assert Released(replied.sent[0].state);
  }

  lemma StillSends(s: State, one: Step, two: Step)
    requires Right(s) && Sends(s, one) && Sends(s, two) && one.job != two.job
    ensures Sends(Next(s, one), two)
    ensures Next(s, one).engagement == s.engagement && Next(s, one).maxTurns == s.maxTurns
  {
  }

  /** Two turns held at once both reply: an engagement one below its limit ends one above it. */
  lemma HeldTogetherExceedLimit(s: State, one: Step, two: Step)
    requires Right(s) && Sends(s, one) && Sends(s, two) && one.job != two.job
    requires RepliesNow(s) + 1 == s.maxTurns
    ensures var done := Next(Next(s, one), two);
            RepliesNow(done) == done.maxTurns + 1
  {
    SentOneMore(s, one, s.engagement);
    StillSends(s, one, two);
    SentOneMore(Next(s, one), two, s.engagement);
  }

  /** Such a pair is reachable: with a limit of one, two messages arrive before either is answered. */
  lemma TwoTurnsHeldTogether()
    ensures var begun := Next(Next(Fresh(1), Begin(1, 1, READY)), Begin(2, 2, READY));
            var s := Next(Next(begun, Proceed(1)), Proceed(2));
            && Right(s) && RepliesNow(s) + 1 == s.maxTurns
            && Sends(s, Finish(1, Answered(SURE))) && Sends(s, Finish(2, Answered(SURE)))
  {
    ReadyIsAdmitted(Fresh(1));
    SureIsAuthorised();
    var one := Next(Fresh(1), Begin(1, 1, READY));
    ReadyIsAdmitted(one);
    var begun := Next(one, Begin(2, 2, READY));
    assert begun.jobs == map[1 := Job(1, None, 0, PLAN, false), 2 := Job(2, None, 0, PLAN, false)];
    RunKeepsRightFour(Begin(1, 1, READY), Begin(2, 2, READY), Proceed(1), Proceed(2));
  }

  lemma RunKeepsRightFour(a: Step, b: Step, c: Step, d: Step)
    ensures Right(Next(Next(Next(Next(Fresh(1), a), b), c), d))
  {
    NextKeepsRight(Fresh(1), a);
    NextKeepsRight(Next(Fresh(1), a), b);
    NextKeepsRight(Next(Next(Fresh(1), a), b), c);
    NextKeepsRight(Next(Next(Next(Fresh(1), a), b), c), d);
  }

  lemma {:induction false} RunAppend(s: State, a: seq<Step>, b: seq<Step>)
    ensures Run(s, a + b) == Run(Run(s, a), b)
  {
    if b == [] {
      assert a + b == a;
    } else {
      assert (a + b)[..|a + b| - 1] == a + b[..|b| - 1];
      RunAppend(s, a, b[..|b| - 1]);
    }
  }

  lemma RunPlus(s: State, steps: seq<Step>, last: Step)
    ensures Run(s, steps + [last]) == Next(Run(s, steps), last)
  {
    assert (steps + [last])[..|steps|] == steps;
  }

  lemma RunThree(s: State, a: Step, b: Step, c: Step)
    ensures Run(s, [a, b, c]) == Next(Next(Next(s, a), b), c)
  {
    RunPlus(s, [], a);
    RunPlus(s, [a], b);
    RunPlus(s, [a, b], c);
    assert [] + [a] == [a] && [a] + [b] == [a, b] && [a, b] + [c] == [a, b, c];
  }

  lemma RunFour(s: State, a: Step, b: Step, c: Step, d: Step)
    ensures Run(s, [a, b, c, d]) == Next(Next(Next(Next(s, a), b), c), d)
  {
    RunThree(s, a, b, c);
    RunPlus(s, [a, b, c], d);
    assert [a, b, c] + [d] == [a, b, c, d];
  }

  predicate ByJobOne(steps: seq<Step>) { forall k | 0 <= k < |steps| :: steps[k].Begin? ==> steps[k].job == 1 }

  lemma {:induction false} OnlyJobOne(maxTurns: nat, steps: seq<Step>)
    requires ByJobOne(steps)
    ensures Run(Fresh(maxTurns), steps).jobs.Keys <= {1}
  {
    if steps == [] {
    } else {
      OnlyJobOne(maxTurns, steps[..|steps| - 1]);
    }
  }

  /** A whole ready turn that the service counts. */
  lemma ReadyTurnCounted(s: State, job: JobId, message: MessageId) returns (t: State)
    requires Right(s) && s.jobs == map[] && message !in s.turns && !Released(s.thread.state) && CountNow(s) < s.maxTurns
    ensures t == Run(s, WholeTurn(job, message))
    ensures Right(t) && t.jobs == map[] && t.turns.Keys == s.turns.Keys + {message} && t.thread.state == BotActive
    ensures t.engagement == s.engagement && t.maxTurns == s.maxTurns
    ensures RepliesNow(t) == RepliesNow(s) + 1 && CountNow(t) == CountNow(s) + 1
  {
    ReadyTurn(s, job, message);
    var held := Next(Next(s, Begin(job, message, READY)), Proceed(job));
    t := Next(held, Finish(job, Answered(SURE)));
    NextKeepsRight(held, Finish(job, Answered(SURE)));
    ReplyCounted(held, Finish(job, Answered(SURE)));
    RunThree(s, Begin(job, message, READY), Proceed(job), Finish(job, Answered(SURE)));
  }

  function UnderTurn(): seq<Step> { [Begin(1, 2, READY), Proceed(1), Reset, Finish(1, Answered(SURE))] }

  /** A turn the thread is resolved under, in an engagement that has begun: its reply is in the next one, and uncounted. */
  lemma ResolvedUnderTurn(s: State) returns (t: State)
    requires Right(s) && s.jobs == map[] && 2 !in s.turns && s.thread.state == BotActive && s.thread.engagedAt.Some?
    requires CountNow(s) < s.maxTurns
    ensures t == Run(s, UnderTurn())
    ensures Right(t) && t.jobs == map[] && t.turns.Keys == s.turns.Keys + {2} && t.thread == Conversation(BotActive, None)
    ensures t.engagement == s.engagement + 1 && t.maxTurns == s.maxTurns && RepliesNow(t) == 1
  {
    ReadyTurn(s, 1, 2);
    var held := Next(Next(s, Begin(1, 2, READY)), Proceed(1));
    var resolved := Next(held, Reset);
    NextKeepsRight(held, Reset);
    NoneIn(resolved.sent, resolved.engagement);
    assert Sends(resolved, Finish(1, Answered(SURE)));
    SentOneMore(resolved, Finish(1, Answered(SURE)), resolved.engagement);
    NextKeepsRight(resolved, Finish(1, Answered(SURE)));
    t := Next(resolved, Finish(1, Answered(SURE)));
    RunFour(s, Begin(1, 2, READY), Proceed(1), Reset, Finish(1, Answered(SURE)));
  }

  function ResolvedRun(): (steps: seq<Step>)
    ensures ByJobOne(steps)
  {
    ((WholeTurn(1, 1) + UnderTurn()) + WholeTurn(1, 3)) + WholeTurn(1, 4)
  }

  lemma ReadyTurnAfter(steps: seq<Step>, message: MessageId) returns (t: State)
    requires var s := Run(Fresh(2), steps);
             && Right(s) && s.jobs == map[] && message !in s.turns && !Released(s.thread.state) && CountNow(s) < s.maxTurns
    ensures var s := Run(Fresh(2), steps);
            && t == Run(Fresh(2), steps + WholeTurn(1, message))
            && Right(t) && t.jobs == map[] && t.turns.Keys == s.turns.Keys + {message} && t.thread.state == BotActive
            && t.engagement == s.engagement && t.maxTurns == s.maxTurns
            && RepliesNow(t) == RepliesNow(s) + 1 && CountNow(t) == CountNow(s) + 1
  {
    t := ReadyTurnCounted(Run(Fresh(2), steps), 1, message);
    RunAppend(Fresh(2), steps, WholeTurn(1, message));
  }

  lemma ResolvedRunBegins() returns (t: State)
    ensures t == Run(Fresh(2), WholeTurn(1, 1) + UnderTurn())
    ensures Right(t) && t.jobs == map[] && t.turns.Keys == {1, 2} && t.thread == Conversation(BotActive, None)
    ensures t.engagement == 1 && t.maxTurns == 2 && RepliesNow(t) == 1
  {
    var s := ReadyTurnCounted(Fresh(2), 1, 1);
    t := ResolvedUnderTurn(s);
    RunAppend(Fresh(2), WholeTurn(1, 1), UnderTurn());
  }

  lemma ResolvedRunEnds() returns (t: State)
    ensures t == Run(Fresh(2), ResolvedRun()) && t.engagement == 1 && RepliesNow(t) == 3 && t.maxTurns == 2
  {
    t := ResolvedRunBegins();
    t := ReadyTurnAfter(WholeTurn(1, 1) + UnderTurn(), 3);
    t := ReadyTurnAfter((WholeTurn(1, 1) + UnderTurn()) + WholeTurn(1, 3), 4);
  }

  /**
   Nor is one turn at a time enough. With a limit of two: one reply, a second turn under which the thread
   is resolved, and two turns more. The second turn's reply lands in the new engagement with no stamp, is
   never counted, and the engagement has three. Never are two turns in flight.
   */
  lemma ResolvedUnderTurnExceedsLimit()
    ensures var s := Run(Fresh(2), ResolvedRun()); s.engagement == 1 && RepliesNow(s) == 3 && s.maxTurns == 2
    ensures forall k :: 0 <= k <= |ResolvedRun()| ==> Run(Fresh(2), ResolvedRun()[..k]).jobs.Keys <= {1}
  {
    var t := ResolvedRunEnds();
    var steps := ResolvedRun();
    forall k | 0 <= k <= |steps|
      ensures Run(Fresh(2), steps[..k]).jobs.Keys <= {1}
    {
      OnlyJobOne(2, steps[..k]);
    }
  }
}
