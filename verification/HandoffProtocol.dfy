/** Bot turns and agents at once on one conversation. A turn stores the customer's message in
    one transaction and decides, drafts, sends and records in a second one that holds the row
    lock throughout; every agent action is one transaction that needs the lock. */
module HandoffProtocol {
  import opened Options
  import opened Messages
  import opened Escalation
  import opened Dispatch
  import opened Handoff

  /** A turn in progress. `row` is the committed inbound message; `seen` is the conversation as
      it was read under the lock at instant `at`. */
  datatype Phase =
    | Stored(row: nat)
    | Thinking(row: nat, seen: Conversation, at: int)
    | Sending(row: nat, seen: Conversation, at: int, draft: Draft)
    | Ending(row: nat, seen: Conversation, effect: Effect)
  {
    predicate Locked() { !Stored? }
  }

  datatype Turn = Turn(envelope: Envelope, phase: Phase)

  /** A dispatch: the turn's message, the conversation at that moment, when it was checked. */
  datatype Send = Send(row: nat, c: Conversation, checkedAt: int, draft: Draft)

  datatype World = World(c: Conversation, lock: Option<nat>, turns: map<nat, Turn>, sends: seq<Send>)

  datatype Step =
    | Arrive(turn: nat, envelope: Envelope, sentAt: int, now: int)
    | Lock(turn: nat, now: int)
    | Think(turn: nat, draft: Draft)
    | DispatchNow(turn: nat, outcome: Outcome, now: int)
    | CommitTurn(turn: nat)
    | TurnDies(turn: nat)
    | AgentTakesOver(user: nat)
    | AgentReleases(now: int, muteSeconds: int)
    | AgentResolves
    | AgentReplies(user: nat, text: string, outcome: Outcome, now: int)

  predicate Enabled(w: World, step: Step) {
    match step
    case Arrive(k, _, _, _) => k !in w.turns && w.lock.None?
    case Lock(k, _) => k in w.turns && w.turns[k].phase.Stored? && w.lock.None?
    case Think(k, _) => k in w.turns && w.turns[k].phase.Thinking?
    case DispatchNow(k, _, _) => k in w.turns && w.turns[k].phase.Sending?
    case CommitTurn(k) => k in w.turns && w.turns[k].phase.Ending?
    case TurnDies(k) => k in w.turns
    case AgentTakesOver(_) => w.lock.None?
    case AgentReleases(_, _) => w.lock.None?
    case AgentResolves => w.lock.None?
    case AgentReplies(_, _, _, _) => w.lock.None?
  }

  function Go(w: World, k: nat, phase: Phase): World
    requires k in w.turns
  {
    w.(turns := w.turns[k := w.turns[k].(phase := phase)])
  }

  function Next(w: World, bot: BotSetup, step: Step): World
    requires Enabled(w, step)
  {
    match step
    case Arrive(k, envelope, sentAt, now) =>
      w.(c := StoreInbound(Reopen(w.c), envelope, sentAt, now),
         turns := w.turns[k := Turn(envelope, Stored(|w.c.rows|))])
    case Lock(k, now) =>
      var row := w.turns[k].phase.row;
      var stop := Preflight(w.c, bot, w.turns[k].envelope, now);
      Go(w.(lock := Some(k)), k, if stop.Some? then Ending(row, w.c, stop.value) else Thinking(row, w.c, now))
    case Think(k, draft) =>
      var p := w.turns[k].phase;
      var stop := Judge(w.c, bot, w.turns[k].envelope, draft);
      Go(w, k, if stop.Some? then Ending(p.row, p.seen, stop.value) else Phase.Sending(p.row, p.seen, p.at, draft))
    case DispatchNow(k, outcome, now) =>
      var p := w.turns[k].phase;
      var v := Go(w, k, Ending(p.row, p.seen, AfterDispatch(p.draft, outcome, now)));
      v.(sends := w.sends + [Send(p.row, w.c, p.at, p.draft)])
    case CommitTurn(k) => w.(c := Commit(w.c, w.turns[k].phase.effect), lock := None, turns := w.turns - {k})
    // what the turn had not committed is lost, and its lock is free
    case TurnDies(k) => w.(lock := if w.turns[k].phase.Locked() then None else w.lock, turns := w.turns - {k})
    case AgentTakesOver(user) => w.(c := if Takeover(w.c, user).Some? then Takeover(w.c, user).value else w.c)
    case AgentReleases(now, muteSeconds) => w.(c := Release(w.c, now, muteSeconds))
    case AgentResolves => w.(c := Resolve(w.c))
    case AgentReplies(user, text, outcome, now) => w.(c := AgentReply(w.c, user, text, outcome, now))
  }

  predicate IsRun(w: World, bot: BotSetup, steps: seq<Step>)
    decreases |steps|
  {
    steps == [] || (Enabled(w, steps[0]) && IsRun(Next(w, bot, steps[0]), bot, steps[1..]))
  }

  function Run(w: World, bot: BotSetup, steps: seq<Step>): World
    requires IsRun(w, bot, steps)
    decreases |steps|
  {
    if steps == [] then w else Run(Next(w, bot, steps[0]), bot, steps[1..])
  }

  function NewConversation(id: nat, merchant: nat): Conversation {
    Conversation(id, merchant, BotAnswers, None, None, None, None, None, [])
  }

  function Start(id: nat, merchant: nat): World {
    World(NewConversation(id, merchant), None, map[], [])
  }

  // ----- the turn limit -----

  function Max(a: int, b: int): int { if a < b then b else a }

  /** At most `maxTurns - 1` answers since a person last spoke. */
  predicate WithinTurns(c: Conversation, bot: BotSetup) {
    BotReplies(c.rows) <= Max(bot.maxTurns - 1, 0)
  }

  // ----- the invariant -----

  /** Nothing that a turn has read under its lock has changed since. */
  predicate HoldsLock(w: World, k: nat)
    requires k in w.turns
  {
    var p := w.turns[k].phase;
    if p.Stored? then w.lock != Some(k) else w.lock == Some(k) && p.seen == w.c
  }

  /** The customer's message was committed before anything was decided about it. */
  predicate InboundCommitted(c: Conversation, row: nat) {
    row < |c.rows| && c.rows[row].sender.Customer?
  }

  predicate PhaseFits(c: Conversation, bot: BotSetup, p: Phase) {
    && InboundCommitted(c, p.row)
    && (p.Thinking? || p.Sending? ==> MayAnswer(c, bot) && !Quiet(c, p.at))
    && (p.Ending? && p.effect.Escalated? ==> c.state != Human && c.state != PendingHuman)
    && (p.Ending? && p.effect.Answered? ==> MayAnswer(c, bot))
  }

  predicate SendFits(s: Send) {
    InboundCommitted(s.c, s.row) && !Quiet(s.c, s.checkedAt)
  }

  ghost predicate TurnsFit(w: World, bot: BotSetup) {
    && (w.lock.Some? ==> w.lock.value in w.turns && w.turns[w.lock.value].phase.Locked())
    && (forall k :: k in w.turns ==> HoldsLock(w, k) && PhaseFits(w.c, bot, w.turns[k].phase))
  }

  ghost predicate Safe(w: World, bot: BotSetup) {
    && Coherent(w.c) && WithinTurns(w.c, bot) && TurnsFit(w, bot)
    && (forall i :: 0 <= i < |w.sends| ==> SendFits(w.sends[i]))
  }

  lemma NextKeepsConversation(w: World, bot: BotSetup, step: Step)
    requires Safe(w, bot) && Enabled(w, step)
    ensures Coherent(Next(w, bot, step).c) && WithinTurns(Next(w, bot, step).c, bot)
  {
    hide Preflight, Judge, BotReplies;
    match step
    case Arrive(k, envelope, sentAt, now) =>
      AppendReplies(w.c.rows, Row(w.c.id, w.c.merchant, Customer, envelope.text, Sent, None, None, now));
    case CommitTurn(k) =>
      var effect := w.turns[k].phase.effect;
      assert PhaseFits(w.c, bot, w.turns[k].phase);
      if effect.Answered? {
        var text := if effect.draft.Reply? then effect.draft.text else None;
        AppendReplies(w.c.rows, Recorded(w.c.id, w.c.merchant, text, effect.outcome, Bot, effect.at));
      }
    case AgentReplies(user, text, outcome, now) =>
      AppendReplies(w.c.rows, Recorded(w.c.id, w.c.merchant, Some(text), outcome, Agent, now));
    case _ =>
  }

  /** The turn a step belongs to, if any. */
  function TurnOf(step: Step): Option<nat> {
    match step
    case Arrive(k, _, _, _) => Some(k)
    case Lock(k, _) => Some(k)
    case Think(k, _) => Some(k)
    case DispatchNow(k, _, _) => Some(k)
    case CommitTurn(k) => Some(k)
    case TurnDies(k) => Some(k)
    case _ => None
  }

  lemma RowsOnlyGrow(w: World, bot: BotSetup, step: Step)
    requires Enabled(w, step)
    ensures w.c.rows <= Next(w, bot, step).c.rows
  {
    hide Preflight, Judge, Recorded;
  }

  /** Agent actions and other turns' arrivals only add rows, so what a waiting turn knows stays
      true; and nothing moves while this turn holds the lock. */
  lemma {:induction false} OtherTurnKept(w: World, bot: BotSetup, step: Step, k: nat)
    requires Safe(w, bot) && Enabled(w, step) && k in w.turns && TurnOf(step) != Some(k)
    ensures var v := Next(w, bot, step);
            k in v.turns && HoldsLock(v, k) && PhaseFits(v.c, bot, v.turns[k].phase)
  {
    hide Preflight, Judge, MayAnswer, Quiet, Coherent, WithinTurns, Recorded;
    assert HoldsLock(w, k) && PhaseFits(w.c, bot, w.turns[k].phase);
    RowsOnlyGrow(w, bot, step);
    if TurnOf(step).Some? && TurnOf(step).value in w.turns { assert HoldsLock(w, TurnOf(step).value); }
  }

  lemma {:induction false} OwnTurnKept(w: World, bot: BotSetup, step: Step, k: nat)
    requires Safe(w, bot) && Enabled(w, step) && TurnOf(step) == Some(k) && k in Next(w, bot, step).turns
    ensures var v := Next(w, bot, step);
            HoldsLock(v, k) && PhaseFits(v.c, bot, v.turns[k].phase)
  {
    hide Coherent, WithinTurns, BotReplies, Evaluate;
    if k in w.turns { assert HoldsLock(w, k) && PhaseFits(w.c, bot, w.turns[k].phase); }
    if step.Lock? {
      PreflightDecides(w.c, bot, w.turns[k].envelope, step.now);
    }
  }

  lemma {:induction false} NextKeepsTurns(w: World, bot: BotSetup, step: Step)
    requires Safe(w, bot) && Enabled(w, step)
    ensures TurnsFit(Next(w, bot, step), bot)
  {
    hide Preflight, Judge, PhaseFits, Coherent, WithinTurns, Recorded, BotReplies;
    var v := Next(w, bot, step);
    forall k | k in v.turns ensures HoldsLock(v, k) && PhaseFits(v.c, bot, v.turns[k].phase) {
      if TurnOf(step) == Some(k) { OwnTurnKept(w, bot, step, k); } else { OtherTurnKept(w, bot, step, k); }
    }
    if TurnOf(step).Some? && TurnOf(step).value in w.turns { assert HoldsLock(w, TurnOf(step).value); }
  }

  lemma {:induction false} NextKeepsSafe(w: World, bot: BotSetup, step: Step)
    requires Safe(w, bot) && Enabled(w, step)
    ensures Safe(Next(w, bot, step), bot)
  {
    NextKeepsConversation(w, bot, step);
    NextKeepsTurns(w, bot, step);
    hide Coherent, WithinTurns, Preflight, Judge;
    if step.DispatchNow? {
      assert HoldsLock(w, step.turn) && PhaseFits(w.c, bot, w.turns[step.turn].phase);
    }
  }

  lemma {:induction false} RunKeepsSafe(w: World, bot: BotSetup, steps: seq<Step>)
    requires Safe(w, bot) && IsRun(w, bot, steps)
    ensures Safe(Run(w, bot, steps), bot)
    decreases |steps|
  {
    hide Safe, Next, Enabled;
    if steps != [] {
      NextKeepsSafe(w, bot, steps[0]);
      RunKeepsSafe(Next(w, bot, steps[0]), bot, steps[1..]);
    }
  }

  /** In every run of turns and agents, crashes included: the conversation's state, assignee and
      reason agree; the bot has answered fewer than `maxTurns` times since a person did; and
      every dispatch was for a committed customer message, in a conversation that was neither
      a person's nor waiting for one, nor muted when it was checked. */
  lemma ConversationsStaySafe(id: nat, merchant: nat, bot: BotSetup, steps: seq<Step>)
    requires IsRun(Start(id, merchant), bot, steps)
    ensures var w := Run(Start(id, merchant), bot, steps);
            && Coherent(w.c) && |AnswersSinceAgent(w.c.rows)| <= Max(bot.maxTurns - 1, 0)
            && forall i :: 0 <= i < |w.sends| ==>
                 InboundCommitted(w.sends[i].c, w.sends[i].row) && !Quiet(w.sends[i].c, w.sends[i].checkedAt)
  {
    RunKeepsSafe(Start(id, merchant), bot, steps);
    RepliesAreCounted(Run(Start(id, merchant), bot, steps).c.rows);
  }

  /** While a turn holds the lock no step but its own commit changes the conversation: what it
      checked is what it sends under, and what its effect is applied to. */
  lemma NothingMovesUnderALock(w: World, bot: BotSetup, step: Step, k: nat)
    requires Safe(w, bot) && Enabled(w, step) && w.lock == Some(k) && step != CommitTurn(k)
    ensures Next(w, bot, step).c == w.c == w.turns[k].phase.seen
    ensures step != TurnDies(k) ==> Next(w, bot, step).lock == Some(k)
  {
    hide Preflight, Judge, Coherent, WithinTurns, PhaseFits;
    assert HoldsLock(w, k);
    if step.CommitTurn? || step.TurnDies? || step.Think? || step.DispatchNow? {
      assert HoldsLock(w, step.turn);
    }
  }

  /** A turn that would exceed the limit ends in an escalation without asking any brain. */
  lemma TurnLimitStopsBeforeTheBrain(w: World, bot: BotSetup, k: nat, now: int)
    requires Enabled(w, Lock(k, now)) && !Quiet(w.c, now) && bot.maxTurns <= |AnswersSinceAgent(w.c.rows)| + 1
    ensures var p := Next(w, bot, Lock(k, now)).turns[k].phase;
            p.Ending? && p.effect.Escalated?
  {
    hide BotReplies, AnswersSinceAgent;
    RepliesAreCounted(w.c.rows);
    PreflightLeavesOnlyTheDraft(bot.human, bot.money, w.turns[k].envelope, NO_DRAFT, BotReplies(w.c.rows) + 1,
                                bot.maxTurns);
  }

  /** Past its preflight a turn is stopped by the draft's own escalation and nothing else. */
  lemma OnlyTheDraftEscalates(w: World, bot: BotSetup, k: nat, now: int, draft: Draft)
    requires Enabled(w, Lock(k, now)) && Next(w, bot, Lock(k, now)).turns[k].phase.Thinking?
    ensures var v := Next(w, bot, Lock(k, now));
            var p := Next(v, bot, Think(k, draft)).turns[k].phase;
            if draft.Escalate? then p.Ending? && p.effect == Escalated(draft.reason) else p.Sending? && p.draft == draft
  {
    hide BotReplies;
    PreflightLeavesOnlyTheDraft(bot.human, bot.money, w.turns[k].envelope, draft, BotReplies(w.c.rows) + 1,
                                bot.maxTurns);
  }

  /** A turn that dies leaves what it had committed, and lets go of the lock if it had it. */
  lemma DeadTurnLetsGo(w: World, bot: BotSetup, k: nat)
    requires Safe(w, bot) && Enabled(w, TurnDies(k))
    ensures var v := Next(w, bot, TurnDies(k));
            && v.c == w.c && v.sends == w.sends && v.turns == w.turns - {k}
            && v.lock == if w.lock == Some(k) then None else w.lock
  {
    assert HoldsLock(w, k);
  }

  predicate HandsOver(step: Step) {
    step.AgentReleases? || step.AgentResolves?
  }

  /** While an agent has the conversation the bot stays out of it: until it is released or
      resolved it stays that agent's, and nothing is dispatched, however many messages arrive
      and whatever other agents try. */
  lemma {:induction false} TakenConversationStaysTaken(w: World, bot: BotSetup, steps: seq<Step>, user: nat)
    requires Safe(w, bot) && IsRun(w, bot, steps) && MayReply(w.c, user)
    requires forall i :: 0 <= i < |steps| ==> !HandsOver(steps[i])
    ensures MayReply(Run(w, bot, steps).c, user) && Run(w, bot, steps).sends == w.sends
    decreases |steps|
  {
    hide Safe, Next, Enabled, MayReply;
    if steps != [] {
      TakenStep(w, bot, steps[0], user);
      NextKeepsSafe(w, bot, steps[0]);
      TakenConversationStaysTaken(Next(w, bot, steps[0]), bot, steps[1..], user);
    }
  }

  lemma {:induction false} TakenStep(w: World, bot: BotSetup, step: Step, user: nat)
    requires Safe(w, bot) && Enabled(w, step) && MayReply(w.c, user) && !HandsOver(step)
    ensures MayReply(Next(w, bot, step).c, user) && Next(w, bot, step).sends == w.sends
  {
    hide Preflight, Judge, Recorded, WithinTurns, AfterDispatch;
    if step.CommitTurn? || step.DispatchNow? {
      assert HoldsLock(w, step.turn) && PhaseFits(w.c, bot, w.turns[step.turn].phase);
    }
  }

  /** An agent who finds no other agent there has the conversation at once. */
  lemma TakeoverTakes(w: World, bot: BotSetup, user: nat)
    requires Safe(w, bot) && Enabled(w, AgentTakesOver(user)) && forall other :: other != user ==> !MayReply(w.c, other)
    ensures MayReply(Next(w, bot, AgentTakesOver(user)).c, user)
  {
    if w.c.assignee.Some? { assert MayReply(w.c, w.c.assignee.value); }
  }

  /** A reply of anyone but the agent who has the conversation, or that the channel does not take,
      changes nothing. */
  lemma OthersCannotReply(w: World, bot: BotSetup, user: nat, text: string, outcome: Outcome, now: int)
    requires Enabled(w, AgentReplies(user, text, outcome, now))
    requires w.c.state != Human || w.c.assignee != Some(user) || outcome.escalated.Some?
    ensures Next(w, bot, AgentReplies(user, text, outcome, now)) == w
  {
  }

  /** An agent's reply is the newest message, and no answer of the bot's before it counts any more. */
  lemma AgentReplyStartsTheCountAgain(w: World, bot: BotSetup, user: nat, text: string, outcome: Outcome, now: int)
    requires Enabled(w, AgentReplies(user, text, outcome, now)) && MayReply(w.c, user) && outcome.escalated.None?
    requires forall i :: 0 <= i < |w.c.rows| && w.c.rows[i].sender.Bot? ==> w.c.rows[i].createdAt < now
    ensures var c := Next(w, bot, AgentReplies(user, text, outcome, now)).c;
            && |c.rows| == |w.c.rows| + 1 && w.c.rows <= c.rows
            && c.rows[|w.c.rows|].sender.Agent? && c.rows[|w.c.rows|].text == Some(text)
            && AnswersSinceAgent(c.rows) == {}
  {
    hide BotReplies, Preflight, Judge;
    var row := Recorded(w.c.id, w.c.merchant, Some(text), outcome, Agent, now);
    AppendReplies(w.c.rows, row);
    RepliesAreCounted(w.c.rows + [row]);
  }

  /** Muted until `u`, with no turn past a check made before then. */
  predicate MutedUntil(w: World, u: int) {
    && w.c.mutedUntil == Some(u)
    && forall k :: k in w.turns && (w.turns[k].phase.Thinking? || w.turns[k].phase.Sending?) ==>
         u <= w.turns[k].phase.at
  }

  predicate Unmutes(step: Step) {
    step.AgentTakesOver? || step.AgentReleases?
  }

  /** After a release the bot stays silent until the mute runs out: unless an agent takes over
      or releases again, no dispatch is checked before then, however many messages arrive. */
  lemma {:induction false} ReleasedBotStaysSilent(w: World, bot: BotSetup, steps: seq<Step>, u: int)
    requires IsRun(w, bot, steps) && MutedUntil(w, u)
    requires forall i :: 0 <= i < |steps| ==> !Unmutes(steps[i])
    ensures var v := Run(w, bot, steps);
            && w.sends <= v.sends && MutedUntil(v, u)
            && forall i :: |w.sends| <= i < |v.sends| ==> u <= v.sends[i].checkedAt
    decreases |steps|
  {
    if steps != [] {
      MutedStep(w, bot, steps[0], u);
      hide Next, Enabled, MutedUntil;
      ReleasedBotStaysSilent(Next(w, bot, steps[0]), bot, steps[1..], u);
    }
  }

  lemma {:induction false} MutedStep(w: World, bot: BotSetup, step: Step, u: int)
    requires Enabled(w, step) && MutedUntil(w, u) && !Unmutes(step)
    ensures var v := Next(w, bot, step);
            && w.sends <= v.sends && MutedUntil(v, u)
            && forall i :: |w.sends| <= i < |v.sends| ==> u <= v.sends[i].checkedAt
  {
    hide Judge, Evaluate, BotReplies, Recorded;
  }

  lemma ReleaseMutes(w: World, bot: BotSetup, now: int, muteSeconds: int)
    requires Safe(w, bot) && Enabled(w, AgentReleases(now, muteSeconds))
    ensures MutedUntil(Next(w, bot, AgentReleases(now, muteSeconds)), now + muteSeconds)
  {
    forall k | k in w.turns ensures w.turns[k].phase.Stored? { assert HoldsLock(w, k); }
  }

  // ----- what a dispatch finds the conversation to be -----

  /** The steps that take a closed conversation out of `resolved`: a new message, an agent who
      takes it or gives it to the bot, and an escalation that was decided before. */
  predicate Reopens(w: World, step: Step)
    requires Enabled(w, step)
  {
    || step.Arrive? || step.AgentTakesOver? || step.AgentReleases?
    || (step.CommitTurn? && w.turns[step.turn].phase.effect.Escalated?)
  }

  lemma {:induction false} ResolvedAfterStep(w: World, bot: BotSetup, step: Step)
    requires Safe(w, bot) && Enabled(w, step)
    ensures Next(w, bot, step).c.state == Resolved <==>
              step.AgentResolves? || (w.c.state == Resolved && !Reopens(w, step))
  {
    hide Preflight, Judge, WithinTurns, TurnsFit, SendFits, Recorded;
  }

  predicate NothingReopens(w: World, bot: BotSetup, steps: seq<Step>)
    requires IsRun(w, bot, steps)
    decreases |steps|
  {
    steps == [] || (!Reopens(w, steps[0]) && NothingReopens(Next(w, bot, steps[0]), bot, steps[1..]))
  }

  /** The run holds a resolve with nothing after it that reopens. */
  predicate EndsClosed(w: World, bot: BotSetup, steps: seq<Step>)
    requires IsRun(w, bot, steps)
    decreases |steps|
  {
    steps != [] && var v, rest := Next(w, bot, steps[0]), steps[1..];
    EndsClosed(v, bot, rest) || (steps[0].AgentResolves? && NothingReopens(v, bot, rest))
  }

  lemma {:induction false} ResolvedAfterRun(w: World, bot: BotSetup, steps: seq<Step>)
    requires Safe(w, bot) && IsRun(w, bot, steps)
    ensures Run(w, bot, steps).c.state == Resolved <==>
              EndsClosed(w, bot, steps) || (w.c.state == Resolved && NothingReopens(w, bot, steps))
    decreases |steps|
  {
    hide Safe, Next, Enabled, Reopens;
    if steps != [] {
      NextKeepsSafe(w, bot, steps[0]);
      ResolvedAfterStep(w, bot, steps[0]);
      ResolvedAfterRun(Next(w, bot, steps[0]), bot, steps[1..]);
    }
  }

  lemma {:induction false} RunSplits(w: World, bot: BotSetup, xs: seq<Step>, ys: seq<Step>)
    requires IsRun(w, bot, xs + ys)
    ensures IsRun(w, bot, xs) && IsRun(Run(w, bot, xs), bot, ys)
    ensures Run(w, bot, xs + ys) == Run(Run(w, bot, xs), bot, ys)
    decreases |xs|
  {
    hide Next, Enabled;
    if xs == [] {
      assert xs + ys == ys;
    } else {
      assert (xs + ys)[0] == xs[0] && (xs + ys)[1..] == xs[1..] + ys;
      RunSplits(Next(w, bot, xs[0]), bot, xs[1..], ys);
    }
  }

  /** Neither committed nor dead: turn `k` goes on. */
  predicate GoesOn(k: nat, steps: seq<Step>) {
    forall i :: 0 <= i < |steps| ==> steps[i] != CommitTurn(k) && steps[i] != TurnDies(k)
  }

  lemma {:induction false} LockedRun(w: World, bot: BotSetup, steps: seq<Step>, k: nat)
    requires Safe(w, bot) && IsRun(w, bot, steps) && w.lock == Some(k) && GoesOn(k, steps)
    ensures var v := Run(w, bot, steps); Safe(v, bot) && v.lock == Some(k) && v.c == w.c
    decreases |steps|
  {
    hide Safe, Next, Enabled;
    if steps != [] {
      assert steps[0] != CommitTurn(k) && steps[0] != TurnDies(k);
      NothingMovesUnderALock(w, bot, steps[0], k);
      NextKeepsSafe(w, bot, steps[0]);
      LockedRun(Next(w, bot, steps[0]), bot, steps[1..], k);
    }
  }

  /** Over every run that ends with turn `k` locking the row, going on and dispatching, whatever
      else happens: the dispatch goes to the conversation exactly as it was at the lock; it is
      then in state `resolved` if some resolve before the lock was followed by nothing that
      reopens, and in state `bot` otherwise. */
  lemma DispatchFindsTheBotUnlessClosed(id: nat, merchant: nat, bot: BotSetup, before: seq<Step>, k: nat, now: int,
                                        during: seq<Step>, outcome: Outcome, at: int)
    requires GoesOn(k, during)
    requires IsRun(Start(id, merchant), bot, before + ([Lock(k, now)] + (during + [DispatchNow(k, outcome, at)])))
    ensures IsRun(Start(id, merchant), bot, before)
    ensures var start := Start(id, merchant);
            var w := Run(start, bot, before + ([Lock(k, now)] + (during + [DispatchNow(k, outcome, at)])));
            && w.sends != [] && var c := w.sends[|w.sends| - 1].c;
            && c == Run(start, bot, before).c == w.c
            && c.state == if EndsClosed(start, bot, before) then Resolved else BotAnswers
  {
    var start, locking, dispatch := Start(id, merchant), Lock(k, now), DispatchNow(k, outcome, at);
    var tail := during + [dispatch];
    assert Safe(start, bot);
    RunSplits(start, bot, before, [locking] + tail);
    var w := Run(start, bot, before);
    RunKeepsSafe(start, bot, before);
    ResolvedAfterRun(start, bot, before);
    hide Safe;
    assert ([locking] + tail)[1..] == tail;
    var v := Next(w, bot, locking);
    NextKeepsSafe(w, bot, locking);
    LockTakes(w, bot, k, now);
    RunSplits(v, bot, during, [dispatch]);
    LockedRun(v, bot, during, k);
    DispatchSends(Run(v, bot, during), bot, k, outcome, at);
  }

  lemma LockTakes(w: World, bot: BotSetup, k: nat, now: int)
    requires Enabled(w, Lock(k, now))
    ensures var v := Next(w, bot, Lock(k, now)); v.lock == Some(k) && v.c == w.c
  {
    hide Preflight;
  }

  lemma DispatchSends(w: World, bot: BotSetup, k: nat, outcome: Outcome, at: int)
    requires Safe(w, bot) && IsRun(w, bot, [DispatchNow(k, outcome, at)])
    ensures var v := Run(w, bot, [DispatchNow(k, outcome, at)]);
            && v.c == w.c && v.sends != [] && v.sends[|v.sends| - 1].c == w.c
            && (w.c.state == BotAnswers || w.c.state == Resolved)
  {
    assert [DispatchNow(k, outcome, at)][1..] == [];
    assert HoldsLock(w, k) && PhaseFits(w.c, bot, w.turns[k].phase);
  }

  /** So the check asks whether a person has the conversation, not whether the bot does: closed by
      an agent between a message's two transactions, it is answered all the same, and is still
      closed once the answer is recorded. */
  lemma ClosedConversationCanBeAnswered(bot: BotSetup, k: nat, envelope: Envelope, now: int, draft: Draft,
                                        outcome: Outcome)
    requires bot.hasBrain && 2 <= bot.maxTurns && !Asks(envelope, bot.human) && !Asks(envelope, bot.money)
             && draft.Reply?
    requires outcome.escalated.None?
    ensures var steps := [Arrive(k, envelope, now, now), AgentResolves, Lock(k, now), Think(k, draft),
                          DispatchNow(k, outcome, now), CommitTurn(k)];
            IsRun(Start(1, 1), bot, steps) && var w := Run(Start(1, 1), bot, steps);
            && |w.sends| == 1 && w.sends[0].c.state == Resolved
            && |w.c.rows| == 2 && w.c.rows[1].sender.Bot? && w.c.state == Resolved
  {
    hide *;
    var steps := [Arrive(k, envelope, now, now), AgentResolves, Lock(k, now), Think(k, draft),
                  DispatchNow(k, outcome, now), CommitTurn(k)];
    var b := ClosedAfterArrival(envelope, now);
    var w2 := WithTurn(b, None, k, envelope, Stored(0), []);
    var w4 := WithTurn(b, Some(k), k, envelope, Phase.Sending(0, b, now, draft), []);
    var w1 := ClosedWaiting(bot, k, envelope, now);
    var w3 := ClosedDrafting(bot, k, envelope, now, draft);
    var w5, w6 := ClosedSending(b, bot, k, envelope, now, draft, outcome);
    SpelledOut([Start(1, 1), w1, w2, w3, w4, w5, w6], bot, steps);
  }

  function WithTurn(c: Conversation, lock: Option<nat>, k: nat, envelope: Envelope, phase: Phase,
                    sends: seq<Send>): World {
    World(c, lock, map[k := Turn(envelope, phase)], sends)
  }

  lemma ClosedWaiting(bot: BotSetup, k: nat, envelope: Envelope, now: int) returns (v: World)
    ensures var w := Start(1, 1); var step := Arrive(k, envelope, now, now);
            && Enabled(w, step) && v == Next(w, bot, step) && Enabled(v, AgentResolves)
            && Next(v, bot, AgentResolves)
               == WithTurn(ClosedAfterArrival(envelope, now), None, k, envelope, Stored(0), [])
    ensures var b := ClosedAfterArrival(envelope, now); b.state == Resolved && |b.rows| == 1
  {
    v := Next(Start(1, 1), bot, Arrive(k, envelope, now, now));
  }

  lemma ClosedDrafting(bot: BotSetup, k: nat, envelope: Envelope, now: int, draft: Draft) returns (v: World)
    requires bot.hasBrain && 2 <= bot.maxTurns && !Asks(envelope, bot.human) && !Asks(envelope, bot.money)
             && draft.Reply?
    ensures var b := ClosedAfterArrival(envelope, now); var w := WithTurn(b, None, k, envelope, Stored(0), []);
            && Enabled(w, Lock(k, now)) && v == Next(w, bot, Lock(k, now)) && Enabled(v, Think(k, draft))
            && Next(v, bot, Think(k, draft)) == WithTurn(b, Some(k), k, envelope, Phase.Sending(0, b, now, draft), [])
  {
    ClosedTurnGoesOn(bot, k, envelope, now, draft);
    hide Preflight, Judge, ClosedAfterArrival;
    v := Next(WithTurn(ClosedAfterArrival(envelope, now), None, k, envelope, Stored(0), []), bot, Lock(k, now));
  }

  lemma ClosedSending(b: Conversation, bot: BotSetup, k: nat, envelope: Envelope, now: int, draft: Draft,
                      outcome: Outcome)
    returns (v: World, u: World)
    requires draft.Reply? && outcome.escalated.None?
    ensures var w := WithTurn(b, Some(k), k, envelope, Phase.Sending(0, b, now, draft), []);
            && Enabled(w, DispatchNow(k, outcome, now)) && v == Next(w, bot, DispatchNow(k, outcome, now))
            && Enabled(v, CommitTurn(k)) && u == Next(v, bot, CommitTurn(k))
            && u.sends == [Send(0, b, now, draft)]
            && u.c.state == b.state && |u.c.rows| == |b.rows| + 1 && u.c.rows[|b.rows|].sender.Bot?
  {
    hide Preflight, Judge, Recorded;
    AnswerLeavesItClosed(b, draft, outcome, now);
    v := Next(WithTurn(b, Some(k), k, envelope, Phase.Sending(0, b, now, draft), []), bot,
              DispatchNow(k, outcome, now));
    u := Next(v, bot, CommitTurn(k));
  }

  lemma AnswerLeavesItClosed(c: Conversation, draft: Draft, outcome: Outcome, at: int)
    ensures var d := Commit(c, Answered(draft, outcome, at));
            d.state == c.state && |d.rows| == |c.rows| + 1 && d.rows[|c.rows|].sender.Bot?
  {
  }

  /** A new conversation with one message in it that an agent has closed. */
  function ClosedAfterArrival(envelope: Envelope, now: int): Conversation {
    Resolve(StoreInbound(NewConversation(1, 1), envelope, now, now))
  }

  lemma ClosedTurnGoesOn(bot: BotSetup, k: nat, envelope: Envelope, now: int, draft: Draft)
    requires bot.hasBrain && 2 <= bot.maxTurns && !Asks(envelope, bot.human) && !Asks(envelope, bot.money)
             && draft.Reply?
    ensures var c := ClosedAfterArrival(envelope, now);
            Preflight(c, bot, envelope, now).None? && Judge(c, bot, envelope, draft).None?
  {
    OneCustomerRow(ClosedAfterArrival(envelope, now).rows);
    PreflightLeavesOnlyTheDraft(bot.human, bot.money, envelope, draft, 1, bot.maxTurns);
  }

  lemma OneCustomerRow(rows: seq<Row>)
    requires |rows| == 1 && rows[0].sender.Customer?
    ensures BotReplies(rows) == 0
  {
    assert rows[..|rows| - 1] == [];
    assert LastAgentAt(rows) == None && BotRowsAfter(rows, None) == 0;
  }

  /** A run spelled out, world by world. */
  lemma {:induction false} SpelledOut(worlds: seq<World>, bot: BotSetup, steps: seq<Step>)
    requires |worlds| == |steps| + 1
    requires forall i :: 0 <= i < |steps| ==>
               Enabled(worlds[i], steps[i]) && worlds[i + 1] == Next(worlds[i], bot, steps[i])
    ensures IsRun(worlds[0], bot, steps) && Run(worlds[0], bot, steps) == worlds[|steps|]
    decreases |steps|
  {
    hide Next, Enabled;
    if steps != [] {
      SpelledOut(worlds[1..], bot, steps[1..]);
    }
  }

  // ----- one dispatch for a message -----

  predicate Unfinished(p: Phase) { !p.Ending? }

  /** Every turn has a message of its own, and one that has not ended has not dispatched. */
  ghost predicate DispatchedOnce(w: World) {
    && (forall i, j :: 0 <= i < j < |w.sends| ==> w.sends[i].row != w.sends[j].row)
    && (forall i :: 0 <= i < |w.sends| ==> w.sends[i].row < |w.c.rows|)
    && (forall k :: k in w.turns ==> w.turns[k].phase.row < |w.c.rows|)
    && (forall j, k :: j in w.turns && k in w.turns && w.turns[j].phase.row == w.turns[k].phase.row ==> j == k)
    && (forall i, k :: 0 <= i < |w.sends| && k in w.turns && Unfinished(w.turns[k].phase) ==>
          w.sends[i].row != w.turns[k].phase.row)
  }

  lemma {:induction false} NextKeepsDispatchedOnce(w: World, bot: BotSetup, step: Step)
    requires DispatchedOnce(w) && Enabled(w, step)
    ensures DispatchedOnce(Next(w, bot, step))
  {
    hide Next, DispatchedOnce, Enabled;
    if step.DispatchNow? { DispatchStep(w, bot, step); } else { StepWithoutDispatch(w, bot, step); }
  }

  lemma DispatchStep(w: World, bot: BotSetup, step: Step)
    requires DispatchedOnce(w) && Enabled(w, step) && step.DispatchNow?
    ensures DispatchedOnce(Next(w, bot, step))
  {
    hide Next;
    var v := Next(w, bot, step);
    TurnsKeepTheirRows(w, bot, step);
    SendsOfStep(w, bot, step);
    assert forall i :: 0 <= i < |w.sends| ==> v.sends[i] == w.sends[i];
  }

  lemma StepWithoutDispatch(w: World, bot: BotSetup, step: Step)
    requires DispatchedOnce(w) && Enabled(w, step) && !step.DispatchNow?
    ensures DispatchedOnce(Next(w, bot, step))
  {
    hide Next;
    TurnsKeepTheirRows(w, bot, step);
    SendsOfStep(w, bot, step);
  }

  /** A turn keeps its message and does not come back from its end; a new one has a new message. */
  lemma {:induction false} TurnsKeepTheirRows(w: World, bot: BotSetup, step: Step)
    requires Enabled(w, step)
    ensures var v := Next(w, bot, step);
            && |w.c.rows| <= |v.c.rows|
            && (forall k :: k in v.turns ==>
                  if step.Arrive? && k == step.turn then
                    v.turns[k].phase.row == |w.c.rows| < |v.c.rows|
                  else
                    && k in w.turns && v.turns[k].phase.row == w.turns[k].phase.row
                    && (Unfinished(v.turns[k].phase) ==> Unfinished(w.turns[k].phase)))
  {
    hide Preflight, Judge, Recorded, AfterDispatch, BotReplies;
  }

  lemma SendsOfStep(w: World, bot: BotSetup, step: Step)
    requires Enabled(w, step)
    ensures var v := Next(w, bot, step);
            if step.DispatchNow? then
              var p := w.turns[step.turn].phase;
              && |v.sends| == |w.sends| + 1 && w.sends <= v.sends && v.sends[|w.sends|].row == p.row
              && Unfinished(p) && !Unfinished(v.turns[step.turn].phase)
            else v.sends == w.sends
  {
    hide Preflight, Judge, AfterDispatch, Commit, StoreInbound, AgentReply;
  }

  lemma {:induction false} RunKeepsDispatchedOnce(w: World, bot: BotSetup, steps: seq<Step>)
    requires DispatchedOnce(w) && IsRun(w, bot, steps)
    ensures DispatchedOnce(Run(w, bot, steps))
    decreases |steps|
  {
    hide DispatchedOnce, Next, Enabled;
    if steps != [] {
      NextKeepsDispatchedOnce(w, bot, steps[0]);
      RunKeepsDispatchedOnce(Next(w, bot, steps[0]), bot, steps[1..]);
    }
  }

  /** In every run of turns and agents, crashes included, no stored message is dispatched for
      twice. */
  lemma MessagesAreDispatchedAtMostOnce(id: nat, merchant: nat, bot: BotSetup, steps: seq<Step>)
    requires IsRun(Start(id, merchant), bot, steps)
    ensures var w := Run(Start(id, merchant), bot, steps);
            forall i, j :: 0 <= i < j < |w.sends| ==> w.sends[i].row != w.sends[j].row
  {
    RunKeepsDispatchedOnce(Start(id, merchant), bot, steps);
  }

  // ----- a turn that is not interrupted -----

  /** Left alone from its lock on, a turn commits what `UnderLock` says, with the dispatch that
      says so between its check and its commit. */
  lemma UninterruptedTurn(w: World, bot: BotSetup, k: nat, draft: Draft, caps: Capabilities, script: Script, at: nat,
                          now: int, sentAt: int, maxAttempts: nat) returns (steps: seq<Step>)
    requires Enabled(w, Lock(k, now)) && 0 < caps.maxText && 0 < maxAttempts
    ensures IsRun(w, bot, steps) && forall i :: 0 <= i < |steps| ==> TurnOf(steps[i]) == Some(k)
    ensures var t := UnderLock(w.c, bot, w.turns[k].envelope, draft, caps, script, at, now, sentAt, maxAttempts);
            var v := Run(w, bot, steps);
            && v.c == t.c && v.lock.None? && v.turns == w.turns - {k}
            && w.sends <= v.sends && (t.log != [] ==> |v.sends| == |w.sends| + 1)
  {
    hide Preflight, Judge, Dispatching, Commit;
    var a := Next(w, bot, Lock(k, now));
    if a.turns[k].phase.Ending? {
      var v := Next(a, bot, CommitTurn(k));
      assert v.turns == w.turns - {k};
      steps := [Lock(k, now), CommitTurn(k)];
      SpelledOut([w, a, v], bot, steps);
    } else {
      var b := Next(a, bot, Think(k, draft));
      if b.turns[k].phase.Ending? {
        var v := Next(b, bot, CommitTurn(k));
        assert v.turns == w.turns - {k};
        steps := [Lock(k, now), Think(k, draft), CommitTurn(k)];
        SpelledOut([w, a, b, v], bot, steps);
      } else {
        var outcome := Dispatching(caps, draft, w.c.lastInboundAt, now, script, at, maxAttempts).outcome;
        var c := Next(b, bot, DispatchNow(k, outcome, sentAt));
        var v := Next(c, bot, CommitTurn(k));
        assert v.turns == w.turns - {k};
        steps := [Lock(k, now), Think(k, draft), DispatchNow(k, outcome, sentAt), CommitTurn(k)];
        SpelledOut([w, a, b, c, v], bot, steps);
      }
    }
  }
}
