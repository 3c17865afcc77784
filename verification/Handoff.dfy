/** One conversation: who is answering it, and what the pipeline and the agents do to it. */
module Handoff {
  import opened Options
  import opened Messages
  import opened Escalation
  import opened Dispatch

  datatype HandoffState = BotAnswers | PendingHuman | Human | Resolved

  /** A conversation row together with its messages. Times are instants on one clock. */
  datatype Conversation = Conversation(
    id: nat, merchant: nat, state: HandoffState, reason: Option<string>, assignee: Option<nat>, mutedUntil: Option<int>,
    lastInboundAt: Option<int>, lastMessageAt: Option<int>, rows: seq<Row>)

  /** Assigned exactly while a person answers; no reason while the bot does; a reason to read
      while a person is waited for. */
  predicate Coherent(c: Conversation) {
    && (c.assignee.Some? <==> c.state == Human)
    && (c.state == BotAnswers ==> c.reason.None?)
    && (c.state == PendingHuman ==> c.reason.Some? && c.reason.value != "")
  }

  // ----- what the agents do -----

  /** Refused (409) while another agent has it. */
  function Takeover(c: Conversation, user: nat): Option<Conversation> {
    if c.assignee.Some? && c.assignee.value != user then None
    else Some(c.(state := Human, assignee := Some(user), mutedUntil := None))
  }

  function Release(c: Conversation, now: int, muteSeconds: int): Conversation {
    c.(state := BotAnswers, assignee := None, reason := None, mutedUntil := Some(now + muteSeconds))
  }

  function Resolve(c: Conversation): Conversation {
    c.(state := Resolved, assignee := None)
  }

  /** Why an agent's reply is not even attempted. */
  predicate MayReply(c: Conversation, user: nat) {
    c.state == Human && c.assignee == Some(user)
  }

  /** The message row of one dispatch, and the conversation's clock. */
  function RecordOutbound(c: Conversation, text: Option<string>, outcome: Outcome, sender: Sender,
                          now: int): Conversation {
    c.(rows := c.rows + [Recorded(c.id, c.merchant, text, outcome, sender, now)], lastMessageAt := Some(now))
  }

  /** An agent's reply: recorded unless it is refused or the channel wants a template first. */
  function AgentReply(c: Conversation, user: nat, text: string, outcome: Outcome, now: int): Conversation {
    if MayReply(c, user) && outcome.escalated.None? then RecordOutbound(c, Some(text), outcome, Agent, now) else c
  }

  // ----- what the pipeline does -----

  /** The customer wrote to a resolved conversation: the bot has it again, with no reason on it. */
  function Reopen(c: Conversation): Conversation {
    if c.state == Resolved then c.(state := BotAnswers, reason := None) else c
  }

  function StoreInbound(c: Conversation, envelope: Envelope, sentAt: int, now: int): Conversation {
    var row := Row(c.id, c.merchant, Customer, envelope.text, Sent, None, None, now);
    c.(rows := c.rows + [row], lastInboundAt := Some(sentAt), lastMessageAt := Some(sentAt))
  }

  predicate Quiet(c: Conversation, now: int) {
    c.state == PendingHuman || c.state == Human || (c.mutedUntil.Some? && c.mutedUntil.value > now)
  }

  function EscalateTo(c: Conversation, reason: string): Conversation {
    c.(state := PendingHuman, reason := Some(reason))
  }

  /** The latest agent message. */
  function LastAgentAt(rows: seq<Row>): Option<int> {
    if rows == [] then None
    else
      var last, before := rows[|rows| - 1], LastAgentAt(rows[..|rows| - 1]);
      if last.sender.Agent? && (before.None? || before.value < last.createdAt) then Some(last.createdAt) else before
  }

  /** Bot messages created after instant `t`, or all of them. */
  function BotRowsAfter(rows: seq<Row>, t: Option<int>): nat {
    if rows == [] then 0
    else
      var last := rows[|rows| - 1];
      BotRowsAfter(rows[..|rows| - 1], t) + if last.sender.Bot? && (t.None? || t.value < last.createdAt) then 1 else 0
  }

  /** The bot's answers since the latest agent message. */
  function BotReplies(rows: seq<Row>): nat {
    BotRowsAfter(rows, LastAgentAt(rows))
  }

  lemma {:induction false} LaterAgentFewerReplies(rows: seq<Row>, s: Option<int>, t: Option<int>)
    requires s.Some? ==> t.Some? && s.value <= t.value
    ensures BotRowsAfter(rows, t) <= BotRowsAfter(rows, s)
  {
    if rows != [] { LaterAgentFewerReplies(rows[..|rows| - 1], s, t); }
  }

  /** A person's message or a customer's never raises the count; a bot's raises it by at most one. */
  lemma AppendReplies(rows: seq<Row>, row: Row)
    ensures BotReplies(rows + [row]) <= BotReplies(rows) + if row.sender.Bot? then 1 else 0
    ensures row.sender.Bot? && NewerThanAll(rows, Agent, row) ==> BotReplies(rows + [row]) == BotReplies(rows) + 1
    ensures row.sender.Agent? && NewerThanAll(rows, Bot, row) ==> BotReplies(rows + [row]) == 0
    ensures row.sender.Customer? ==> BotReplies(rows + [row]) == BotReplies(rows)
  {
    hide BotReplies, AnswersSinceAgent, NewerThanAll;
    AppendAtMostOne(rows, row);
    RepliesAreCounted(rows);
    RepliesAreCounted(rows + [row]);
    if row.sender.Bot? && NewerThanAll(rows, Agent, row) { BotAnswersOnceMore(rows, row); }
    if row.sender.Agent? && NewerThanAll(rows, Bot, row) { AgentStartsAgain(rows, row); }
  }

  lemma AppendAtMostOne(rows: seq<Row>, row: Row)
    ensures BotReplies(rows + [row]) <= BotReplies(rows) + if row.sender.Bot? then 1 else 0
    ensures row.sender.Customer? ==> BotReplies(rows + [row]) == BotReplies(rows)
  {
    var more := rows + [row];
    assert more[..|more| - 1] == rows;
    LaterAgentFewerReplies(rows, LastAgentAt(rows), LastAgentAt(more));
  }

  lemma BotAnswersOnceMore(rows: seq<Row>, row: Row)
    requires row.sender.Bot? && NewerThanAll(rows, Agent, row)
    ensures |AnswersSinceAgent(rows + [row])| == |AnswersSinceAgent(rows)| + 1
  {
    var more := rows + [row];
    assert forall i :: 0 <= i < |rows| ==> more[i] == rows[i];
    assert AnswersSinceAgent(more) == AnswersSinceAgent(rows) + {|rows|};
  }

  lemma AgentStartsAgain(rows: seq<Row>, row: Row)
    requires row.sender.Agent? && NewerThanAll(rows, Bot, row)
    ensures AnswersSinceAgent(rows + [row]) == {}
  {
    var more := rows + [row];
    assert forall i :: 0 <= i < |rows| ==> more[i] == rows[i];
    assert more[|rows|] == row;
  }

  predicate NewerThanAll(rows: seq<Row>, sender: Sender, row: Row) {
    forall j :: 0 <= j < |rows| && rows[j].sender == sender ==> rows[j].createdAt < row.createdAt
  }

  lemma CustomersDoNotCount(rows: seq<Row>, row: Row)
    requires row.sender.Customer?
    ensures BotReplies(rows + [row]) == BotReplies(rows)
  {
    var more := rows + [row];
    assert more[..|more| - 1] == rows;
  }

  /** The bot's messages that are newer than every agent message. */
  function AnswersSinceAgent(rows: seq<Row>): set<nat> {
    set i: nat | i < |rows| && rows[i].sender.Bot?
                 && forall j :: 0 <= j < |rows| && rows[j].sender.Agent? ==> rows[j].createdAt < rows[i].createdAt
  }

  predicate AfterAll(rows: seq<Row>, t: Option<int>) {
    && (t.Some? ==> exists j :: 0 <= j < |rows| && rows[j].sender.Agent? && rows[j].createdAt == t.value)
    && (forall j :: 0 <= j < |rows| && rows[j].sender.Agent? ==> t.Some? && rows[j].createdAt <= t.value)
  }

  lemma {:induction false} LastAgentIsLatest(rows: seq<Row>)
    ensures AfterAll(rows, LastAgentAt(rows))
  {
    if rows != [] {
      var n := |rows| - 1;
      LastAgentIsLatest(rows[..n]);
      var before, last := LastAgentAt(rows[..n]), LastAgentAt(rows);
      assert forall j :: 0 <= j < n ==> rows[..n][j] == rows[j];
      if last == before && before.Some? {
        var j :| 0 <= j < n && rows[..n][j].sender.Agent? && rows[..n][j].createdAt == before.value;
        assert rows[j].createdAt == last.value;
      } else if last.Some? {
        assert rows[n].createdAt == last.value;
      }
    }
  }

  function BotsAfter(rows: seq<Row>, t: Option<int>): set<nat> {
    set i: nat | i < |rows| && rows[i].sender.Bot? && (t.None? || t.value < rows[i].createdAt)
  }

  lemma {:induction false} BotRowsAreCounted(rows: seq<Row>, t: Option<int>)
    ensures BotRowsAfter(rows, t) == |BotsAfter(rows, t)|
  {
    if rows == [] {
      assert BotsAfter(rows, t) == {};
    } else {
      var n := |rows| - 1;
      BotRowsAreCounted(rows[..n], t);
      var last := if rows[n].sender.Bot? && (t.None? || t.value < rows[n].createdAt) then {n} else {};
      assert BotsAfter(rows, t) == BotsAfter(rows[..n], t) + last;
    }
  }

  /** What the turn limit counts. */
  lemma RepliesAreCounted(rows: seq<Row>)
    ensures BotReplies(rows) == |AnswersSinceAgent(rows)|
  {
    LastAgentIsLatest(rows);
    BotRowsAreCounted(rows, LastAgentAt(rows));
    assert BotsAfter(rows, LastAgentAt(rows)) == AnswersSinceAgent(rows);
  }

  /** What a bot's turn leaves to be committed when it ends. */
  datatype Effect = Nothing | Escalated(reason: Reason) | Answered(draft: Draft, outcome: Outcome, at: int)

  function Commit(c: Conversation, effect: Effect): Conversation {
    match effect
    case Nothing => c
    case Escalated(reason) => EscalateTo(c, reason)
    case Answered(draft, outcome, at) => RecordOutbound(c, if draft.Reply? then draft.text else None, outcome, Bot, at)
  }

  const SELECT_MODEL: Reason := "select a model before enabling this bot"

  /** How a bot is set up: its policy's two patterns, its turn limit, whether it has a brain. */
  datatype BotSetup = BotSetup(human: string -> bool, money: string -> bool, maxTurns: int, hasBrain: bool) {
    function Policy(): seq<Trigger> { DefaultPolicy(human, money) }
  }

  /** What is decided under the lock before any brain runs: an effect, or to go on. */
  function Preflight(c: Conversation, bot: BotSetup, envelope: Envelope, now: int): Option<Effect> {
    if Quiet(c, now) then Some(Nothing)
    else
      var signal := Evaluate(bot.Policy(), envelope, NO_DRAFT, BotReplies(c.rows) + 1, bot.maxTurns);
      if signal.Fire? then Some(Escalated(signal.reason))
      else if !bot.hasBrain then Some(Escalated(SELECT_MODEL))
      else None
  }

  /** What is decided once the brain has drafted: an escalation, or to send. */
  function Judge(c: Conversation, bot: BotSetup, envelope: Envelope, draft: Draft): Option<Effect> {
    var signal := Evaluate(bot.Policy(), envelope, draft, BotReplies(c.rows) + 1, bot.maxTurns);
    if signal.Fire? then Some(Escalated(signal.reason)) else None
  }

  /** What a dispatch leaves to be committed. */
  function AfterDispatch(draft: Draft, outcome: Outcome, at: int): Effect {
    if outcome.escalated.Some? then Escalated(outcome.escalated.value) else Answered(draft, outcome, at)
  }

  /** What the preflight lets through: no person's conversation, none that is muted, none at
      its turn limit. */
  predicate MayAnswer(c: Conversation, bot: BotSetup) {
    c.state != Human && c.state != PendingHuman && BotReplies(c.rows) + 1 < bot.maxTurns
  }

  lemma PreflightDecides(c: Conversation, bot: BotSetup, envelope: Envelope, now: int)
    ensures var stop := Preflight(c, bot, envelope, now);
            && (stop.None? ==> MayAnswer(c, bot) && !Quiet(c, now))
            && (stop.Some? ==> !stop.value.Answered? && (stop.value.Escalated? ==> !Quiet(c, now)))
  {
    PreflightLeavesOnlyTheDraft(bot.human, bot.money, envelope, NO_DRAFT, BotReplies(c.rows) + 1, bot.maxTurns);
  }

  /** When the bot says nothing: a person has the conversation or is waited for, or it is muted. */
  ghost predicate IsSilent(c: Conversation, now: int) {
    c.state in {PendingHuman, Human} || exists until :: c.mutedUntil == Some(until) && now < until
  }

  /** The whole decision of a turn, before and after the brain is asked. Nothing happens in a silent
      conversation; in any other the turn escalates on a request for a person, on money, on the
      answer that would reach the limit, or for want of a brain; else the brain is asked, and
      its draft is sent unless it escalates. */
  lemma WhatATurnDecides(c: Conversation, bot: BotSetup, envelope: Envelope, draft: Draft, now: int)
    ensures var stop := Preflight(c, bot, envelope, now);
            var limit := bot.maxTurns <= |AnswersSinceAgent(c.rows)| + 1;
            && (stop == Some(Nothing) <==> IsSilent(c, now))
            && (stop.None? <==>
                  && !IsSilent(c, now) && !Asks(envelope, bot.human) && !Asks(envelope, bot.money)
                  && !limit && bot.hasBrain)
            && (stop.Some? && !IsSilent(c, now) ==>
                  stop.value == Escalated(
                    if Asks(envelope, bot.human) then ASKED_FOR_HUMAN
                    else if Asks(envelope, bot.money) then RAISED_MONEY
                    else if limit then UnresolvedReason(|AnswersSinceAgent(c.rows)| + 1)
                    else SELECT_MODEL))
            && (stop.None? ==>
                  Judge(c, bot, envelope, draft) == if draft.Escalate? then Some(Escalated(draft.reason)) else None)
  {
    hide BotReplies, AnswersSinceAgent, Evaluate, UnresolvedReason, DefaultPolicy;
    RepliesAreCounted(c.rows);
    var turns := BotReplies(c.rows) + 1;
    EvaluateDefault(bot.human, bot.money, envelope, NO_DRAFT, turns, bot.maxTurns);
    EvaluateDefault(bot.human, bot.money, envelope, draft, turns, bot.maxTurns);
    if Quiet(c, now) && c.state != PendingHuman && c.state != Human { assert c.mutedUntil == Some(c.mutedUntil.value); }
  }

  /** What the locked part of a turn leaves: the row, the line's events and tokens, its error. */
  datatype Turned = Turned(c: Conversation, log: seq<Event>, used: nat, failure: Option<Reason>)

  function UnderLock(c: Conversation, bot: BotSetup, envelope: Envelope, draft: Draft, caps: Capabilities,
                     script: Script, at: nat, now: int, sentAt: int, maxAttempts: nat): Turned
    requires 0 < caps.maxText && 0 < maxAttempts
  {
    var preflight := Preflight(c, bot, envelope, now);
    var stop := if preflight.Some? then preflight else Judge(c, bot, envelope, draft);
    if stop.Some? then Turned(Commit(c, stop.value), [], 0, None)
    else
      var d := Dispatching(caps, draft, c.lastInboundAt, now, script, at, maxAttempts);
      Turned(Commit(c, AfterDispatch(draft, d.outcome, sentAt)), d.log, d.used, d.outcome.failure)
  }

  /** Messages are only added, and the channel was used only for a conversation the bot may
      answer. */
  predicate SafelyTurned(c: Conversation, bot: BotSetup, now: int, t: Turned) {
    && c.rows <= t.c.rows
    && (t.log != [] || |c.rows| < |t.c.rows| ==> MayAnswer(c, bot) && !Quiet(c, now))
  }

  lemma LockedTurnIsSafe(c: Conversation, bot: BotSetup, envelope: Envelope, draft: Draft, caps: Capabilities,
                         script: Script, at: nat, now: int, sentAt: int, maxAttempts: nat)
    requires Coherent(c) && 0 < caps.maxText && 0 < maxAttempts
    ensures var t := UnderLock(c, bot, envelope, draft, caps, script, at, now, sentAt, maxAttempts);
            Coherent(t.c) && SafelyTurned(c, bot, now, t)
  {
    hide Evaluate, BotReplies, SendAll, Pieces, Recorded;
    PreflightDecides(c, bot, envelope, now);
  }

  /** The conversation with other messages and another state, reason and clock; everything else
      as it was. */
  predicate SameOtherwise(c: Conversation, d: Conversation) {
    && d.id == c.id && d.merchant == c.merchant && d.assignee == c.assignee && d.mutedUntil == c.mutedUntil
    && d.lastInboundAt == c.lastInboundAt
  }

  /** What a turn under the lock does to the row and the line. A silent conversation stays as it is;
      a turn that escalates, whether by its preflight, by its draft or by what the channel takes,
      only leaves the conversation waiting for a person, with the reason; any other sends the
      draft's pieces, and adds one message of the bot's that says how that went. */
  lemma WhatATurnDoes(c: Conversation, bot: BotSetup, envelope: Envelope, draft: Draft, caps: Capabilities,
                      script: Script, at: nat, now: int, sentAt: int, maxAttempts: nat)
    requires 0 < caps.maxText && 0 < maxAttempts
    ensures var t := UnderLock(c, bot, envelope, draft, caps, script, at, now, sentAt, maxAttempts);
            var stop, refusal := Preflight(c, bot, envelope, now), Refusal(caps, draft, c.lastInboundAt, now);
            && SameOtherwise(c, t.c)
            && (stop == Some(Nothing) ==> t == Turned(c, [], 0, None))
            && ((stop.Some? && stop.value.Escalated?) || (stop.None? && refusal.Some?) ==>
                  && t.c.state == PendingHuman && t.log == [] && t.used == 0 && t.failure.None?
                  && t.c.rows == c.rows && t.c.lastMessageAt == c.lastMessageAt
                  && t.c.reason == Some(if stop.Some? then stop.value.reason else refusal.value))
            && (stop.None? && refusal.None? ==>
                  var b := SendAll(Pieces(caps, draft), script, at, maxAttempts);
                  && draft.Reply? && t.c.state == c.state && t.c.reason == c.reason && t.c.lastMessageAt == Some(sentAt)
                  && t.log == b.log && t.used == b.used && t.failure == FailureOf(b.results)
                  && |t.c.rows| == |c.rows| + 1 && c.rows <= t.c.rows && var row := t.c.rows[|c.rows|];
                  && row.sender.Bot? && row.text == draft.text && row.createdAt == sentAt
                  && row.conversation == c.id && row.merchant == c.merchant
                  && TellsTheTruth(row, Pieces(caps, draft), b.log))
  {
    hide Evaluate, BotReplies, SendAll, Pieces, AnswersSinceAgent, UnresolvedReason, TellsTheTruth, Accepted;
    WhatATurnDecides(c, bot, envelope, draft, now);
    if Refusal(caps, draft, c.lastInboundAt, now).None? {
      RecordTellsTheTruth(caps, draft, script, at, maxAttempts, c.id, c.merchant, Bot, sentAt);
    }
  }

  /** The same agents may reply, the bot is silent at the same instants, and it has answered as
      often. */
  ghost predicate SameStanding(c: Conversation, d: Conversation) {
    && (forall u :: MayReply(c, u) <==> MayReply(d, u))
    && (forall t :: Quiet(c, t) <==> Quiet(d, t))
    && BotReplies(c.rows) == BotReplies(d.rows)
  }

  /** The row as the pipeline and the API handlers update it. */
  class InboxConversation {
    var state: HandoffState
    var reason: Option<string>
    var assignee: Option<nat>
    var mutedUntil: Option<int>
    var lastInboundAt: Option<int>
    var lastMessageAt: Option<int>
    var rows: seq<Row>
    const id: nat
    const merchant: nat

    function Now(): Conversation
      reads this
    {
      Conversation(id, merchant, state, reason, assignee, mutedUntil, lastInboundAt, lastMessageAt, rows)
    }

    constructor (id: nat, merchant: nat)
      ensures Now() == Conversation(id, merchant, BotAnswers, None, None, None, None, None, [])
      ensures Coherent(Now())
    {
      this.id, this.merchant := id, merchant;
      state, reason, assignee, mutedUntil := BotAnswers, None, None, None;
      lastInboundAt, lastMessageAt, rows := None, None, [];
    }

    /** Refused exactly while another agent has it; then that agent and no other may reply, and
        the bot is silent for as long as nothing else happens. */
    method TakeOver(user: nat) returns (ok: bool)
      requires Coherent(Now())
      modifies this
      ensures Coherent(Now())
      ensures ok == Takeover(old(Now()), user).Some?
      ensures ok <==> !exists other :: other != user && MayReply(old(Now()), other)
      ensures Now() == if ok then Takeover(old(Now()), user).value else old(Now())
      ensures ok ==> (forall u :: MayReply(Now(), u) <==> u == user) && (forall t :: Quiet(Now(), t))
      ensures ok ==> mutedUntil.None? && reason == old(reason)
      ensures unchanged(`rows) && unchanged(`lastInboundAt) && unchanged(`lastMessageAt)
    {
      if assignee != None && assignee != Some(user) {
        assert MayReply(Now(), assignee.value);
        return false;
      }
      state, assignee, mutedUntil := Human, Some(user), None;
      return true;
    }

    /** Nobody may reply any more; the bot is silent exactly until its grace period is over. */
    method ReleaseToBot(now: int, muteSeconds: int)
      requires Coherent(Now())
      modifies this
      ensures Coherent(Now())
      ensures Now() == Release(old(Now()), now, muteSeconds)
      ensures forall u :: !MayReply(Now(), u)
      ensures forall t :: Quiet(Now(), t) <==> t < now + muteSeconds
      ensures unchanged(`rows) && unchanged(`lastInboundAt) && unchanged(`lastMessageAt)
    {
      state, assignee, reason := BotAnswers, None, None;
      mutedUntil := Some(now + muteSeconds);
    }

    /** Nobody may reply any more, and only a mute from before keeps the bot silent. */
    method MarkResolved()
      requires Coherent(Now())
      modifies this
      ensures Coherent(Now())
      ensures Now() == Resolve(old(Now()))
      ensures forall u :: !MayReply(Now(), u)
      ensures forall t :: Quiet(Now(), t) <==> mutedUntil.Some? && t < mutedUntil.value
      ensures unchanged(`rows) && unchanged(`reason) && unchanged(`mutedUntil)
      ensures unchanged(`lastInboundAt) && unchanged(`lastMessageAt)
    {
      state, assignee := Resolved, None;
    }

    /** Only the agent who has the conversation sends, and only what the channel takes. What was
        sent is on the line, in the row, and, when it failed, in the job to be recorded. */
    method SendMessage(user: nat, text: string, line: Line, adapter: Option<Capabilities>, now: int, maxAttempts: nat)
      returns (sent: bool, job: Option<Reason>)
      requires text != "" && (adapter.Some? ==> 0 < adapter.value.maxText) && 0 < maxAttempts && Coherent(Now())
      modifies this, line
      ensures Coherent(Now())
      ensures sent <==>
                && MayReply(old(Now()), user) && adapter.Some?
                && Refusal(adapter.value, Reply(Some(text), 0), old(lastInboundAt), now).None?
      ensures sent ==> old(state) == Human && old(assignee) == Some(user)
      ensures !sent ==> Now() == old(Now()) && line.log == old(line.log) && job.None?
      ensures sent ==>
                var d := Dispatching(adapter.value, Reply(Some(text), 0), old(lastInboundAt), now, line.script,
                                     old(line.used), maxAttempts);
                && Now() == AgentReply(old(Now()), user, text, d.outcome, now)
                && line.log == old(line.log) + d.log && job == d.outcome.failure
                && |rows| == |old(rows)| + 1 && old(rows) <= rows && var row := rows[|old(rows)|];
                && TellsTheTruth(row, Pieces(adapter.value, Reply(Some(text), 0)), d.log)
                && row.sender.Agent? && row.text == Some(text) && row.createdAt == now && lastMessageAt == Some(now)
                && row.conversation == id && row.merchant == merchant
    {
      hide SendAll, Pieces, Accepted;
      if state != Human || assignee != Some(user) { return false, None; }
      if adapter.None? { return false, None; }
      var caps, draft := adapter.value, Reply(Some(text), 0);
      RecordTellsTheTruth(caps, draft, line.script, line.used, maxAttempts, id, merchant, Agent, now);
      var outcome := DispatchDraft(line, caps, draft, lastInboundAt, now, maxAttempts);
      if outcome.escalated.Some? { return false, None; }
      rows := rows + [Recorded(id, merchant, Some(text), outcome, Agent, now)];
      lastMessageAt := Some(now);
      return true, outcome.failure;
    }

    /** The first transaction of a turn: reopen if closed, store what the customer said. The
        conversation is open afterwards, and whoever had it still has it. */
    method ReceiveMessage(envelope: Envelope, sentAt: int, now: int)
      requires Coherent(Now())
      modifies this
      ensures Coherent(Now())
      ensures Now() == StoreInbound(Reopen(old(Now())), envelope, sentAt, now)
      ensures state != Resolved && SameStanding(old(Now()), Now())
      ensures old(state) == Resolved ==> state == BotAnswers && reason == None
      ensures old(state) != Resolved ==> state == old(state) && reason == old(reason)
      ensures lastInboundAt == lastMessageAt == Some(sentAt) && unchanged(`mutedUntil) && unchanged(`assignee)
      ensures |rows| == |old(rows)| + 1 && old(rows) <= rows
      ensures rows[|old(rows)|].sender.Customer? && rows[|old(rows)|].text == envelope.text
      ensures rows[|old(rows)|].conversation == id && rows[|old(rows)|].merchant == merchant
    {
      hide BotReplies;
      if state == Resolved {
        state, reason := BotAnswers, None;
      }
      CustomersDoNotCount(rows, Row(id, merchant, Customer, envelope.text, Sent, None, None, now));
      rows := rows + [Row(id, merchant, Customer, envelope.text, Sent, None, None, now)];
      lastInboundAt, lastMessageAt := Some(sentAt), Some(sentAt);
    }

    /** The second transaction, under the row lock, with whatever the brain drafts. The line is
        used only when preflight and draft both pass, and then for that draft; its error, if
        it ends in one, is handed back. */
    method AnswerUnderLock(bot: BotSetup, envelope: Envelope, draft: Draft, line: Line, caps: Capabilities, now: int,
                           sentAt: int, maxAttempts: nat)
      returns (failure: Option<Reason>)
      requires 0 < caps.maxText && 0 < maxAttempts && Coherent(Now())
      modifies this, line
      ensures var t := UnderLock(old(Now()), bot, envelope, draft, caps, line.script, old(line.used), now, sentAt,
                                 maxAttempts);
              && Now() == t.c && line.log == old(line.log) + t.log && line.used == old(line.used) + t.used
              && failure == t.failure
              && SafelyTurned(old(Now()), bot, now, t)
      ensures Coherent(Now())
    {
      hide Evaluate, BotReplies, Dispatching, Refusal, SafelyTurned, Recorded, Coherent, DefaultPolicy;
      LockedTurnIsSafe(Now(), bot, envelope, draft, caps, line.script, line.used, now, sentAt, maxAttempts);
      failure := None;
      if state == PendingHuman || state == Human || (mutedUntil.Some? && mutedUntil.value > now) { return; }
      var turns := BotReplies(rows) + 1;
      var preflight := Evaluate(bot.Policy(), envelope, NO_DRAFT, turns, bot.maxTurns);
      if preflight.Fire? {
        state, reason := PendingHuman, Some(preflight.reason);
        return;
      }
      if !bot.hasBrain {
        state, reason := PendingHuman, Some(SELECT_MODEL);
        return;
      }
      PreflightLeavesOnlyTheDraft(bot.human, bot.money, envelope, draft, turns, bot.maxTurns);
      var signal := Evaluate(bot.Policy(), envelope, draft, turns, bot.maxTurns);
      if signal.Fire? {
        state, reason := PendingHuman, Some(signal.reason);
        return;
      }
      var outcome := DispatchDraft(line, caps, draft, lastInboundAt, now, maxAttempts);
      if outcome.escalated.Some? {
        state, reason := PendingHuman, Some(outcome.escalated.value);
        return;
      }
      rows := rows + [Recorded(id, merchant, draft.text, outcome, Bot, sentAt)];
      lastMessageAt := Some(sentAt);
      failure := outcome.failure;
    }
  }
}
