/** One queue message, from claim to the receipt's final status. */
module Pipeline {
  import opened Options
  import opened Messages
  import opened Dispatch
  import opened Handoff
  import Ingress

  /** Why a claimed receipt cannot be processed, or what it is processed with. */
  datatype Setup =
    | NoConnection
    | NoAdapter(connection: nat, error: Reason)
    | NoBot(connection: nat)
    | NoBrand(connection: nat)
    | Ready(connection: nat, bot: BotSetup, caps: Capabilities)

  const CONNECTION_GONE: Reason := "the channel connection no longer exists"
  const BOT_GONE: Reason := "the bot no longer exists"
  const BRAND_GONE: Reason := "the brand no longer exists"

  datatype FailedJob = FailedJob(event: nat, connection: Option<nat>, error: Reason)

  /** A parsed message of the delivery, and what the brain would draft for it. */
  datatype Parsed = Parsed(provider: string, envelope: Envelope, sentAt: int, draft: Draft)

  predicate Matches(p: Parsed, key: Ingress.Key) {
    p.provider == key.provider && p.envelope.update == key.update
  }

  /** One receipt stands for one update, however many its delivery carried. */
  function Matching(parsed: seq<Parsed>, key: Ingress.Key): seq<Parsed> {
    if parsed == [] then []
    else (if Matches(parsed[0], key) then [parsed[0]] else []) + Matching(parsed[1..], key)
  }

  /** Why a claimed receipt fails, given its messages. The connection and its adapter are looked
      up first; without a message the receipt is done; the bot and the brand come last. */
  function WhyNot(setup: Setup, messages: seq<Parsed>): Option<Reason> {
    match setup
    case NoConnection => Some(CONNECTION_GONE)
    case NoAdapter(_, error) => Some(error)
    case NoBot(_) => if messages == [] then None else Some(BOT_GONE)
    case NoBrand(_) => if messages == [] then None else Some(BRAND_GONE)
    case Ready(_, _, _) => None
  }

  function ConnectionOf(setup: Setup): Option<nat> {
    if setup.NoConnection? then None else Some(setup.connection)
  }

  /** Every update of the delivery but this receipt's own is left to its own receipt. */
  lemma {:induction false} MatchingIsExact(parsed: seq<Parsed>, key: Ingress.Key, p: Parsed)
    ensures p in Matching(parsed, key) <==>
              p in parsed && p.provider == key.provider && p.envelope.update == key.update
  {
    if parsed != [] {
      assert parsed == [parsed[0]] + parsed[1..];
      MatchingIsExact(parsed[1..], key, p);
    }
  }

  /** `messages` are the delivery's matching ones, at these positions: in order and all of them. */
  predicate PicksAll(parsed: seq<Parsed>, key: Ingress.Key, at: seq<nat>, messages: seq<Parsed>) {
    && |at| == |messages|
    && (forall k :: 0 <= k < |at| ==> at[k] < |parsed| && messages[k] == parsed[at[k]])
    && (forall j, k :: 0 <= j < k < |at| ==> at[j] < at[k])
    && (forall i :: 0 <= i < |parsed| ==>
          (i in at <==> parsed[i].provider == key.provider && parsed[i].envelope.update == key.update))
  }

  lemma {:induction false} MatchingOfLast(parsed: seq<Parsed>, p: Parsed, key: Ingress.Key)
    ensures Matching(parsed + [p], key) == Matching(parsed, key) + if Matches(p, key) then [p] else []
    decreases |parsed|
  {
    if parsed == [] {
      assert parsed + [p] == [p] && [p][1..] == [];
    } else {
      assert (parsed + [p])[1..] == parsed[1..] + [p];
      MatchingOfLast(parsed[1..], p, key);
    }
  }

  /** The receipt's messages are the delivery's matching ones, in the order they came in. */
  lemma {:induction false} MatchingKeepsOrder(parsed: seq<Parsed>, key: Ingress.Key) returns (at: seq<nat>)
    ensures PicksAll(parsed, key, at, Matching(parsed, key))
    decreases |parsed|
  {
    hide Matching, Matches;
    if parsed == [] {
      at := [];
      NothingMatches(key);
    } else {
      var n := |parsed| - 1;
      var init, last := parsed[..n], parsed[n];
      at := MatchingKeepsOrder(init, key);
      MatchingOfLast(init, last, key);
      assert parsed == init + [last];
      if Matches(last, key) {
        PickLast(init, key, at, Matching(init, key), last);
        at := at + [n];
      } else {
        PassLast(init, key, at, Matching(init, key), last);
        assert Matching(init, key) + [] == Matching(init, key);
      }
    }
  }

  lemma NothingMatches(key: Ingress.Key)
    ensures Matching([], key) == []
  {
  }

  lemma PickLast(init: seq<Parsed>, key: Ingress.Key, at: seq<nat>, messages: seq<Parsed>, last: Parsed)
    requires PicksAll(init, key, at, messages) && Matches(last, key)
    ensures PicksAll(init + [last], key, at + [|init|], messages + [last])
  {
    var all, parsed := at + [|init|], init + [last];
    forall i | 0 <= i < |parsed|
      ensures i in all <==> parsed[i].provider == key.provider && parsed[i].envelope.update == key.update
    {
      if i < |init| { assert parsed[i] == init[i]; } else { assert all[|at|] == i; }
    }
  }

  lemma PassLast(init: seq<Parsed>, key: Ingress.Key, at: seq<nat>, messages: seq<Parsed>, last: Parsed)
    requires PicksAll(init, key, at, messages) && !Matches(last, key)
    ensures PicksAll(init + [last], key, at, messages)
  {
  }

  lemma {:induction false} MatchingKeepsCopies(parsed: seq<Parsed>, key: Ingress.Key, p: Parsed)
    ensures multiset(Matching(parsed, key))[p]
            == if p.provider == key.provider && p.envelope.update == key.update then multiset(parsed)[p] else 0
    decreases |parsed|
  {
    if parsed != [] {
      MatchingKeepsCopies(parsed[1..], key, p);
      assert parsed == [parsed[0]] + parsed[1..];
    }
  }

  /** What one message does to the conversation: it is stored, then answered under the lock. */
  function TurnOn(c: Conversation, p: Parsed, bot: BotSetup, caps: Capabilities, script: Script, at: nat, now: int,
                  maxAttempts: nat): Turned
    requires 0 < maxAttempts && 0 < caps.maxText
  {
    UnderLock(StoreInbound(Reopen(c), p.envelope, p.sentAt, now), bot, p.envelope, p.draft, caps, script, at, now, now,
              maxAttempts)
  }

  /** What a receipt's messages do to the conversation, in turn, up to the first whose answer the
      channel does not take. */
  function AnswerAll(messages: seq<Parsed>, bot: BotSetup, caps: Capabilities, c: Conversation,
                     script: Script, at: nat, now: int, maxAttempts: nat): Turned
    requires 0 < maxAttempts && 0 < caps.maxText
  {
    if messages == [] then Turned(c, [], 0, None)
    else
      var p := messages[0];
      var t := TurnOn(c, p, bot, caps, script, at, now, maxAttempts);
      if t.failure.Some? then t
      else
        var rest := AnswerAll(messages[1..], bot, caps, t.c, script, at + t.used, now, maxAttempts);
        Turned(rest.c, t.log + rest.log, t.used + rest.used, rest.failure)
  }

  /** The texts the customer sent, in order. */
  function FromCustomer(rows: seq<Row>): seq<Option<string>> {
    if rows == [] then []
    else
      var last := rows[|rows| - 1];
      FromCustomer(rows[..|rows| - 1]) + if last.sender.Customer? then [last.text] else []
  }

  function Texts(messages: seq<Parsed>): seq<Option<string>> {
    if messages == [] then [] else [messages[0].envelope.text] + Texts(messages[1..])
  }

  lemma OneMoreRow(rows: seq<Row>, row: Row)
    ensures FromCustomer(rows + [row]) == FromCustomer(rows) + if row.sender.Customer? then [row.text] else []
  {
    var more := rows + [row];
    assert more[..|more| - 1] == rows;
  }

  /** How one turn ends: it adds the customer's text and at most one answer, which is recorded
      as failed exactly when the turn failed, with the same error. */
  predicate OneTurn(c: Conversation, p: Parsed, t: Turned) {
    && |c.rows| + 1 <= |t.c.rows| <= |c.rows| + 2 && c.rows <= t.c.rows
    && FromCustomer(t.c.rows) == FromCustomer(c.rows) + [p.envelope.text]
    && t.c.rows[|c.rows|].sender.Customer? && t.c.rows[|c.rows|].delivery.Sent?
    && (t.failure.Some? ==> |t.c.rows| == |c.rows| + 2)
    && (|t.c.rows| == |c.rows| + 2 ==>
          var answer := t.c.rows[|c.rows| + 1];
          answer.sender.Bot? && answer.error == t.failure
          && answer.delivery == if t.failure.Some? then Failed else Sent)
  }

  lemma TurnEnds(c: Conversation, bot: BotSetup, p: Parsed, caps: Capabilities, script: Script, at: nat, now: int,
                 maxAttempts: nat)
    requires 0 < maxAttempts && 0 < caps.maxText
    ensures OneTurn(c, p, TurnOn(c, p, bot, caps, script, at, now, maxAttempts))
  {
    hide Preflight, FromCustomer, Refusal, SendAll, Pieces;
    var stored := StoreInbound(Reopen(c), p.envelope, p.sentAt, now);
    OneMoreRow(c.rows, stored.rows[|c.rows|]);
    PreflightDecides(stored, bot, p.envelope, now);
    var t := UnderLock(stored, bot, p.envelope, p.draft, caps, script, at, now, now, maxAttempts);
    if |t.c.rows| == |stored.rows| + 1 {
      OneMoreRow(stored.rows, t.c.rows[|stored.rows|]);
      assert t.c.rows == stored.rows + [t.c.rows[|stored.rows|]];
    }
  }

  /** Of the rows added since row `n`, the failed one, if there is a failure, is the last. */
  predicate FailsLast(rows: seq<Row>, n: nat, failure: Option<Reason>) {
    && (forall i :: n <= i < |rows| ==> (rows[i].delivery.Failed? <==> failure.Some? && i == |rows| - 1))
    && (failure.Some? ==> n < |rows| && rows[|rows| - 1].sender.Bot? && rows[|rows| - 1].error == failure)
  }

  /** Of the rows added since row `n`, each answer comes right after the message it answers. */
  predicate AnswersFollow(rows: seq<Row>, n: nat) {
    forall i :: n <= i < |rows| && !rows[i].sender.Customer? ==>
      rows[i].sender.Bot? && n < i && rows[i - 1].sender.Customer?
  }

  /** Every message is stored in order, each right before the answer to it, up to the one whose answer
      failed; with no failure that is all of them. A failure is that of the last answer, whose
      row says so; no other answer failed. */
  lemma {:induction false} MessagesAreTakenInTurn(messages: seq<Parsed>, bot: BotSetup, caps: Capabilities,
                                                  c: Conversation, script: Script, at: nat, now: int, maxAttempts: nat)
    returns (taken: nat)
    requires 0 < maxAttempts && 0 < caps.maxText
    ensures var t := AnswerAll(messages, bot, caps, c, script, at, now, maxAttempts);
            && taken <= |messages| && (t.failure.None? ==> taken == |messages|)
            && c.rows <= t.c.rows && FromCustomer(t.c.rows) == FromCustomer(c.rows) + Texts(messages[..taken])
            && (messages != [] ==> 0 < taken && |c.rows| < |t.c.rows| && t.c.rows[|c.rows|].sender.Customer?)
            && |t.c.rows| <= |c.rows| + 2 * taken && FailsLast(t.c.rows, |c.rows|, t.failure)
            && AnswersFollow(t.c.rows, |c.rows|)
    decreases |messages|
  {
    hide FromCustomer, TurnOn, OneTurn, FailsLast, AnswersFollow, Texts;
    if messages == [] {
      NoTurns(c.rows, messages);
      return 0;
    }
    var t := TurnOn(c, messages[0], bot, caps, script, at, now, maxAttempts);
    TurnEnds(c, bot, messages[0], caps, script, at, now, maxAttempts);
    FirstTurn(c, messages, t);
    if t.failure.Some? { return 1; }
    var k := MessagesAreTakenInTurn(messages[1..], bot, caps, t.c, script, at + t.used, now, maxAttempts);
    var rest := AnswerAll(messages[1..], bot, caps, t.c, script, at + t.used, now, maxAttempts);
    LaterTurns(c, messages, t, rest, k);
    taken := k + 1;
  }

  lemma NoTurns(rows: seq<Row>, messages: seq<Parsed>)
    ensures Texts(messages[..0]) == [] && FailsLast(rows, |rows|, None) && AnswersFollow(rows, |rows|)
  {
  }

  lemma FirstTurn(c: Conversation, messages: seq<Parsed>, t: Turned)
    requires messages != [] && OneTurn(c, messages[0], t)
    ensures c.rows <= t.c.rows && FromCustomer(t.c.rows) == FromCustomer(c.rows) + Texts(messages[..1])
    ensures |c.rows| < |t.c.rows| <= |c.rows| + 2 && t.c.rows[|c.rows|].sender.Customer?
    ensures FailsLast(t.c.rows, |c.rows|, t.failure) && AnswersFollow(t.c.rows, |c.rows|)
  {
    hide FromCustomer;
    assert messages[..1][1..] == [] && Texts(messages[..1]) == [messages[0].envelope.text] + Texts([]);
  }

  /** A turn without a failure, then the rest. */
  lemma LaterTurns(c: Conversation, messages: seq<Parsed>, t: Turned, rest: Turned, k: nat)
    requires messages != [] && k < |messages| && t.failure.None? && c.rows <= t.c.rows <= rest.c.rows
    requires FromCustomer(t.c.rows) == FromCustomer(c.rows) + Texts(messages[..1])
    requires FromCustomer(rest.c.rows) == FromCustomer(t.c.rows) + Texts(messages[1..][..k])
    requires FailsLast(t.c.rows, |c.rows|, None) && FailsLast(rest.c.rows, |t.c.rows|, rest.failure)
    requires AnswersFollow(t.c.rows, |c.rows|) && AnswersFollow(rest.c.rows, |t.c.rows|)
    ensures FromCustomer(rest.c.rows) == FromCustomer(c.rows) + Texts(messages[..k + 1])
    ensures FailsLast(rest.c.rows, |c.rows|, rest.failure) && AnswersFollow(rest.c.rows, |c.rows|)
  {
    hide FromCustomer;
    assert messages[..1][1..] == [] && messages[..k + 1][1..] == messages[1..][..k];
    assert forall i :: 0 <= i < |t.c.rows| ==> rest.c.rows[i] == t.c.rows[i];
  }

  /** What is left of the messages, from number `n` on, completes what the whole list does to a
      line that had done `before` and asked for `start` tokens. */
  ghost predicate Underway(all: Turned, messages: seq<Parsed>, n: nat, bot: BotSetup, caps: Capabilities,
                           c: Conversation, script: Script, now: int, maxAttempts: nat,
                           before: seq<Event>, log: seq<Event>, start: nat, used: nat)
    requires n <= |messages| && 0 < maxAttempts && 0 < caps.maxText
  {
    var rest := AnswerAll(messages[n..], bot, caps, c, script, used, now, maxAttempts);
    all.c == rest.c && before + all.log == log + rest.log && start + all.used == used + rest.used
    && all.failure == rest.failure
  }

  lemma NextMessage(all: Turned, messages: seq<Parsed>, n: nat, bot: BotSetup, caps: Capabilities, c: Conversation,
                    script: Script, now: int, maxAttempts: nat,
                    before: seq<Event>, log: seq<Event>, start: nat, used: nat)
    requires n < |messages| && 0 < maxAttempts && 0 < caps.maxText
    requires Underway(all, messages, n, bot, caps, c, script, now, maxAttempts, before, log, start, used)
    ensures var t := TurnOn(c, messages[n], bot, caps, script, used, now, maxAttempts);
            if t.failure.Some? then
              && all.c == t.c && before + all.log == log + t.log
              && start + all.used == used + t.used && all.failure == t.failure
            else
              Underway(all, messages, n + 1, bot, caps, t.c, script, now, maxAttempts, before, log + t.log, start,
                       used + t.used)
  {
    hide TurnOn;
    assert messages[n..][0] == messages[n] && messages[n..][1..] == messages[n + 1..];
    var t := TurnOn(c, messages[n], bot, caps, script, used, now, maxAttempts);
    var rest := AnswerAll(messages[n + 1..], bot, caps, t.c, script, used + t.used, now, maxAttempts);
    assert log + (t.log + rest.log) == (log + t.log) + rest.log;
  }

  /** The two transactions of one message. */
  method AnswerOne(p: Parsed, bot: BotSetup, caps: Capabilities, conversation: InboxConversation, line: Line, now: int,
                   maxAttempts: nat)
    returns (failure: Option<Reason>)
    requires 0 < maxAttempts && 0 < caps.maxText && Coherent(conversation.Now())
    modifies conversation, line
    ensures Coherent(conversation.Now())
    ensures var t := TurnOn(old(conversation.Now()), p, bot, caps, line.script, old(line.used), now, maxAttempts);
            && conversation.Now() == t.c && line.log == old(line.log) + t.log
            && line.used == old(line.used) + t.used && failure == t.failure
  {
    hide UnderLock, StoreInbound, Reopen, Coherent, SameStanding, SafelyTurned;
    conversation.ReceiveMessage(p.envelope, p.sentAt, now);
    failure := conversation.AnswerUnderLock(bot, p.envelope, p.draft, line, caps, now, now, maxAttempts);
  }

  method Answer(messages: seq<Parsed>, bot: BotSetup, caps: Capabilities, conversation: InboxConversation, line: Line,
                now: int, maxAttempts: nat)
    returns (failure: Option<Reason>)
    requires 0 < maxAttempts && 0 < caps.maxText && Coherent(conversation.Now())
    modifies conversation, line
    ensures Coherent(conversation.Now())
    ensures var t := AnswerAll(messages, bot, caps, old(conversation.Now()), line.script, old(line.used), now,
                               maxAttempts);
            && conversation.Now() == t.c && line.log == old(line.log) + t.log
            && line.used == old(line.used) + t.used && failure == t.failure
  {
    hide TurnOn, AnswerAll, Underway, Coherent;
    ghost var before, start := line.log, line.used;
    ghost var all := AnswerAll(messages, bot, caps, conversation.Now(), line.script, start, now, maxAttempts);
    FirstMessage(all, messages, bot, caps, conversation.Now(), line.script, now, maxAttempts, before, start);
    for n := 0 to |messages|
      invariant Coherent(conversation.Now())
      invariant Underway(all, messages, n, bot, caps, conversation.Now(), line.script, now, maxAttempts, before,
                         line.log, start, line.used)
    {
      NextMessage(all, messages, n, bot, caps, conversation.Now(), line.script, now, maxAttempts, before, line.log,
                  start, line.used);
      failure := AnswerOne(messages[n], bot, caps, conversation, line, now, maxAttempts);
      if failure.Some? { return; }
    }
    NoMessageLeft(all, messages, bot, caps, conversation.Now(), line.script, now, maxAttempts, before, line.log, start,
                  line.used);
    failure := None;
  }

  lemma FirstMessage(all: Turned, messages: seq<Parsed>, bot: BotSetup, caps: Capabilities, c: Conversation,
                     script: Script, now: int, maxAttempts: nat, before: seq<Event>, start: nat)
    requires 0 < maxAttempts && 0 < caps.maxText
    requires all == AnswerAll(messages, bot, caps, c, script, start, now, maxAttempts)
    ensures Underway(all, messages, 0, bot, caps, c, script, now, maxAttempts, before, before, start, start)
  {
    assert messages[0..] == messages;
  }

  lemma NoMessageLeft(all: Turned, messages: seq<Parsed>, bot: BotSetup, caps: Capabilities, c: Conversation,
                      script: Script, now: int, maxAttempts: nat,
                      before: seq<Event>, log: seq<Event>, start: nat, used: nat)
    requires 0 < maxAttempts && 0 < caps.maxText
    requires Underway(all, messages, |messages|, bot, caps, c, script, now, maxAttempts, before, log, start, used)
    ensures all.c == c && log == before + all.log && start + all.used == used && all.failure.None?
  {
    assert log + [] == log;
  }

  class Worker {
    var events: seq<Ingress.Event>
    var failedJobs: seq<FailedJob>

    constructor (events: seq<Ingress.Event>)
      ensures this.events == events && failedJobs == []
    {
      this.events, failedJobs := events, [];
    }

    method MarkProcessed(id: nat)
      requires id < |events|
      modifies this`events
      ensures events == old(events)[id := old(events)[id].(status := Ingress.Processed)]
    {
      events := events[id := events[id].(status := Ingress.Processed)];
    }

    method Fail(id: nat, connection: Option<nat>, error: Reason)
      requires id < |events|
      modifies this
      ensures events == old(events)[id := old(events)[id].(status := Ingress.Failed)]
      ensures failedJobs == old(failedJobs) + [FailedJob(id, connection, error)]
    {
      events := events[id := events[id].(status := Ingress.Failed)];
      failedJobs := failedJobs + [FailedJob(id, connection, error)];
    }

    /** Whoever finds the receipt pending has it; everyone else gets nothing. */
    method Claim(id: nat) returns (claimed: bool)
      modifies this`events
      ensures claimed == (id < |old(events)| && old(events)[id].status.Pending?)
      ensures events == if claimed then old(events)[id := old(events)[id].(status := Ingress.Processing)]
                        else old(events)
    {
      if |events| <= id || !events[id].status.Pending? { return false; }
      events := events[id := events[id].(status := Ingress.Processing)];
      return true;
    }

    /** A receipt that is not pending is a no-op: nothing is stored, said or changed. A pending
        one ends failed with exactly one job, whose error is what was missing or what the last
        dispatch reported; or it ends processed. Nothing is stored or sent for it unless
        everything it needs exists and the delivery holds its update. */
    method RunInbound(id: nat, setup: Setup, parsed: seq<Parsed>, conversation: InboxConversation, line: Line,
                      now: int, maxAttempts: nat)
      requires 0 < maxAttempts && (setup.Ready? ==> 0 < setup.caps.maxText) && Coherent(conversation.Now())
      modifies this, conversation, line
      ensures Coherent(conversation.Now())
      ensures !(id < |old(events)| && old(events)[id].status.Pending?) ==>
                events == old(events) && failedJobs == old(failedJobs)
                && conversation.Now() == old(conversation.Now())
                && line.log == old(line.log) && line.used == old(line.used)
      ensures id < |old(events)| && old(events)[id].status.Pending? ==>
                var messages := Matching(parsed, old(events)[id].key);
                var t := Processing(setup, messages, old(conversation.Now()), line.script, old(line.used), now,
                                    maxAttempts);
                var status := if t.failure.Some? then Ingress.Failed else Ingress.Processed;
                var jobs := if t.failure.Some? then [FailedJob(id, ConnectionOf(setup), t.failure.value)] else [];
                && conversation.Now() == t.c
                && line.log == old(line.log) + t.log && line.used == old(line.used) + t.used
                && events == old(events)[id := old(events)[id].(status := status)]
                && failedJobs == old(failedJobs) + jobs
    {
      var claimed := Claim(id);
      if !claimed { return; }
      hide Matching, AnswerAll, Coherent;
      if setup.NoConnection? {
        Fail(id, None, CONNECTION_GONE);
        return;
      }
      if setup.NoAdapter? {
        Fail(id, Some(setup.connection), setup.error);
        return;
      }
      var messages := Matching(parsed, events[id].key);
      if messages == [] {
        MarkProcessed(id);
        return;
      }
      if setup.NoBot? {
        Fail(id, Some(setup.connection), BOT_GONE);
        return;
      }
      if setup.NoBrand? {
        Fail(id, Some(setup.connection), BRAND_GONE);
        return;
      }
      var failure := Answer(messages, setup.bot, setup.caps, conversation, line, now, maxAttempts);
      if failure.Some? {
        Fail(id, Some(setup.connection), failure.value);
        return;
      }
      MarkProcessed(id);
    }
  }

  /** What processing a claimed receipt leaves; its failure, if any, is that of the receipt. */
  function Processing(setup: Setup, messages: seq<Parsed>, c: Conversation, script: Script, at: nat, now: int,
                      maxAttempts: nat): Turned
    requires 0 < maxAttempts && (setup.Ready? ==> 0 < setup.caps.maxText)
  {
    var why := WhyNot(setup, messages);
    if why.Some? || messages == [] then Turned(c, [], 0, why)
    else AnswerAll(messages, setup.bot, setup.caps, c, script, at, now, maxAttempts)
  }

  /** What stands in a receipt's way, looked up in this order: its connection and the adapter, then,
      if it has a message at all, the bot and the brand. */
  lemma LookedUpInOrder(setup: Setup, messages: seq<Parsed>)
    ensures setup.NoConnection? ==> WhyNot(setup, messages) == Some(CONNECTION_GONE)
    ensures setup.NoAdapter? ==> WhyNot(setup, messages) == Some(setup.error)
    ensures messages == [] && !setup.NoConnection? && !setup.NoAdapter? ==> WhyNot(setup, messages) == None
    ensures messages != [] && setup.NoBot? ==> WhyNot(setup, messages) == Some(BOT_GONE)
    ensures messages != [] && setup.NoBrand? ==> WhyNot(setup, messages) == Some(BRAND_GONE)
    ensures setup.Ready? ==> WhyNot(setup, messages) == None
    ensures ConnectionOf(setup) == None <==> setup.NoConnection?
    ensures ConnectionOf(setup).Some? ==> ConnectionOf(setup).value == setup.connection
  {
  }

  /** A receipt fails exactly when something it needs is missing or its last answer was not
      delivered; a receipt without a message fails only for want of a connection or adapter;
      and whatever is missing, nothing is stored or sent. */
  lemma FailsExactly(setup: Setup, messages: seq<Parsed>, c: Conversation, script: Script, at: nat, now: int,
                     maxAttempts: nat)
    requires 0 < maxAttempts && (setup.Ready? ==> 0 < setup.caps.maxText)
    ensures var t := Processing(setup, messages, c, script, at, now, maxAttempts);
            var n := |t.c.rows|;
            && (t.failure.Some? <==>
                  WhyNot(setup, messages).Some? || (|c.rows| < n && t.c.rows[n - 1].delivery.Failed?))
            && (t.failure.Some? && WhyNot(setup, messages).None? ==>
                  t.c.rows[n - 1].sender.Bot? && t.c.rows[n - 1].error == t.failure)
            && (WhyNot(setup, messages).Some? ==> t.failure == WhyNot(setup, messages))
            && (WhyNot(setup, messages).Some? || messages == [] ==> t.c == c && t.log == [] && t.used == 0)
            && (messages == [] ==> (t.failure.Some? <==> setup.NoConnection? || setup.NoAdapter?))
            && (WhyNot(setup, messages).None? && messages != [] ==>
                  |c.rows| < n && t.c.rows[|c.rows|].sender.Customer?)
  {
    hide AnswerAll;
    if WhyNot(setup, messages).None? && messages != [] {
      var taken := MessagesAreTakenInTurn(messages, setup.bot, setup.caps, c, script, at, now, maxAttempts);
    }
  }
}
