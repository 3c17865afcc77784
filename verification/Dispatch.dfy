/** Outbound dispatch of a text draft: chunks, one rate-limit token per attempt, retries with
    backoff, and the row that records it. */
module Dispatch {
  import opened Options
  import opened Text
  import opened Messages
  import opened Chunking

  /** One delivery attempt's answer; a rejection carries its error. */
  datatype SendResult = Delivered(id: Option<string>) | Rejected(error: Reason, retryable: bool)

  /** What the limiter and the channel will do at one attempt: refuse the token, or grant it
      and answer the send. A script fixes this for every attempt to come. */
  datatype Attempt = Denied | Granted(answer: SendResult)
  type Script = nat -> Attempt

  datatype Event = Acquired(granted: bool) | Tried(text: string, answer: SendResult) | Slept(halfSeconds: nat)

  const RATE_EXHAUSTED: Reason := "outbound rate limit exhausted"

  function Pow2(n: nat): nat {
    if n == 0 then 1 else 2 * Pow2(n - 1)
  }

  /** The rate limiter and the channel adapter of one connection, with everything they did. */
  class Line {
    const script: Script
    var used: nat
    var log: seq<Event>

    constructor (script: Script)
      ensures this.script == script && used == 0 && log == []
    {
      this.script := script;
      used, log := 0, [];
    }

    method Acquire() returns (granted: bool)
      modifies this
      ensures granted == script(old(used)).Granted? && used == old(used) + 1 && log == old(log) + [Acquired(granted)]
    {
      granted := script(used).Granted?;
      used, log := used + 1, log + [Acquired(granted)];
    }

    /** The adapter's send; it takes the token just granted. */
    method Send(text: string) returns (answer: SendResult)
      requires 0 < used && script(used - 1).Granted?
      modifies this`log
      ensures answer == script(used - 1).answer && log == old(log) + [Tried(text, answer)]
    {
      answer := script(used - 1).answer;
      log := log + [Tried(text, answer)];
    }

    method Sleep(halfSeconds: nat)
      modifies this`log
      ensures log == old(log) + [Slept(halfSeconds)]
    {
      log := log + [Slept(halfSeconds)];
    }
  }

  /** What sending one chunk does from its attempt number `attempt` on: the events, how many
      tokens were asked for, and the last answer. */
  datatype Sending = Sending(log: seq<Event>, used: nat, last: SendResult)

  function SendFrom(text: string, script: Script, at: nat, attempt: nat, maxAttempts: nat): Sending
    requires attempt < maxAttempts
    decreases maxAttempts - attempt
  {
    match script(at)
    case Denied => Sending([Acquired(false)], 1, Rejected(RATE_EXHAUSTED, true))
    case Granted(answer) =>
      var first := [Acquired(true), Tried(text, answer)];
      if answer.Delivered? || !answer.retryable || attempt + 1 == maxAttempts then Sending(first, 1, answer)
      else
        var rest := SendFrom(text, script, at + 1, attempt + 1, maxAttempts);
        Sending(first + [Slept(Pow2(attempt))] + rest.log, 1 + rest.used, rest.last)
  }

  method SendWithRetry(line: Line, text: string, maxAttempts: nat) returns (last: SendResult)
    requires 0 < maxAttempts
    modifies line
    ensures var s := SendFrom(text, line.script, old(line.used), 0, maxAttempts);
            line.log == old(line.log) + s.log && line.used == old(line.used) + s.used && last == s.last
  {
    hide Pow2;
    ghost var all := SendFrom(text, line.script, line.used, 0, maxAttempts);
    ghost var before, start := line.log, line.used;
    last := Rejected(RATE_EXHAUSTED, true);
    for attempt := 0 to maxAttempts
      invariant attempt < maxAttempts ==>
        var s := SendFrom(text, line.script, line.used, attempt, maxAttempts);
        line.log + s.log == before + all.log && line.used + s.used == start + all.used && s.last == all.last
      invariant attempt == maxAttempts ==>
        line.log == before + all.log && line.used == start + all.used && last == all.last
    {
      ghost var soFar := line.log;
      var granted := line.Acquire();
      if !granted { return Rejected(RATE_EXHAUSTED, true); }
      last := line.Send(text);
      assert line.log == soFar + [Acquired(true), Tried(text, last)];
      if last.Delivered? || !last.retryable { return; }
      if attempt < maxAttempts - 1 {
        line.Sleep(Pow2(attempt));
        ghost var rest := SendFrom(text, line.script, line.used, attempt + 1, maxAttempts);
        assert soFar + ([Acquired(true), Tried(text, last)] + [Slept(Pow2(attempt))] + rest.log) == line.log + rest.log;
      }
    }
  }

  /** What sending a list of chunks does: it stops at the first chunk that is not delivered. */
  datatype Batch = Batch(log: seq<Event>, used: nat, results: seq<SendResult>)

  function SendAll(pieces: seq<string>, script: Script, at: nat, maxAttempts: nat): Batch
    requires 0 < maxAttempts
  {
    if pieces == [] then Batch([], 0, [])
    else
      var s := SendFrom(pieces[0], script, at, 0, maxAttempts);
      if s.last.Rejected? then Batch(s.log, s.used, [s.last])
      else
        var rest := SendAll(pieces[1..], script, at + s.used, maxAttempts);
        Batch(s.log + rest.log, s.used + rest.used, [s.last] + rest.results)
  }

  datatype Capabilities = Capabilities(supportsMedia: bool, maxText: nat, sessionWindow: Option<int>,
                                       requiresTemplate: bool)

  datatype Outcome = Outcome(sent: seq<SendResult>, escalated: Option<Reason>, failure: Option<Reason>)

  const NO_MEDIA: Reason := "the channel carries no media"
  const WINDOW_CLOSED: Reason := "the session window has closed"

  predicate WindowIsClosed(caps: Capabilities, lastInboundAt: Option<int>, now: int) {
    caps.sessionWindow.Some? && (lastInboundAt.None? || now - lastInboundAt.value > caps.sessionWindow.value)
  }

  /** Why a draft is not sent at all, if it is not. */
  function Refusal(caps: Capabilities, draft: Draft, lastInboundAt: Option<int>, now: int): Option<Reason> {
    if draft.Escalate? then Some(draft.reason)
    else if 0 < draft.attachments && !caps.supportsMedia then Some(NO_MEDIA)
    else if WindowIsClosed(caps, lastInboundAt, now) && caps.requiresTemplate then Some(WINDOW_CLOSED)
    else None
  }

  function Pieces(caps: Capabilities, draft: Draft): seq<string>
    requires draft.Reply? && 0 < caps.maxText
  {
    Chunks(Trim(if draft.text.Some? then draft.text.value else ""), 0, caps.maxText)
  }

  /** What dispatching a draft does: the line's events, the tokens it asks for, the outcome. */
  datatype Dispatched = Dispatched(log: seq<Event>, used: nat, outcome: Outcome)

  function Dispatching(caps: Capabilities, draft: Draft, lastInboundAt: Option<int>, now: int,
                       script: Script, at: nat, maxAttempts: nat): Dispatched
    requires 0 < caps.maxText && 0 < maxAttempts
  {
    var refusal := Refusal(caps, draft, lastInboundAt, now);
    if refusal.Some? then Dispatched([], 0, Outcome([], refusal, None))
    else
      var b := SendAll(Pieces(caps, draft), script, at, maxAttempts);
      Dispatched(b.log, b.used, Outcome(b.results, None, FailureOf(b.results)))
  }

  /** The pieces of a reply are the slices of its text, without the whitespace around it, in
      order, each trimmed and within the channel's limit. */
  lemma PiecesCarryTheText(caps: Capabilities, draft: Draft) returns (spans: seq<Span>)
    requires draft.Reply? && 0 < caps.maxText
    ensures var pieces := Pieces(caps, draft);
            && (draft.text.None? ==> pieces == [])
            && (draft.text.Some? ==> SlicesInOrder(Trim(draft.text.value), 0, spans, pieces))
            && forall p :: p in pieces ==> IsTrimmed(p) && 1 <= |p| <= caps.maxText
  {
    hide Chunks;
    var text := if draft.text.Some? then draft.text.value else "";
    var t := Trim(text);
    TrimTrims(text);
    NoPieces(caps.maxText);
    spans := ChunksAreSlices(t, 0, 0, caps.maxText);
    ChunksFit(t, 0, caps.maxText);
  }

  lemma NoPieces(limit: nat)
    requires 0 < limit
    ensures Chunks(Trim(""), 0, limit) == []
  {
  }

  /** A draft is left to a person exactly when the brain says so, when it has attachments the channel
      cannot carry, or when the channel wants a template because the customer has not written
      within its session window. */
  lemma RefusedExactly(caps: Capabilities, draft: Draft, lastInboundAt: Option<int>, now: int)
    ensures var refusal := Refusal(caps, draft, lastInboundAt, now);
            var wroteInTime := caps.sessionWindow.Some? ==>
                                 exists t :: lastInboundAt == Some(t) && now <= t + caps.sessionWindow.value;
            var media := draft.Reply? && draft.attachments != 0 && !caps.supportsMedia;
            && (refusal.Some? <==> draft.Escalate? || media || (caps.requiresTemplate && !wroteInTime))
            && (draft.Escalate? ==> refusal == Some(draft.reason))
            && (media ==> refusal == Some(NO_MEDIA))
            && (refusal.Some? && draft.Reply? && !media ==> refusal == Some(WINDOW_CLOSED))
  {
    if lastInboundAt.Some? { assert lastInboundAt == Some(lastInboundAt.value); }
  }

  /** Drafts within the channel's limits go out in order; the rest is left to a person. */
  method DispatchDraft(line: Line, caps: Capabilities, draft: Draft, lastInboundAt: Option<int>, now: int,
                       maxAttempts: nat)
    returns (outcome: Outcome)
    requires 0 < caps.maxText && 0 < maxAttempts
    modifies line
    ensures var d := Dispatching(caps, draft, lastInboundAt, now, line.script, old(line.used), maxAttempts);
            outcome == d.outcome && line.log == old(line.log) + d.log && line.used == old(line.used) + d.used
    ensures outcome.escalated == Refusal(caps, draft, lastInboundAt, now)
    ensures outcome.escalated.Some? ==> line.log == old(line.log) && outcome.failure.None?
  {
    hide Chunks, Trim, SendAll, AllSent;
    if draft.Escalate? { return Outcome([], Some(draft.reason), None); }
    if 0 < draft.attachments && !caps.supportsMedia { return Outcome([], Some(NO_MEDIA), None); }
    if WindowIsClosed(caps, lastInboundAt, now) {
      if caps.requiresTemplate { return Outcome([], Some(WINDOW_CLOSED), None); }
    }
    var pieces := ChunkText(if draft.text.Some? then draft.text.value else "", caps.maxText);
    var results: seq<SendResult> := [];
    ghost var before, start := line.log, line.used;
    StartSending(pieces, line.script, start, maxAttempts, before);
    for n := 0 to |pieces|
      invariant AllSent(pieces, line.script, start, maxAttempts, before, n, line.log, line.used, results)
    {
      NextSending(pieces, line.script, start, maxAttempts, before, n, line.log, line.used, results);
      var result := SendWithRetry(line, pieces[n], maxAttempts);
      results := results + [result];
      if result.Rejected? {
        return Outcome(results, None, Some(result.error));
      }
    }
    EndSending(pieces, line.script, start, maxAttempts, before, line.log, line.used, results);
    return Outcome(results, None, None);
  }

  /** The first `n` pieces were all delivered, and this is what is on record. */
  ghost predicate AllSent(pieces: seq<string>, script: Script, start: nat, maxAttempts: nat, before: seq<Event>,
                          n: nat, log: seq<Event>, used: nat, results: seq<SendResult>)
    requires 0 < maxAttempts && n <= |pieces|
  {
    var all, rest := SendAll(pieces, script, start, maxAttempts), SendAll(pieces[n..], script, used, maxAttempts);
    && log + rest.log == before + all.log && used + rest.used == start + all.used
    && results + rest.results == all.results
    && (results == [] || results[|results| - 1].Delivered?)
  }

  lemma StartSending(pieces: seq<string>, script: Script, start: nat, maxAttempts: nat, before: seq<Event>)
    requires 0 < maxAttempts
    ensures AllSent(pieces, script, start, maxAttempts, before, 0, before, start, [])
  {
    assert pieces[0..] == pieces;
  }

  lemma NextSending(pieces: seq<string>, script: Script, start: nat, maxAttempts: nat, before: seq<Event>,
                    n: nat, log: seq<Event>, used: nat, results: seq<SendResult>)
    requires 0 < maxAttempts && n < |pieces|
    requires AllSent(pieces, script, start, maxAttempts, before, n, log, used, results)
    ensures var s := SendFrom(pieces[n], script, used, 0, maxAttempts);
            if s.last.Delivered? then
              AllSent(pieces, script, start, maxAttempts, before, n + 1, log + s.log, used + s.used, results + [s.last])
            else
              var all := SendAll(pieces, script, start, maxAttempts);
              && log + s.log == before + all.log && used + s.used == start + all.used
              && results + [s.last] == all.results
              && FailureOf(all.results) == Some(s.last.error)
  {
    hide SendFrom;
    var s := SendFrom(pieces[n], script, used, 0, maxAttempts);
    assert pieces[n..][0] == pieces[n] && pieces[n..][1..] == pieces[n + 1..];
    var rest := SendAll(pieces[n + 1..], script, used + s.used, maxAttempts);
    assert log + (s.log + rest.log) == (log + s.log) + rest.log;
    assert results + ([s.last] + rest.results) == (results + [s.last]) + rest.results;
  }

  lemma EndSending(pieces: seq<string>, script: Script, start: nat, maxAttempts: nat, before: seq<Event>,
                   log: seq<Event>, used: nat, results: seq<SendResult>)
    requires 0 < maxAttempts
    requires AllSent(pieces, script, start, maxAttempts, before, |pieces|, log, used, results)
    ensures var all := SendAll(pieces, script, start, maxAttempts);
            log == before + all.log && used == start + all.used && results == all.results && FailureOf(results).None?
  {
    assert pieces[|pieces|..] == [];
    assert log + [] == log && results + [] == results;
  }

  /** The error of the last result, when it is a rejection. */
  function FailureOf(results: seq<SendResult>): Option<Reason> {
    if results != [] && results[|results| - 1].Rejected? then Some(results[|results| - 1].error) else None
  }

  // ----- what the customer sees -----

  /** The texts the channel accepted, in order. */
  function Accepted(log: seq<Event>): seq<string> {
    if log == [] then []
    else
      var last := log[|log| - 1];
      Accepted(log[..|log| - 1]) + if last.Tried? && last.answer.Delivered? then [last.text] else []
  }

  lemma {:induction false} AcceptedAppend(a: seq<Event>, b: seq<Event>)
    ensures Accepted(a + b) == Accepted(a) + Accepted(b)
  {
    if b == [] {
      assert a + b == a;
    } else {
      var c, n := a + b, |b| - 1;
      assert c[..|c| - 1] == a + b[..n] && c[|c| - 1] == b[n];
      AcceptedAppend(a, b[..n]);
    }
  }

  lemma AcceptedOfAttempt(text: string, answer: SendResult, more: seq<Event>)
    requires more == [] || exists h :: more == [Slept(h)]
    ensures Accepted([Acquired(true), Tried(text, answer)] + more) == if answer.Delivered? then [text] else []
  {
    var first := [Acquired(true), Tried(text, answer)];
    assert first[..1] == [Acquired(true)] && [Acquired(true)][..0] == [];
    AcceptedAppend(first, more);
    if more != [] { assert more[..0] == []; }
  }

  lemma {:induction false} SendFromAccepts(text: string, script: Script, at: nat, attempt: nat, maxAttempts: nat)
    requires attempt < maxAttempts
    ensures var s := SendFrom(text, script, at, attempt, maxAttempts);
            Accepted(s.log) == if s.last.Delivered? then [text] else []
    decreases maxAttempts - attempt
  {
    hide Accepted;
    if script(at).Granted? {
      var answer := script(at).answer;
      if answer.Rejected? && answer.retryable && attempt + 1 < maxAttempts {
        var rest := SendFrom(text, script, at + 1, attempt + 1, maxAttempts);
        SendFromAccepts(text, script, at + 1, attempt + 1, maxAttempts);
        AcceptedOfAttempt(text, answer, [Slept(Pow2(attempt))]);
        AcceptedAppend([Acquired(true), Tried(text, answer)] + [Slept(Pow2(attempt))], rest.log);
      } else {
        AcceptedOfAttempt(text, answer, []);
        assert [Acquired(true), Tried(text, answer)] + [] == [Acquired(true), Tried(text, answer)];
      }
    } else {
      AcceptedNone();
    }
  }

  lemma AcceptedNone()
    ensures Accepted([Acquired(false)]) == []
  {
    assert [Acquired(false)][..0] == [];
  }

  /** The accepted texts are a prefix of the chunks: all of them when the last result is no
      rejection, a proper prefix when it is one. */
  predicate PrefixAccepted(accepted: seq<string>, results: seq<SendResult>, pieces: seq<string>) {
    accepted <= pieces && (FailureOf(results).None? <==> accepted == pieces)
  }

  lemma PrefixGrows(first: SendResult, accepted: seq<string>, results: seq<SendResult>, pieces: seq<string>)
    requires first.Delivered? && pieces != [] && PrefixAccepted(accepted, results, pieces[1..])
    ensures PrefixAccepted([pieces[0]] + accepted, [first] + results, pieces)
  {
    assert pieces == [pieces[0]] + pieces[1..];
    assert ([pieces[0]] + accepted)[1..] == accepted;
  }

  lemma UnfoldSendAll(pieces: seq<string>, script: Script, at: nat, maxAttempts: nat)
    requires 0 < maxAttempts && pieces != []
    ensures var s, b := SendFrom(pieces[0], script, at, 0, maxAttempts), SendAll(pieces, script, at, maxAttempts);
            b.log == if s.last.Rejected? then s.log
                     else s.log + SendAll(pieces[1..], script, at + s.used, maxAttempts).log
  {
  }

  lemma SendAllStep(pieces: seq<string>, script: Script, at: nat, maxAttempts: nat)
    requires 0 < maxAttempts && pieces != []
    ensures var s, b := SendFrom(pieces[0], script, at, 0, maxAttempts), SendAll(pieces, script, at, maxAttempts);
            if s.last.Rejected? then Accepted(b.log) == [] && b.results == [s.last]
            else
              var rest := SendAll(pieces[1..], script, at + s.used, maxAttempts);
              Accepted(b.log) == [pieces[0]] + Accepted(rest.log) && b.results == [s.last] + rest.results
  {
    hide SendFrom, Accepted;
    var s := SendFrom(pieces[0], script, at, 0, maxAttempts);
    SendFromAccepts(pieces[0], script, at, 0, maxAttempts);
    AcceptedAppend(s.log, SendAll(pieces[1..], script, at + s.used, maxAttempts).log);
  }

  lemma NothingIsAPrefix(script: Script, at: nat, maxAttempts: nat)
    requires 0 < maxAttempts
    ensures var b := SendAll([], script, at, maxAttempts); PrefixAccepted(Accepted(b.log), b.results, [])
  {
  }

  lemma NoneIsAPrefix(first: SendResult, pieces: seq<string>)
    requires first.Rejected? && pieces != []
    ensures PrefixAccepted([], [first], pieces)
  {
  }

  lemma {:induction false} AcceptedIsAPrefix(pieces: seq<string>, script: Script, at: nat, maxAttempts: nat)
    requires 0 < maxAttempts
    ensures var b := SendAll(pieces, script, at, maxAttempts);
            PrefixAccepted(Accepted(b.log), b.results, pieces)
  {
    hide SendFrom, Accepted, SendAll, PrefixAccepted;
    if pieces == [] {
      NothingIsAPrefix(script, at, maxAttempts);
    } else {
      var s := SendFrom(pieces[0], script, at, 0, maxAttempts);
      SendAllStep(pieces, script, at, maxAttempts);
      if s.last.Rejected? {
        NoneIsAPrefix(s.last, pieces);
      } else {
        var rest := SendAll(pieces[1..], script, at + s.used, maxAttempts);
        AcceptedIsAPrefix(pieces[1..], script, at + s.used, maxAttempts);
        PrefixGrows(s.last, Accepted(rest.log), rest.results, pieces);
      }
    }
  }

  /** Where each chunk's attempts begin: right after those of the chunk before. */
  predicate OneAfterAnother(pieces: seq<string>, script: Script, starts: seq<nat>, maxAttempts: nat)
    requires 0 < maxAttempts && |starts| <= |pieces|
  {
    forall i :: 0 < i < |starts| ==>
      starts[i] == starts[i - 1] + SendFrom(pieces[i - 1], script, starts[i - 1], 0, maxAttempts).used
  }

  /** Each result is its chunk's own, all but the last are deliveries, and a chunk without a result
      comes after a rejection. */
  predicate OwnResults(pieces: seq<string>, script: Script, starts: seq<nat>, maxAttempts: nat,
                       results: seq<SendResult>)
    requires 0 < maxAttempts && |starts| == |results| <= |pieces|
  {
    && (forall i :: 0 <= i < |starts| ==> results[i] == SendFrom(pieces[i], script, starts[i], 0, maxAttempts).last)
    && (forall i :: 0 <= i < |starts| - 1 ==> results[i].Delivered?)
    && (|starts| < |pieces| ==> starts != [] && results[|starts| - 1].Rejected?)
  }

  lemma FirstOfMany(pieces: seq<string>, script: Script, at: nat, starts: seq<nat>, maxAttempts: nat,
                    results: seq<SendResult>)
    requires 0 < maxAttempts && pieces != [] && |starts| == |results| <= |pieces| - 1
    requires var s := SendFrom(pieces[0], script, at, 0, maxAttempts);
             s.last.Delivered? && (starts != [] ==> starts[0] == at + s.used)
    requires OneAfterAnother(pieces[1..], script, starts, maxAttempts)
    requires OwnResults(pieces[1..], script, starts, maxAttempts, results)
    ensures var s := SendFrom(pieces[0], script, at, 0, maxAttempts);
            && OneAfterAnother(pieces, script, [at] + starts, maxAttempts)
            && OwnResults(pieces, script, [at] + starts, maxAttempts, [s.last] + results)
  {
    hide SendFrom, OwnResults;
    var all := [at] + starts;
    assert forall i :: 0 < i < |all| ==> all[i] == starts[i - 1] && pieces[i] == pieces[1..][i - 1];
    FirstResult(pieces, script, at, starts, maxAttempts, results);
  }

  lemma FirstResult(pieces: seq<string>, script: Script, at: nat, starts: seq<nat>, maxAttempts: nat,
                    results: seq<SendResult>)
    requires 0 < maxAttempts && pieces != [] && |starts| == |results| <= |pieces| - 1
    requires SendFrom(pieces[0], script, at, 0, maxAttempts).last.Delivered?
    requires OwnResults(pieces[1..], script, starts, maxAttempts, results)
    ensures OwnResults(pieces, script, [at] + starts, maxAttempts,
                       [SendFrom(pieces[0], script, at, 0, maxAttempts).last] + results)
  {
    hide SendFrom;
    var all := [at] + starts;
    assert forall i :: 0 < i < |all| ==> all[i] == starts[i - 1] && pieces[i] == pieces[1..][i - 1];
  }

  /** A draft's chunks are sent one after another, each as `SendFrom` says, until one is not
      delivered; the results are theirs, in order. */
  lemma {:induction false} ChunksAreSentInTurn(pieces: seq<string>, script: Script, at: nat, maxAttempts: nat)
    returns (starts: seq<nat>)
    requires 0 < maxAttempts
    ensures var b := SendAll(pieces, script, at, maxAttempts);
            && |starts| == |b.results| <= |pieces| && (starts != [] ==> starts[0] == at)
            && OneAfterAnother(pieces, script, starts, maxAttempts)
            && OwnResults(pieces, script, starts, maxAttempts, b.results)
  {
    hide SendFrom, Accepted;
    if pieces == [] {
      starts := [];
    } else {
      var s := SendFrom(pieces[0], script, at, 0, maxAttempts);
      starts := [at];
      if s.last.Delivered? {
        var rest := ChunksAreSentInTurn(pieces[1..], script, at + s.used, maxAttempts);
        var more := SendAll(pieces[1..], script, at + s.used, maxAttempts);
        FirstOfMany(pieces, script, at, rest, maxAttempts, more.results);
        starts := [at] + rest;
      }
    }
  }

  // ----- tokens, attempts, backoff -----

  predicate IsPermanent(e: Event) {
    e.Tried? && e.answer.Rejected? && !e.answer.retryable
  }

  predicate NonePermanent(log: seq<Event>) {
    forall i :: 0 <= i < |log| ==> !IsPermanent(log[i])
  }

  /** Every send comes right after a token granted for it, and a rejection for good is the last
      thing that happens. */
  predicate Orderly(log: seq<Event>) {
    && (forall i :: 0 <= i < |log| && log[i].Tried? ==> 0 < i && log[i - 1] == Acquired(true))
    && (forall i :: 0 <= i < |log| && IsPermanent(log[i]) ==> i == |log| - 1)
  }

  lemma OrderlyAppend(a: seq<Event>, b: seq<Event>)
    requires Orderly(a) && NonePermanent(a) && Orderly(b)
    ensures Orderly(a + b) && (NonePermanent(b) ==> NonePermanent(a + b))
  {
    var c := a + b;
    assert forall i :: 0 <= i < |a| ==> c[i] == a[i];
    assert forall i :: |a| <= i < |c| ==> c[i] == b[i - |a|];
  }

  function Tries(log: seq<Event>): nat {
    if log == [] then 0 else Tries(log[..|log| - 1]) + if log[|log| - 1].Tried? then 1 else 0
  }

  lemma {:induction false} TriesAppend(a: seq<Event>, b: seq<Event>)
    ensures Tries(a + b) == Tries(a) + Tries(b)
  {
    if b == [] {
      assert a + b == a;
    } else {
      var c, n := a + b, |b| - 1;
      assert c[..|c| - 1] == a + b[..n] && c[|c| - 1] == b[n];
      TriesAppend(a, b[..n]);
    }
  }

  lemma TriesOfAttempt(text: string, answer: SendResult)
    ensures Tries([Acquired(true), Tried(text, answer)]) == 1
    ensures forall h :: Tries([Slept(h)]) == 0
    ensures Tries([Acquired(false)]) == 0
  {
    assert [Acquired(true), Tried(text, answer)][..1] == [Acquired(true)] && [Acquired(true)][..0] == [];
    assert forall h :: [Slept(h)][..0] == [];
    assert [Acquired(false)][..0] == [];
  }

  lemma OneAttempt(text: string, answer: SendResult, halfSeconds: nat)
    ensures var first := [Acquired(true), Tried(text, answer)];
            && Tries(first) == 1 && Tries(first + [Slept(halfSeconds)]) == 1
            && Orderly(first) && (answer.Delivered? || answer.retryable ==> NonePermanent(first))
            && (answer.Rejected? && answer.retryable ==>
                  Orderly(first + [Slept(halfSeconds)]) && NonePermanent(first + [Slept(halfSeconds)]))
  {
    TriesOfAttempt(text, answer);
    TriesAppend([Acquired(true), Tried(text, answer)], [Slept(halfSeconds)]);
  }

  /** One chunk is tried at most `maxAttempts` times, each send on its own granted token, and
      not again once the channel has refused for good. */
  lemma {:induction false} ChunkAttempts(text: string, script: Script, at: nat, attempt: nat, maxAttempts: nat)
    requires attempt < maxAttempts
    ensures var s := SendFrom(text, script, at, attempt, maxAttempts);
            && Orderly(s.log) && (s.last.Delivered? || s.last.retryable ==> NonePermanent(s.log))
            && Tries(s.log) <= maxAttempts - attempt
    decreases maxAttempts - attempt
  {
    hide Tries, Orderly, NonePermanent, Pow2;
    NoTokenNoTry();
    if script(at).Granted? {
      var answer := script(at).answer;
      var first, pause := [Acquired(true), Tried(text, answer)], [Slept(Pow2(attempt))];
      OneAttempt(text, answer, Pow2(attempt));
      if answer.Rejected? && answer.retryable && attempt + 1 < maxAttempts {
        var rest := SendFrom(text, script, at + 1, attempt + 1, maxAttempts);
        ChunkAttempts(text, script, at + 1, attempt + 1, maxAttempts);
        OrderlyAppend(first + pause, rest.log);
        TriesAppend(first + pause, rest.log);
      }
    }
  }

  lemma NoTokenNoTry()
    ensures Tries([Acquired(false)]) == 0 && Orderly([Acquired(false)]) && NonePermanent([Acquired(false)])
  {
    TriesOfAttempt("", Delivered(None));
  }

  lemma NothingSent(script: Script, at: nat, maxAttempts: nat)
    requires 0 < maxAttempts
    ensures Orderly(SendAll([], script, at, maxAttempts).log)
  {
  }

  /** The attempt gets a token and is answered that the channel is busy. */
  predicate IsBusy(a: Attempt) {
    a.Granted? && a.answer.Rejected? && a.answer.retryable
  }

  /** One chunk is tried again exactly as long as the channel is busy and attempts are left: every
      attempt before the last is busy, and the last one is refused its token, is answered
      otherwise, or is the `maxAttempts`th. Its answer is the chunk's, and each attempt asks for
      one token. */
  lemma {:induction false} RetriesExactlyWhileBusy(text: string, script: Script, at: nat, attempt: nat,
                                                   maxAttempts: nat)
    returns (n: nat)
    requires attempt < maxAttempts
    ensures attempt + n < maxAttempts
    ensures forall k :: at <= k < at + n ==> IsBusy(script(k))
    ensures !IsBusy(script(at + n)) || attempt + n + 1 == maxAttempts
    ensures var s, last := SendFrom(text, script, at, attempt, maxAttempts), script(at + n);
            && s.used == n + 1 && Tries(s.log) == n + (if last.Granted? then 1 else 0)
            && s.last == (if last.Granted? then last.answer else Rejected(RATE_EXHAUSTED, true))
            && s.log != [] && (last.Denied? <==> s.log[|s.log| - 1] == Acquired(false))
    decreases maxAttempts - attempt
  {
    hide Tries, Pow2;
    NoTokenNoTry();
    if script(at).Granted? { TriesOfAttempt(text, script(at).answer); }
    if IsBusy(script(at)) && attempt + 1 < maxAttempts {
      var answer := script(at).answer;
      var first := [Acquired(true), Tried(text, answer)] + [Slept(Pow2(attempt))];
      var rest := SendFrom(text, script, at + 1, attempt + 1, maxAttempts);
      var m := RetriesExactlyWhileBusy(text, script, at + 1, attempt + 1, maxAttempts);
      n := m + 1;
      TriesAppend([Acquired(true), Tried(text, answer)], [Slept(Pow2(attempt))]);
      TriesAppend(first, rest.log);
      LastOf(first, rest.log);
    } else {
      n := 0;
    }
  }

  /** Attempt `k` is delivered and all before it were busy. */
  predicate DeliversAt(script: Script, at: nat, k: nat) {
    && script(at + k).Granted? && script(at + k).answer.Delivered?
    && forall j :: at <= j < at + k ==> IsBusy(script(j))
  }

  /** A chunk is delivered exactly when some attempt within the limit is, after busy ones only; and
      one that the channel was too busy for was given every attempt, unless the tokens ran out. */
  lemma DeliversExactly(text: string, script: Script, at: nat, maxAttempts: nat)
    requires 0 < maxAttempts
    ensures var s := SendFrom(text, script, at, 0, maxAttempts);
            && (s.last.Delivered? <==> exists k: nat :: k < maxAttempts && DeliversAt(script, at, k))
            && (s.last.Rejected? && s.last.retryable ==>
                  s.log != [] && (s.log[|s.log| - 1] == Acquired(false) || Tries(s.log) == maxAttempts))
  {
    hide SendFrom, Tries;
    var n := RetriesExactlyWhileBusy(text, script, at, 0, maxAttempts);
    var s, final := SendFrom(text, script, at, 0, maxAttempts), script(at + n);
    if s.last.Delivered? { assert DeliversAt(script, at, n); }
    if k: nat :| k < maxAttempts && DeliversAt(script, at, k) {
      var answered := script(at + k);
      assert n < k ==> IsBusy(final);
      assert k < n ==> IsBusy(answered);
    }
  }

  /** The same over a whole draft: nothing at all is sent after a refusal for good. */
  lemma {:induction false} DraftAttempts(pieces: seq<string>, script: Script, at: nat, maxAttempts: nat)
    requires 0 < maxAttempts
    ensures Orderly(SendAll(pieces, script, at, maxAttempts).log)
  {
    hide SendFrom, Orderly, NonePermanent, Tries, SendAll;
    if pieces == [] {
      NothingSent(script, at, maxAttempts);
    } else {
      var s := SendFrom(pieces[0], script, at, 0, maxAttempts);
      var rest := SendAll(pieces[1..], script, at + s.used, maxAttempts);
      UnfoldSendAll(pieces, script, at, maxAttempts);
      ChunkAttempts(pieces[0], script, at, 0, maxAttempts);
      if s.last.Delivered? {
        DraftAttempts(pieces[1..], script, at + s.used, maxAttempts);
        OrderlyAppend(s.log, rest.log);
        assert SendAll(pieces, script, at, maxAttempts).log == s.log + rest.log;
      } else {
        assert SendAll(pieces, script, at, maxAttempts).log == s.log;
      }
    }
  }

  /** The pauses taken, in order. */
  function Waits(log: seq<Event>): seq<nat> {
    if log == [] then []
    else
      var last := log[|log| - 1];
      Waits(log[..|log| - 1]) + if last.Slept? then [last.halfSeconds] else []
  }

  lemma {:induction false} WaitsAppend(a: seq<Event>, b: seq<Event>)
    ensures Waits(a + b) == Waits(a) + Waits(b)
  {
    if b == [] {
      assert a + b == a;
    } else {
      var c, n := a + b, |b| - 1;
      assert c[..|c| - 1] == a + b[..n] && c[|c| - 1] == b[n];
      WaitsAppend(a, b[..n]);
    }
  }

  lemma WaitsOfAttempt(text: string, answer: SendResult, halfSeconds: nat)
    ensures var first := [Acquired(true), Tried(text, answer)];
            Waits([Acquired(false)]) == [] && Waits(first) == [] && Waits(first + [Slept(halfSeconds)]) == [halfSeconds]
  {
    var first := [Acquired(true), Tried(text, answer)];
    assert [Acquired(false)][..0] == [];
    assert first[..1] == [Acquired(true)] && [Acquired(true)][..0] == [];
    assert (first + [Slept(halfSeconds)])[..2] == first;
  }

  /** Each pause is twice the one before. */
  predicate Doubling(waits: seq<nat>, attempt: nat) {
    forall i :: 0 <= i < |waits| ==> waits[i] == Pow2(attempt + i)
  }

  /** The first pause is half a second, and each is twice the one before. */
  lemma PausesDouble(text: string, script: Script, at: nat, maxAttempts: nat)
    requires 0 < maxAttempts
    ensures var waits := Waits(SendFrom(text, script, at, 0, maxAttempts).log);
            && (waits != [] ==> waits[0] == 1)
            && (forall i :: 0 < i < |waits| ==> waits[i] == 2 * waits[i - 1])
  {
    hide SendFrom, Waits, Tries, Alternates;
    BackoffDoubles(text, script, at, 0, maxAttempts);
    var waits := Waits(SendFrom(text, script, at, 0, maxAttempts).log);
    forall i | 0 < i < |waits| ensures waits[i] == 2 * waits[i - 1] {
      assert Pow2(i) == 2 * Pow2(i - 1);
    }
  }

  lemma NoWaits(attempt: nat)
    ensures Doubling([], attempt)
  {
  }

  lemma LastOf(a: seq<Event>, b: seq<Event>)
    requires b != []
    ensures (a + b)[|a + b| - 1] == b[|b| - 1]
  {
  }

  lemma DoublingMore(waits: seq<nat>, attempt: nat)
    requires Doubling(waits, attempt + 1)
    ensures Doubling([Pow2(attempt)] + waits, attempt)
  {
    hide Pow2;
    var all := [Pow2(attempt)] + waits;
    forall i | 0 <= i < |all| ensures all[i] == Pow2(attempt + i) {
      if 0 < i { assert all[i] == waits[i - 1] == Pow2(attempt + 1 + (i - 1)); }
    }
  }

  /** What `BackoffDoubles` says of one chunk's events. */
  predicate BacksOff(log: seq<Event>, attempt: nat) {
    && Doubling(Waits(log), attempt) && log != []
    && Tries(log) == |Waits(log)| + if log[|log| - 1].Tried? then 1 else 0
  }

  lemma OneTryBacksOff(text: string, answer: SendResult, attempt: nat)
    ensures BacksOff([Acquired(true), Tried(text, answer)], attempt) && BacksOff([Acquired(false)], attempt)
  {
    hide Tries, Waits, Doubling, Pow2;
    NoWaits(attempt);
    WaitsOfAttempt(text, answer, 0);
    TriesOfAttempt(text, answer);
  }

  lemma RetryBacksOff(text: string, answer: SendResult, attempt: nat, rest: seq<Event>)
    requires BacksOff(rest, attempt + 1)
    ensures BacksOff([Acquired(true), Tried(text, answer)] + [Slept(Pow2(attempt))] + rest, attempt)
  {
    hide Tries, Waits, Doubling, Pow2;
    var first := [Acquired(true), Tried(text, answer)] + [Slept(Pow2(attempt))];
    WaitsOfAttempt(text, answer, Pow2(attempt));
    TriesOfAttempt(text, answer);
    TriesAppend([Acquired(true), Tried(text, answer)], [Slept(Pow2(attempt))]);
    WaitsAppend(first, rest);
    TriesAppend(first, rest);
    DoublingMore(Waits(rest), attempt);
    LastOf(first, rest);
  }

  /** One chunk's events go round in one order: a token is asked for first; a granted one is
      followed by its try; between one try and the next token there is exactly one pause. */
  predicate Alternates(log: seq<Event>) {
    && log != [] && log[0].Acquired?
    && (forall i :: 0 <= i < |log| - 1 ==>
          match log[i]
          case Acquired(_) => log[i + 1].Tried?
          case Tried(_, _) => log[i + 1].Slept?
          case Slept(_) => log[i + 1].Acquired?)
    && !log[|log| - 1].Slept?
  }

  lemma OneTryAlternates(text: string)
    ensures Alternates([Acquired(false)]) && forall answer :: Alternates([Acquired(true), Tried(text, answer)])
  {
  }

  lemma RetryAlternates(text: string, answer: SendResult, halfSeconds: nat, rest: seq<Event>)
    requires Alternates(rest)
    ensures Alternates([Acquired(true), Tried(text, answer)] + [Slept(halfSeconds)] + rest)
  {
    var first := [Acquired(true), Tried(text, answer)] + [Slept(halfSeconds)];
    assert forall i :: 3 <= i < |first + rest| ==> (first + rest)[i] == rest[i - 3];
  }

  lemma {:induction false} BackoffDoubles(text: string, script: Script, at: nat, attempt: nat, maxAttempts: nat)
    requires attempt < maxAttempts
    ensures var s := SendFrom(text, script, at, attempt, maxAttempts);
            && Alternates(s.log) && Doubling(Waits(s.log), attempt) && s.log != []
            && Tries(s.log) == |Waits(s.log)| + if s.log[|s.log| - 1].Tried? then 1 else 0
    decreases maxAttempts - attempt
  {
    hide Tries, Waits, Doubling, Pow2, Alternates;
    OneTryAlternates(text);
    var answer := if script(at).Granted? then script(at).answer else Delivered(None);
    OneTryBacksOff(text, answer, attempt);
    if script(at).Granted? && answer.Rejected? && answer.retryable && attempt + 1 < maxAttempts {
      var rest := SendFrom(text, script, at + 1, attempt + 1, maxAttempts);
      BackoffDoubles(text, script, at + 1, attempt + 1, maxAttempts);
      RetryBacksOff(text, answer, attempt, rest.log);
      RetryAlternates(text, answer, Pow2(attempt), rest.log);
    }
  }

  // ----- the record -----

  function FirstDelivered(results: seq<SendResult>): Option<string> {
    if results == [] then None
    else if results[0].Delivered? then results[0].id
    else FirstDelivered(results[1..])
  }

  /** The row for one dispatch. */
  function Recorded(conversation: nat, merchant: nat, text: Option<string>, outcome: Outcome, sender: Sender,
                    now: int): Row {
    Row(conversation, merchant, sender, text, if outcome.failure.Some? then Failed else Sent,
        FirstDelivered(outcome.sent), outcome.failure, now)
  }

  /** Recorded as sent exactly when all pieces were accepted, as failed exactly when fewer were. */
  predicate TellsTheTruth(row: Row, pieces: seq<string>, log: seq<Event>) {
    && Accepted(log) <= pieces
    && (row.delivery.Sent? <==> Accepted(log) == pieces)
    && (row.delivery.Failed? <==> Accepted(log) < pieces)
    && (row.delivery.Failed? <==> row.error.Some?)
  }

  /** A dispatched draft is recorded as sent exactly when the customer got all of it, and as
      failed exactly when they got less: in order, from the start, without gaps. */
  lemma RecordTellsTheTruth(caps: Capabilities, draft: Draft, script: Script, at: nat, maxAttempts: nat,
                            conversation: nat, merchant: nat, sender: Sender, now: int)
    requires draft.Reply? && 0 < caps.maxText && 0 < maxAttempts
    ensures var pieces := Pieces(caps, draft);
            var b := SendAll(pieces, script, at, maxAttempts);
            var row := Recorded(conversation, merchant, draft.text, Outcome(b.results, None, FailureOf(b.results)),
                                sender, now);
            && TellsTheTruth(row, pieces, b.log)
            && row.conversation == conversation && row.merchant == merchant && row.sender == sender
            && row.text == draft.text && row.createdAt == now
            && (if Accepted(b.log) == [] then row.providerId.None?
                else b.results != [] && b.results[0].Delivered? && row.providerId == b.results[0].id)
  {
    hide SendFrom, Accepted, Pieces;
    var pieces := Pieces(caps, draft);
    AcceptedIsAPrefix(pieces, script, at, maxAttempts);
    NothingAccepted();
    if pieces != [] {
      SendAllStep(pieces, script, at, maxAttempts);
      hide SendAll;
      var b := SendAll(pieces, script, at, maxAttempts);
      var s := SendFrom(pieces[0], script, at, 0, maxAttempts);
      assert b.results[0] == s.last;
      if s.last.Rejected? { assert b.results[1..] == [] && FirstDelivered(b.results[1..]) == None; }
    }
  }

  lemma NothingAccepted()
    ensures Accepted([]) == []
  {
  }
}
