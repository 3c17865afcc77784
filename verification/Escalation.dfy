/** The triggers that end a bot's turn by calling for an agent, and the order they are asked in. */
module Escalation {
  import opened Options
  import opened Text
  import opened Messages

  datatype Signal = Abstain | Fire(reason: Reason)

  /** A trigger's verdict depends on the message, the draft and the turn count alone. The two
      keyword triggers search the text for a pattern; two more always abstain. */
  datatype Trigger =
    | BrainEscalation
    | Keyword(pattern: string -> bool, why: Reason)
    | LowConfidence
    | NegativeSentiment
    | UnresolvedTurns

  const REPLIED: Reason := "the bot replied "

  function UnresolvedReason(turns: nat): Reason {
    Join(REPLIED, Digits(turns) + " times without resolving it")
  }

  function Verdict(trigger: Trigger, envelope: Envelope, draft: Draft, turns: nat, maxTurns: int): Signal {
    match trigger
    case BrainEscalation => if draft.Escalate? then Fire(draft.reason) else Abstain
    case Keyword(pattern, why) =>
      if envelope.text.Some? && envelope.text.value != "" && pattern(envelope.text.value) then Fire(why) else Abstain
    case LowConfidence => Abstain
    case NegativeSentiment => Abstain
    case UnresolvedTurns => if turns >= maxTurns then Fire(UnresolvedReason(turns)) else Abstain
  }

  /** Triggers are asked in order; the answer is that of the earliest one that fires. */
  function Evaluate(policy: seq<Trigger>, envelope: Envelope, draft: Draft, turns: nat, maxTurns: int): Signal {
    if policy == [] then Abstain
    else
      var verdict := Verdict(policy[0], envelope, draft, turns, maxTurns);
      if verdict.Fire? then verdict else Evaluate(policy[1..], envelope, draft, turns, maxTurns)
  }

  const ASKED_FOR_HUMAN: Reason := "the customer asked for a human"
  const RAISED_MONEY: Reason := "the customer raised money or a refund"

  /** The triggers of the default policy, most specific reason first. */
  function DefaultPolicy(human: string -> bool, money: string -> bool): seq<Trigger> {
    [BrainEscalation, Keyword(human, ASKED_FOR_HUMAN), Keyword(money, RAISED_MONEY), LowConfidence, NegativeSentiment,
     UnresolvedTurns]
  }

  /** A policy fires exactly when some trigger does, and speaks with the first that does. */
  lemma {:induction false} FirstToFireWins(policy: seq<Trigger>, envelope: Envelope, draft: Draft, turns: nat,
                                           maxTurns: int)
    returns (i: nat)
    ensures i <= |policy|
    ensures forall j :: 0 <= j < i ==> Verdict(policy[j], envelope, draft, turns, maxTurns).Abstain?
    ensures Evaluate(policy, envelope, draft, turns, maxTurns) ==
              if i < |policy| then Verdict(policy[i], envelope, draft, turns, maxTurns) else Abstain
    ensures i < |policy| ==> Verdict(policy[i], envelope, draft, turns, maxTurns).Fire?
  {
    if policy == [] || Verdict(policy[0], envelope, draft, turns, maxTurns).Fire? {
      i := 0;
    } else {
      var k := FirstToFireWins(policy[1..], envelope, draft, turns, maxTurns);
      i := k + 1;
    }
  }

  lemma ReasonNamesTheCount(turns: nat)
    ensures UnresolvedReason(turns) == "the bot replied " + Digits(turns) + " times without resolving it"
  {
  }

  /** The draft the pipeline evaluates before it has one. */
  const NO_DRAFT: Draft := Reply(Some(""), 0)

  predicate Asks(envelope: Envelope, pattern: string -> bool) {
    envelope.text.Some? && envelope.text.value != "" && pattern(envelope.text.value)
  }

  /** The preflight fires exactly on a request for a person, on money, or on the turn limit; and
      once it has passed, only the draft's own escalation can fire, with the draft's reason. */
  lemma PreflightLeavesOnlyTheDraft(human: string -> bool, money: string -> bool, envelope: Envelope, draft: Draft,
                                    turns: nat, maxTurns: int)
    ensures var policy := DefaultPolicy(human, money);
            var preflight := Evaluate(policy, envelope, NO_DRAFT, turns, maxTurns);
            && (preflight.Fire? <==> Asks(envelope, human) || Asks(envelope, money) || turns >= maxTurns)
            && (preflight.Abstain? ==>
                  Evaluate(policy, envelope, draft, turns, maxTurns)
                  == if draft.Escalate? then Fire(draft.reason) else Abstain)
  {
    EvaluateDefault(human, money, envelope, NO_DRAFT, turns, maxTurns);
    EvaluateDefault(human, money, envelope, draft, turns, maxTurns);
  }

  lemma EvaluateDefault(human: string -> bool, money: string -> bool, envelope: Envelope, draft: Draft, turns: nat,
                        maxTurns: int)
    ensures Evaluate(DefaultPolicy(human, money), envelope, draft, turns, maxTurns) ==
              if draft.Escalate? then Fire(draft.reason)
              else if Asks(envelope, human) then Fire(ASKED_FOR_HUMAN)
              else if Asks(envelope, money) then Fire(RAISED_MONEY)
              else if turns >= maxTurns then Fire(UnresolvedReason(turns))
              else Abstain
  {
    hide UnresolvedReason;
    var policy := DefaultPolicy(human, money);
    var i := FirstToFireWins(policy, envelope, draft, turns, maxTurns);
    assert policy[0] == BrainEscalation && policy[1] == Keyword(human, ASKED_FOR_HUMAN)
      && policy[2] == Keyword(money, RAISED_MONEY);
    assert policy[3] == LowConfidence && policy[4] == NegativeSentiment && policy[5] == UnresolvedTurns;
  }
}
