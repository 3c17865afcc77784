/** The paid brain as it runs, uninterrupted. MeteredCall covers what crashes, redeliveries and
    operators can make of the same steps. */
module MeteredBrain {
  import opened Options
  import opened Text
  import opened Pricing
  import opened Messages
  import opened Ledger
  import opened LedgerInvariant
  import opened LedgerRuns
  import opened Billing
  import opened MeteredCall
  import opened Prompt

  datatype ProviderReply = Answer(result: Completion) | ProviderError(message: string, uncertain: bool)

  datatype ProviderRequest = ProviderRequest(system: string, messages: seq<ChatMessage>, maxOutput: nat)

  /** A text provider; `reply` is whatever it will answer. */
  class Provider {
    const reply: ProviderReply
    var requests: seq<ProviderRequest>

    constructor (reply: ProviderReply)
      ensures this.reply == reply && requests == []
    {
      this.reply := reply;
      requests := [];
    }

    method Complete(system: string, messages: seq<ChatMessage>, maxOutput: nat) returns (r: ProviderReply)
      modifies this
      ensures requests == old(requests) + [ProviderRequest(system, messages, maxOutput)] && r == reply
    {
      requests := requests + [ProviderRequest(system, messages, maxOutput)];
      r := reply;
    }
  }

  const HANDOFF := "[HANDOFF]"

  predicate OccursAt(text: string, part: string, i: nat) {
    i + |part| <= |text| && text[i..i + |part|] == part
  }

  predicate Contains(text: string, part: string) {
    exists i :: 0 <= i <= |text| && OccursAt(text, part, i)
  }

  const NO_ANSWER: Reason := "the model could not answer"
  const UNREVIEWED: Reason := "usage "
  const NEEDS_REVIEW: Reason := "model billing needs review"
  const TEXT_ONLY: Reason := "this model flow supports text only"
  const NO_MODEL: Reason := "the bot has no enabled model"
  const NOT_CONFIGURED: Reason := "language model provider is not configured"
  const TOO_LONG: Reason := "the model input limit is exceeded"
  const SCOPE_MISMATCH: Reason := "usage scope mismatch"
  const NO_CREDITS: Reason := "insufficient merchant credits"

  function DraftOf(text: Option<string>): Draft {
    if text.None? || text.value == "" || Contains(text.value, HANDOFF) then Escalate(NO_ANSWER) else Reply(text, 0)
  }

  /** The mark stands somewhere in the text. */
  ghost predicate Holds(text: string, mark: string) {
    exists a: string, b: string :: text == a + mark + b
  }

  lemma ContainsIsHolds(text: string, mark: string)
    ensures Contains(text, mark) <==> Holds(text, mark)
  {
    if i :| 0 <= i <= |text| && OccursAt(text, mark, i) {
      assert text == text[..i] + mark + text[i + |mark|..];
    }
    if a: string, b: string :| text == a + mark + b {
      assert OccursAt(text, mark, |a|);
    }
  }

  /** An answer reaches the customer as it is, unless it is empty or hands the customer over. */
  lemma AnswersGoOutAsTheyAre(text: Option<string>)
    ensures DraftOf(text) == if text.None? || text == Some("") || Holds(text.value, HANDOFF) then Escalate(NO_ANSWER)
                             else Reply(text, 0)
  {
    if text.Some? { ContainsIsHolds(text.value, HANDOFF); }
  }

  /** What a repeated delivery gets: the stored answer of a settled call, else a person. */
  function RepeatedDraft(id: nat, row: Usage): Draft {
    if row.status.Settled? then DraftOf(row.text)
    else
      Escalate(Join(UNREVIEWED, Digits(id) + " requires review before another model call"))
  }

  function SettledDraft(row: Usage): Draft {
    if row.status.Settled? then DraftOf(row.text)
    else if row.error.Some? && row.error.value != "" then Escalate(row.error.value)
    else Escalate(NEEDS_REVIEW)
  }

  function OutcomeOf(reply: ProviderReply): CallOutcome {
    match reply
    case Answer(result) => Completed(result)
    case ProviderError(_, uncertain) => Errored(uncertain)
  }

  function ErrorOf(reply: ProviderReply): Option<string> {
    if reply.ProviderError? then Some(reply.message) else None
  }

  predicate TextOnly(envelope: Envelope) {
    envelope.text.Some? && envelope.text.value != "" && envelope.attachments == 0
  }

  /** One bot's turn in one conversation. `ready` says whether the provider can be reached at all. */
  datatype Turn = Turn(
    bot: nat, model: Option<Model>, ready: bool, credits: Denomination, system: string,
    rows: seq<Row>, conversation: nat, merchant: nat, event: nat, inbound: nat)
  {
    function Asks(update: string): Request
      requires model.Some?
    {
      Request(merchant, bot, event, update, model.value, credits)
    }

    ghost predicate MayAsk(envelope: Envelope) {
      && TextOnly(envelope) && model.Some? && model.value.enabled && ready
      && IsInbound(rows, conversation, merchant, inbound)
      && PromptFits(system, History(rows, conversation, merchant, inbound), model.value.maxInput,
                    rows[inbound].text.value)
    }
  }

  /** What becomes of the provider's reply to a new call. A completion within the hold is answered with
      its own text; one beyond it waits for review; a provider error is handed to a person with its
      message, and so is every repeat of a call that did not settle. A repeat of one that did gets
      the same answer. */
  lemma ReplyBecomesTheDraft(s: State, id: nat, reply: ProviderReply)
    requires id < |s.usages| && s.usages[id].status.Reserved?
    ensures var row := Settle(s, id, OutcomeOf(reply), ErrorOf(reply), false).usages[id];
            && (reply.Answer? && Price(reply.result.usage, s.usages[id].pricing) <= s.usages[id].held ==>
                  && SettledDraft(row) == DraftOf(Some(reply.result.text))
                  && RepeatedDraft(id, row) == SettledDraft(row))
            && (reply.Answer? && s.usages[id].held < Price(reply.result.usage, s.usages[id].pricing) ==>
                  row.status.Uncertain? && SettledDraft(row) == Escalate(OVERAGE_ERROR))
            && (reply.ProviderError? ==>
                  && (row.status.Uncertain? <==> reply.uncertain) && (row.status.Released? <==> !reply.uncertain)
                  && SettledDraft(row) == Escalate(if reply.message != "" then reply.message else NEEDS_REVIEW))
            && (!row.status.Settled? ==>
                  RepeatedDraft(id, row).Escalate? && "usage " + Digits(id) <= RepeatedDraft(id, row).reason)
  {
    hide Price, Cost, Digits, DraftOf;
    SettleOutcomes(s, id, OutcomeOf(reply), ErrorOf(reply), false);
  }

  /** The provider is called exactly when the message may be asked and its reservation is new:
      then once, with an admissible prompt, between the committed hold and the committed
      settlement. Otherwise no credits move and the draft escalates, except that a repeat of a
      settled call returns its stored answer. */
  method Respond(turn: Turn, envelope: Envelope, store: CreditStore, provider: Provider) returns (draft: Draft)
    requires Inv(store.Committed())
    requires TextOnly(envelope) ==> IsInbound(turn.rows, turn.conversation, turn.merchant, turn.inbound)
    modifies store, provider
    ensures Inv(store.Committed())
    ensures !turn.MayAsk(envelope) ==>
              draft.Escalate? && store.Committed() == old(store.Committed())
              && provider.requests == old(provider.requests)
    ensures envelope.text.None? || envelope.text == Some("") || envelope.attachments != 0
            || turn.model.None? || !turn.model.value.enabled || !turn.ready ==>
              draft.Escalate? && store.Committed() == old(store.Committed())
              && provider.requests == old(provider.requests)
    ensures provider.requests != old(provider.requests) <==>
              && envelope.text.Some? && envelope.text.value != "" && envelope.attachments == 0
              && turn.model.Some? && turn.model.value.enabled && turn.ready
              && PromptFits(turn.system, History(turn.rows, turn.conversation, turn.merchant, turn.inbound),
                            turn.model.value.maxInput, turn.rows[turn.inbound].text.value)
              && var r := ReserveFor(old(store.Committed()), turn.Asks(envelope.update)).1; r.Ok? && r.value.isNew
    ensures turn.MayAsk(envelope) ==>
              var (reserved, r) := ReserveFor(old(store.Committed()), turn.Asks(envelope.update));
              if r.Ok? && r.value.isNew then
                && store.Committed()
                   == Apply(reserved, SettleOp(r.value.id, OutcomeOf(provider.reply), ErrorOf(provider.reply)))
                && r.value.id < |store.usages| && draft == SettledDraft(store.usages[r.value.id])
                && |provider.requests| == |old(provider.requests)| + 1
                && provider.requests[..|old(provider.requests)|] == old(provider.requests)
                && var call := provider.requests[|old(provider.requests)|];
                && call.system == turn.system && call.maxOutput == turn.model.value.maxOutput
                && Admissible(turn.system, call.messages, turn.model.value.maxInput, turn.rows[turn.inbound].text.value)
                && IsLongestFit(turn.system, History(turn.rows, turn.conversation, turn.merchant, turn.inbound),
                                turn.model.value.maxInput, call.messages)
              else
                && provider.requests == old(provider.requests) && store.Committed() == reserved
                && store.entries == old(store.entries) && store.usages == old(store.usages)
                && (r.Err? ==> draft == Escalate(if r.error.ScopeMismatch? then SCOPE_MISMATCH else NO_CREDITS))
                && (r.Ok? ==>
                      r.value.id < |store.usages| && draft == RepeatedDraft(r.value.id, store.usages[r.value.id]))
  {
    hide RepeatedDraft, SettledDraft, Inv, PromptFits, History, Admissible, IsLongestFit;
    hide Hold, Price, Settle, Contains, Digits;
    if !TextOnly(envelope) {
      return Escalate(TEXT_ONLY);
    }
    if turn.model.None? || !turn.model.value.enabled {
      return Escalate(NO_MODEL);
    }
    if !turn.ready {
      return Escalate(NOT_CONFIGURED);
    }
    var model := turn.model.value;
    var messages := AdmitPrompt(turn.system, turn.rows, turn.conversation, turn.merchant, turn.inbound, model.maxInput);
    if messages.None? {
      return Escalate(TOO_LONG);
    }
    BeginMakesNewRow(store.Committed(), turn.Asks(envelope.update));
    var r := store.ReserveCredits(turn.merchant, turn.bot, turn.event, envelope.update, model, turn.credits);
    if r.Err? {
      return Escalate(if r.error.ScopeMismatch? then SCOPE_MISMATCH else NO_CREDITS);
    }
    var id := r.value.id;
    if !r.value.isNew {
      return RepeatedDraft(id, store.usages[id]);
    }
    var reply := provider.Complete(turn.system, messages.value, model.maxOutput);
    var row := store.SettleUsage(id, OutcomeOf(reply), ErrorOf(reply), false);
    return SettledDraft(row);
  }
}
