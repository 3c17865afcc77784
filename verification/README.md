# Botly: a verified model of credits, delivery, handoff and dispatch

Botly answers a merchant's customers with a bot, hands a conversation to a person when the bot
should not go on, and charges the merchant prepaid credits for every model call. This project
models the parts of it where many things can happen in any order, or where two pieces of code
have to agree, and proves what holds of them for every input, every run and every interleaving.

- **Credits** (`Pricing`, `Ledger`, `LedgerInvariant`, `LedgerRuns`, `Billing`). Money is exact
  integers: rates in 1e-10 USD per million tokens, costs in 1e-16 USD, credits in micro-credits.
  `Ledger` gives each transaction as a function of the tables, `Billing` is the code that updates
  the tables in place and is proved to compute it, `LedgerInvariant` and `LedgerRuns` prove
  conservation, idempotence and the sufficiency of a hold over all runs.
- **The metered call** (`Prompt`, `MeteredCall`, `MeteredBrain`). What a provider may be sent, and
  a transition system of workers that crash, deliveries that repeat and operators who intervene.
- **Delivery** (`Ingress`, `DeliveryProtocol`, `Pipeline`, `TurnProtocol`). Receipts are stored
  once, published at least once and claimed at most once, and each of their messages is taken up
  at most once, whatever dies in between.
- **Handoff** (`Escalation`, `Handoff`, `HandoffProtocol`). Bot turns and agents on one
  conversation row and its lock.
- **Dispatch** (`Chunking`, `Dispatch`, `RateLimit`). The text splitter and the composer's own
  version of it, retries with backoff, and the token bucket in process and in Redis.
- **Order and selection** (`Ordering`, `Paging`, `Knowledge`, `Tracing`). Keyset paging over a
  list that reorders, overlapping document windows, and the choice of trace events.
- `Text`, `Messages` and `Options` hold what the others share.

A database transaction is one step, a table is a sequence of rows whose position is the row's id,
and everything outside (providers, channels, clocks, crashes, the queue) is a parameter that may
take any value. Where the source changes things in place, so do the classes and methods here, and
their contracts tie the new state to a function whose properties the lemmas prove.

## What the proofs found

- The hold bounds the price of usage whose cache counts do not fit into its input count exactly
  for models whose cache rates are not above their input rate
  (`HoldNeedsConsistencyExactlyWhenCacheIsDearer`); at the documented rates such usage escapes it
  (`InconsistentUsageEscapesTheHold`). The validator on `TokenUsage` is what makes the hold enough.
- An operator who reconciles a usage under a live worker can give the hold back before the call
  goes out (`CarelessOperatorLosesTheHold`). The command's help text forbids this, the code does
  not. Over every run all calls keep their holds exactly when no reconciliation under a live
  worker is free of charge or has a charge its wallet can pay
  (`CallsAreHeldExactlyWhenUndisturbed`); a refused one does no harm.
- The check before a bot answers asks whether a person has the conversation, not whether the bot
  does. A conversation resolved between a message's two transactions is answered all the same and
  stays resolved (`ClosedConversationCanBeAnswered`). A dispatch finds the conversation in state
  `resolved` exactly when some resolve before its turn took the lock was followed by no new message,
  takeover, release or committed escalation, and in state `bot` otherwise
  (`DispatchFindsTheBotUnlessClosed`).
- The one-hour expiry of the Redis bucket is invisible exactly when an hour refills a bucket from
  empty (`ExpiryIsInvisibleExactlyWhenFull`), and exactly then the shared bucket keeps its rate
  (`SharedRateIsBoundedExactlyWhenFull`); with a slower refill two full bursts pass an hour apart.
- Document windows cover the text exactly when the window size is positive
  (`EveryCharacterIsCovered`); size 0 loses all of it.
- docs/orchestration.md says a crash between a provider's acceptance and the commit can cause a
  repeated reply. The code claims a receipt durably first, so a dead worker's receipt is never
  started again (`DeadClaimIsNeverRestarted`). The model follows the code.

## Model

| member | source | states |
|---|---|---|
| Pricing.HoldIsTheMaximum | app/llm/billing.py:64-70 | The hold is the greatest price of any consistent usage within the model's limits: no such usage costs more, and one costs exactly that |
| Pricing.HoldNeedsConsistencyExactlyWhenCacheIsDearer | app/llm/providers.py:20-24 | Without the consistency check the hold bounds every usage within the limits if and only if neither cache rate is above the input rate |
| Pricing.InconsistentUsageEscapesTheHold | app/llm/providers.py:20-24 | At the documented rates, on an importable model, a usage within the limits whose cache writes exceed its input costs more than the hold |
| Pricing.PriceIsTheLeastThatPays | app/llm/billing.py:25-33 | The price is the least whole number of micro-credits that pays the cost, so any cost above nothing is charged |
| Pricing.EveryKindOfTokenIsPriced | app/llm/billing.py:25-31 | Each further token of a kind adds its own rate to the cost, a cached or cache-write token the difference to the input rate it replaces; no tokens cost nothing |
| Pricing.AMillionTokensAtTheirPrice | app/llm/billing.py:31-33 | A million input tokens at d USD a million, multiplier m and c credits per USD cost exactly d * m * c credits |
| Pricing.TrailingZeroIsFree | app/llm/billing.py:32 | Writing a zero after the last decimal of the credits per USD changes no price |
| Pricing.SplitCallsRoundUp | app/llm/billing.py:25-33 | n calls cost between 0 and n - 1 micro-credits more than one call for their summed usage |
| Billing.CreditStore.LockedWallet | app/llm/billing.py:36-38 | A missing wallet is opened empty, an existing one is read as it is |
| Billing.CreditStore.TopUpCredits | app/llm/billing.py:41-54 | The in-place top-up computes the ledger's top-up transaction, changes nothing on an error and keeps the invariant |
| Billing.CreditStore.ReserveCredits | app/llm/billing.py:57-77 | The in-place reservation computes the ledger's reservation, changes nothing on an error and keeps the invariant |
| Billing.CreditStore.SettleUsage | app/llm/billing.py:80-108 | The in-place settlement computes the ledger's settlement in all of its outcomes and keeps the invariant |
| Billing.CreditStore.ReconcileUsage | app/llm/admin.py:62-74 | An operator's reconciliation either commits a final status or commits nothing |
| LedgerRuns.TopUpIsAcceptedExactly | app/llm/billing.py:41-43 | A top-up is accepted exactly when it is a positive whole number of micro-credits below 1e18 credits, with a visible reference of at most 191 characters that is not a settlement's, and a visible note |
| LedgerRuns.TopUpCredits | app/llm/billing.py:44-54 | Under a new reference the amount is added to the one balance and entered once; nothing else changes |
| LedgerRuns.ReserveOutcomes | app/llm/billing.py:57-77 | A new update is reserved exactly when the hold is free, as one new row; a known one is refused exactly to another merchant or bot; nothing else changes |
| LedgerRuns.SettleOutcomes | app/llm/billing.py:80-108 | For an open row, when each of settled, released and uncertain comes out, with and without overage, and what each moves and records |
| LedgerRuns.UncertainCallKeepsItsHold | app/llm/billing.py:102-103 | After an uncertain error the row is uncertain and every merchant's wallet, open holds and entries are as before |
| LedgerRuns.ReconcileOutcomes | app/llm/admin.py:62-74 | When a reconciliation is refused, released or settled, that a refusal commits nothing and that a settlement keeps the answer's text |
| LedgerInvariant.TopUpKeepsInv | app/llm/billing.py:41-54 | A top-up keeps balances equal to entries, reserves equal to open holds, 0 <= reserved <= balance, unique keys and rows that match their entries |
| LedgerInvariant.ReserveKeepsInv | app/llm/billing.py:57-77 | A reservation keeps the same invariant |
| LedgerInvariant.SettleKeepsInv | app/llm/billing.py:80-108 | A settlement keeps the same invariant, including the funds constraint under an allowed overage |
| LedgerInvariant.SettleKeepsFunds | app/models/billing.py:35 | Whatever the outcome of a settlement, every wallet still balances and 0 <= reserved <= balance |
| LedgerRuns.RunKeepsInv | app/llm/billing.py:36-108 | Every run of top-ups, reservations, settlements and reconciliations, in any order and under any catalog, keeps the invariant |
| LedgerRuns.RunIsLater | app/models/billing.py:50 | Over every run a row keeps its owner, its prices and its hold, never goes back to reserved, and never changes once settled or released; entries are only appended |
| LedgerRuns.OneEntryPerSettlement | app/llm/billing.py:97-106 | A usage has exactly one entry under its reference when settled and none otherwise; the entry is its price at its own snapshot; no top-up can take the reference |
| LedgerRuns.FinalForever | app/llm/billing.py:82-83 | After settling or releasing, no later run changes the row or the entries under its reference |
| LedgerRuns.TopUpCreditsOnce | app/llm/billing.py:45-49 | At any later time the same reference and amount change nothing and return the same entry, and another amount is refused |
| LedgerRuns.ReserveFindsItsRow | app/llm/billing.py:59-63 | At any later time, under any catalog, reserving the same update again finds the same row and changes nothing |
| LedgerRuns.ReservationLasts | app/llm/billing.py:64-77 | The prices and the hold taken at a reservation are still the row's after any run |
| LedgerRuns.CallWithinLimitsSettles | app/llm/billing.py:86-101 | A call within its model's limits whose row is open settles at its exact price and never reaches the overage branch |
| LedgerRuns.ReconcileRefusesExactlyTheUnaffordable | app/llm/admin.py:70-72 | A verified charge is refused exactly when paying it would break the funds constraint, and a refusal commits nothing |
| Prompt.HistoryEndsWithInbound | app/llm/brain.py:50-58 | The fetched history is non-empty, has at most 20 turns and ends with the message being answered |
| Prompt.HistoryIsTheNewest | app/llm/brain.py:50-57 | The history is, in order, the rows up to the inbound one of this conversation and merchant that have a text and are the customer's or were sent: all of them or the newest twenty |
| Prompt.BoundIsTheBytes | app/llm/brain.py:61-62 | The prompt's bound is the bytes of its UTF-8 encoding, 128 more for each message and 512 |
| Prompt.TrimHistory | app/llm/brain.py:63-64 | The loop keeps the longest suffix of two or more turns that opens with the customer and fits, else just the last message |
| Prompt.AdmitPrompt | app/llm/brain.py:50-66 | A prompt is admitted exactly when some suffix or the message alone fits, and then it is non-empty, customer-first, within the bound and ends with the message |
| MeteredBrain.Respond | app/llm/brain.py:36-90 | The provider is called exactly when the message may be asked and its reservation is new, once, with the longest suffix of the history that fits or the message alone, between the committed hold and the committed settlement; a repeat of a settled call returns its stored answer; otherwise the draft escalates and no credits move |
| MeteredBrain.AnswersGoOutAsTheyAre | app/llm/brain.py:92-96 | An answer is the draft as it is unless it is empty or holds the handoff mark anywhere |
| MeteredBrain.ReplyBecomesTheDraft | app/llm/brain.py:69-90 | Which draft each provider reply to a new call leads to, and that a repeat of a settled call gets the same one |
| MeteredCall.AtMostOneCallPerUpdate | app/llm/brain.py:67-81 | Over every run with crashes and redeliveries an update is called for at most once, always after a committed row |
| MeteredCall.OpenCallKeepsItsHold | app/llm/billing.py:102-103 | A call whose row is still open keeps its whole hold inside the merchant's reserve |
| MeteredCall.AbandonedCallWaitsForItsOperator | app/llm/brain.py:75-86 | Once its worker is gone a row is changed by nothing but its own reconciliation |
| MeteredCall.CrashedCallIsNeverMade | app/llm/brain.py:67-75 | A worker that dies between its hold and its call leaves a call that no later run ever makes |
| MeteredCall.CallsAreHeldExactlyWhenUndisturbed | app/llm/admin.py:62-74 | Over every run the rows of all live calls stay reserved if and only if no operator reconciles one of them, under its live worker, for nothing or for a charge its wallet can pay |
| MeteredCall.CarefulRunsHoldThroughTheCall | app/llm/admin.py:88 | So the instruction is enough: while operators wait for workers, every call goes out and comes back with its row still reserved |
| MeteredCall.CarelessOperatorLosesTheHold | app/llm/admin.py:88 | Reconciled under a live worker, a call to an importable model goes out with its hold already released |
| MeteredCall.UninterruptedCall | app/llm/brain.py:67-86 | A worker left alone takes the steps reserve, call, settle and nothing else |
| Ingress.Receiver.StoreReceipts | app/ingress/receiver.py:104-130 | Every envelope has exactly one receipt, new ones are pending, old ones untouched, and the result is the delivery's unpublished receipts without repeats |
| Ingress.PublishedInOrderOfArrival | app/ingress/receiver.py:104-130 | Receipts are listed for publication in the order in which their envelopes first came in |
| Ingress.Receiver.Publish | app/ingress/receiver.py:132-143 | Exactly a prefix of the list is published and marked, all of it when no publication fails |
| Ingress.Receiver.Receive | app/ingress/receiver.py:41-69 | A delivery that returns normally leaves every envelope stored once and published |
| DeliveryProtocol.DeliveriesAreDurable | app/ingress/receiver.py:104-143 | Over every run of concurrent deliveries, queue failures, repeats, crashes and workers: a delivery that returned has its envelopes stored once and published, enqueued_at implies published, and no receipt is claimed twice |
| DeliveryProtocol.DeadClaimIsNeverRestarted | app/runtime/pipeline.py:57-68 | A receipt whose worker died after its claim stays processing over every later run |
| DeliveryProtocol.InterruptedDeliveryIsGone | app/ingress/receiver.py:132-143 | A delivery whose publication fails, or that dies, does not return; what it stored and published stays |
| DeliveryProtocol.UninterruptedDelivery | app/ingress/receiver.py:132-143 | A delivery left alone marks exactly its list, as Publish does, and returns normally |
| Pipeline.MatchingIsExact | app/runtime/pipeline.py:90-95 | A receipt processes exactly the parsed messages that carry its own provider and update id |
| Pipeline.MatchingKeepsOrder | app/runtime/pipeline.py:90-95 | The messages are the delivery's matching ones at strictly increasing positions, all of them |
| Pipeline.MatchingKeepsCopies | app/runtime/pipeline.py:90-95 | Each matching message is taken exactly as often as it was delivered |
| Pipeline.LookedUpInOrder | app/runtime/pipeline.py:74-107 | Connection and adapter are missed first; a receipt without messages misses nothing else; then the bot, then the brand |
| Pipeline.Answer | app/runtime/pipeline.py:118-200 | The loop over a receipt's messages does what AnswerAll says to the conversation, the channel and the tokens, returns its failure and keeps the row coherent |
| Pipeline.MessagesAreTakenInTurn | app/runtime/pipeline.py:118-200 | Every message is stored in order, each answer right after the message it answers, up to the first whose answer failed, which is all of them without a failure; the failure is that of the last answer, the only row recorded as failed, with the same error |
| Pipeline.Worker.RunInbound | app/runtime/pipeline.py:56-202 | A receipt that is not pending is a no-op; a pending one ends processed, or failed with exactly one job, as Processing says; every other receipt stays as it was |
| Pipeline.FailsExactly | app/runtime/pipeline.py:74-107 | A receipt fails exactly when something it needs is missing, with that reason, or when its last answer was not delivered, with that answer's error; without a matching message it fails only for want of a connection or an adapter; with anything missing nothing is stored or sent |
| TurnProtocol.EveryMessageHasAtMostOneTurn | app/runtime/pipeline.py:57-68 | Over every run of repeated deliveries, queue failures, repeated queue messages, concurrent workers and crashes: one receipt per update, each of its messages taken up at most once, in order and without skipping, and exactly once when the receipt ends processed |
| TurnProtocol.UninterruptedReceipt | app/runtime/pipeline.py:56-202 | Any published pending receipt can be claimed by a free worker, which, left alone, takes each of its messages once and marks it processed |
| Escalation.FirstToFireWins | app/runtime/escalation.py:158-178 | A policy fires exactly when some trigger does and gives the reason of the first that does |
| Escalation.PreflightLeavesOnlyTheDraft | app/runtime/escalation.py:181-196 | The default preflight fires exactly on a request for a person, on money or on the turn limit, and once it passes only the draft's own escalation can fire |
| Handoff.InboxConversation.TakeOver | app/api/conversations.py:346-363 | Refused exactly when some other agent may reply, and then nothing changes; otherwise exactly this agent may reply and the bot is silent at every instant; state, assignee and reason stay coherent |
| Handoff.InboxConversation.ReleaseToBot | app/api/conversations.py:367-381 | No agent may reply and the bot is silent exactly until the grace period is over; state, assignee and reason stay coherent |
| Handoff.InboxConversation.MarkResolved | app/api/conversations.py:385-395 | No agent may reply and only a mute from before keeps the bot silent; state, assignee and reason stay coherent |
| Handoff.InboxConversation.SendMessage | app/api/conversations.py:417-478 | Sent exactly when this agent has the conversation and the channel does not refuse, else nothing changes; a sent reply is on the line as the dispatch says, its row tells what was accepted, and its failure is the job's |
| Handoff.InboxConversation.ReceiveMessage | app/runtime/pipeline.py:205-248 | The conversation is open, the message is its newest row, and who may reply, when the bot is silent and its count of replies are as before; state, assignee and reason stay coherent |
| Handoff.InboxConversation.AnswerUnderLock | app/runtime/pipeline.py:126-196 | The locked part of a turn ends in nothing, an escalation or a recorded dispatch; it uses the channel or adds a row only in a conversation the bot may answer, and stays coherent |
| HandoffProtocol.ConversationsStaySafe | app/runtime/pipeline.py:118-202 | Over every interleaving of turns, agents and crashes: assigned exactly while human, no reason while the bot answers, a reason while pending; fewer than maxTurns answers since a person spoke; every dispatch is for a committed message in a conversation that was no person's and not muted |
| HandoffProtocol.MessagesAreDispatchedAtMostOnce | app/runtime/pipeline.py:118-200 | Over every run of turns and agents, crashes included, no stored message is dispatched for twice |
| HandoffProtocol.NothingMovesUnderALock | app/runtime/pipeline.py:124-128 | From the check under the row lock to the end of the turn no other step changes the conversation |
| Handoff.RepliesAreCounted | app/runtime/pipeline.py:268-293 | The count of the turn limit is the number of the bot's messages that are newer than every agent message |
| Handoff.AppendReplies | app/runtime/pipeline.py:268-293 | A bot message newer than every agent message raises the count by exactly one, a newest agent message sets it to zero, a customer's leaves it |
| Handoff.WhatATurnDecides | app/runtime/pipeline.py:130-175 | When a turn is silent, escalates before the brain and why, asks the brain, and what then becomes of the draft |
| Handoff.WhatATurnDoes | app/runtime/pipeline.py:126-196 | What the locked part of a turn leaves of the row and the channel in each of those cases |
| HandoffProtocol.TurnLimitStopsBeforeTheBrain | app/runtime/pipeline.py:133-138 | A turn that would reach the limit ends in an escalation before any brain is asked |
| HandoffProtocol.OnlyTheDraftEscalates | app/runtime/pipeline.py:162-175 | Past its preflight a turn is stopped by the draft's own escalation and nothing else |
| HandoffProtocol.DeadTurnLetsGo | app/runtime/pipeline.py:118-128 | A turn that dies leaves the conversation as committed and lets go of its lock |
| HandoffProtocol.ReleaseMutes | app/api/conversations.py:376-378 | A release mutes the bot, and no turn is past its check at that moment |
| HandoffProtocol.ReleasedBotStaysSilent | app/runtime/pipeline.py:251-257 | Until the mute runs out no dispatch is checked, over every run in which no agent takes over or releases again |
| HandoffProtocol.TakenConversationStaysTaken | app/runtime/pipeline.py:251-257 | Over every run without a release or a resolve, an agent's conversation stays that agent's and nothing is dispatched |
| HandoffProtocol.TakeoverTakes | app/api/conversations.py:346-363 | An agent who finds no other agent there has the conversation at once |
| HandoffProtocol.OthersCannotReply | app/api/conversations.py:417-430 | A reply of anyone but the agent who has the conversation, or that the channel does not take, changes nothing |
| HandoffProtocol.AgentReplyStartsTheCountAgain | app/runtime/pipeline.py:268-293 | After an agent's reply no earlier answer of the bot's counts towards the limit |
| HandoffProtocol.DispatchFindsTheBotUnlessClosed | app/runtime/pipeline.py:124-131 | Over every run: a dispatch goes to the conversation exactly as it was at its turn's lock, in state resolved if and only if some resolve before the lock was followed by nothing that reopens, else in state bot |
| HandoffProtocol.ClosedConversationCanBeAnswered | app/runtime/pipeline.py:130-131 | A conversation resolved between a message's two transactions is still answered, and is still resolved once the answer is recorded |
| HandoffProtocol.UninterruptedTurn | app/runtime/pipeline.py:126-196 | A turn left alone from its lock on commits what UnderLock says |
| Chunking.ChunkText | app/dispatch/dispatcher.py:40-62 | Terminates for every positive limit and computes the chunks |
| Chunking.ChunkBoundaries | frontend/composables/useComposer.ts:4-21 | Computes the composer's boundaries, none for a limit that is not positive |
| Chunking.ComposerMatchesDispatcher | frontend/composables/useComposer.ts:4-21 | Slicing the trimmed text at the boundaries and trimming the slices gives exactly the dispatcher's chunks, one more than boundaries |
| Chunking.ChunksAreSlices | app/dispatch/dispatcher.py:40-62 | The chunks are slices of the text, in order, with whitespace and nothing else before, between and after them |
| Chunking.ChunksFit | app/dispatch/dispatcher.py:40-62 | Every chunk is trimmed, non-empty and within the limit |
| Chunking.BoundariesAreBestCuts | app/dispatch/dispatcher.py:52-57 | Each boundary is the last newline within the limit, without one the last space, without either the limit itself, of what is left after the ones before |
| Chunking.WordsAreCutOnlyWhenTooLong | app/dispatch/dispatcher.py:52-57 | A cut inside a run without spaces and newlines means the run is longer than the limit |
| Dispatch.SendWithRetry | app/dispatch/dispatcher.py:142-161 | The retry loop does what SendFrom says against any limiter and channel |
| Dispatch.RetriesExactlyWhileBusy | app/dispatch/dispatcher.py:146-161 | Attempts go on exactly while the channel answers retryably and attempts are left, one token each; the last answer is the chunk's |
| Dispatch.DeliversExactly | app/dispatch/dispatcher.py:146-161 | A chunk is delivered exactly when some attempt within the limit is, after retryable rejections only; one given up as busy had every attempt unless the tokens ran out |
| Dispatch.DispatchDraft | app/dispatch/dispatcher.py:92-136 | A refused draft sends nothing; any other sends its chunks in order and stops at the first that fails |
| Dispatch.RefusedExactly | app/dispatch/dispatcher.py:101-122 | A draft is left to a person exactly when the brain says so, for attachments on a channel without media, or when the channel wants a template and the customer has not written within its window |
| Dispatch.PiecesCarryTheText | app/dispatch/dispatcher.py:124 | The pieces are trimmed slices of the reply's text, in order, within the channel's limit, with only whitespace between them |
| Dispatch.ChunksAreSentInTurn | app/dispatch/dispatcher.py:124-136 | Chunks are sent one after another, each with its own attempts, until one is not delivered; the results are theirs |
| Dispatch.ChunkAttempts | app/dispatch/dispatcher.py:146-161 | At most maxAttempts sends of a chunk, each right after its own granted token, none after a refusal for good |
| Dispatch.BackoffDoubles | app/dispatch/dispatcher.py:146-161 | One chunk asks for a token first, tries once on each granted token, and between one try and the next token pauses exactly once, each pause twice the one before; a pause is never last |
| Dispatch.PausesDouble | app/dispatch/dispatcher.py:156-159 | The first pause is half a second and each further one is twice the one before |
| Dispatch.DraftAttempts | app/dispatch/dispatcher.py:126-134 | Over a whole draft every send has its own token and nothing follows a refusal for good |
| Dispatch.AcceptedIsAPrefix | app/dispatch/dispatcher.py:126-136 | The accepted texts are a prefix of the chunks, all of them exactly when there is no failure |
| Dispatch.RecordTellsTheTruth | app/dispatch/record.py:34-51 | Recorded as sent exactly when all of it was accepted, as failed exactly when a proper prefix was; the id is the first accepted chunk's |
| RateLimit.InMemoryTokenBucket.Acquire | app/dispatch/ratelimit.py:37-45 | One call makes one step of the never-forgetting bucket and touches no other key |
| RateLimit.RedisTokenBucket.Acquire | app/dispatch/ratelimit.py:50-64 | One call makes one step of the bucket whose idle keys expire |
| RateLimit.RateIsBounded | app/dispatch/ratelimit.py:37-45 | With a clock that does not go back, a key's grants in any interval are at most capacity plus refill, whatever other keys do |
| RateLimit.RefusedExactlyOverTheRate | app/dispatch/ratelimit.py:37-45 | A call is refused if and only if, for some earlier instant, granting it would exceed capacity plus refill since then |
| RateLimit.ExpiryIsInvisibleExactlyWhenFull | app/dispatch/ratelimit.py:50-64 | The expiring bucket answers every sequence of calls as the never-forgetting one does if and only if an hour's refill is at least the capacity |
| RateLimit.SharedRateIsBoundedExactlyWhenFull | app/dispatch/ratelimit.py:50-64 | The shared bucket keeps that bound on every sequence of calls if and only if an hour's refill is at least the capacity |
| Paging.LogicIsSql | app/api/conversations.py:178-193 | The three-valued connectives and comparisons of SQL, as the filter uses them |
| Paging.SeekIsStrictlyAfter | app/api/conversations.py:178-193 | The seek predicate, in SQL's three-valued logic, holds exactly of the rows strictly after the cursor; the message list's agrees on its rows |
| Paging.PageReturnsExactly | app/api/conversations.py:195-210 | A page returns a row exactly when its cursor has not passed the row and the next one has, or there is none |
| Paging.SteadyRowIsReadOnce | app/api/conversations.py:174-210 | Whatever other rows do between pages, a row whose sort key stays is returned exactly once |
| Paging.RowMovingUpIsReadAtMostOnce | app/api/conversations.py:174-210 | A row whose sort key moves up the list while it is read, even onto pages already read, is returned at most once |
| Paging.StaticPagesAreTheList | app/api/conversations.py:195-210 | On a table that stays as it is the pages concatenate to the whole sorted list |
| Knowledge.NormaliseIsSingleSpaced | app/knowledge/service.py:32 | The normalised text is trimmed and has only single spaces |
| Knowledge.NormaliseIsSpacedWords | app/knowledge/service.py:32 | The normalised text is the words of the text with one space between neighbours |
| Knowledge.SplitDocument | app/knowledge/service.py:31-47 | The loop terminates and returns the trimmed texts of the windows |
| Knowledge.WindowsTile | app/knowledge/service.py:35-46 | From start to end without a gap, each window 1 to size characters, neighbours sharing the overlap or all but one character of the earlier one |
| Knowledge.WindowsEndAtSpaces | app/knowledge/service.py:37-40 | A window ends with the text, at the last space of its second half, or full when there is none |
| Knowledge.PartsAreNotBlank | app/knowledge/service.py:41-43 | No part is blank, and every window that is not blank has its trimmed text among the parts |
| Knowledge.EveryCharacterIsCovered | app/knowledge/service.py:35-46 | Every character is in some window if and only if the size is positive |
| Knowledge.OverlapAndCount | app/knowledge/service.py:37-46 | With the overlap below half a window, neighbours share exactly the overlap and there are at most ceil(length / (size // 2 - overlap)) windows |
| Knowledge.EveryWindowIsAPart | app/knowledge/service.py:41-43 | From size 2 on no window is blank, so each becomes one part |
| Tracing.KeptExactlyTheTop | app/orchestration/tracing.py:68-69 | An event is kept exactly when fewer than the limit outrank it by priority, then by age |
| Tracing.PrioritiesOfKinds | app/orchestration/tracing.py:17-31 | The priority of every named kind |
| Tracing.PrioritiesOfOthers | app/orchestration/tracing.py:44-53 | The priority of any other kind, by its prefix |
| Tracing.SelectionIsExact | app/orchestration/tracing.py:64-76 | The kept events are those, in their order, min(limit, n) of them; kept and dropped add up; the summary's counts add up to the dropped |
| Tracing.DroppedAreTheRest | app/orchestration/tracing.py:70-75 | The dropped events are all the others, in order, and the summary is of them |
| Tracing.SummaryReads | app/orchestration/tracing.py:73-75 | The summary lists each kind with the number of its events, separated by commas |
| Tracing.LexIsTheDictionary | app/orchestration/tracing.py:75 | Kinds are listed in dictionary order |
| Tracing.LlmRun.Finish | app/orchestration/tracing.py:124-167 | The run's counters are the selection's and its events are stored with numbers 1 to k, k at most 20 |

## Left out

- HTTP, Celery, Redis, Qdrant, Telegram and the model providers themselves: each is a parameter that may do anything it can do.
- SQL mechanics below the transaction: an agent action is one step, so two handlers that overwrite each other's columns without a lock are not modelled, nor is the deletion of a user who holds a conversation.
- Decimal context precision, column overflow at 1e18 credits, and floating-point rounding: money is exact integers, token-bucket time is real numbers.
- The wording of refusal and escalation reasons is shortened in places; that each is non-empty, and which one is given, is modelled.
- Provider, model code, request context, raw usage and provider request id of a usage row: stored and shown, never decided on.
- The escalation patterns: any predicate over the text takes their place. The same for the auditor and the LangGraph workers, which only turn into the draft a brain returns.
- Normalisation of provider usage payloads into token counts: only the consistency check the pricing bound needs is modelled.
- Batches that carry the same update id twice go to one conversation in `Pipeline.Answer`; several threads under one update id are not modelled.
- Outbound attachments beyond the refusal on a channel without media: the dispatcher sends text only.
- UTF-16 lengths and the differences between JavaScript's and Python's whitespace tables: one alphabet and one table serve both splitters.
- The Redis server's own clock: expiry and refill are measured on one clock, and a key is gone once a full hour has passed.
- Filters of the conversation list other than the cursor, base64 cursors, unread counts and the listing of users and names.
- Negative overlaps of the document splitter, which no caller passes.
- Login, tenancy, catalog import, knowledge ingestion around the splitter, migrations and all other frontend code.
