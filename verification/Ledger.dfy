/** Prepaid credits: wallets, usage holds and the append-only list of credit entries.

    A row's id is its position in its table. Every operation below is one transaction:
    when it reports an error, nothing of it lands. Amounts are micro-credits. */
module Ledger {
  import opened Options
  import opened Text
  import opened Pricing

  datatype Result<+T> = Ok(value: T) | Err(error: BillingError)
  datatype BillingError =
    | InvalidTopUp | ReferenceReused | ScopeMismatch | InsufficientCredits
    | NotAwaitingReconciliation | ChargeExceedsHold

  datatype Wallet = Wallet(balance: int, reserved: int)

  datatype Status = Reserved | Settled | Released | Uncertain {
    predicate IsFinal() { Settled? || Released? }
  }

  datatype Usage = Usage(
    merchant: nat, bot: nat, event: nat, update: string, pricing: Snapshot, held: int, status: Status, charged: int,
    tokens: Option<Reported>, cost: Option<int>, text: Option<string>, error: Option<string>)

  datatype Kind = TopUpEntry | UsageEntry
  datatype Entry = Entry(merchant: nat, reference: string, kind: Kind, amount: int, note: string)

  datatype State = State(wallets: map<nat, Wallet>, usages: seq<Usage>, entries: seq<Entry>)

  /** What the provider reported for a call. */
  datatype Completion = Completion(text: string, usage: Reported)

  /** A decimal handed in from outside. */
  datatype Amount = NotFinite | Finite(credits: real)

  const USAGE_PREFIX := "usage:"
  const OVERAGE_ERROR := "reported cost exceeds reserved limit; reconcile before further processing"
  const USAGE_NOTE := "model usage settled from provider token counts"

  function UsageReference(id: nat): string { USAGE_PREFIX + Digits(id) }

  predicate ValidTopUp(amount: Amount, reference: string, note: string) {
    && amount.Finite? && 0.0 < amount.credits < 1_000_000_000_000_000_000.0
    && (amount.credits * 1_000_000.0).Floor as real == amount.credits * 1_000_000.0
    && Trim(reference) != [] && |reference| <= 191 && !(USAGE_PREFIX <= reference)
    && Trim(note) != []
  }

  function EntryOf(entries: seq<Entry>, merchant: nat, reference: string): (e: Option<Entry>)
    ensures e.Some? ==> e.value in entries && e.value.merchant == merchant && e.value.reference == reference
    ensures e.None? ==> forall x :: x in entries ==> !(x.merchant == merchant && x.reference == reference)
  {
    if entries == [] then None
    else if entries[0].merchant == merchant && entries[0].reference == reference then Some(entries[0])
    else EntryOf(entries[1..], merchant, reference)
  }

  /** The usage row of one provider update, by its unique key. */
  function UsageOf(usages: seq<Usage>, event: nat, update: string): (id: Option<nat>)
    ensures id.Some? ==> id.value < |usages| && usages[id.value].event == event && usages[id.value].update == update
    ensures id.None? ==> forall u :: u in usages ==> !(u.event == event && u.update == update)
  {
    if usages == [] then None
    else
      var last := usages[|usages| - 1];
      if last.event == event && last.update == update then Some(|usages| - 1)
      else UsageOf(usages[..|usages| - 1], event, update)
  }

  /** The merchant's wallet, created empty when there is none. */
  function WalletOf(s: State, merchant: nat): Wallet {
    if merchant in s.wallets then s.wallets[merchant] else Wallet(0, 0)
  }

  function TopUp(s: State, merchant: nat, amount: Amount, reference: string, note: string): (State, Result<Entry>) {
    if !ValidTopUp(amount, reference, note) then (s, Err(InvalidTopUp)) else
    var micros := (amount.credits * 1_000_000.0).Floor;
    var wallet := WalletOf(s, merchant);
    match EntryOf(s.entries, merchant, reference)
    case Some(existing) =>
      if existing.amount != micros || existing.kind != TopUpEntry then (s, Err(ReferenceReused))
      else (s.(wallets := s.wallets[merchant := wallet]), Ok(existing))
    case None =>
      var entry := Entry(merchant, reference, TopUpEntry, micros, note);
      (State(s.wallets[merchant := wallet.(balance := wallet.balance + micros)], s.usages, s.entries + [entry]),
       Ok(entry))
  }

  datatype Reservation = Reservation(id: nat, isNew: bool)

  function Reserve(s: State, merchant: nat, bot: nat, event: nat, update: string, model: Model, credits: Denomination)
    : (State, Result<Reservation>)
  {
    var wallet := WalletOf(s, merchant);
    match UsageOf(s.usages, event, update)
    case Some(id) =>
      if s.usages[id].merchant != merchant || s.usages[id].bot != bot then (s, Err(ScopeMismatch))
      else (s.(wallets := s.wallets[merchant := wallet]), Ok(Reservation(id, false)))
    case None =>
      var held := Hold(model, credits);
      if wallet.balance - wallet.reserved < held then (s, Err(InsufficientCredits)) else
      var usage := Usage(merchant, bot, event, update, PricingSnapshot(model, credits), held, Reserved, 0, None, None,
                         None, None);
      (State(s.wallets[merchant := wallet.(reserved := wallet.reserved + held)], s.usages + [usage], s.entries),
       Ok(Reservation(|s.usages|, true)))
  }

  /** How a call ended: a completion, or an error that may or may not have been billed. */
  datatype CallOutcome = Completed(result: Completion) | Errored(uncertain: bool)

  /** The row once the provider's report is written onto it. */
  function Recorded(u: Usage, result: Completion, error: Option<string>): Usage {
    u.(error := error, text := Some(result.text), tokens := Some(result.usage),
       cost := Some(Cost(result.usage, u.pricing.rates)))
  }

  /** Whether a charge has to wait for reconciliation. */
  predicate Overage(u: Usage, wallet: Wallet, charge: int, allowOverage: bool) {
    charge > u.held && (!allowOverage || charge > wallet.balance - wallet.reserved + u.held)
  }

  function Settle(s: State, id: nat, outcome: CallOutcome, error: Option<string>, allowOverage: bool): State
    requires id < |s.usages|
  {
    var u := s.usages[id];
    if u.status.IsFinal() then s else
    var wallet := WalletOf(s, u.merchant);
    match outcome
    case Completed(result) =>
      var charge := Price(result.usage, u.pricing);
      if Overage(u, wallet, charge, allowOverage) then
        s.(usages := s.usages[id := Recorded(u, result, Some(OVERAGE_ERROR)).(status := Uncertain)],
           wallets := s.wallets[u.merchant := wallet])
      else
        State(s.wallets[u.merchant := Wallet(wallet.balance - charge, wallet.reserved - u.held)],
              s.usages[id := Recorded(u, result, error).(status := Settled, charged := charge)],
              s.entries + [Entry(u.merchant, UsageReference(id), UsageEntry, -charge, USAGE_NOTE)])
    case Errored(true) =>
      s.(usages := s.usages[id := u.(error := error, status := Uncertain)], wallets := s.wallets[u.merchant := wallet])
    case Errored(false) =>
      s.(usages := s.usages[id := u.(error := error, status := Released)],
         wallets := s.wallets[u.merchant := wallet.(reserved := wallet.reserved - u.held)])
  }

  /** The operator's way out of `reserved` and `uncertain`: a verified charge, or none. */
  function Reconcile(s: State, id: nat, verified: Option<Reported>, note: string): (State, Result<Status>) {
    if |s.usages| <= id || s.usages[id].status.IsFinal() then (s, Err(NotAwaitingReconciliation)) else
    var text := if s.usages[id].text.Some? then s.usages[id].text.value else "";
    var outcome := if verified.Some? then Completed(Completion(text, verified.value)) else Errored(false);
    var s' := Settle(s, id, outcome, Some("operator reconciliation: " + note), true);
    if s'.usages[id].status.Uncertain? then (s, Err(ChargeExceedsHold)) else (s', Ok(s'.usages[id].status))
  }
}
