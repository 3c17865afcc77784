/** Runs of ledger transactions: any interleaving of top-ups, reservations, settlements by
    workers and reconciliations by operators, with any catalog in force at each step. */
module LedgerRuns {
  import opened Options
  import opened Text
  import opened Pricing
  import opened Ledger
  import opened LedgerInvariant

  datatype Op =
    | TopUpOp(merchant: nat, amount: Amount, reference: string, note: string)
    | ReserveOp(merchant: nat, bot: nat, event: nat, update: string, model: Model, credits: Denomination)
    | SettleOp(id: nat, outcome: CallOutcome, error: Option<string>)
    | ReconcileOp(id: nat, verified: Option<Reported>, note: string)

  function Apply(s: State, op: Op): State {
    match op
    case TopUpOp(m, amount, reference, note) => TopUp(s, m, amount, reference, note).0
    case ReserveOp(m, bot, event, update, model, credits) => Reserve(s, m, bot, event, update, model, credits).0
    case SettleOp(id, outcome, error) => if id < |s.usages| then Settle(s, id, outcome, error, false) else s
    case ReconcileOp(id, verified, note) => Reconcile(s, id, verified, note).0
  }

  function Run(s: State, ops: seq<Op>): State
    decreases |ops|
  {
    if ops == [] then s else Run(Apply(s, ops[0]), ops[1..])
  }

  lemma ApplyKeepsInv(s: State, op: Op)
    requires Inv(s)
    ensures Inv(Apply(s, op))
  {
    match op
    case TopUpOp(m, amount, reference, note) => TopUpKeepsInv(s, m, amount, reference, note);
    case ReserveOp(m, bot, event, update, model, credits) => ReserveKeepsInv(s, m, bot, event, update, model, credits);
    case SettleOp(id, outcome, error) => if id < |s.usages| { SettleKeepsInv(s, id, outcome, error, false); }
    case ReconcileOp(id, verified, note) => ReconcileKeepsInv(s, id, verified, note);
  }

  /** Every reachable ledger satisfies the invariant. */
  lemma {:induction false} RunKeepsInv(s: State, ops: seq<Op>)
    requires Inv(s)
    ensures Inv(Run(s, ops))
    decreases |ops|
  {
    hide Inv, Apply;
    if ops != [] {
      ApplyKeepsInv(s, ops[0]);
      RunKeepsInv(Apply(s, ops[0]), ops[1..]);
    }
  }

  // ----- what no later step can change -----

  /** Whose call it is, the prices it was reserved at and its hold are fixed; a settled or
      released row is fixed altogether; no other row goes back to `reserved`. */
  predicate RowKept(u: Usage, v: Usage) {
    && v.merchant == u.merchant && v.bot == u.bot && v.event == u.event && v.update == u.update
    && v.pricing == u.pricing && v.held == u.held
    && (u.status.IsFinal() ==> v == u)
    && (v.status.Reserved? ==> v == u)
  }

  ghost predicate Later(s: State, t: State) {
    && s.entries <= t.entries && |s.usages| <= |t.usages|
    && s.wallets.Keys <= t.wallets.Keys
    && forall id :: 0 <= id < |s.usages| ==> RowKept(s.usages[id], t.usages[id])
  }

  lemma SettleIsLater(s: State, id: nat, outcome: CallOutcome, error: Option<string>, allowOverage: bool)
    requires id < |s.usages|
    ensures Later(s, Settle(s, id, outcome, error, allowOverage))
  {
  }

  lemma {:induction false} ApplyIsLater(s: State, op: Op)
    ensures Later(s, Apply(s, op))
  {
    hide Price, Cost, Digits, Hold, Trim, Settle;
    match op
    case TopUpOp(m, amount, reference, note) =>
    case ReserveOp(m, bot, event, update, model, credits) =>
    case SettleOp(id, outcome, error) => if id < |s.usages| { SettleIsLater(s, id, outcome, error, false); }
    case ReconcileOp(id, verified, note) =>
      if id < |s.usages| {
        var text := if s.usages[id].text.Some? then s.usages[id].text.value else "";
        var outcome := if verified.Some? then Completed(Completion(text, verified.value)) else Errored(false);
        SettleIsLater(s, id, outcome, Some("operator reconciliation: " + note), true);
      }
  }

  lemma {:induction false} RunIsLater(s: State, ops: seq<Op>)
    ensures Later(s, Run(s, ops))
    decreases |ops|
  {
    hide Apply;
    if ops != [] {
      var t := Apply(s, ops[0]);
      ApplyIsLater(s, ops[0]);
      RunIsLater(t, ops[1..]);
    }
  }

  // ----- a usage moves money at most once -----

  /** Entry `i` carries the reference of row `id`. */
  predicate Refers(s: State, i: int, id: nat) {
    0 <= i < |s.entries| && s.entries[i].reference == UsageReference(id)
  }

  /** A row has exactly one entry under its reference once it is settled, none otherwise, and
      no top-up can ever take that reference. */
  lemma OneEntryPerSettlement(s: State, id: nat)
    requires Inv(s) && id < |s.usages|
    ensures forall i, j :: Refers(s, i, id) && Refers(s, j, id) ==> i == j
    ensures (exists i :: Refers(s, i, id)) <==> s.usages[id].status.Settled?
    ensures forall e :: e in s.entries && e.reference == UsageReference(id) ==> Settles(s, id, e)
  {
    assert RowFits(s, id);
    UsageReferencesDiffer(id, id);
    forall e | e in s.entries && e.reference == UsageReference(id) ensures Settles(s, id, e) {
      assert EntryFits(s, e);
      var k :| 0 <= k < |s.usages| && Settles(s, k, e);
      UsageReferencesDiffer(id, k);
    }
    forall i, j | Refers(s, i, id) && Refers(s, j, id) ensures i == j {
      assert Settles(s, id, s.entries[i]) && Settles(s, id, s.entries[j]);
    }
    if s.usages[id].status.Settled? {
      var e := Entry(s.usages[id].merchant, UsageReference(id), UsageEntry, -s.usages[id].charged, USAGE_NOTE);
      assert e in s.entries;
      var i :| 0 <= i < |s.entries| && s.entries[i] == e;
      assert Refers(s, i, id);
    }
  }

  /** Once a call is settled or released, no run touches it again: same row, same entries
      under its reference, whatever the catalog, the workers and the operators do. */
  lemma FinalForever(s: State, id: nat, ops: seq<Op>)
    requires Inv(s) && id < |s.usages| && s.usages[id].status.IsFinal()
    ensures var t := Run(s, ops);
            && id < |t.usages| && t.usages[id] == s.usages[id]
            && forall e: Entry :: e.reference == UsageReference(id) ==> (e in t.entries <==> e in s.entries)
  {
    var t := Run(s, ops);
    RunKeepsInv(s, ops);
    RunIsLater(s, ops);
    forall e | e in t.entries && e.reference == UsageReference(id) ensures e in s.entries {
      OneEntryPerSettlement(t, id);
      assert Settles(t, id, e);
      assert RowFits(s, id);
    }
  }

  // ----- repeats -----

  lemma EntryOfPrefix(entries: seq<Entry>, more: seq<Entry>, m: nat, reference: string)
    requires entries <= more && EntryOf(entries, m, reference).Some?
    ensures EntryOf(more, m, reference) == EntryOf(entries, m, reference)
  {
    if entries[0].merchant != m || entries[0].reference != reference {
      EntryOfPrefix(entries[1..], more[1..], m, reference);
    }
  }

  lemma EntryOfLast(entries: seq<Entry>, e: Entry)
    requires EntryOf(entries, e.merchant, e.reference).None?
    ensures EntryOf(entries + [e], e.merchant, e.reference) == Some(e)
  {
    if entries != [] {
      assert (entries + [e])[1..] == entries[1..] + [e];
      EntryOfLast(entries[1..], e);
    }
  }

  lemma TopUpLeavesItsEntry(s: State, m: nat, amount: Amount, reference: string, note: string)
    requires TopUp(s, m, amount, reference, note).1.Ok?
    ensures var (t, r) := TopUp(s, m, amount, reference, note);
            && ValidTopUp(amount, reference, note) && EntryOf(t.entries, m, reference) == Some(r.value)
            && r.value.kind == TopUpEntry && r.value.amount == (amount.credits * 1_000_000.0).Floor
  {
    hide Trim;
    var (t, r) := TopUp(s, m, amount, reference, note);
    if EntryOf(s.entries, m, reference).None? { EntryOfLast(s.entries, r.value); }
  }

  lemma TopUpAgain(t: State, m: nat, amount: Amount, reference: string, note: string, e: Entry)
    requires ValidTopUp(amount, reference, note) && m in t.wallets
    requires EntryOf(t.entries, m, reference) == Some(e) && e.kind == TopUpEntry
    ensures TopUp(t, m, amount, reference, note)
            == (t, if e.amount == (amount.credits * 1_000_000.0).Floor then Ok(e) else Err(ReferenceReused))
  {
    hide Trim;
    assert t.wallets[m := WalletOf(t, m)] == t.wallets;
  }

  /** A payment reference credits once: repeating an accepted top-up at any later time returns
      the same entry and changes nothing, and the same reference never buys another amount. */
  lemma {:induction false} TopUpCreditsOnce(s: State, m: nat, amount: Amount, reference: string, note: string,
                                            ops: seq<Op>, amount': Amount, note': string)
    requires TopUp(s, m, amount, reference, note).1.Ok?
    ensures var (s', r) := TopUp(s, m, amount, reference, note);
            var t := Run(s', ops);
            && TopUp(t, m, amount, reference, note) == (t, r)
            && (ValidTopUp(amount', reference, note') && amount' != amount
                ==> TopUp(t, m, amount', reference, note') == (t, Err(ReferenceReused)))
  {
    hide Run, EntryOf, ValidTopUp;
    var (s', r) := TopUp(s, m, amount, reference, note);
    var t := Run(s', ops);
    TopUpLeavesItsEntry(s, m, amount, reference, note);
    RunIsLater(s', ops);
    EntryOfPrefix(s'.entries, t.entries, m, reference);
    TopUpAgain(t, m, amount, reference, note, r.value);
    if ValidTopUp(amount', reference, note') && amount' != amount {
      OtherMicros(amount, amount', reference, note, note');
      TopUpAgain(t, m, amount', reference, note', r.value);
    }
  }

  lemma OtherMicros(a: Amount, b: Amount, reference: string, note: string, note': string)
    requires ValidTopUp(a, reference, note) && ValidTopUp(b, reference, note') && a != b
    ensures (a.credits * 1_000_000.0).Floor != (b.credits * 1_000_000.0).Floor
  {
    hide Trim;
  }

  lemma UsageOfKey(usages: seq<Usage>, id: nat)
    requires id < |usages|
    requires forall i, j :: 0 <= i < j < |usages| ==>
               !(usages[i].event == usages[j].event && usages[i].update == usages[j].update)
    ensures UsageOf(usages, usages[id].event, usages[id].update) == Some(id)
  {
  }

  /** A provider update is reserved once: at any later time the same reservation finds the
      same row, under whatever model and denomination are then in force. */
  lemma ReserveFindsItsRow(s: State, m: nat, bot: nat, event: nat, update: string, model: Model, credits: Denomination,
                           ops: seq<Op>, model': Model, credits': Denomination)
    requires Inv(s) && Reserve(s, m, bot, event, update, model, credits).1.Ok?
    ensures var (s', r) := Reserve(s, m, bot, event, update, model, credits);
            var t := Run(s', ops);
            Reserve(t, m, bot, event, update, model', credits') == (t, Ok(Reservation(r.value.id, false)))
  {
    hide Hold, Price;
    var (s', r) := Reserve(s, m, bot, event, update, model, credits);
    var t := Run(s', ops);
    ReserveKeepsInv(s, m, bot, event, update, model, credits);
    RunKeepsInv(s', ops);
    RunIsLater(s', ops);
    assert RowKept(s'.usages[r.value.id], t.usages[r.value.id]);
    UsageOfKey(t.usages, r.value.id);
    assert t.wallets[m := WalletOf(t, m)] == t.wallets;
  }

  // ----- what each transaction does -----

  /** Every other merchant's funds and every other row are as they were. */
  ghost predicate OnlyTouches(s: State, t: State, m: nat, id: nat) {
    && (forall x :: x != m ==> WalletOf(t, x) == WalletOf(s, x))
    && |s.usages| <= |t.usages| && (forall i :: 0 <= i < |s.usages| && i != id ==> t.usages[i] == s.usages[i])
  }

  /** The charge can be paid out of what is not held for other calls. */
  predicate Covered(s: State, u: Usage, charge: int) {
    var wallet := WalletOf(s, u.merchant);
    charge <= wallet.balance - (wallet.reserved - u.held)
  }

  /** When an open row's settlement ends how, and what it moves:
      - a completed call settles exactly when its charge is within the hold or, with overage
        allowed, can be paid all the same; then the charge leaves the balance, the hold leaves the
        reserve and one entry is added;
      - a completed call that does not settle is uncertain, with its tokens on record;
      - a call that failed for certain is released: its hold leaves the reserve and nothing else moves;
      - a call that failed uncertainly is uncertain, and no money moves. */
  lemma SettleOutcomes(s: State, id: nat, outcome: CallOutcome, error: Option<string>, allowOverage: bool)
    requires id < |s.usages| && !s.usages[id].status.IsFinal()
    ensures var t := Settle(s, id, outcome, error, allowOverage);
            var u, v := s.usages[id], t.usages[id];
            var before, after := WalletOf(s, u.merchant), WalletOf(t, u.merchant);
            && |t.usages| == |s.usages| && OnlyTouches(s, t, u.merchant, id) && u.merchant in t.wallets
            && (v.status.Released? <==> outcome == Errored(false))
            && (v.status.Settled? <==>
                  && outcome.Completed?
                  && var charge := Price(outcome.result.usage, u.pricing);
                     charge <= u.held || (allowOverage && Covered(s, u, charge)))
            && (v.status.Uncertain? <==> !v.status.Released? && !v.status.Settled?)
            && (v.status.Uncertain? ==> after == before && t.entries == s.entries && v.charged == u.charged)
            && (v.status.Released? ==>
                  after == Wallet(before.balance, before.reserved - u.held) && t.entries == s.entries)
            && (v.status.Settled? ==>
                  && v.charged == Price(outcome.result.usage, u.pricing)
                  && after == Wallet(before.balance - v.charged, before.reserved - u.held)
                  && t.entries
                     == s.entries + [Entry(u.merchant, UsageReference(id), UsageEntry, -v.charged, USAGE_NOTE)])
            && v.error == (if outcome.Completed? && v.status.Uncertain? then Some(OVERAGE_ERROR) else error)
            && (if outcome.Completed? then
                  && v.tokens == Some(outcome.result.usage) && v.text == Some(outcome.result.text)
                  && v.cost == Some(Cost(outcome.result.usage, u.pricing.rates))
                else v.tokens == u.tokens && v.text == u.text && v.cost == u.cost)
  {
    hide Price, Cost, Digits;
  }

  /** So an uncertain call keeps its hold: nobody's open holds or credits change. */
  lemma UncertainCallKeepsItsHold(s: State, id: nat, error: Option<string>, allowOverage: bool, m: nat)
    requires id < |s.usages| && !s.usages[id].status.IsFinal()
    ensures var t := Settle(s, id, Errored(true), error, allowOverage);
            && t.usages[id].status.Uncertain?
            && HeldBy(t.usages, m) == HeldBy(s.usages, m) && Credited(t.entries, m) == Credited(s.entries, m)
            && WalletOf(t, m) == WalletOf(s, m)
  {
    hide Price, Cost, Digits, HeldBy, Credited;
    var u := s.usages[id];
    HeldByUpdate(s.usages, id, Settle(s, id, Errored(true), error, allowOverage).usages[id], m);
  }

  /** A reconciliation is refused unless the row is open and its charge, if any, can be paid;
      without a charge it releases the row, with one it settles it for the verified tokens and
      keeps the text of the answer. */
  lemma ReconcileOutcomes(s: State, id: nat, verified: Option<Reported>, note: string)
    requires Inv(s)
    ensures var (t, r) := Reconcile(s, id, verified, note);
            && (r.Err? ==> t == s)
            && (r == Err(NotAwaitingReconciliation) <==> |s.usages| <= id || s.usages[id].status.IsFinal())
            && (r.Ok? ==>
                  && id < |t.usages| && r.value == t.usages[id].status
                  && (r.value.Released? <==> verified.None?) && (r.value.Settled? <==> verified.Some?)
                  && (verified.Some? ==>
                        && t.usages[id].tokens == verified
                        && t.usages[id].charged == Price(verified.value, s.usages[id].pricing)
                        && t.usages[id].text == (if s.usages[id].text.Some? then s.usages[id].text else Some(""))))
            && (id < |s.usages| && !s.usages[id].status.IsFinal() && verified.None? ==> r == Ok(Released))
  {
    hide Price, Cost, Settle, Inv;
    if id < |s.usages| && !s.usages[id].status.IsFinal() {
      var text := if s.usages[id].text.Some? then s.usages[id].text.value else "";
      var outcome := if verified.Some? then Completed(Completion(text, verified.value)) else Errored(false);
      SettleOutcomes(s, id, outcome, Some("operator reconciliation: " + note), true);
    }
  }

  /** A whole number of micro-credits, above nothing and below 1e18 credits. */
  ghost predicate IsMicros(amount: Amount, micros: int) {
    && amount.Finite? && 0 < micros && amount.credits * 1_000_000.0 == micros as real
    && micros < 1_000_000_000_000_000_000_000_000
  }

  ghost predicate HasVisible(s: string) {
    exists i :: 0 <= i < |s| && !IsSpace(s[i])
  }

  lemma TrimmedAway(s: string)
    ensures Trim(s) != [] <==> HasVisible(s)
  {
    hide Trim, SkipSpace, SpaceBefore;
    var a, e := Lead(s), SpaceBefore(s, |s|);
    SkipForward(s, 0);
    SkipBack(s, |s|);
    if a < e {
      TrimIs(s, a, e);
      assert !IsSpace(s[a]);
    } else {
      assert forall i :: 0 <= i < |s| ==> IsSpace(s[i]);
      TrimIs(s, 0, 0);
    }
  }

  /** What a top-up must be: a positive, whole number of micro-credits, with a reference and a
      note to read, the reference neither too long nor one of the settlements' own. */
  lemma TopUpIsAcceptedExactly(s: State, m: nat, amount: Amount, reference: string, note: string)
    ensures var (t, r) := TopUp(s, m, amount, reference, note);
            && (r == Err(InvalidTopUp) <==>
                  !(exists micros :: IsMicros(amount, micros)) || !HasVisible(reference) || 191 < |reference|
                  || USAGE_PREFIX <= reference || !HasVisible(note))
            && (r.Err? ==> t == s)
  {
    hide Trim, EntryOf;
    TrimmedAway(reference);
    TrimmedAway(note);
    if amount.Finite? {
      var floor := (amount.credits * 1_000_000.0).Floor;
      assert ValidTopUp(amount, reference, note) ==> IsMicros(amount, floor);
    }
  }

  /** A top-up under a new reference adds its amount to the one balance and is entered once. */
  lemma TopUpCredits(s: State, m: nat, amount: Amount, micros: int, reference: string, note: string)
    requires ValidTopUp(amount, reference, note) && IsMicros(amount, micros) && EntryOf(s.entries, m, reference).None?
    ensures var (t, r) := TopUp(s, m, amount, reference, note);
            && WalletOf(t, m) == Wallet(WalletOf(s, m).balance + micros, WalletOf(s, m).reserved)
            && OnlyTouches(s, t, m, |s.usages|) && t.usages == s.usages
            && r == Ok(Entry(m, reference, TopUpEntry, micros, note)) && t.entries == s.entries + [r.value]
  {
    hide Trim, EntryOf;
  }

  /** A reservation for a new update succeeds exactly when the hold is free, and then sets it
      aside for one new row; for a known update it is refused exactly to another merchant or bot. */
  lemma ReserveOutcomes(s: State, m: nat, bot: nat, event: nat, update: string, model: Model, credits: Denomination)
    ensures var (t, r) := Reserve(s, m, bot, event, update, model, credits);
            var id := UsageOf(s.usages, event, update);
            var before, hold := WalletOf(s, m), Hold(model, credits);
            && (r.Err? ==> t == s) && (r.Ok? ==> m in t.wallets)
            && t.entries == s.entries && OnlyTouches(s, t, m, |s.usages|)
            && (if id.Some? then
                  && (r == Ok(Reservation(id.value, false)) <==>
                        s.usages[id.value].merchant == m && s.usages[id.value].bot == bot)
                  && (r.Err? ==> r.error == ScopeMismatch) && (r.Ok? ==> !r.value.isNew)
                  && t.usages == s.usages && WalletOf(t, m) == before
                else
                  && (r == Ok(Reservation(|s.usages|, true)) <==> hold <= before.balance - before.reserved)
                  && (r.Err? ==> r.error == InsufficientCredits)
                  && (r.Ok? ==>
                        && r.value.isNew && WalletOf(t, m) == Wallet(before.balance, before.reserved + hold)
                        && |t.usages| == |s.usages| + 1 && var u := t.usages[|s.usages|];
                        && u.merchant == m && u.bot == bot && u.event == event && u.update == update
                        && u.held == hold && u.status.Reserved? && u.charged == 0
                        && u.pricing == PricingSnapshot(model, credits)
                        && u.tokens.None? && u.cost.None? && u.text.None? && u.error.None?))
  {
    hide Hold, UsageOf;
  }

  // ----- the hold is enough -----

  /** Row `id` was reserved by merchant `m` for a call of this model at this denomination. */
  predicate ReservedFor(s: State, id: nat, m: nat, model: Model, credits: Denomination) {
    && id < |s.usages| && s.usages[id].merchant == m
    && s.usages[id].pricing == PricingSnapshot(model, credits) && s.usages[id].held == Hold(model, credits)
  }

  /** The terms of a reservation last, whatever is later done to the catalog. */
  lemma ReservationLasts(s: State, m: nat, bot: nat, event: nat, update: string, model: Model, credits: Denomination,
                         ops: seq<Op>)
    requires UsageOf(s.usages, event, update).None? && Reserve(s, m, bot, event, update, model, credits).1.Ok?
    ensures ReservedFor(Run(Reserve(s, m, bot, event, update, model, credits).0, ops), |s.usages|, m, model, credits)
  {
    hide Price, Hold;
    var s' := Reserve(s, m, bot, event, update, model, credits).0;
    RunIsLater(s', ops);
    assert RowKept(s'.usages[|s.usages|], Run(s', ops).usages[|s.usages|]);
  }

  /** While its row is open, a call within its model's limits settles, at its exact price: it
      never waits for reconciliation. */
  lemma CallWithinLimitsSettles(s: State, id: nat, m: nat, model: Model, credits: Denomination,
                                result: Completion, error: Option<string>, allowOverage: bool)
    requires ReservedFor(s, id, m, model, credits) && !s.usages[id].status.IsFinal()
    requires WithinLimits(result.usage, model)
    ensures var charge, held := Price(result.usage, PricingSnapshot(model, credits)), s.usages[id].held;
            var t, wallet := Settle(s, id, Completed(result), error, allowOverage), WalletOf(s, m);
            && t.usages[id].status.Settled? && t.usages[id].charged == charge <= held
            && t.wallets == s.wallets[m := Wallet(wallet.balance - charge, wallet.reserved - held)]
            && t.entries == s.entries + [Entry(m, UsageReference(id), UsageEntry, -charge, USAGE_NOTE)]
  {
    hide Price, Hold;
    HoldIsTheMaximum(result.usage, model, credits);
  }

  /** Whether the funds constraint of the wallet table would still hold after a charge. */
  predicate Affordable(s: State, u: Usage, charge: int) {
    var wallet := WalletOf(s, u.merchant);
    0 <= wallet.reserved - u.held <= wallet.balance - charge
  }

  /** An operator's verified charge is refused exactly when paying it would break the funds
      constraint, and a refusal commits nothing. */
  lemma ReconcileRefusesExactlyTheUnaffordable(s: State, id: nat, verified: Reported, note: string)
    requires Inv(s) && id < |s.usages| && !s.usages[id].status.IsFinal()
    ensures var u := s.usages[id];
            var charge := Price(verified, u.pricing);
            var (t, r) := Reconcile(s, id, Some(verified), note);
            && (r == Ok(Settled) <==> Affordable(s, u, charge))
            && (r == Err(ChargeExceedsHold) <==> !Affordable(s, u, charge))
            && (r.Err? ==> t == s)
  {
    hide Price;
    var u := s.usages[id];
    assert WalletBalances(s, u.merchant);
    HeldByAtLeast(s.usages, id, u.merchant);
  }
}
