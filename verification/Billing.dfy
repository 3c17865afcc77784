/** The billing transactions as they run: tables updated in place, rolled back on an error. */
module Billing {
  import opened Options
  import opened Text
  import opened Pricing
  import opened Ledger
  import opened LedgerInvariant

  class CreditStore {
    var wallets: map<nat, Wallet>
    var usages: seq<Usage>
    var entries: seq<Entry>

    /** The committed tables. */
    function Committed(): State
      reads this
    {
      State(wallets, usages, entries)
    }

    constructor ()
      ensures Committed() == State(map[], [], []) && Inv(Committed())
    {
      wallets, usages, entries := map[], [], [];
      new;
      EmptyInv();
    }

    /** Insert the wallet if it is missing, then read it under its lock. */
    method LockedWallet(merchant: nat) returns (wallet: Wallet)
      modifies this`wallets
      ensures wallet == WalletOf(old(Committed()), merchant)
      ensures wallets == old(wallets)[merchant := wallet]
    {
      if merchant !in wallets {
        wallets := wallets[merchant := Wallet(0, 0)];
      }
      wallet := wallets[merchant];
    }

    method TopUpCredits(merchant: nat, amount: Amount, reference: string, note: string) returns (r: Result<Entry>)
      requires Inv(Committed())
      modifies this
      ensures (Committed(), r) == TopUp(old(Committed()), merchant, amount, reference, note)
      ensures Inv(Committed())
    {
      hide Inv, EntryOf;
      TopUpKeepsInv(Committed(), merchant, amount, reference, note);
      if !ValidTopUp(amount, reference, note) { return Err(InvalidTopUp); }
      var before := wallets;
      var wallet := LockedWallet(merchant);
      var micros := (amount.credits * 1_000_000.0).Floor;
      var existing := EntryOf(entries, merchant, reference);
      if existing.Some? {
        if existing.value.amount != micros || existing.value.kind != TopUpEntry {
          wallets := before;
          return Err(ReferenceReused);
        }
        return Ok(existing.value);
      }
      wallets := wallets[merchant := wallet.(balance := wallet.balance + micros)];
      assert wallets == before[merchant := wallet.(balance := wallet.balance + micros)];
      var entry := Entry(merchant, reference, TopUpEntry, micros, note);
      entries := entries + [entry];
      return Ok(entry);
    }

    method ReserveCredits(merchant: nat, bot: nat, event: nat, update: string, model: Model, credits: Denomination)
      returns (r: Result<Reservation>)
      requires Inv(Committed())
      modifies this
      ensures (Committed(), r) == Reserve(old(Committed()), merchant, bot, event, update, model, credits)
      ensures Inv(Committed())
    {
      hide Inv, UsageOf, Price;
      ReserveKeepsInv(Committed(), merchant, bot, event, update, model, credits);
      var before := wallets;
      var wallet := LockedWallet(merchant);
      var existing := UsageOf(usages, event, update);
      if existing.Some? {
        var usage := usages[existing.value];
        if usage.merchant != merchant || usage.bot != bot {
          wallets := before;
          return Err(ScopeMismatch);
        }
        return Ok(Reservation(existing.value, false));
      }
      var held := Hold(model, credits);
      if wallet.balance - wallet.reserved < held {
        wallets := before;
        return Err(InsufficientCredits);
      }
      wallets := wallets[merchant := wallet.(reserved := wallet.reserved + held)];
      assert wallets == before[merchant := wallet.(reserved := wallet.reserved + held)];
      usages := usages + [Usage(merchant, bot, event, update, PricingSnapshot(model, credits), held, Reserved, 0, None,
                                None, None, None)];
      return Ok(Reservation(|usages| - 1, true));
    }

    method SettleUsage(id: nat, outcome: CallOutcome, error: Option<string>, allowOverage: bool) returns (row: Usage)
      requires Inv(Committed()) && id < |usages|
      modifies this
      ensures Committed() == Settle(old(Committed()), id, outcome, error, allowOverage)
      ensures id < |usages| && row == usages[id] && Inv(Committed())
    {
      hide Inv, Price, Cost, Digits;
      SettleKeepsInv(Committed(), id, outcome, error, allowOverage);
      row := usages[id];
      if row.status.IsFinal() { return; }
      var wallet := LockedWallet(row.merchant);
      row := row.(error := error);
      match outcome {
        case Completed(result) =>
          row := Recorded(row, result, error);
          var charge := Price(result.usage, row.pricing);
          if charge > row.held && (!allowOverage || charge > wallet.balance - wallet.reserved + row.held) {
            row := row.(status := Uncertain, error := Some(OVERAGE_ERROR));
          } else {
            row := row.(charged := charge, status := Settled);
            wallets := wallets[row.merchant := Wallet(wallet.balance - charge, wallet.reserved - row.held)];
            entries := entries + [Entry(row.merchant, UsageReference(id), UsageEntry, -charge, USAGE_NOTE)];
          }
        case Errored(true) =>
          row := row.(status := Uncertain);
        case Errored(false) =>
          wallets := wallets[row.merchant := wallet.(reserved := wallet.reserved - row.held)];
          row := row.(status := Released);
      }
      usages := usages[id := row];
    }

    method ReconcileUsage(id: nat, verified: Option<Reported>, note: string) returns (r: Result<Status>)
      requires Inv(Committed())
      modifies this
      ensures (Committed(), r) == Reconcile(old(Committed()), id, verified, note)
      ensures Inv(Committed())
    {
      hide Inv, Settle;
      if |usages| <= id || usages[id].status.IsFinal() { return Err(NotAwaitingReconciliation); }
      var before := Committed();
      var outcome := Errored(false);
      if verified.Some? {
        var text := if usages[id].text.Some? then usages[id].text.value else "";
        outcome := Completed(Completion(text, verified.value));
      }
      var settled := SettleUsage(id, outcome, Some("operator reconciliation: " + note), true);
      if settled.status.Uncertain? {
        wallets, usages, entries := before.wallets, before.usages, before.entries;
        return Err(ChargeExceedsHold);
      }
      return Ok(settled.status);
    }
  }
}
