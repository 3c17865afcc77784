/** What every committed ledger transaction keeps, and what holds over every run of them. */
module LedgerInvariant {
  import opened Options
  import opened Text
  import opened Pricing
  import opened Ledger

  // ----- conservation -----

  function Credited(entries: seq<Entry>, merchant: nat): int {
    if entries == [] then 0
    else
      var last := entries[|entries| - 1];
      Credited(entries[..|entries| - 1], merchant) + if last.merchant == merchant then last.amount else 0
  }

  /** What a row still holds of its merchant's credits. */
  function OpenHold(u: Usage, merchant: nat): int {
    if u.merchant == merchant && !u.status.IsFinal() then u.held else 0
  }

  function HeldBy(usages: seq<Usage>, merchant: nat): int {
    if usages == [] then 0
    else HeldBy(usages[..|usages| - 1], merchant) + OpenHold(usages[|usages| - 1], merchant)
  }

  ghost predicate WalletBalances(s: State, m: nat) {
    && WalletOf(s, m).balance == Credited(s.entries, m)
    && WalletOf(s, m).reserved == HeldBy(s.usages, m)
    && 0 <= WalletOf(s, m).reserved <= WalletOf(s, m).balance
  }

  /** The balance is the sum of the entries, the reserve the sum of the open holds, and the
      table constraint on the funds holds. */
  ghost predicate Balanced(s: State) {
    forall m :: WalletBalances(s, m)
  }

  ghost predicate HoldsNonNegative(s: State) {
    forall i :: 0 <= i < |s.usages| ==> 0 <= s.usages[i].held
  }

  // ----- rows and references -----

  ghost predicate KeysUnique(s: State) {
    && (forall i, j :: 0 <= i < j < |s.usages| ==>
          !(s.usages[i].event == s.usages[j].event && s.usages[i].update == s.usages[j].update))
    && (forall i, j :: 0 <= i < j < |s.entries| ==>
          !(s.entries[i].merchant == s.entries[j].merchant && s.entries[i].reference == s.entries[j].reference))
  }

  /** An entry is a top-up under a reference of its own or the settlement of one usage. */
  ghost predicate EntryFits(s: State, e: Entry) {
    match e.kind
    case TopUpEntry => 0 < e.amount && !(USAGE_PREFIX <= e.reference)
    case UsageEntry => exists id :: 0 <= id < |s.usages| && Settles(s, id, e)
  }

  /** Entry `e` is the charge of row `id`: the price of its recorded tokens at its own snapshot. */
  ghost predicate Settles(s: State, id: nat, e: Entry)
    requires id < |s.usages|
  {
    var u := s.usages[id];
    && u.status.Settled? && u.tokens.Some?
    && u.charged == Price(u.tokens.value, u.pricing) && u.cost == Some(Cost(u.tokens.value, u.pricing.rates))
    && e == Entry(u.merchant, UsageReference(id), UsageEntry, -u.charged, USAGE_NOTE)
  }

  /** A settled row has its entry; any other row has charged nothing. */
  ghost predicate RowFits(s: State, id: nat)
    requires id < |s.usages|
  {
    var u := s.usages[id];
    if u.status.Settled? then
      var e := Entry(u.merchant, UsageReference(id), UsageEntry, -u.charged, USAGE_NOTE);
      e in s.entries && Settles(s, id, e)
    else u.charged == 0
  }

  ghost predicate RowsFit(s: State) {
    && (forall id :: 0 <= id < |s.usages| ==> RowFits(s, id))
    && (forall e :: e in s.entries ==> EntryFits(s, e))
  }

  ghost predicate Inv(s: State) {
    Balanced(s) && HoldsNonNegative(s) && KeysUnique(s) && RowsFit(s)
  }

  // ----- sums -----

  lemma {:induction false} HeldByUpdate(us: seq<Usage>, id: nat, u: Usage, m: nat)
    requires id < |us|
    ensures HeldBy(us[id := u], m) == HeldBy(us, m) - OpenHold(us[id], m) + OpenHold(u, m)
  {
    var n := |us| - 1;
    var vs := us[id := u];
    if id == n {
      assert vs[..n] == us[..n];
    } else {
      assert vs[..n] == us[..n][id := u];
      HeldByUpdate(us[..n], id, u, m);
    }
  }

  lemma {:induction false} HeldByAtLeast(us: seq<Usage>, id: nat, m: nat)
    requires id < |us| && forall i :: 0 <= i < |us| ==> 0 <= us[i].held
    ensures OpenHold(us[id], m) <= HeldBy(us, m)
  {
    var n := |us| - 1;
    HeldByNonNegative(us[..n], m);
    if id < n { HeldByAtLeast(us[..n], id, m); }
  }

  lemma HeldByNonNegative(us: seq<Usage>, m: nat)
    requires forall i :: 0 <= i < |us| ==> 0 <= us[i].held
    ensures 0 <= HeldBy(us, m)
  {
  }

  lemma CreditedAppend(entries: seq<Entry>, e: Entry, m: nat)
    ensures Credited(entries + [e], m) == Credited(entries, m) + if e.merchant == m then e.amount else 0
  {
    assert (entries + [e])[..|entries|] == entries;
  }

  lemma HeldByAppend(us: seq<Usage>, u: Usage, m: nat)
    ensures HeldBy(us + [u], m) == HeldBy(us, m) + OpenHold(u, m)
  {
    assert (us + [u])[..|us|] == us;
  }

  // ----- references -----

  lemma UsageReferencesDiffer(a: nat, b: nat)
    ensures USAGE_PREFIX <= UsageReference(a)
    ensures UsageReference(a) == UsageReference(b) ==> a == b
  {
    if UsageReference(a) == UsageReference(b) {
      assert UsageReference(a)[|USAGE_PREFIX|..] == Digits(a);
      assert UsageReference(b)[|USAGE_PREFIX|..] == Digits(b);
      DigitsDenote(a);
      DigitsDenote(b);
    }
  }

  /** No entry carries the reference of a row that is not settled. */
  lemma OpenRowHasNoEntry(s: State, id: nat, e: Entry)
    requires RowsFit(s) && id < |s.usages| && !s.usages[id].status.Settled? && e in s.entries
    ensures e.reference != UsageReference(id)
  {
    assert EntryFits(s, e);
    UsageReferencesDiffer(id, id);
    if e.kind.UsageEntry? {
      var k :| 0 <= k < |s.usages| && Settles(s, k, e);
      UsageReferencesDiffer(id, k);
    }
  }

  // ----- every transaction keeps the invariant -----

  lemma EmptyInv()
    ensures Inv(State(map[], [], []))
  {
  }

  /** Opening an empty wallet for a merchant changes no one's funds. */
  lemma OpenWalletKeepsInv(s: State, m: nat)
    requires Inv(s)
    ensures Inv(s.(wallets := s.wallets[m := WalletOf(s, m)]))
  {
    var t := s.(wallets := s.wallets[m := WalletOf(s, m)]);
    forall x ensures WalletBalances(t, x) { assert WalletBalances(s, x); }
    forall id | 0 <= id < |t.usages| ensures RowFits(t, id) { assert RowFits(s, id); }
    forall e | e in t.entries ensures EntryFits(t, e) { EntryStillFits(s, t, e); }
  }

  /** Settled rows never change, so the entries they explain stay explained. */
  lemma EntryStillFits(s: State, t: State, e: Entry)
    requires RowsFit(s) && e in s.entries && |s.usages| <= |t.usages|
    requires forall id :: 0 <= id < |s.usages| && s.usages[id].status.Settled? ==> t.usages[id] == s.usages[id]
    ensures EntryFits(t, e)
  {
    assert EntryFits(s, e);
    if e.kind.UsageEntry? {
      var id :| 0 <= id < |s.usages| && Settles(s, id, e);
      assert Settles(t, id, e);
    }
  }

  lemma {:induction false} TopUpKeepsInv(s: State, m: nat, amount: Amount, reference: string, note: string)
    requires Inv(s)
    ensures Inv(TopUp(s, m, amount, reference, note).0)
  {
    hide Price, Cost, Digits, Trim, Credited, HeldBy;
    var (t, r) := TopUp(s, m, amount, reference, note);
    if r.Ok? {
      if EntryOf(s.entries, m, reference).Some? {
        OpenWalletKeepsInv(s, m);
      } else {
        var e := r.value;
        assert 0 < e.amount;
        forall x ensures WalletBalances(t, x) {
          assert WalletBalances(s, x);
          CreditedAppend(s.entries, e, x);
        }
        forall id | 0 <= id < |t.usages| ensures RowFits(t, id) { assert RowFits(s, id); }
        forall x | x in t.entries ensures EntryFits(t, x) {
          if x in s.entries { EntryStillFits(s, t, x); }
        }
      }
    }
  }

  lemma {:induction false} ReserveKeepsInv(s: State, m: nat, bot: nat, event: nat, update: string, model: Model,
                                           credits: Denomination)
    requires Inv(s)
    ensures Inv(Reserve(s, m, bot, event, update, model, credits).0)
  {
    hide Price, Cost, Digits, Hold, Credited, HeldBy;
    var (t, r) := Reserve(s, m, bot, event, update, model, credits);
    if r.Ok? {
      if UsageOf(s.usages, event, update).Some? {
        OpenWalletKeepsInv(s, m);
      } else {
        var u := t.usages[|s.usages|];
        HoldIsTheMaximum(TokenUsage(0, 0, 0, 0), model, credits);
        forall x ensures WalletBalances(t, x) {
          assert WalletBalances(s, x);
          HeldByAppend(s.usages, u, x);
        }
        forall id | 0 <= id < |t.usages| ensures RowFits(t, id) {
          if id < |s.usages| { assert RowFits(s, id); }
        }
        forall x | x in t.entries ensures EntryFits(t, x) { EntryStillFits(s, t, x); }
      }
    }
  }

  lemma SettleKeepsFunds(s: State, id: nat, outcome: CallOutcome, error: Option<string>, allowOverage: bool)
    requires Balanced(s) && HoldsNonNegative(s) && id < |s.usages| && !s.usages[id].status.IsFinal()
    ensures Balanced(Settle(s, id, outcome, error, allowOverage))
  {
    hide Price, Cost, Digits, Credited, HeldBy;
    var u, t := s.usages[id], Settle(s, id, outcome, error, allowOverage);
    var v := t.usages[id];
    assert WalletBalances(s, u.merchant);
    HeldByAtLeast(s.usages, id, u.merchant);
    forall x ensures WalletBalances(t, x) {
      assert WalletBalances(s, x);
      HeldByUpdate(s.usages, id, v, x);
      if v.status.Settled? { CreditedAppend(s.entries, t.entries[|s.entries|], x); }
    }
  }

  lemma SettleKeepsInv(s: State, id: nat, outcome: CallOutcome, error: Option<string>, allowOverage: bool)
    requires Inv(s) && id < |s.usages|
    ensures Inv(Settle(s, id, outcome, error, allowOverage))
  {
    hide Balanced, RowsFit, KeysUnique, HoldsNonNegative;
    if !s.usages[id].status.IsFinal() {
      SettleKeepsFunds(s, id, outcome, error, allowOverage);
      SettleKeepsRows(s, id, outcome, error, allowOverage);
    }
  }

  lemma {:induction false} SettleKeepsRows(s: State, id: nat, outcome: CallOutcome, error: Option<string>,
                                           allowOverage: bool)
    requires Inv(s) && id < |s.usages| && !s.usages[id].status.IsFinal()
    ensures var t := Settle(s, id, outcome, error, allowOverage);
            HoldsNonNegative(t) && KeysUnique(t) && RowsFit(t)
  {
    hide Price, Cost, Digits, Balanced;
    var t := Settle(s, id, outcome, error, allowOverage);
    forall k | 0 <= k < |t.usages| ensures RowFits(t, k) { assert RowFits(s, k); }
    forall x | x in t.entries ensures EntryFits(t, x) {
      if x in s.entries { EntryStillFits(s, t, x); } else { assert Settles(t, id, x); }
    }
    forall x | x in s.entries ensures x.reference != UsageReference(id) { OpenRowHasNoEntry(s, id, x); }
  }

  lemma ReconcileKeepsInv(s: State, id: nat, verified: Option<Reported>, note: string)
    requires Inv(s)
    ensures Inv(Reconcile(s, id, verified, note).0)
  {
    if id < |s.usages| {
      var text := if s.usages[id].text.Some? then s.usages[id].text.value else "";
      var outcome := if verified.Some? then Completed(Completion(text, verified.value)) else Errored(false);
      SettleKeepsInv(s, id, outcome, Some("operator reconciliation: " + note), true);
    }
  }
}
