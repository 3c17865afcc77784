/** The paid call: a committed hold, one provider call, a committed settlement. Workers crash
    anywhere, deliveries repeat, operators top up and reconcile in between. */
module MeteredCall {
  import opened Options
  import opened Text
  import opened Pricing
  import opened Ledger
  import opened LedgerInvariant
  import opened LedgerRuns

  /** Who is calling for which provider update, under which catalog row. */
  datatype Request = Request(merchant: nat, bot: nat, event: nat, update: string, model: Model, credits: Denomination)

  datatype Phase = AboutToCall(id: nat) | InCall(id: nat)

  /** The committed ledger, the workers still alive, and every provider call made so far. */
  datatype World = World(ledger: State, workers: map<nat, Phase>, calls: seq<nat>)

  datatype Step =
    | Begin(worker: nat, request: Request)
    | Call(worker: nat)
    | Finish(worker: nat, outcome: CallOutcome, error: Option<string>)
    | Crash(worker: nat)
    | OperatorTopUp(merchant: nat, amount: Amount, reference: string, note: string)
    | OperatorReconcile(id: nat, verified: Option<Reported>, note: string)

  function ReserveFor(s: State, r: Request): (State, Result<Reservation>) {
    Reserve(s, r.merchant, r.bot, r.event, r.update, r.model, r.credits)
  }

  /** A disabled step changes nothing. */
  function Next(w: World, step: Step): World {
    match step
    case Begin(k, request) =>
      if k in w.workers then w else
      var (ledger, r) := ReserveFor(w.ledger, request);
      if r.Ok? && r.value.isNew then World(ledger, w.workers[k := AboutToCall(r.value.id)], w.calls)
      else w.(ledger := ledger)
    case Call(k) =>
      if k !in w.workers || !w.workers[k].AboutToCall? then w else
      var id := w.workers[k].id;
      World(w.ledger, w.workers[k := InCall(id)], w.calls + [id])
    case Finish(k, outcome, error) =>
      if k !in w.workers || !w.workers[k].InCall? then w else
      w.(ledger := Apply(w.ledger, SettleOp(w.workers[k].id, outcome, error)), workers := w.workers - {k})
    case Crash(k) => w.(workers := w.workers - {k})
    case OperatorTopUp(m, amount, reference, note) =>
      w.(ledger := Apply(w.ledger, TopUpOp(m, amount, reference, note)))
    case OperatorReconcile(id, verified, note) =>
      w.(ledger := Apply(w.ledger, ReconcileOp(id, verified, note)))
  }

  function RunSteps(w: World, steps: seq<Step>): World
    decreases |steps|
  {
    if steps == [] then w else RunSteps(Next(w, steps[0]), steps[1..])
  }

  const START := World(State(map[], [], []), map[], [])

  // ----- at most one call per update -----

  ghost predicate WorkersDistinct(w: World) {
    && (forall k :: k in w.workers ==> w.workers[k].id < |w.ledger.usages|)
    && (forall j, k :: j in w.workers && k in w.workers && w.workers[j].id == w.workers[k].id ==> j == k)
  }

  /** Every call was made for a committed row, no row was called for twice, and a worker still
      about to call has not been preceded by another. */
  ghost predicate CallsOnce(w: World) {
    && (forall i :: 0 <= i < |w.calls| ==> w.calls[i] < |w.ledger.usages|)
    && (forall i, j :: 0 <= i < j < |w.calls| ==> w.calls[i] != w.calls[j])
    && (forall k :: k in w.workers && w.workers[k].AboutToCall? ==> w.workers[k].id !in w.calls)
  }

  ghost predicate Safe(w: World) {
    Inv(w.ledger) && WorkersDistinct(w) && CallsOnce(w)
  }

  lemma {:induction false} NextKeepsLedger(w: World, step: Step)
    requires Inv(w.ledger)
    ensures Inv(Next(w, step).ledger) && |w.ledger.usages| <= |Next(w, step).ledger.usages|
  {
    hide Inv, Apply, Reserve, RowKept;
    match step
    case Begin(k, request) =>
      ApplyKeepsInv(w.ledger, ReserveOp(request.merchant, request.bot, request.event, request.update, request.model,
                                        request.credits));
      BeginMakesNewRow(w.ledger, request);
    case Call(k) =>
    case Finish(k, outcome, error) =>
      if k in w.workers {
        ApplyKeepsInv(w.ledger, SettleOp(w.workers[k].id, outcome, error));
        ApplyIsLater(w.ledger, SettleOp(w.workers[k].id, outcome, error));
      }
    case Crash(k) =>
    case OperatorTopUp(m, amount, reference, note) =>
      ApplyKeepsInv(w.ledger, TopUpOp(m, amount, reference, note));
      ApplyIsLater(w.ledger, TopUpOp(m, amount, reference, note));
    case OperatorReconcile(id, verified, note) =>
      ApplyKeepsInv(w.ledger, ReconcileOp(id, verified, note));
      ApplyIsLater(w.ledger, ReconcileOp(id, verified, note));
  }

  lemma {:induction false} NextKeepsSafe(w: World, step: Step)
    requires Safe(w)
    ensures Safe(Next(w, step))
  {
    hide Inv, Apply, Reserve, Later;
    NextKeepsLedger(w, step);
    if step.Begin? { BeginMakesNewRow(w.ledger, step.request); }
  }

  /** A fresh reservation is a new row with its hold committed; anything else adds no row. */
  lemma BeginMakesNewRow(s: State, r: Request)
    ensures var (t, result) := ReserveFor(s, r);
            && t == Apply(s, ReserveOp(r.merchant, r.bot, r.event, r.update, r.model, r.credits))
            && Later(s, t)
            && if result.Ok? && result.value.isNew
               then result.value.id == |s.usages| && |t.usages| == |s.usages| + 1
                    && t.usages[|s.usages|].status.Reserved?
               else t.usages == s.usages
  {
    hide Hold, Price;
    ApplyIsLater(s, ReserveOp(r.merchant, r.bot, r.event, r.update, r.model, r.credits));
  }

  lemma {:induction false} RunKeepsSafe(w: World, steps: seq<Step>)
    requires Safe(w)
    ensures Safe(RunSteps(w, steps))
    decreases |steps|
  {
    hide Safe, Next;
    if steps != [] {
      NextKeepsSafe(w, steps[0]);
      RunKeepsSafe(Next(w, steps[0]), steps[1..]);
    }
  }

  predicate SameUpdate(s: State, a: nat, b: nat) {
    a < |s.usages| && b < |s.usages| && s.usages[a].event == s.usages[b].event
    && s.usages[a].update == s.usages[b].update
  }

  /** Over every run, a provider update is called for at most once, and each call was preceded
      by a committed row of its own. */
  lemma AtMostOneCallPerUpdate(steps: seq<Step>)
    ensures var w := RunSteps(START, steps);
            && (forall i :: 0 <= i < |w.calls| ==> w.calls[i] < |w.ledger.usages|)
            && (forall i, j :: 0 <= i < j < |w.calls| ==> !SameUpdate(w.ledger, w.calls[i], w.calls[j]))
  {
    EmptyInv();
    RunKeepsSafe(START, steps);
  }

  // ----- the hold of a call -----

  /** A call whose row is still open keeps its whole hold out of the merchant's reach. */
  lemma OpenCallKeepsItsHold(steps: seq<Step>, i: nat)
    requires i < |RunSteps(START, steps).calls|
    ensures var w := RunSteps(START, steps);
            var id := w.calls[i];
            id < |w.ledger.usages| &&
            var u := w.ledger.usages[id];
            !u.status.IsFinal() ==>
              u.held <= WalletOf(w.ledger, u.merchant).reserved <= WalletOf(w.ledger, u.merchant).balance
  {
    EmptyInv();
    RunKeepsSafe(START, steps);
    var w := RunSteps(START, steps);
    var u := w.ledger.usages[w.calls[i]];
    assert WalletBalances(w.ledger, u.merchant);
    HeldByAtLeast(w.ledger.usages, w.calls[i], u.merchant);
  }

  predicate HasWorker(w: World, id: nat) {
    exists k :: k in w.workers && w.workers[k].id == id
  }

  predicate Reconciles(step: Step, id: nat) {
    step.OperatorReconcile? && step.id == id
  }

  /** Only its own worker's settlement and its own reconciliation change a row. */
  lemma {:induction false} RowUntouched(w: World, step: Step, id: nat)
    requires id < |w.ledger.usages| && !Reconciles(step, id)
    requires step.Finish? && step.worker in w.workers ==> w.workers[step.worker] != InCall(id)
    ensures id < |Next(w, step).ledger.usages| && Next(w, step).ledger.usages[id] == w.ledger.usages[id]
  {
    hide Hold, Price, UsageOf, EntryOf, ValidTopUp;
  }

  lemma AbandonedStep(w: World, step: Step, id: nat)
    requires id < |w.ledger.usages| && !HasWorker(w, id) && !Reconciles(step, id)
    ensures var v := Next(w, step);
            id < |v.ledger.usages| && v.ledger.usages[id] == w.ledger.usages[id] && !HasWorker(v, id)
  {
    hide Apply, Reserve;
    RowUntouched(w, step, id);
    if step.Begin? { BeginMakesNewRow(w.ledger, step.request); }
  }

  /** Once the worker of a call is gone, nothing but an operator's reconciliation of that very
      row ever changes it: redeliveries, other workers and other reconciliations leave it alone. */
  lemma {:induction false} AbandonedCallWaitsForItsOperator(w: World, steps: seq<Step>, id: nat)
    requires id < |w.ledger.usages| && !HasWorker(w, id)
    requires forall i :: 0 <= i < |steps| ==> !Reconciles(steps[i], id)
    ensures var v := RunSteps(w, steps);
            id < |v.ledger.usages| && v.ledger.usages[id] == w.ledger.usages[id]
    decreases |steps|
  {
    hide HasWorker, Next;
    if steps != [] {
      AbandonedStep(w, steps[0], id);
      AbandonedCallWaitsForItsOperator(Next(w, steps[0]), steps[1..], id);
    }
  }

  /** A worker that dies before its call leaves the row without a worker, so the call is never made:
      no redelivery, no other worker and no operator ever makes it. */
  lemma CrashedCallIsNeverMade(w: World, k: nat, steps: seq<Step>)
    requires Safe(w) && k in w.workers && w.workers[k].AboutToCall?
    ensures w.workers[k].id !in RunSteps(Next(w, Crash(k)), steps).calls
  {
    NeverCalledFor(Next(w, Crash(k)), w.workers[k].id, steps);
  }

  lemma {:induction false} NeverCalledFor(w: World, id: nat, steps: seq<Step>)
    requires id < |w.ledger.usages| && !HasWorker(w, id) && id !in w.calls
    ensures id !in RunSteps(w, steps).calls
    decreases |steps|
  {
    hide HasWorker, Next;
    if steps != [] {
      NoWorkerNoCall(w, steps[0], id);
      NeverCalledFor(Next(w, steps[0]), id, steps[1..]);
    }
  }

  lemma {:induction false} NoWorkerNoCall(w: World, step: Step, id: nat)
    requires id < |w.ledger.usages| && !HasWorker(w, id) && id !in w.calls
    ensures var v := Next(w, step); id < |v.ledger.usages| && !HasWorker(v, id) && id !in v.calls
  {
    hide Apply, Reserve, Inv;
    if step.Begin? {
      BeginMakesNewRow(w.ledger, step.request);
    } else if step.Finish? && step.worker in w.workers {
      ApplyIsLater(w.ledger, SettleOp(w.workers[step.worker].id, step.outcome, step.error));
    } else if step.OperatorTopUp? {
      ApplyIsLater(w.ledger, TopUpOp(step.merchant, step.amount, step.reference, step.note));
    } else if step.OperatorReconcile? {
      ApplyIsLater(w.ledger, ReconcileOp(step.id, step.verified, step.note));
    }
  }

  // ----- with operators who wait for the worker -----

  /** The operator's instruction: stop any worker on a usage before reconciling it. */
  predicate Careful(w: World, step: Step) {
    step.OperatorReconcile? ==> !HasWorker(w, step.id)
  }

  predicate CarefulRun(w: World, steps: seq<Step>)
    decreases |steps|
  {
    steps == [] || (Careful(w, steps[0]) && CarefulRun(Next(w, steps[0]), steps[1..]))
  }

  ghost predicate WorkersHold(w: World) {
    forall k :: k in w.workers ==>
      w.workers[k].id < |w.ledger.usages| && w.ledger.usages[w.workers[k].id].status.Reserved?
  }

  /** A reconciliation under a live worker that is not refused: without a charge, or with one
      that the wallet can pay. Both are known before the command is given. */
  predicate Disturbs(w: World, step: Step) {
    && step.OperatorReconcile? && HasWorker(w, step.id) && step.id < |w.ledger.usages|
    && (step.verified.Some? ==>
          var u := w.ledger.usages[step.id];
          Affordable(w.ledger, u, Price(step.verified.value, u.pricing)))
  }

  lemma ReconciledRow(s: State, id: nat, verified: Option<Reported>, note: string)
    requires Inv(s) && id < |s.usages| && s.usages[id].status.Reserved?
    ensures var t := Apply(s, ReconcileOp(id, verified, note));
            var u := s.usages[id];
            if verified.None? || Affordable(s, u, Price(verified.value, u.pricing))
            then |t.usages| == |s.usages| && t.usages[id].status.IsFinal()
            else t == s
  {
    hide Price, Inv;
    if verified.Some? { ReconcileRefusesExactlyTheUnaffordable(s, id, verified.value, note); }
  }

  lemma {:induction false} UndisturbedStepKeepsHolds(w: World, step: Step)
    requires Safe(w) && WorkersHold(w) && !Disturbs(w, step)
    ensures WorkersHold(Next(w, step))
  {
    hide Apply, Reserve, Inv, CallsOnce, Affordable, Price;
    var v := Next(w, step);
    forall k | k in v.workers
      ensures v.workers[k].id < |v.ledger.usages| && v.ledger.usages[v.workers[k].id].status.Reserved?
    {
      if k !in w.workers {
        BeginMakesNewRow(w.ledger, step.request);
      } else if Reconciles(step, w.workers[k].id) {
        assert HasWorker(w, step.id);
        ReconciledRow(w.ledger, step.id, step.verified, step.note);
      } else {
        RowUntouched(w, step, w.workers[k].id);
      }
    }
  }

  lemma {:induction false} DisturbedStepLosesAHold(w: World, step: Step)
    requires Safe(w) && WorkersHold(w) && Disturbs(w, step)
    ensures !WorkersHold(Next(w, step))
  {
    hide Apply, Reserve, Inv, CallsOnce, Affordable, Price;
    var k :| k in w.workers && w.workers[k].id == step.id;
    ReconciledRow(w.ledger, step.id, step.verified, step.note);
    assert k in Next(w, step).workers;
  }

  /** Every live worker's row is `reserved` now and after each of the steps. */
  ghost predicate AlwaysHeld(w: World, steps: seq<Step>)
    decreases |steps|
  {
    WorkersHold(w) && (steps == [] || AlwaysHeld(Next(w, steps[0]), steps[1..]))
  }

  predicate Disturbed(w: World, steps: seq<Step>)
    decreases |steps|
  {
    steps != [] && (Disturbs(w, steps[0]) || Disturbed(Next(w, steps[0]), steps[1..]))
  }

  lemma {:induction false} HeldExactlyWhenUndisturbed(w: World, steps: seq<Step>)
    requires Safe(w) && WorkersHold(w)
    ensures AlwaysHeld(w, steps) <==> !Disturbed(w, steps)
    decreases |steps|
  {
    hide Safe, WorkersHold, Next, Disturbs;
    if steps != [] {
      NextKeepsSafe(w, steps[0]);
      if Disturbs(w, steps[0]) {
        DisturbedStepLosesAHold(w, steps[0]);
      } else {
        UndisturbedStepKeepsHolds(w, steps[0]);
        HeldExactlyWhenUndisturbed(Next(w, steps[0]), steps[1..]);
      }
    }
  }

  /** Over every run, the rows of all calls about to go out or to come back stay `reserved`
      exactly when no operator reconciles one of them, under its live worker, with no charge
      or a charge its wallet can pay. A refused reconciliation does no harm. */
  lemma CallsAreHeldExactlyWhenUndisturbed(steps: seq<Step>)
    ensures AlwaysHeld(START, steps) <==> !Disturbed(START, steps)
  {
    EmptyInv();
    HeldExactlyWhenUndisturbed(START, steps);
  }

  /** So the instruction is enough: while operators wait for workers every provider call goes
      out, and every result comes back, with the row still `reserved`. */
  lemma {:induction false} CarefulRunsHoldThroughTheCall(w: World, steps: seq<Step>)
    requires Safe(w) && WorkersHold(w) && CarefulRun(w, steps)
    ensures Safe(RunSteps(w, steps)) && WorkersHold(RunSteps(w, steps))
    decreases |steps|
  {
    hide Safe, WorkersHold, Next, HasWorker;
    if steps != [] {
      NextKeepsSafe(w, steps[0]);
      UndisturbedStepKeepsHolds(w, steps[0]);
      CarefulRunsHoldThroughTheCall(Next(w, steps[0]), steps[1..]);
    }
  }

  /** A worker that is neither interrupted nor overtaken goes through exactly these steps. */
  lemma {:induction false} UninterruptedCall(w: World, k: nat, request: Request, outcome: CallOutcome,
                                             error: Option<string>)
    requires k !in w.workers
    requires var (_, r) := ReserveFor(w.ledger, request); r.Ok? && r.value.isNew
    ensures var (s, r) := ReserveFor(w.ledger, request);
            && r.value.id < |s.usages|
            && RunSteps(w, [Begin(k, request), Call(k), Finish(k, outcome, error)])
               == World(Settle(s, r.value.id, outcome, error, false), w.workers, w.calls + [r.value.id])
  {
    var (s, r) := ReserveFor(w.ledger, request);
    var id := r.value.id;
    BeginMakesNewRow(w.ledger, request);
    hide ReserveFor, Settle, Reserve, Later;
    var steps := [Begin(k, request), Call(k), Finish(k, outcome, error)];
    var a := World(s, w.workers[k := AboutToCall(id)], w.calls);
    var b := World(s, w.workers[k := InCall(id)], w.calls + [id]);
    assert a.workers[k := InCall(id)] == b.workers && b.workers - {k} == w.workers;
    assert Next(w, steps[0]) == a && Next(a, steps[1]) == b;
    assert steps[1..][1..] == [steps[2]] && [steps[2]][1..] == [];
    assert RunSteps(w, steps) == RunSteps(a, steps[1..]) == RunSteps(b, [steps[2]]) == Next(b, steps[2]);
  }

  /** A merchant with five micro-credits, and a call to an importable model that reserves one. */
  const FUNDED := World(State(map[7 := Wallet(5, 0)], [], [Entry(7, "payment", TopUpEntry, 5, "verified")]), map[], [])
  const ONE_CREDIT_CALL := Request(7, 1, 1, "u", Model(Rates(1, 1, 0, 0, 1_000_000), 1024, 128, true),
                                   Denomination(1000, 0))
  const HELD_ROW := Usage(7, 1, 1, "u", PricingSnapshot(ONE_CREDIT_CALL.model, ONE_CREDIT_CALL.credits), 1, Reserved,
                          0, None, None, None, None)
  const HOLDING := World(State(map[7 := Wallet(5, 1)], [HELD_ROW], FUNDED.ledger.entries), map[0 := AboutToCall(0)], [])

  lemma OneCredit()
    ensures Importable(ONE_CREDIT_CALL.model) && Hold(ONE_CREDIT_CALL.model, ONE_CREDIT_CALL.credits) == 1
  {
  }

  lemma OneCreditHeld()
    ensures Next(FUNDED, Begin(0, ONE_CREDIT_CALL)) == HOLDING
  {
    hide Hold, Price, PricingSnapshot;
    OneCredit();
    assert FUNDED.ledger.wallets[7 := Wallet(5, 1)] == map[7 := Wallet(5, 1)];
    assert UsageOf([], 1, "u") == None;
  }

  lemma GivenBack(note: string)
    ensures var v := Next(HOLDING, OperatorReconcile(0, None, note));
            && v.workers == HOLDING.workers && v.calls == [] && v.ledger.wallets == map[7 := Wallet(5, 0)]
            && |v.ledger.usages| == 1 && v.ledger.usages[0].status.Released? && v.ledger.usages[0].held == 1
  {
    hide Hold, Price, PricingSnapshot;
    assert HOLDING.ledger.wallets[7 := Wallet(5, 0)] == map[7 := Wallet(5, 0)];
  }

  const PAYMENT := OperatorTopUp(7, Finite(0.000005), "payment", "verified")

  lemma Funded()
    ensures Next(START, PAYMENT) == FUNDED
  {
    assert "payment"[0] != USAGE_PREFIX[0];
    assert Trim("payment") != [] && Trim("verified") != [];
  }

  /** The instruction is needed: reconciled under a live worker, a call goes out with its hold
      already given back. */
  lemma CarelessOperatorLosesTheHold(note: string)
    ensures var w := RunSteps(START, [PAYMENT, Begin(0, ONE_CREDIT_CALL), OperatorReconcile(0, None, note), Call(0)]);
            && Importable(ONE_CREDIT_CALL.model) && w.calls == [0] && |w.ledger.usages| == 1
            && w.ledger.usages[0].held == 1 && w.ledger.usages[0].status.Released?
            && w.ledger.wallets == map[7 := Wallet(5, 0)]
  {
    var steps := [PAYMENT, Begin(0, ONE_CREDIT_CALL), OperatorReconcile(0, None, note), Call(0)];
    Funded();
    OneCredit();
    OneCreditHeld();
    GivenBack(note);
    hide Apply, ReserveFor, Hold;
    var b := Next(HOLDING, steps[2]);
    var s1, s2, s3 := steps[1..], steps[2..], steps[3..];
    assert s1[1..] == s2 && s2[1..] == s3 && s3[1..] == [] && s1[0] == steps[1] && s2[0] == steps[2]
      && s3[0] == steps[3];
    assert RunSteps(START, steps) == RunSteps(FUNDED, s1) == RunSteps(HOLDING, s2);
    assert RunSteps(HOLDING, s2) == RunSteps(b, s3) == Next(b, steps[3]);
  }
}
