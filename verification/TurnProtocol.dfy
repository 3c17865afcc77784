/** From the queue to the conversation: deliveries, claims and crashes of DeliveryProtocol
    together with the turns a claimed receipt's worker takes. A turn begins with the commit that
    stores the customer's message. */
module TurnProtocol {
  import opened Ingress
  import opened Pipeline
  import Delivery = DeliveryProtocol

  /** What the stored payload of a receipt parses to; the same every time. */
  type Payloads = Key -> seq<Parsed>

  /** `progress` counts the turns a live worker has begun; `turns` is every turn ever begun, as
      its receipt and the number of its message. */
  datatype World = World(receipts: Delivery.World, progress: map<nat, nat>, turns: seq<(nat, nat)>)

  datatype Step = Other(step: Delivery.Step) | TakeTurn(worker: nat)

  /** How many messages a stored receipt has. */
  function MessageCount(w: World, payloads: Payloads, id: nat): nat
    requires id < |w.receipts.events|
  {
    var key := w.receipts.events[id].key;
    |Matching(payloads(key), key)|
  }

  /** A worker may stop and fail at any point, but ends processed only after its last message. */
  ghost predicate Enabled(w: World, payloads: Payloads, step: Step) {
    match step
    case Other(s) =>
      && Delivery.Enabled(w.receipts, s)
      && (s.Finish? && s.status.Processed? ==>
            s.worker in w.progress && w.progress[s.worker] == MessageCount(w, payloads, w.receipts.workers[s.worker]))
    case TakeTurn(k) =>
      && k in w.receipts.workers && k in w.progress && w.receipts.workers[k] < |w.receipts.events|
      && w.progress[k] < MessageCount(w, payloads, w.receipts.workers[k])
  }

  ghost function Next(w: World, payloads: Payloads, step: Step): World
    requires Enabled(w, payloads, step)
  {
    match step
    case TakeTurn(k) =>
      w.(progress := w.progress[k := w.progress[k] + 1], turns := w.turns + [(w.receipts.workers[k], w.progress[k])])
    case Other(s) =>
      var v := Delivery.Next(w.receipts, s);
      World(v, if s.Claim? && s.worker in v.workers then w.progress[s.worker := 0]
               else if s.Finish? || s.WorkerDies? then w.progress - {s.worker} else w.progress, w.turns)
  }

  ghost predicate IsRun(w: World, payloads: Payloads, steps: seq<Step>)
    decreases |steps|
  {
    steps == [] || (Enabled(w, payloads, steps[0]) && IsRun(Next(w, payloads, steps[0]), payloads, steps[1..]))
  }

  ghost function Run(w: World, payloads: Payloads, steps: seq<Step>): World
    requires IsRun(w, payloads, steps)
    decreases |steps|
  {
    if steps == [] then w else Run(Next(w, payloads, steps[0]), payloads, steps[1..])
  }

  const START := World(Delivery.START, map[], [])

  predicate Taken(w: World, id: nat, n: nat) { (id, n) in w.turns }

  predicate NoTurnTwice(turns: seq<(nat, nat)>) {
    forall i, j :: 0 <= i < j < |turns| ==> turns[i] != turns[j]
  }

  /** Turns are taken for messages of claimed receipts, in order and none skipped. */
  ghost predicate TurnsInOrder(w: World, payloads: Payloads) {
    && NoTurnTwice(w.turns)
    && (forall id: nat, n: nat :: Taken(w, id, n) ==>
          id < |w.receipts.events| && id in w.receipts.claims && n < MessageCount(w, payloads, id))
    && (forall id: nat, m: nat, n: nat :: Taken(w, id, n) && m < n ==> Taken(w, id, m))
  }

  /** A live worker has begun exactly the turns it counts. */
  ghost predicate ProgressFits(w: World, k: nat)
    requires k in w.receipts.workers
  {
    k in w.progress && forall n: nat :: Taken(w, w.receipts.workers[k], n) <==> n < w.progress[k]
  }

  /** A processed receipt has had a turn for each of its messages. */
  ghost predicate Complete(w: World, payloads: Payloads, id: nat)
    requires id < |w.receipts.events|
  {
    w.receipts.events[id].status.Processed? ==> forall n: nat :: n < MessageCount(w, payloads, id) ==> Taken(w, id, n)
  }

  ghost predicate Safe(w: World, payloads: Payloads) {
    && Delivery.Published(w.receipts) && Delivery.ClaimedOnce(w.receipts)
    && TurnsInOrder(w, payloads)
    && (forall k :: k in w.receipts.workers ==> ProgressFits(w, k))
    && (forall id: nat :: id < |w.receipts.events| ==> Complete(w, payloads, id))
  }

  lemma {:induction false} TurnKeepsSafe(w: World, payloads: Payloads, k: nat)
    requires Safe(w, payloads) && Enabled(w, payloads, TakeTurn(k))
    ensures Safe(Next(w, payloads, TakeTurn(k)), payloads)
  {
    hide Delivery.Published;
    var v := Next(w, payloads, TakeTurn(k));
    var id, n := w.receipts.workers[k], w.progress[k];
    assert ProgressFits(w, k) && !Taken(w, id, n);
    assert forall i: nat, m: nat :: Taken(v, i, m) <==> Taken(w, i, m) || (i == id && m == n);
    forall j | j in v.receipts.workers ensures ProgressFits(v, j) {
      assert ProgressFits(w, j);
    }
    forall i: nat | i < |v.receipts.events| ensures Complete(v, payloads, i) {
      assert Complete(w, payloads, i);
    }
  }

  /** What a delivery, a claim or an end leaves of the receipts that turns depend on. */
  lemma {:induction false} ReceiptsLast(w: Delivery.World, s: Delivery.Step)
    requires Delivery.ClaimedOnce(w) && Delivery.Enabled(w, s)
    ensures var v := Delivery.Next(w, s);
            && |w.events| <= |v.events| && w.claims <= v.claims
            && (forall id: nat :: id < |w.events| ==> v.events[id].key == w.events[id].key)
            && (forall id: nat :: id < |v.events| && v.events[id].status.Processed? ==>
                  (id < |w.events| && w.events[id].status.Processed?)
                  || (s.Finish? && s.status.Processed? && s.worker in w.workers && id == w.workers[s.worker]))
  {
    hide Distinct, IdOf, Unpublished, UniqueKeys, NoRepeats;
  }

  lemma {:induction false} WorkersLast(w: Delivery.World, s: Delivery.Step)
    requires Delivery.ClaimedOnce(w) && Delivery.Enabled(w, s)
    ensures var v := Delivery.Next(w, s);
            && (forall k :: k in v.workers && k in w.workers ==> v.workers[k] == w.workers[k])
            && (forall k :: k in v.workers && k !in w.workers ==>
                  s.Claim? && k == s.worker && v.workers[k] == s.id && s.id !in w.claims)
            && (s.Finish? || s.WorkerDies? ==> s.worker !in v.workers)
  {
    hide Stored, NoRepeats;
  }

  lemma {:induction false} OtherKeepsSafe(w: World, payloads: Payloads, s: Delivery.Step)
    requires Safe(w, payloads) && Enabled(w, payloads, Other(s))
    ensures Safe(Next(w, payloads, Other(s)), payloads)
  {
    hide Delivery.Published, Delivery.ClaimedOnce, Delivery.Next, Stored, Matching;
    var v := Next(w, payloads, Other(s));
    Delivery.NextKeepsPublished(w.receipts, s);
    Delivery.NextKeepsClaims(w.receipts, s);
    ReceiptsLast(w.receipts, s);
    OtherProgress(w, payloads, s);
    assert forall i: nat, m: nat :: Taken(v, i, m) <==> Taken(w, i, m);
    forall i: nat | i < |v.receipts.events| ensures Complete(v, payloads, i) {
      if i < |w.receipts.events| { assert Complete(w, payloads, i); }
      if s.Finish? && s.worker in w.receipts.workers { assert ProgressFits(w, s.worker); }
    }
  }

  lemma {:induction false} OtherProgress(w: World, payloads: Payloads, s: Delivery.Step)
    requires Safe(w, payloads) && Enabled(w, payloads, Other(s))
    ensures var v := Next(w, payloads, Other(s)); forall j :: j in v.receipts.workers ==> ProgressFits(v, j)
  {
    hide Delivery.Published, Delivery.ClaimedOnce, Delivery.Next, Complete, MessageCount, NoTurnTwice;
    var v := Next(w, payloads, Other(s));
    WorkersLast(w.receipts, s);
    assert forall i: nat, m: nat :: Taken(v, i, m) <==> Taken(w, i, m);
    forall j | j in v.receipts.workers ensures ProgressFits(v, j) {
      if j in w.receipts.workers { assert ProgressFits(w, j); }
    }
  }

  lemma {:induction false} RunKeepsSafe(w: World, payloads: Payloads, steps: seq<Step>)
    requires Safe(w, payloads) && IsRun(w, payloads, steps)
    ensures Safe(Run(w, payloads, steps), payloads)
    decreases |steps|
  {
    hide Safe, Next, Enabled;
    if steps != [] {
      match steps[0] {
        case Other(s) => OtherKeepsSafe(w, payloads, s);
        case TakeTurn(k) => TurnKeepsSafe(w, payloads, k);
      }
      RunKeepsSafe(Next(w, payloads, steps[0]), payloads, steps[1..]);
    }
  }

  /** The steps of a worker that is left alone: it takes every message from number `n` on. */
  function TakeTurns(k: nat, n: nat): seq<Step> {
    if n == 0 then [] else [TakeTurn(k)] + TakeTurns(k, n - 1)
  }

  /** The turns for messages `lo` up to `hi` of a receipt. */
  function Turns(id: nat, lo: nat, hi: nat): seq<(nat, nat)>
    requires lo <= hi
    decreases hi - lo
  {
    if lo == hi then [] else [(id, lo)] + Turns(id, lo + 1, hi)
  }

  lemma TakeOne(w: World, payloads: Payloads, k: nat, id: nat) returns (v: World)
    requires k in w.receipts.workers && w.receipts.workers[k] == id < |w.receipts.events|
    requires k in w.progress && w.progress[k] < MessageCount(w, payloads, id)
    ensures Enabled(w, payloads, TakeTurn(k)) && v == Next(w, payloads, TakeTurn(k))
    ensures v == World(w.receipts, w.progress[k := w.progress[k] + 1], w.turns + [(id, w.progress[k])])
    ensures MessageCount(v, payloads, id) == MessageCount(w, payloads, id)
  {
    hide Matching;
    v := Next(w, payloads, TakeTurn(k));
  }

  lemma RunFirst(w: World, payloads: Payloads, step: Step, rest: seq<Step>)
    requires Enabled(w, payloads, step) && IsRun(Next(w, payloads, step), payloads, rest)
    ensures IsRun(w, payloads, [step] + rest)
    ensures Run(w, payloads, [step] + rest) == Run(Next(w, payloads, step), payloads, rest)
  {
    hide Enabled, Next;
    assert ([step] + rest)[1..] == rest;
  }

  lemma NoMoreTurns(w: World, payloads: Payloads, k: nat, id: nat)
    ensures TakeTurns(k, 0) == [] && IsRun(w, payloads, []) && Run(w, payloads, []) == w
    ensures forall p :: Turns(id, p, p) == []
  {
  }

  /** `v` is `w` after `n` more turns of worker `k`. */
  predicate TookTurns(w: World, v: World, k: nat, id: nat, n: nat)
    requires k in w.progress
  {
    var p := w.progress[k];
    v.receipts == w.receipts && v.progress == w.progress[k := p + n] && v.turns == w.turns + Turns(id, p, p + n)
  }

  lemma OneTurnMore(w: World, u: World, v: World, k: nat, id: nat, n: nat)
    requires k in w.progress
    requires u == World(w.receipts, w.progress[k := w.progress[k] + 1], w.turns + [(id, w.progress[k])])
    requires TookTurns(u, v, k, id, n)
    ensures TookTurns(w, v, k, id, n + 1)
  {
    var p := w.progress[k];
    assert Turns(id, p, p + n + 1) == [(id, p)] + Turns(id, p + 1, p + n + 1);
    assert (w.turns + [(id, p)]) + Turns(id, p + 1, p + n + 1) == w.turns + Turns(id, p, p + n + 1);
  }

  lemma {:induction false} WorkerTakesAll(w: World, payloads: Payloads, k: nat, id: nat, n: nat)
    requires k in w.receipts.workers && w.receipts.workers[k] == id < |w.receipts.events|
    requires k in w.progress && w.progress[k] + n == MessageCount(w, payloads, id)
    ensures IsRun(w, payloads, TakeTurns(k, n)) && TookTurns(w, Run(w, payloads, TakeTurns(k, n)), k, id, n)
    decreases n
  {
    hide Enabled, Next, MessageCount, IsRun, Run;
    if n == 0 {
      NoMoreTurns(w, payloads, k, id);
      assert w.progress[k := w.progress[k]] == w.progress && w.turns + [] == w.turns;
    } else {
      var u := TakeOne(w, payloads, k, id);
      WorkerTakesAll(u, payloads, k, id, n - 1);
      RunFirst(w, payloads, TakeTurn(k), TakeTurns(k, n - 1));
      OneTurnMore(w, u, Run(u, payloads, TakeTurns(k, n - 1)), k, id, n - 1);
    }
  }

  /** Nothing stands in the way of a pending receipt that was published: a free worker can claim
      it, and, left alone, takes all its messages and marks it processed. */
  lemma UninterruptedReceipt(w: World, payloads: Payloads, k: nat, id: nat) returns (steps: seq<Step>)
    requires id < |w.receipts.events| && w.receipts.events[id].status.Pending? && id in w.receipts.published
    requires k !in w.receipts.workers && k !in w.progress
    ensures IsRun(w, payloads, steps)
    ensures var v := Run(w, payloads, steps);
            && v.receipts.events == w.receipts.events[id := w.receipts.events[id].(status := Processed)]
            && v.receipts.claims == w.receipts.claims + [id] && v.receipts.workers == w.receipts.workers
            && v.turns == w.turns + Turns(id, 0, MessageCount(w, payloads, id))
  {
    var claim, finish := Other(Delivery.Claim(k, id)), Other(Delivery.Finish(k, Processed));
    var n := MessageCount(w, payloads, id);
    var a := Next(w, payloads, claim);
    assert a.receipts.workers[k] == id && a.progress[k] == 0 && MessageCount(a, payloads, id) == n;
    WorkerTakesAll(a, payloads, k, id, n);
    var b := Run(a, payloads, TakeTurns(k, n));
    Join(a, payloads, TakeTurns(k, n), finish);
    steps := [claim] + (TakeTurns(k, n) + [finish]);
    assert steps[1..] == TakeTurns(k, n) + [finish];
    var v := Next(b, payloads, finish);
    assert v.receipts.workers == w.receipts.workers;
  }

  lemma {:induction false} Join(w: World, payloads: Payloads, steps: seq<Step>, last: Step)
    requires IsRun(w, payloads, steps) && Enabled(Run(w, payloads, steps), payloads, last)
    ensures IsRun(w, payloads, steps + [last])
    ensures Run(w, payloads, steps + [last]) == Next(Run(w, payloads, steps), payloads, last)
    decreases |steps|
  {
    hide Next, Enabled;
    if steps == [] {
      assert steps + [last] == [last] && [last][1..] == [];
    } else {
      assert (steps + [last])[0] == steps[0] && (steps + [last])[1..] == steps[1..] + [last];
      Join(Next(w, payloads, steps[0]), payloads, steps[1..], last);
    }
  }

  /** Over every run of repeated deliveries, queue failures, repeated queue messages, concurrent
      workers and crashes: every update has one receipt; a receipt's messages are taken in
      order and each at most once; and each exactly once when the receipt ends processed. */
  lemma EveryMessageHasAtMostOneTurn(payloads: Payloads, steps: seq<Step>)
    requires IsRun(START, payloads, steps)
    ensures var w := Run(START, payloads, steps);
            && UniqueKeys(w.receipts.events)
            && NoTurnTwice(w.turns)
            && (forall id: nat, n: nat :: Taken(w, id, n) ==>
                  id < |w.receipts.events| && n < MessageCount(w, payloads, id))
            && (forall id: nat, m: nat, n: nat :: Taken(w, id, n) && m < n ==> Taken(w, id, m))
            && (forall id: nat :: id < |w.receipts.events| ==> Complete(w, payloads, id))
  {
    RunKeepsSafe(START, payloads, steps);
  }
}
