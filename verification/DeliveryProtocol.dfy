/** Many deliveries and many workers at once: providers redeliver, the queue fails or repeats
    itself, and any process dies between two commits. */
module DeliveryProtocol {
  import opened Ingress

  /** A delivery between its commits: `next` receipts are published and marked; when `sent`,
      the next one is published but not yet marked. */
  datatype Delivery = Delivery(keys: seq<Key>, ids: seq<nat>, next: nat, sent: bool)

  /** Committed receipts, every id ever published, every claim ever won, what is still running,
      and the deliveries that returned normally. */
  datatype World = World(
    events: seq<Event>, published: set<nat>, claims: seq<nat>,
    deliveries: map<nat, Delivery>, workers: map<nat, nat>, returned: set<seq<Key>>)

  datatype Step =
    | Deliver(d: nat, keys: seq<Key>, after: seq<Event>, ids: seq<nat>)
    | Enqueue(d: nat)
    | EnqueueFails(d: nat, landed: bool)
    | Mark(d: nat)
    | DeliveryDies(d: nat)
    | Claim(worker: nat, id: nat)
    | Finish(worker: nat, status: Status)
    | WorkerDies(worker: nat)

  ghost predicate Enabled(w: World, step: Step) {
    match step
    case Deliver(d, keys, after, ids) => d !in w.deliveries && Stored(w.events, keys, after, ids)
    case Enqueue(d) => d in w.deliveries && !w.deliveries[d].sent && w.deliveries[d].next < |w.deliveries[d].ids|
    case EnqueueFails(d, _) =>
      d in w.deliveries && !w.deliveries[d].sent && w.deliveries[d].next < |w.deliveries[d].ids|
    case Mark(d) =>
      d in w.deliveries && w.deliveries[d].sent && w.deliveries[d].next < |w.deliveries[d].ids|
      && w.deliveries[d].ids[w.deliveries[d].next] < |w.events|
    case DeliveryDies(d) => d in w.deliveries
    // the queue hands out anything ever published, any number of times
    case Claim(k, id) => k !in w.workers && id in w.published && id < |w.events|
    case Finish(k, status) => k in w.workers && w.workers[k] < |w.events| && (status.Processed? || status.Failed?)
    case WorkerDies(k) => k in w.workers
  }

  /** The delivery goes on, or returns normally once all its receipts are marked. */
  function Continue(w: World, d: nat, delivery: Delivery): World {
    if delivery.next == |delivery.ids|
    then w.(deliveries := w.deliveries - {d}, returned := w.returned + {delivery.keys})
    else w.(deliveries := w.deliveries[d := delivery])
  }

  ghost function Next(w: World, step: Step): World
    requires Enabled(w, step)
  {
    match step
    case Deliver(d, keys, after, ids) => Continue(w.(events := after), d, Delivery(keys, ids, 0, false))
    case Enqueue(d) =>
      var x := w.deliveries[d];
      w.(published := w.published + {x.ids[x.next]}, deliveries := w.deliveries[d := x.(sent := true)])
    case EnqueueFails(d, landed) =>
      var x := w.deliveries[d];
      w.(published := w.published + (if landed then {x.ids[x.next]} else {}), deliveries := w.deliveries - {d})
    case Mark(d) =>
      var x := w.deliveries[d];
      var id := x.ids[x.next];
      Continue(w.(events := w.events[id := w.events[id].(enqueued := true)]), d, x.(next := x.next + 1, sent := false))
    case DeliveryDies(d) => w.(deliveries := w.deliveries - {d})
    case Claim(k, id) =>
      if w.events[id].status.Pending? then
        w.(events := w.events[id := w.events[id].(status := Processing)], claims := w.claims + [id],
           workers := w.workers[k := id])
      else w
    case Finish(k, status) =>
      var id := w.workers[k];
      w.(events := w.events[id := w.events[id].(status := status)], workers := w.workers - {k})
    case WorkerDies(k) => w.(workers := w.workers - {k})
  }

  ghost predicate IsRun(w: World, steps: seq<Step>)
    decreases |steps|
  {
    steps == [] || (Enabled(w, steps[0]) && IsRun(Next(w, steps[0]), steps[1..]))
  }

  ghost function Run(w: World, steps: seq<Step>): World
    requires IsRun(w, steps)
    decreases |steps|
  {
    if steps == [] then w else Run(Next(w, steps[0]), steps[1..])
  }

  const START := World([], {}, [], map[], map[], {})

  // ----- publication -----

  /** The envelope's receipt is stored, and published or on the delivery's list. */
  ghost predicate Accounted(events: seq<Event>, published: set<nat>, key: Key, ids: seq<nat>) {
    exists id: nat :: id < |events| && events[id].key == key && (id in published || id in ids)
  }

  ghost predicate DeliveryFits(w: World, x: Delivery) {
    && x.next < |x.ids|
    && (forall id :: id in x.ids ==> id < |w.events|)
    && (forall k :: 0 <= k < x.next ==> x.ids[k] in w.published)
    && (x.sent ==> x.ids[x.next] in w.published)
    && (forall key :: key in x.keys ==> Accounted(w.events, w.published, key, x.ids))
  }

  ghost predicate RowsPublished(w: World) {
    && UniqueKeys(w.events)
    && (forall id :: id in w.published ==> id < |w.events|)
    && (forall id: nat :: id < |w.events| && w.events[id].enqueued ==> id in w.published)
  }

  ghost predicate Published(w: World) {
    && RowsPublished(w)
    && (forall d :: d in w.deliveries ==> DeliveryFits(w, w.deliveries[d]))
    && (forall keys, key :: keys in w.returned && key in keys ==> Accounted(w.events, w.published, key, []))
  }

  /** Rows keep their keys and publications are never taken back. */
  ghost predicate Grows(v: World, w: World) {
    && |v.events| <= |w.events| && v.published <= w.published
    && forall id: nat :: id < |v.events| ==> w.events[id].key == v.events[id].key
  }

  lemma NextGrows(w: World, step: Step)
    requires Enabled(w, step)
    ensures Grows(w, Next(w, step))
  {
  }

  lemma AccountedGrows(v: World, w: World, key: Key, ids: seq<nat>, ids': seq<nat>)
    requires Grows(v, w) && Accounted(v.events, v.published, key, ids)
    requires forall id :: id in ids ==> id in ids' || id in w.published
    ensures Accounted(w.events, w.published, key, ids')
  {
    var id: nat :| id < |v.events| && v.events[id].key == key && (id in v.published || id in ids);
    assert w.events[id].key == key;
  }

  lemma StoredAccounts(w: World, keys: seq<Key>, after: seq<Event>, ids: seq<nat>, key: Key)
    requires RowsPublished(w) && Stored(w.events, keys, after, ids) && key in keys
    ensures Accounted(after, w.published, key, ids)
  {
    assert HasKey(after, key);
    var id: nat :| id < |after| && after[id].key == key;
    assert id in ids || after[id].enqueued;
  }

  lemma NextIdIsARow(w: World, d: nat)
    requires Published(w) && d in w.deliveries
    ensures var x := w.deliveries[d];
            x.next < |x.ids| && x.ids[x.next] < |w.events| && (x.sent ==> x.ids[x.next] in w.published)
  {
    assert DeliveryFits(w, w.deliveries[d]);
    var x := w.deliveries[d];
    assert x.ids[x.next] in x.ids;
  }

  lemma {:induction false} NextKeepsRows(w: World, step: Step)
    requires Published(w) && Enabled(w, step)
    ensures RowsPublished(Next(w, step))
  {
    hide Accounted;
    match step
    case Enqueue(d) => NextIdIsARow(w, d);
    case EnqueueFails(d, landed) => NextIdIsARow(w, d);
    case Mark(d) => NextIdIsARow(w, d);
    case _ =>
  }

  lemma {:induction false} NextKeepsDelivery(w: World, step: Step, d: nat)
    requires Published(w) && Enabled(w, step) && d in Next(w, step).deliveries
    ensures DeliveryFits(Next(w, step), Next(w, step).deliveries[d])
  {
    hide Accounted, Grows;
    var v := Next(w, step);
    NextGrows(w, step);
    var x := v.deliveries[d];
    if d in w.deliveries {
      forall key | key in x.keys ensures Accounted(v.events, v.published, key, x.ids) {
        AccountedGrows(w, v, key, x.ids, x.ids);
      }
      NextGrowsRows(w, step);
    } else {
      forall key | key in x.keys ensures Accounted(v.events, v.published, key, x.ids) {
        StoredAccounts(w, step.keys, step.after, step.ids, key);
      }
    }
  }

  lemma NextGrowsRows(w: World, step: Step)
    requires Enabled(w, step)
    ensures |w.events| <= |Next(w, step).events| && w.published <= Next(w, step).published
  {
  }

  /** A delivery returns normally only when everything on its list has been published. */
  lemma NextKeepsReturned(w: World, step: Step, keys: seq<Key>, key: Key)
    requires Published(w) && Enabled(w, step) && keys in Next(w, step).returned && key in keys
    ensures Accounted(Next(w, step).events, Next(w, step).published, key, [])
  {
    hide Accounted, Grows;
    var v := Next(w, step);
    NextGrows(w, step);
    if keys in w.returned {
      AccountedGrows(w, v, key, [], []);
    } else if step.Deliver? {
      StoredAccounts(w, step.keys, step.after, step.ids, key);
    } else {
      var x := w.deliveries[step.d];
      assert DeliveryFits(w, x);
      assert forall id :: id in x.ids ==> id in w.published;
      NextGrowsRows(w, step);
      AccountedGrows(w, v, key, x.ids, []);
    }
  }

  lemma NextKeepsPublished(w: World, step: Step)
    requires Published(w) && Enabled(w, step)
    ensures Published(Next(w, step))
  {
    hide Accounted, RowsPublished, DeliveryFits, Enabled, Next;
    var v := Next(w, step);
    NextKeepsRows(w, step);
    forall d | d in v.deliveries ensures DeliveryFits(v, v.deliveries[d]) { NextKeepsDelivery(w, step, d); }
    forall keys, key | keys in v.returned && key in keys ensures Accounted(v.events, v.published, key, []) {
      NextKeepsReturned(w, step, keys, key);
    }
  }

  /** A delivery whose publication fails, or that dies, is gone without having returned; what it
      stored and published stays. */
  lemma InterruptedDeliveryIsGone(w: World, d: nat, step: Step)
    requires Enabled(w, step) && (step == DeliveryDies(d) || (step.EnqueueFails? && step.d == d))
    ensures var v := Next(w, step);
            && d !in v.deliveries && v.returned == w.returned && v.events == w.events && w.published <= v.published
            && v.claims == w.claims && v.workers == w.workers
  {
  }

  // ----- claims -----

  /** A receipt has been claimed exactly when it is no longer pending, and only once; whoever
      is processing it won that claim. */
  ghost predicate ClaimedOnce(w: World) {
    && NoRepeats(w.claims)
    && (forall id :: id in w.claims ==> id < |w.events|)
    && (forall id: nat :: id < |w.events| ==> (id in w.claims <==> !w.events[id].status.Pending?))
    && (forall k :: k in w.workers ==> w.workers[k] < |w.events| && w.events[w.workers[k]].status.Processing?)
    && (forall j, k :: j in w.workers && k in w.workers && w.workers[j] == w.workers[k] ==> j == k)
  }

  /** Everything but a claim and its end leaves statuses, claims and workers as they are. */
  lemma {:induction false} OthersKeepClaims(w: World, step: Step)
    requires ClaimedOnce(w) && Enabled(w, step) && !step.Claim? && !step.Finish? && !step.WorkerDies?
    ensures ClaimedOnce(Next(w, step))
  {
    var v := Next(w, step);
    assert v.claims == w.claims && v.workers == w.workers && |w.events| <= |v.events|;
    assert forall id: nat :: id < |v.events| ==>
      v.events[id].status == if id < |w.events| then w.events[id].status else Pending;
  }

  lemma {:induction false} NextKeepsClaims(w: World, step: Step)
    requires ClaimedOnce(w) && Enabled(w, step)
    ensures ClaimedOnce(Next(w, step))
  {
    hide Stored;
    if step.Claim? || step.Finish? || step.WorkerDies? {
    } else {
      OthersKeepClaims(w, step);
    }
  }

  lemma {:induction false} RunKeepsBoth(w: World, steps: seq<Step>)
    requires Published(w) && ClaimedOnce(w) && IsRun(w, steps)
    ensures Published(Run(w, steps)) && ClaimedOnce(Run(w, steps))
    decreases |steps|
  {
    hide Published, ClaimedOnce, Enabled, Next;
    if steps != [] {
      NextKeepsPublished(w, steps[0]);
      NextKeepsClaims(w, steps[0]);
      RunKeepsBoth(Next(w, steps[0]), steps[1..]);
    }
  }

  /** In every run: a delivery that returned normally has each envelope stored exactly once and
      published; `enqueued_at` is never set without a publication; no receipt is claimed twice. */
  lemma DeliveriesAreDurable(steps: seq<Step>)
    requires IsRun(START, steps)
    ensures var w := Run(START, steps);
            && (forall keys, key :: keys in w.returned && key in keys ==>
                  exists id: nat :: id < |w.events| && w.events[id].key == key && id in w.published)
            && UniqueKeys(w.events)
            && (forall id: nat :: id < |w.events| && w.events[id].enqueued ==> id in w.published)
            && NoRepeats(w.claims)
  {
    RunKeepsBoth(START, steps);
    var w := Run(START, steps);
    forall keys, key | keys in w.returned && key in keys
      ensures exists id: nat :: id < |w.events| && w.events[id].key == key && id in w.published
    {
      assert Accounted(w.events, w.published, key, []);
    }
  }

  predicate IsProcessing(w: World, id: nat) {
    id < |w.events| && w.events[id].status.Processing? && forall k :: k in w.workers ==> w.workers[k] != id
  }

  /** A worker that died after its claim leaves its receipt `processing` for good: no
      redelivery and no repeated queue message ever starts it again. */
  lemma {:induction false} DeadClaimIsNeverRestarted(w: World, steps: seq<Step>, id: nat)
    requires IsRun(w, steps) && IsProcessing(w, id)
    ensures IsProcessing(Run(w, steps), id)
    decreases |steps|
  {
    if steps != [] {
      DeadClaimStep(w, steps[0], id);
      hide Enabled, Next, IsProcessing;
      DeadClaimIsNeverRestarted(Next(w, steps[0]), steps[1..], id);
    }
  }

  lemma DeadClaimStep(w: World, step: Step, id: nat)
    requires Enabled(w, step) && IsProcessing(w, id)
    ensures IsProcessing(Next(w, step), id)
  {
  }

  // ----- a delivery that is not interrupted -----

  /** The steps that publish and mark the receipts on delivery `d`'s list from number `n` on. */
  function PublishSteps(d: nat, n: nat): seq<Step> {
    if n == 0 then [] else [Enqueue(d), Mark(d)] + PublishSteps(d, n - 1)
  }

  /** Left alone, a delivery marks exactly the receipts on its list, as `Receiver.Publish` does,
      and returns normally. */
  lemma {:induction false} UninterruptedDelivery(w: World, d: nat, x: Delivery)
    requires Published(w) && d in w.deliveries && w.deliveries[d] == x && !x.sent
    ensures var steps := PublishSteps(d, |x.ids| - x.next);
            IsRun(w, steps) && var v := Run(w, steps);
            && v.events == Marked(w.events, x.ids[x.next..]) && x.keys in v.returned && d !in v.deliveries
    decreases |x.ids| - x.next
  {
    hide Published, Next, Enabled, Marked, PublishSteps, Run, IsRun;
    NextIdIsARow(w, d);
    var steps := PublishSteps(d, |x.ids| - x.next);
    var rest := PublishSteps(d, |x.ids| - x.next - 1);
    SplitSteps(d, |x.ids| - x.next);
    var ab := PublishOne(w, d, x);
    var (a, b) := ab;
    NoSteps(d, b);
    if x.next + 1 < |x.ids| { UninterruptedDelivery(b, d, x.(next := x.next + 1)); }
    TwoSteps(w, steps, a, b, rest);
    RestOfIds(w.events, x.ids, x.next);
  }

  lemma SplitSteps(d: nat, n: nat)
    requires 0 < n
    ensures var steps := PublishSteps(d, n);
            |steps| >= 2 && steps[0] == Enqueue(d) && steps[1] == Mark(d) && steps[1..][1..] == PublishSteps(d, n - 1)
  {
    var rest := PublishSteps(d, n - 1);
    assert PublishSteps(d, n) == [Enqueue(d), Mark(d)] + rest;
    assert ([Enqueue(d), Mark(d)] + rest)[1..][1..] == rest;
  }

  lemma NoSteps(d: nat, w: World)
    ensures PublishSteps(d, 0) == [] && IsRun(w, []) && Run(w, []) == w
  {
  }

  lemma RestOfIds(events: seq<Event>, ids: seq<nat>, n: nat)
    requires n < |ids|
    ensures Marked(Marked(events, [ids[n]]), ids[n + 1..]) == Marked(events, ids[n..])
    ensures n + 1 == |ids| ==> ids[n..] == [ids[n]]
  {
    assert ids[n..] == [ids[n]] + ids[n + 1..];
  }

  /** Publishing and marking one receipt. */
  lemma PublishOne(w: World, d: nat, x: Delivery) returns (ab: (World, World))
    requires Published(w) && d in w.deliveries && w.deliveries[d] == x && !x.sent
    ensures x.next < |x.ids| && Enabled(w, Enqueue(d)) && ab.0 == Next(w, Enqueue(d))
    ensures Enabled(ab.0, Mark(d)) && ab.1 == Next(ab.0, Mark(d)) && Published(ab.1)
    ensures ab.1.events == Marked(w.events, [x.ids[x.next]])
    ensures if x.next + 1 == |x.ids| then x.keys in ab.1.returned && d !in ab.1.deliveries
            else d in ab.1.deliveries && ab.1.deliveries[d] == x.(next := x.next + 1)
  {
    NextIdIsARow(w, d);
    var a := Next(w, Enqueue(d));
    NextKeepsPublished(w, Enqueue(d));
    NextKeepsPublished(a, Mark(d));
    hide Published;
    ab := (a, Next(a, Mark(d)));
  }

  lemma TwoSteps(w: World, steps: seq<Step>, a: World, b: World, rest: seq<Step>)
    requires |steps| >= 2 && steps[1..][1..] == rest
    requires Enabled(w, steps[0]) && a == Next(w, steps[0]) && Enabled(a, steps[1]) && b == Next(a, steps[1])
    ensures IsRun(b, rest) ==> IsRun(w, steps) && Run(w, steps) == Run(b, rest)
  {
    hide Next, Enabled;
    if IsRun(b, rest) {
      var tail := steps[1..];
      assert tail[0] == steps[1] && tail[1..] == rest;
      assert IsRun(a, tail) && Run(a, tail) == Run(b, rest);
    }
  }
}
