/** Durable receipts: stored once, published at least once, claimed at most once.
    A receipt's id is its position in the table. */
module Ingress {

  /** The unique key of a receipt. */
  datatype Key = Key(connection: nat, provider: string, update: string)

  datatype Status = Pending | Processing | Processed | Failed

  /** `enqueued` says that `enqueued_at` is set. */
  datatype Event = Event(key: Key, status: Status, enqueued: bool)

  predicate UniqueKeys(events: seq<Event>) {
    forall i, j :: 0 <= i < j < |events| ==> events[i].key != events[j].key
  }

  predicate HasKey(events: seq<Event>, key: Key) {
    exists i :: 0 <= i < |events| && events[i].key == key
  }

  predicate NoRepeats(ids: seq<nat>) {
    forall i, j :: 0 <= i < j < |ids| ==> ids[i] != ids[j]
  }

  /** Every envelope has its receipt, new receipts are pending and unpublished, old ones untouched. */
  ghost predicate ReceiptsKept(before: seq<Event>, keys: seq<Key>, after: seq<Event>) {
    && before <= after && UniqueKeys(after)
    && (forall i :: |before| <= i < |after| ==> after[i] == Event(after[i].key, Pending, false) && after[i].key in keys)
    && (forall key :: key in keys ==> HasKey(after, key))
  }

  /** `ids` are the unpublished receipts of these envelopes. */
  ghost predicate Unpublished(keys: seq<Key>, events: seq<Event>, ids: seq<nat>) {
    && (forall id :: id in ids ==> id < |events|)
    && (forall id: nat :: id < |events| ==> (id in ids <==> events[id].key in keys && !events[id].enqueued))
  }

  /** One delivery's transaction. */
  ghost predicate Stored(before: seq<Event>, keys: seq<Key>, after: seq<Event>, ids: seq<nat>) {
    ReceiptsKept(before, keys, after) && NoRepeats(ids) && Unpublished(keys, after, ids)
  }

  function IdOf(events: seq<Event>, key: Key): (id: nat)
    ensures id <= |events|
    ensures id < |events| ==> events[id].key == key
    ensures id == |events| ==> !HasKey(events, key)
  {
    if events == [] then 0 else
    if events[|events| - 1].key == key then |events| - 1 else
    var id := IdOf(events[..|events| - 1], key);
    if id == |events| - 1 then |events| else id
  }

  /** `list(dict.fromkeys(ids))`: without repeats, in order of first appearance. */
  function Distinct(ids: seq<nat>): (r: seq<nat>)
    ensures NoRepeats(r) && forall id :: id in r <==> id in ids
  {
    if ids == [] then []
    else
      var init, last := Distinct(ids[..|ids| - 1]), ids[|ids| - 1];
      assert ids == ids[..|ids| - 1] + [last];
      if last in init then init else init + [last]
  }

  /** `r` is `ids` at these positions, each the first appearance of its id, in order. */
  predicate FirstAppearances(ids: seq<nat>, at: seq<nat>, r: seq<nat>) {
    && |at| == |r| && (forall k :: 0 <= k < |at| ==> at[k] < |ids| && ids[at[k]] == r[k])
    && (forall j, k :: 0 <= j < k < |at| ==> at[j] < at[k])
    && (forall k, i :: 0 <= k < |at| && 0 <= i < at[k] ==> ids[i] != r[k])
  }

  lemma {:induction false} DistinctKeepsOrder(ids: seq<nat>) returns (at: seq<nat>)
    ensures FirstAppearances(ids, at, Distinct(ids))
  {
    hide FirstAppearances;
    if ids == [] {
      at := [];
      NoAppearances();
    } else {
      var n := |ids| - 1;
      var init, last := ids[..n], ids[n];
      at := DistinctKeepsOrder(init);
      assert ids == init + [last];
      if last in Distinct(init) {
        AppearedBefore(init, last, at, Distinct(init));
      } else {
        AppearsFirst(init, last, at, Distinct(init));
        at := at + [n];
      }
    }
  }

  lemma NoAppearances()
    ensures FirstAppearances([], [], Distinct([]))
  {
  }

  lemma AppearedBefore(init: seq<nat>, last: nat, at: seq<nat>, r: seq<nat>)
    requires FirstAppearances(init, at, r)
    ensures FirstAppearances(init + [last], at, r)
  {
  }

  lemma AppearsFirst(init: seq<nat>, last: nat, at: seq<nat>, r: seq<nat>)
    requires FirstAppearances(init, at, r) && last !in init
    ensures FirstAppearances(init + [last], at + [|init|], r + [last])
  {
    var all := init + [last];
    assert forall i :: 0 <= i < |init| ==> all[i] == init[i] && init[i] in init;
  }

  /** The table once the envelope's receipt is found or added. */
  function WithKey(events: seq<Event>, key: Key): seq<Event> {
    if IdOf(events, key) == |events| then events + [Event(key, Pending, false)] else events
  }

  lemma KeepOne(before: seq<Event>, keys: seq<Key>, n: nat, events: seq<Event>)
    requires n < |keys| && ReceiptsKept(before, keys[..n], events)
    ensures ReceiptsKept(before, keys[..n + 1], WithKey(events, keys[n]))
  {
    hide IdOf;
    var key, id := keys[n], IdOf(events, keys[n]);
    var events' := WithKey(events, key);
    var seen, seen' := keys[..n], keys[..n + 1];
    assert forall k :: k in seen' <==> k in seen || k == key;
    NewKeyIsUnique(events, id, key);
    forall k | k in seen' ensures HasKey(events', k) { StillHasKey(events, events', id, key, k); }
    assert forall i :: 0 <= i < |events| ==> events'[i] == events[i];
  }

  /** Listing row `id`, the only one with this key, unless it is published already. */
  lemma ListOne(seen: seq<Key>, key: Key, events: seq<Event>, more: seq<Event>, ids: seq<nat>, id: nat)
    requires Unpublished(seen, events, ids) && events <= more && id < |more| && id <= |events| && more[id].key == key
    requires |more| == if id < |events| then |events| else id + 1
    requires forall k :: 0 <= k < |events| && events[k].key == key ==> k == id
    ensures Unpublished(seen + [key], more, if more[id].enqueued then ids else ids + [id])
  {
    var ids' := if more[id].enqueued then ids else ids + [id];
    forall k: nat | k in ids' ensures k < |more| {
      if k in ids { assert k < |events|; }
    }
    forall k: nat | k < |more| ensures k in ids' <==> more[k].key in seen + [key] && !more[k].enqueued {
      if k < |events| { assert more[k] == events[k]; } else { assert k == id && k !in ids; }
    }
  }

  lemma NewKeyIsUnique(events: seq<Event>, id: nat, key: Key)
    requires UniqueKeys(events) && id == IdOf(events, key)
    ensures id == |events| ==> UniqueKeys(events + [Event(key, Pending, false)])
  {
    if id == |events| {
      assert forall i :: 0 <= i < |events| ==> events[i].key != key;
    }
  }

  lemma StillHasKey(events: seq<Event>, events': seq<Event>, id: nat, key: Key, k: Key)
    requires events <= events' && id < |events'| && events'[id].key == key && (HasKey(events, k) || k == key)
    ensures HasKey(events', k)
  {
    if HasKey(events, k) {
      var i :| 0 <= i < |events| && events[i].key == k;
      assert events'[i].key == k;
    }
  }

  lemma OnlyRow(events: seq<Event>, key: Key)
    requires UniqueKeys(events)
    ensures forall i :: 0 <= i < |events| && events[i].key == key ==> i == IdOf(events, key)
  {
    hide IdOf;
    var id := IdOf(events, key);
    forall i | 0 <= i < |events| && events[i].key == key ensures i == id { assert HasKey(events, key); }
  }

  lemma AllStored(before: seq<Event>, keys: seq<Key>, events: seq<Event>)
    requires ReceiptsKept(before, keys, events)
    ensures forall k :: k in keys ==> HasKey(events, k)
  {
  }

  lemma NothingStored(before: seq<Event>, keys: seq<Key>)
    requires UniqueKeys(before)
    ensures ReceiptsKept(before, keys[..0], before) && Unpublished(keys[..0], before, [])
    ensures Listed(keys[..0], before) == []
  {
  }

  lemma WithoutRepeats(keys: seq<Key>, events: seq<Event>, ids: seq<nat>)
    requires Unpublished(keys, events, ids)
    ensures NoRepeats(Distinct(ids)) && Unpublished(keys, events, Distinct(ids))
  {
  }

  /** Exactly the rows in `ids` get their `enqueued_at`. */
  function Marked(events: seq<Event>, ids: seq<nat>): (r: seq<Event>)
    ensures |r| == |events|
    ensures forall i :: 0 <= i < |events| ==> r[i] == events[i].(enqueued := events[i].enqueued || i in ids)
  {
    seq(|events|, i requires 0 <= i < |events| => events[i].(enqueued := events[i].enqueued || i in ids))
  }

  /** The unpublished receipts of these envelopes, envelope by envelope. */
  function Listed(keys: seq<Key>, events: seq<Event>): seq<nat> {
    if keys == [] then []
    else
      var id := IdOf(events, keys[|keys| - 1]);
      Listed(keys[..|keys| - 1], events) + if id < |events| && !events[id].enqueued then [id] else []
  }

  lemma {:induction false} ListedGrows(keys: seq<Key>, events: seq<Event>, e: Event)
    requires (forall k :: k in keys ==> HasKey(events, k)) && !HasKey(events, e.key)
    ensures Listed(keys, events + [e]) == Listed(keys, events)
  {
    if keys != [] {
      var init, last := keys[..|keys| - 1], keys[|keys| - 1];
      assert last in keys && last != e.key;
      assert (events + [e])[..|events|] == events;
      ListedGrows(init, events, e);
    }
  }

  lemma ListedNext(keys: seq<Key>, n: nat, events: seq<Event>)
    requires n < |keys|
    ensures var id := IdOf(events, keys[n]);
            Listed(keys[..n + 1], events)
            == Listed(keys[..n], events) + if id < |events| && !events[id].enqueued then [id] else []
  {
    assert keys[..n + 1][..n] == keys[..n];
  }

  /** The envelope's receipt is not published yet. */
  predicate IsListed(events: seq<Event>, key: Key) {
    var id := IdOf(events, key);
    id < |events| && !events[id].enqueued
  }

  /** `ids` are the listed receipts of the envelopes at these positions, in order and all of them. */
  predicate ListedAt(keys: seq<Key>, events: seq<Event>, at: seq<nat>, ids: seq<nat>) {
    && |at| == |ids|
    && (forall k :: 0 <= k < |at| ==>
          at[k] < |keys| && IsListed(events, keys[at[k]]) && ids[k] == IdOf(events, keys[at[k]]))
    && (forall j, k :: 0 <= j < k < |at| ==> at[j] < at[k])
    && (forall i :: 0 <= i < |keys| && IsListed(events, keys[i]) ==> i in at)
  }

  lemma {:induction false} ListedKeepsOrder(keys: seq<Key>, events: seq<Event>) returns (at: seq<nat>)
    ensures ListedAt(keys, events, at, Listed(keys, events))
  {
    hide IdOf, ListedAt, Listed;
    if keys == [] {
      at := [];
      NothingListed(events);
    } else {
      var n := |keys| - 1;
      var init, last := keys[..n], keys[n];
      at := ListedKeepsOrder(init, events);
      assert keys == init + [last];
      ListedLast(init, last, events);
      if IsListed(events, last) {
        ListLast(init, last, events, at, Listed(init, events));
        at := at + [n];
      } else {
        PassLast(init, last, events, at, Listed(init, events));
      }
    }
  }

  lemma ListedLast(init: seq<Key>, last: Key, events: seq<Event>)
    ensures Listed(init + [last], events)
            == if IsListed(events, last) then Listed(init, events) + [IdOf(events, last)] else Listed(init, events)
  {
    hide IdOf;
    assert (init + [last])[..|init|] == init;
    assert Listed(init, events) + [] == Listed(init, events);
  }

  lemma NothingListed(events: seq<Event>)
    ensures ListedAt([], events, [], Listed([], events))
  {
  }

  lemma ListLast(init: seq<Key>, last: Key, events: seq<Event>, at: seq<nat>, ids: seq<nat>)
    requires ListedAt(init, events, at, ids) && IsListed(events, last)
    ensures ListedAt(init + [last], events, at + [|init|], ids + [IdOf(events, last)])
  {
    hide IdOf, IsListed;
    var keys, more := init + [last], at + [|init|];
    forall i | 0 <= i < |keys| && IsListed(events, keys[i]) ensures i in more {
      if i < |init| { assert keys[i] == init[i]; } else { assert more[|at|] == i; }
    }
  }

  lemma PassLast(init: seq<Key>, last: Key, events: seq<Event>, at: seq<nat>, ids: seq<nat>)
    requires ListedAt(init, events, at, ids) && !IsListed(events, last)
    ensures ListedAt(init + [last], events, at, ids)
  {
    hide IdOf, IsListed;
  }

  /** Receipts are published in the order their envelopes came in: the first envelope of an
      earlier one is ahead of every envelope of a later one. */
  lemma PublishedInOrderOfArrival(keys: seq<Key>, events: seq<Event>, p: nat, q: nat) returns (i: nat)
    requires UniqueKeys(events) && p < q < |Distinct(Listed(keys, events))|
    ensures var ids := Distinct(Listed(keys, events));
            && ids[p] < |events| && ids[q] < |events| && i < |keys| && keys[i] == events[ids[p]].key
            && forall j :: 0 <= j <= i ==> keys[j] != events[ids[q]].key
  {
    hide IdOf, Listed, Distinct;
    var listed := Listed(keys, events);
    var first := DistinctKeepsOrder(listed);
    var at := ListedKeepsOrder(keys, events);
    var ids := Distinct(listed);
    assert first[p] < first[q];
    i := at[first[p]];
    OnlyRow(events, events[ids[q]].key);
    assert forall z :: 0 <= z <= first[p] ==> listed[z] != ids[q];
  }

  /** The task queue; its `failAt`-th publication fails. */
  class TaskQueue {
    const failAt: nat
    var messages: seq<nat>

    constructor (failAt: nat)
      ensures this.failAt == failAt && messages == []
    {
      this.failAt := failAt;
      messages := [];
    }

    method Enqueue(id: nat) returns (ok: bool)
      modifies this
      ensures ok == (|old(messages)| != failAt)
      ensures messages == if ok then old(messages) + [id] else old(messages)
    {
      ok := |messages| != failAt;
      if ok { messages := messages + [id]; }
    }
  }

  class Receiver {
    var events: seq<Event>

    constructor ()
      ensures events == []
    {
      events := [];
    }

    /** The receipts of a delivery, in one transaction that ends before anything is published. */
    method StoreReceipts(keys: seq<Key>) returns (ids: seq<nat>)
      requires UniqueKeys(events)
      modifies this
      ensures Stored(old(events), keys, events, ids)
      ensures ids == Distinct(Listed(keys, events))
    {
      hide ReceiptsKept, Unpublished, HasKey, Listed;
      ids := [];
      ghost var before := events;
      NothingStored(before, keys);
      for n := 0 to |keys|
        invariant UniqueKeys(events) && ReceiptsKept(before, keys[..n], events) && Unpublished(keys[..n], events, ids)
        invariant ids == Listed(keys[..n], events)
      {
        var key := keys[n];
        var id := IdOf(events, key);
        KeepOne(before, keys, n, events);
        OnlyRow(events, key);
        assert keys[..n + 1] == keys[..n] + [key];
        ListOne(keys[..n], key, events, WithKey(events, key), ids, id);
        NewKeyIsUnique(events, id, key);
        if id == |events| {
          AllStored(before, keys[..n], events);
          ListedGrows(keys[..n], events, Event(key, Pending, false));
          events := events + [Event(key, Pending, false)];
        }
        ListedNext(keys, n, events);
        OnlyRow(events, key);
        if !events[id].enqueued {
          ids := ids + [id];
        }
      }
      assert keys[..|keys|] == keys;
      WithoutRepeats(keys, events, ids);
      ids := Distinct(ids);
    }

    /** Publish each receipt, then record that it was published. Stops at the first failure. */
    method Publish(ids: seq<nat>, queue: TaskQueue) returns (ok: bool)
      requires forall id :: id in ids ==> id < |events|
      modifies this, queue
      ensures exists k :: 0 <= k <= |ids| && (ok <==> k == |ids|)
                && queue.messages == old(queue.messages) + ids[..k] && events == Marked(old(events), ids[..k])
    {
      ghost var before, sent := events, queue.messages;
      assert before == Marked(before, ids[..0]);
      var n := 0;
      while n < |ids|
        invariant 0 <= n <= |ids| && queue.messages == sent + ids[..n] && events == Marked(before, ids[..n])
      {
        assert ids[n] in ids;
        var accepted := queue.Enqueue(ids[n]);
        if !accepted { return false; }
        assert ids[..n + 1] == ids[..n] + [ids[n]];
        events := events[ids[n] := events[ids[n]].(enqueued := true)];
        assert events == Marked(before, ids[..n + 1]);
        n := n + 1;
      }
      return true;
    }

    /** A delivery that returns normally leaves every envelope stored once and published: by an
        earlier delivery, or by this one just now. */
    method Receive(keys: seq<Key>, queue: TaskQueue) returns (ok: bool)
      requires UniqueKeys(events)
      modifies this, queue
      ensures UniqueKeys(events)
      ensures forall key :: key in keys ==> HasKey(events, key)
      ensures ok ==> forall id: nat :: id < |events| && events[id].key in keys ==>
                events[id].enqueued
                && (id in queue.messages || (id < |old(events)| && old(events)[id].enqueued))
    {
      var ids := StoreReceipts(keys);
      ghost var stored := events;
      ok := Publish(ids, queue);
      forall key | key in keys ensures HasKey(events, key) {
        var i :| 0 <= i < |stored| && stored[i].key == key;
        assert events[i].key == key;
      }
      assert ids[..|ids|] == ids;
    }
  }
}
