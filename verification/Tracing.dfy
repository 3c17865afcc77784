/** Which events of a run are worth keeping, and how they are stored. */
module Tracing {
  import opened Options
  import opened Text
  import opened Ordering

  datatype TraceEvent = TraceEvent(kind: string, worker: Option<string>, output: Option<string>)

  const MAX_PERSISTED_EVENTS: nat := 20

  function Score(kind: string): Option<nat> {
    if kind in {"run.failed", "run.escalated", "tool.write.executed", "tool.write.failed"} then Some(1000)
    else if kind in {"tool.confirmation.requested", "tool.confirmation.received"} then Some(950)
    else if kind == "manager.plan" then Some(800)
    else if kind in {"worker.succeeded", "worker.failed"} then Some(700)
    else if kind == "manager.follow_up" then Some(650)
    else if kind == "tool.read.completed" then Some(600)
    else if kind == "worker.started" then Some(200)
    else if kind == "worker.skipped" then Some(100)
    else None
  }

  function Priority(kind: string): nat {
    if Score(kind).Some? then Score(kind).value
    else if "tool.write" <= kind then 900
    else if "tool." <= kind then 600
    else if "worker." <= kind then 500
    else 300
  }

  /** The documented ranking. Named kinds first; then any other writing tool, any other tool, any other
      worker event, anything else. */
  lemma PrioritiesOfKinds()
    ensures Priority("run.failed") == Priority("run.escalated") == 1000
    ensures Priority("tool.write.executed") == Priority("tool.write.failed") == 1000
    ensures Priority("tool.confirmation.requested") == Priority("tool.confirmation.received") == 950
    ensures Priority("manager.plan") == 800 && Priority("manager.follow_up") == 650
    ensures Priority("worker.succeeded") == Priority("worker.failed") == 700
    ensures Priority("tool.read.completed") == 600
    ensures Priority("worker.started") == 200 && Priority("worker.skipped") == 100
  {
  }

  const NAMED: set<string> := {
    "run.failed", "run.escalated", "tool.write.executed", "tool.write.failed", "tool.confirmation.requested",
    "tool.confirmation.received", "manager.plan", "worker.succeeded", "worker.failed", "manager.follow_up",
    "tool.read.completed", "worker.started", "worker.skipped"}

  lemma PrioritiesOfOthers(kind: string, rest: string)
    requires kind !in NAMED
    ensures kind == "tool.write" + rest ==> Priority(kind) == 900
    ensures kind == "tool." + rest && !("tool.write" <= kind) ==> Priority(kind) == 600
    ensures kind == "worker." + rest ==> Priority(kind) == 500
    ensures !("tool." <= kind) && !("worker." <= kind) ==> Priority(kind) == 300
  {
    assert "tool.write" <= kind ==> kind[..5] == "tool.write"[..5] == "tool.";
    assert "tool." <= kind ==> kind[0] == "tool."[0];
  }

  function PriorityAt(events: seq<TraceEvent>, i: nat): nat {
    if i < |events| then Priority(events[i].kind) else 0
  }

  /** The ranking: higher priority first, then earlier. */
  predicate Outranks(events: seq<TraceEvent>, i: nat, j: nat) {
    PriorityAt(events, i) > PriorityAt(events, j) || (PriorityAt(events, i) == PriorityAt(events, j) && i < j)
  }

  function Indices(n: nat): (r: seq<nat>)
    ensures |r| == n && forall i :: 0 <= i < n ==> r[i] == i
  {
    seq(n, i => i)
  }

  function Ranked(events: seq<TraceEvent>): seq<nat> {
    Sort(Indices(|events|), (i, j) => Outranks(events, i, j))
  }

  function Elements(s: seq<nat>): set<nat> {
    set x | x in s
  }

  function Top(events: seq<TraceEvent>, limit: nat): seq<nat> {
    var ranked := Ranked(events);
    ranked[..if limit < |ranked| then limit else |ranked|]
  }

  function Retained(events: seq<TraceEvent>, limit: nat): set<nat> {
    Elements(Top(events, limit))
  }

  /** The indices below `n` in `keep`, or those not in it, in order. */
  function Among(n: nat, keep: set<nat>, kept: bool): seq<nat> {
    if n == 0 then [] else Among(n - 1, keep, kept) + if (n - 1 in keep) == kept then [n - 1] else []
  }

  function At(events: seq<TraceEvent>, indices: seq<nat>): seq<TraceEvent>
    requires forall i :: i in indices ==> i < |events|
  {
    seq(|indices|, k requires 0 <= k < |indices| => assert indices[k] in indices; events[indices[k]])
  }

  lemma {:induction false} AmongBelow(n: nat, keep: set<nat>, kept: bool)
    ensures forall i: nat :: i in Among(n, keep, kept) <==> i < n && (i in keep) == kept
    ensures forall p, q :: 0 <= p < q < |Among(n, keep, kept)| ==> Among(n, keep, kept)[p] < Among(n, keep, kept)[q]
  {
    if n != 0 {
      AmongBelow(n - 1, keep, kept);
      var init, r := Among(n - 1, keep, kept), Among(n, keep, kept);
      assert forall i: nat :: i in r <==> i in init || ((n - 1 in keep) == kept && i == n - 1);
      assert forall p :: 0 <= p < |init| ==> init[p] in init;
    }
  }

  // ----- the summary of what is dropped -----

  predicate LexBefore(a: string, b: string) {
    b != "" && (a == "" || a[0] < b[0] || (a[0] == b[0] && LexBefore(a[1..], b[1..])))
  }

  /** After a common beginning the first string ends, or has the smaller character. */
  ghost predicate LexAt(a: string, b: string, n: nat) {
    n <= |a| && n < |b| && a[..n] == b[..n] && (n == |a| || a[n] < b[n])
  }

  /** The order of a dictionary. */
  lemma {:induction false} LexIsTheDictionary(a: string, b: string)
    ensures LexBefore(a, b) <==> exists n: nat :: LexAt(a, b, n)
    decreases |a|
  {
    if a == "" {
      assert b != "" ==> LexAt(a, b, 0);
    } else if b != "" {
      if a[0] < b[0] { assert LexAt(a, b, 0); }
      if a[0] == b[0] {
        LexIsTheDictionary(a[1..], b[1..]);
        if LexBefore(a[1..], b[1..]) {
          var n: nat :| LexAt(a[1..], b[1..], n);
          assert a[..n + 1] == [a[0]] + a[1..][..n] && b[..n + 1] == [b[0]] + b[1..][..n];
          assert LexAt(a, b, n + 1);
        }
      }
      if n: nat :| LexAt(a, b, n) {
        if 0 < n {
          assert a[..n][0] == a[0] && b[..n][0] == b[0];
          assert a[1..][..n - 1] == a[..n][1..] && b[1..][..n - 1] == b[..n][1..];
          assert LexAt(a[1..], b[1..], n - 1);
        }
      }
    }
  }

  function Kinds(events: seq<TraceEvent>): seq<string> {
    if events == [] then []
    else
      var before, kind := Kinds(events[..|events| - 1]), events[|events| - 1].kind;
      if kind in before then before else before + [kind]
  }

  function Count(events: seq<TraceEvent>, kind: string): nat {
    if events == [] then 0 else Count(events[..|events| - 1], kind) + if events[|events| - 1].kind == kind then 1 else 0
  }

  function SumOfCounts(kinds: seq<string>, events: seq<TraceEvent>): nat {
    if kinds == [] then 0 else Count(events, kinds[0]) + SumOfCounts(kinds[1..], events)
  }

  const TIMES: string := " \U{D7} "

  function Render(kinds: seq<string>, events: seq<TraceEvent>): string {
    if kinds == [] then ""
    else
      var one := kinds[0] + TIMES + Digits(Count(events, kinds[0]));
      if |kinds| == 1 then one else one + ", " + Render(kinds[1..], events)
  }

  /** Where events of a kind stand. */
  function OfKind(events: seq<TraceEvent>, kind: string): set<nat> {
    set i: nat | i < |events| && events[i].kind == kind
  }

  lemma {:induction false} CountIsOfKind(events: seq<TraceEvent>, kind: string)
    ensures Count(events, kind) == |OfKind(events, kind)|
  {
    if events == [] {
      assert OfKind(events, kind) == {};
    } else {
      var n := |events| - 1;
      CountIsOfKind(events[..n], kind);
      assert OfKind(events, kind) == OfKind(events[..n], kind) + if events[n].kind == kind then {n} else {};
    }
  }

  /** The strings with a separator between neighbours. */
  function Joined(parts: seq<string>, separator: string): string {
    if parts == [] then "" else if |parts| == 1 then parts[0] else parts[0] + separator + Joined(parts[1..], separator)
  }

  function Tally(events: seq<TraceEvent>, kind: string): string {
    kind + " \U{D7} " + Digits(|OfKind(events, kind)|)
  }

  /** The summary reads "kind × count" for each kind, with commas between them. */
  lemma {:induction false} SummaryReads(kinds: seq<string>, events: seq<TraceEvent>)
    ensures Render(kinds, events)
            == Joined(seq(|kinds|, i requires 0 <= i < |kinds| => Tally(events, kinds[i])), ", ")
    decreases |kinds|
  {
    hide Digits, OfKind, Count;
    if kinds != [] {
      CountIsOfKind(events, kinds[0]);
      SummaryReads(kinds[1..], events);
      var all := seq(|kinds|, i requires 0 <= i < |kinds| => Tally(events, kinds[i]));
      var rest := seq(|kinds[1..]|, i requires 0 <= i < |kinds[1..]| => Tally(events, kinds[1..][i]));
      assert all[1..] == rest;
    }
  }

  datatype SelectedTrace = SelectedTrace(events: seq<TraceEvent>, total: nat, dropped: nat, summary: Option<string>)

  function DroppedEvents(events: seq<TraceEvent>, limit: nat): seq<TraceEvent> {
    var keep := Retained(events, limit);
    AmongBelow(|events|, keep, false);
    At(events, Among(|events|, keep, false))
  }

  function SelectEvents(events: seq<TraceEvent>, limit: nat): SelectedTrace
    requires 1 <= limit
  {
    var keep := Retained(events, limit);
    AmongBelow(|events|, keep, true);
    var dropped := DroppedEvents(events, limit);
    SelectedTrace(At(events, Among(|events|, keep, true)), |events|, |dropped|,
                  if dropped == [] then None else Some(Render(Sort(Kinds(dropped), LexBefore), dropped)))
  }

  // ----- who is kept -----

  function Outrankers(events: seq<TraceEvent>, i: nat): set<nat> {
    set j | 0 <= j < |events| && Outranks(events, j, i)
  }

  lemma RankedIsSorted(events: seq<TraceEvent>)
    ensures var ranked := Ranked(events);
            && |ranked| == |events| && (forall i: nat :: i in ranked <==> i < |events|)
            && (forall p, q :: 0 <= p < q < |ranked| ==> Outranks(events, ranked[p], ranked[q]))
  {
    hide Priority;
    var before := (i: nat, j: nat) => Outranks(events, i, j);
    assert StrictTotal(before);
    SortSorts(Indices(|events|), before);
    forall i: nat ensures i in Indices(|events|) <==> i < |events| {
      if i < |events| { assert Indices(|events|)[i] == i; }
    }
  }

  lemma {:induction false} DistinctCount(s: seq<nat>)
    requires NoDuplicates(s)
    ensures |Elements(s)| == |s|
  {
    if s == [] {
      assert Elements(s) == {};
    } else {
      var n := |s| - 1;
      var init := s[..n];
      DistinctCount(init);
      assert s == init + [s[n]];
      assert Elements(s) == Elements(init) + {s[n]};
      assert s[n] !in init;
    }
  }

  /** The event at rank `p` has exactly the `p` events before it outranking it. */
  lemma RankCounts(events: seq<TraceEvent>, p: nat)
    requires p < |Ranked(events)|
    ensures |Outrankers(events, Ranked(events)[p])| == p
  {
    hide Priority, PriorityAt, Ranked;
    var ranked := Ranked(events);
    RankedIsSorted(events);
    var prefix := ranked[..p];
    assert NoDuplicates(prefix) by { RankedDiffers(events); }
    DistinctCount(prefix);
    assert Elements(prefix) == Outrankers(events, ranked[p]) by {
      forall j: nat ensures j in prefix <==> j in Outrankers(events, ranked[p]) {
        if j in prefix {
          var q :| 0 <= q < p && prefix[q] == j;
          assert ranked[q] in ranked;
        }
        if j in Outrankers(events, ranked[p]) {
          assert j in ranked;
          var q :| 0 <= q < |ranked| && ranked[q] == j;
          if p < q { OutranksOneWay(events, ranked[p], ranked[q]); } else if q == p { OutranksOneWay(events, j, j); }
          assert prefix[q] == j;
        }
      }
    }
  }

  lemma OutranksOneWay(events: seq<TraceEvent>, i: nat, j: nat)
    ensures !(Outranks(events, i, j) && Outranks(events, j, i))
  {
  }

  lemma RankedDiffers(events: seq<TraceEvent>)
    ensures NoDuplicates(Ranked(events))
  {
    hide Priority, PriorityAt, Ranked;
    RankedIsSorted(events);
    var ranked := Ranked(events);
    forall p, q | 0 <= p < q < |ranked| ensures ranked[p] != ranked[q] { OutranksOneWay(events, ranked[p], ranked[q]); }
  }

  /** An event is kept exactly when fewer than `limit` events outrank it. */
  lemma KeptExactlyTheTop(events: seq<TraceEvent>, limit: nat, i: nat)
    requires i < |events|
    ensures i in Retained(events, limit) <==> |Outrankers(events, i)| < limit
  {
    hide Ranked, Outrankers;
    RankedIsSorted(events);
    RankedDiffers(events);
    var ranked := Ranked(events);
    assert i in ranked;
    var p :| 0 <= p < |ranked| && ranked[p] == i;
    RankCounts(events, p);
    var m := if limit < |ranked| then limit else |ranked|;
    assert p < m ==> ranked[..m][p] == i;
    if i in ranked[..m] {
      var q :| 0 <= q < m && ranked[q] == i;
    }
  }

  lemma RetainedCount(events: seq<TraceEvent>, limit: nat)
    ensures |Retained(events, limit)| == if limit < |events| then limit else |events|
    ensures forall i :: i in Retained(events, limit) ==> i < |events|
  {
    hide Ranked;
    RankedIsSorted(events);
    RankedDiffers(events);
    var ranked := Ranked(events);
    var top := Top(events, limit);
    DistinctCount(top);
    assert forall i :: i in top ==> i in ranked;
  }

  lemma {:induction false} AmongCount(n: nat, keep: set<nat>)
    ensures |Among(n, keep, true)| + |Among(n, keep, false)| == n
    ensures |Among(n, keep, true)| == |set i | 0 <= i < n && i in keep|
  {
    if n != 0 {
      AmongCount(n - 1, keep);
      var below, all := set i | 0 <= i < n - 1 && i in keep, set i | 0 <= i < n && i in keep;
      if n - 1 in keep { assert all == below + {n - 1}; } else { assert all == below; }
    }
  }

  // ----- the summary adds up -----

  lemma LexIsTotal()
    ensures StrictTotal(LexBefore)
  {
    forall a, b | LexBefore(a, b) ensures !LexBefore(b, a) { LexOneWay(a, b); }
    forall a: string, b: string | a != b ensures LexBefore(a, b) || LexBefore(b, a) { LexEither(a, b); }
    forall a, b, c | LexBefore(a, b) && LexBefore(b, c) ensures LexBefore(a, c) { LexTransitive(a, b, c); }
  }

  lemma {:induction false} LexOneWay(a: string, b: string)
    requires LexBefore(a, b)
    ensures !LexBefore(b, a)
  {
    if a != "" && a[0] == b[0] { LexOneWay(a[1..], b[1..]); }
  }

  lemma {:induction false} LexEither(a: string, b: string)
    requires a != b
    ensures LexBefore(a, b) || LexBefore(b, a)
  {
    if a != "" && b != "" && a[0] == b[0] {
      assert a == [a[0]] + a[1..] && b == [b[0]] + b[1..];
      LexEither(a[1..], b[1..]);
    }
  }

  lemma {:induction false} LexTransitive(a: string, b: string, c: string)
    requires LexBefore(a, b) && LexBefore(b, c)
    ensures LexBefore(a, c)
  {
    if a != "" && a[0] == b[0] == c[0] { LexTransitive(a[1..], b[1..], c[1..]); }
  }

  lemma {:induction false} KindsAreDistinct(events: seq<TraceEvent>)
    ensures NoDuplicates(Kinds(events))
    ensures forall i :: 0 <= i < |events| ==> events[i].kind in Kinds(events)
    ensures forall k :: k in Kinds(events) ==> exists i :: 0 <= i < |events| && events[i].kind == k
  {
    if events != [] {
      hide Kinds;
      var n := |events| - 1;
      var init := events[..n];
      KindsAreDistinct(init);
      LastKind(events);
      forall i | 0 <= i < |events| ensures events[i].kind in Kinds(events) {
        if i < n { assert init[i].kind in Kinds(init); }
      }
      forall k | k in Kinds(events) ensures exists i :: 0 <= i < |events| && events[i].kind == k {
        if k in Kinds(init) {
          var i :| 0 <= i < n && init[i].kind == k;
          assert events[i].kind == k;
        }
      }
    }
  }

  lemma LastKind(events: seq<TraceEvent>)
    requires events != [] && NoDuplicates(Kinds(events[..|events| - 1]))
    ensures var before, kind := Kinds(events[..|events| - 1]), events[|events| - 1].kind;
            && NoDuplicates(Kinds(events)) && kind in Kinds(events)
            && forall k :: k in Kinds(events) <==> k in before || k == kind
  {
  }

  lemma {:induction false} OneMore(kinds: seq<string>, events: seq<TraceEvent>)
    requires events != [] && NoDuplicates(kinds)
    ensures var n := |events| - 1;
            SumOfCounts(kinds, events) == SumOfCounts(kinds, events[..n]) + if events[n].kind in kinds then 1 else 0
  {
    if kinds != [] {
      assert kinds == [kinds[0]] + kinds[1..];
      assert forall i :: 0 <= i < |kinds[1..]| ==> kinds[1..][i] == kinds[i + 1];
      OneMore(kinds[1..], events);
    }
  }

  lemma {:induction false} CountsAddUp(kinds: seq<string>, events: seq<TraceEvent>)
    requires NoDuplicates(kinds) && forall i :: 0 <= i < |events| ==> events[i].kind in kinds
    ensures SumOfCounts(kinds, events) == |events|
  {
    if events == [] {
      NothingCounted(kinds);
    } else {
      OneMore(kinds, events);
      CountsAddUp(kinds, events[..|events| - 1]);
    }
  }

  lemma NothingCounted(kinds: seq<string>)
    ensures SumOfCounts(kinds, []) == 0
  {
  }

  /** The whole selection: kept events are those with fewer than `limit` above them, in their
      original order; kept and dropped add up; and the summary's counts add up to the dropped. */
  lemma SelectionIsExact(events: seq<TraceEvent>, limit: nat)
    requires 1 <= limit
    ensures var selected, keep := SelectEvents(events, limit), Retained(events, limit);
            var dropped := DroppedEvents(events, limit);
            var indices := Among(|events|, keep, true);
            && (forall i: nat :: i in indices <==> i < |events| && |Outrankers(events, i)| < limit)
            && (forall p, q :: 0 <= p < q < |indices| ==> indices[p] < indices[q])
            && |selected.events| == |indices| == (if limit < |events| then limit else |events|)
            && (forall k :: 0 <= k < |indices| ==> indices[k] < |events| && selected.events[k] == events[indices[k]])
            && |selected.events| + selected.dropped == selected.total == |events|
            && (selected.summary.None? <==> |events| <= limit)
            && selected.dropped == |dropped| == SumOfCounts(Sort(Kinds(dropped), LexBefore), dropped)
  {
    hide Ranked, Retained, Outrankers, Sort, Kinds, SumOfCounts, Render;
    var keep := Retained(events, limit);
    var indices := Among(|events|, keep, true);
    AmongBelow(|events|, keep, true);
    AmongBelow(|events|, keep, false);
    AmongCount(|events|, keep);
    RetainedCount(events, limit);
    assert (set i | 0 <= i < |events| && i in keep) == keep;
    forall i: nat ensures i in indices <==> i < |events| && |Outrankers(events, i)| < limit {
      if i < |events| { KeptExactlyTheTop(events, limit, i); }
    }
    forall k | 0 <= k < |indices| ensures indices[k] < |events| { assert indices[k] in indices; }
    SummaryAddsUp(DroppedEvents(events, limit));
  }

  /** What is dropped is all the rest, in order, and the summary is of it. */
  lemma DroppedAreTheRest(events: seq<TraceEvent>, limit: nat)
    requires 1 <= limit
    ensures var dropped, others := DroppedEvents(events, limit), Among(|events|, Retained(events, limit), false);
            && |dropped| == |others|
            && (forall i: nat :: i in others <==> i < |events| && limit <= |Outrankers(events, i)|)
            && (forall p, q :: 0 <= p < q < |others| ==> others[p] < others[q])
            && (forall k :: 0 <= k < |others| ==> others[k] < |events| && dropped[k] == events[others[k]])
            && SelectEvents(events, limit).summary
               == if dropped == [] then None else Some(Render(Sort(Kinds(dropped), LexBefore), dropped))
  {
    hide Retained, Outrankers, Sort, Kinds, Render;
    var others := Among(|events|, Retained(events, limit), false);
    AmongBelow(|events|, Retained(events, limit), false);
    forall k | 0 <= k < |others| ensures others[k] < |events| { assert others[k] in others; }
    forall i: nat ensures i in others <==> i < |events| && limit <= |Outrankers(events, i)| {
      if i < |events| { KeptExactlyTheTop(events, limit, i); }
    }
  }

  lemma SummaryAddsUp(dropped: seq<TraceEvent>)
    ensures SumOfCounts(Sort(Kinds(dropped), LexBefore), dropped) == |dropped|
  {
    hide Sort;
    var kinds := Sort(Kinds(dropped), LexBefore);
    KindsAreDistinct(dropped);
    LexIsTotal();
    SortSorts(Kinds(dropped), LexBefore);
    assert NoDuplicates(kinds);
    CountsAddUp(kinds, dropped);
  }

  // ----- storing them -----

  datatype StoredEvent = StoredEvent(sequence: nat, event: TraceEvent, priority: nat)

  datatype RunStatus = Running | Completed | Escalated | Failed

  /** From row `n` on, the first `k` events are stored in order, numbered from 1. */
  predicate Numbered(stored: seq<StoredEvent>, n: nat, events: seq<TraceEvent>, k: nat)
    requires n + k <= |stored| && k <= |events|
  {
    forall i :: 0 <= i < k ==> stored[n + i] == StoredEvent(i + 1, events[i], Priority(events[i].kind))
  }

  lemma NumberNone(stored: seq<StoredEvent>, events: seq<TraceEvent>)
    ensures Numbered(stored, |stored|, events, 0)
  {
  }

  lemma NumberOne(stored: seq<StoredEvent>, n: nat, events: seq<TraceEvent>, k: nat)
    requires n + k == |stored| && k < |events| && Numbered(stored, n, events, k)
    ensures Numbered(stored + [StoredEvent(k + 1, events[k], Priority(events[k].kind))], n, events, k + 1)
  {
    hide Priority;
  }

  lemma SelectionSize(events: seq<TraceEvent>, limit: nat)
    requires 1 <= limit
    ensures var selected := SelectEvents(events, limit);
            |selected.events| <= limit && |selected.events| + selected.dropped == selected.total == |events|
  {
    SelectionIsExact(events, limit);
  }

  class LlmRun {
    var status: RunStatus
    var total: nat
    var persisted: nat
    var droppedCount: nat
    var summary: Option<string>
    var stored: seq<StoredEvent>

    constructor ()
      ensures status == Running && stored == [] && total == 0
    {
      status, total, persisted, droppedCount, summary, stored := Running, 0, 0, 0, None, [];
    }

    /** Finish the run: its counters and its selected events, numbered 1 to k, with k at most 20. */
    method Finish(events: seq<TraceEvent>, outcome: RunStatus)
      modifies this
      ensures status == outcome
      ensures var selected := SelectEvents(events, MAX_PERSISTED_EVENTS);
              && total == selected.total && persisted == |selected.events| && droppedCount == selected.dropped
              && summary == selected.summary
              && |stored| == |old(stored)| + |selected.events| && stored[..|old(stored)|] == old(stored)
              && Numbered(stored, |old(stored)|, selected.events, |selected.events|)
      ensures persisted <= MAX_PERSISTED_EVENTS && persisted + droppedCount == total == |events|
    {
      hide SelectEvents, Priority, Numbered;
      var selected := SelectEvents(events, MAX_PERSISTED_EVENTS);
      SelectionSize(events, MAX_PERSISTED_EVENTS);
      status := outcome;
      total, persisted, droppedCount, summary := selected.total, |selected.events|, selected.dropped, selected.summary;
      ghost var before := stored;
      NumberNone(stored, selected.events);
      for n := 0 to |selected.events|
        invariant |stored| == |before| + n && stored[..|before|] == before
        invariant Numbered(stored, |before|, selected.events, n)
        invariant status == outcome && total == selected.total && persisted == |selected.events|
          && droppedCount == selected.dropped && summary == selected.summary
      {
        NumberOne(stored, |before|, selected.events, n);
        var event := selected.events[n];
        stored := stored + [StoredEvent(n + 1, event, Priority(event.kind))];
      }
    }
  }
}
