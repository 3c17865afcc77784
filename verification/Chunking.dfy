/** The dispatcher's text splitter and the composer's independent mirror of it.
    Both walk the trimmed text `t`; what is left of it begins at a position `pos`. */
module Chunking {
  import opened Text

  /** Where the next chunk of `t[pos..]` ends: the last newline inside the limit, else the
      last space, else the limit itself. A break at `pos` does not count. */
  function CutAt(t: string, pos: nat, limit: nat): (cut: nat)
    requires 0 < limit && pos + limit < |t|
    ensures pos < cut <= pos + limit
  {
    var newline := RFind(t, '\n', pos, pos + limit);
    if pos < newline then newline else
    var space := RFind(t, ' ', pos, pos + limit);
    if pos < space then space else pos + limit
  }

  function Chunks(t: string, pos: nat, limit: nat): seq<string>
    requires 0 < limit && pos <= |t|
    decreases |t| - pos
  {
    if pos == |t| then []
    else if |t| - pos <= limit then [t[pos..]]
    else
      var cut := CutAt(t, pos, limit);
      [Trim(t[pos..cut])] + Chunks(t, SkipSpace(t, cut), limit)
  }

  function Boundaries(t: string, pos: nat, limit: nat): seq<nat>
    requires 0 < limit && pos <= |t|
    decreases |t| - pos
  {
    if |t| - pos <= limit then []
    else
      var cut := CutAt(t, pos, limit);
      [cut] + Boundaries(t, SkipSpace(t, cut), limit)
  }

  /** Both loops: `remaining` is what is left of `t` from `pos` on. */
  ghost predicate IsRest(t: string, pos: nat, remaining: string) {
    pos <= |t| && remaining == t[pos..] && IsTrimmed(t) && AtWord(t, pos)
  }

  /** What is left of the text begins with a visible character. */
  predicate AtWord(t: string, pos: nat) {
    pos < |t| ==> !IsSpace(t[pos])
  }

  ghost predicate ChunksSoFar(t: string, pos: nat, limit: nat, chunks: seq<string>)
    requires 0 < limit && pos <= |t|
  {
    chunks + Chunks(t, pos, limit) == Chunks(t, 0, limit)
  }

  ghost predicate BoundariesSoFar(t: string, pos: nat, limit: nat, boundaries: seq<nat>)
    requires 0 < limit && pos <= |t|
  {
    boundaries + Boundaries(t, pos, limit) == Boundaries(t, 0, limit)
  }

  method ChunkText(text: string, limit: nat) returns (chunks: seq<string>)
    requires 0 < limit
    ensures chunks == Chunks(Trim(text), 0, limit)
  {
    hide IsRest, ChunksSoFar, Trim, RFind, Chunks, SkipSpace;
    chunks := [];
    var remaining := Trim(text);
    ghost var t, pos: nat := remaining, 0;
    Start(text, limit);
    while remaining != []
      invariant pos + |remaining| == |t| && IsRest(t, pos, remaining)
      invariant ChunksSoFar(t, pos, limit, chunks)
      decreases |remaining|
    {
      if |remaining| <= limit {
        chunks := chunks + [remaining];
        LastChunk(t, pos, limit, chunks[..|chunks| - 1], remaining);
        return;
      }
      var cut := RFind(remaining, '\n', 0, limit);
      if cut <= 0 { cut := RFind(remaining, ' ', 0, limit); }
      if cut <= 0 { cut := limit; }
      CutOfRest(t, pos, limit, remaining, cut);
      PieceOfRest(t, pos, remaining, cut);
      NextChunk(t, pos, limit, chunks);
      var piece := Trim(remaining[..cut]);
      if piece != [] {
        chunks := chunks + [piece];
      }
      NextRest(t, pos, remaining, cut);
      remaining := Trim(remaining[cut..]);
      pos := SkipSpace(t, pos + cut);
    }
    NoMoreChunks(t, limit, chunks);
  }

  method ChunkBoundaries(text: string, limit: int) returns (boundaries: seq<nat>)
    ensures boundaries == if limit <= 0 then [] else Boundaries(Trim(text), 0, limit)
  {
    hide IsRest, BoundariesSoFar, Trim, TrimStart, RFind, Boundaries, SkipSpace;
    if limit <= 0 { return []; }
    boundaries := [];
    var offset: nat := 0;
    var remaining := Trim(text);
    ghost var t := remaining;
    Start(text, limit);
    while limit < |remaining|
      invariant offset + |remaining| == |t| && IsRest(t, offset, remaining)
      invariant BoundariesSoFar(t, offset, limit, boundaries)
      decreases |remaining|
    {
      var cut := RFind(remaining, '\n', 0, limit);
      if cut <= 0 { cut := RFind(remaining, ' ', 0, limit); }
      if cut <= 0 { cut := limit; }
      CutOfRest(t, offset, limit, remaining, cut);
      NextBoundary(t, offset, limit, boundaries);
      NextRest(t, offset, remaining, cut);
      offset := offset + cut;
      boundaries := boundaries + [offset];
      var discarded := |remaining[cut..]| - |TrimStart(remaining[cut..])|;
      offset := offset + discarded;
      remaining := TrimStart(remaining[cut..]);
    }
    NoMoreBoundaries(t, offset, limit, boundaries);
  }

  lemma Start(text: string, limit: nat)
    requires 0 < limit
    ensures var t := Trim(text);
            IsRest(t, 0, t) && ChunksSoFar(t, 0, limit, []) && BoundariesSoFar(t, 0, limit, [])
  {
    TrimTrims(text);
  }

  lemma NextChunk(t: string, pos: nat, limit: nat, done: seq<string>)
    requires 0 < limit && pos + limit < |t| && ChunksSoFar(t, pos, limit, done)
    ensures var cut := CutAt(t, pos, limit);
            ChunksSoFar(t, SkipSpace(t, cut), limit, done + [Trim(t[pos..cut])])
  {
    var cut := CutAt(t, pos, limit);
    assert Chunks(t, pos, limit) == [Trim(t[pos..cut])] + Chunks(t, SkipSpace(t, cut), limit);
  }

  lemma LastChunk(t: string, pos: nat, limit: nat, done: seq<string>, remaining: string)
    requires 0 < limit && remaining != [] && pos + |remaining| == |t| && |remaining| <= limit
    requires IsRest(t, pos, remaining) && ChunksSoFar(t, pos, limit, done)
    ensures done + [remaining] == Chunks(t, 0, limit)
  {
  }

  lemma NoMoreChunks(t: string, limit: nat, done: seq<string>)
    requires 0 < limit && ChunksSoFar(t, |t|, limit, done)
    ensures done == Chunks(t, 0, limit)
  {
    assert done + [] == done;
  }

  lemma NextBoundary(t: string, pos: nat, limit: nat, done: seq<nat>)
    requires 0 < limit && pos + limit < |t| && BoundariesSoFar(t, pos, limit, done)
    ensures var cut := CutAt(t, pos, limit);
            BoundariesSoFar(t, SkipSpace(t, cut), limit, done + [cut])
  {
    var cut := CutAt(t, pos, limit);
    assert Boundaries(t, pos, limit) == [cut] + Boundaries(t, SkipSpace(t, cut), limit);
  }

  lemma NoMoreBoundaries(t: string, pos: nat, limit: nat, done: seq<nat>)
    requires 0 < limit && pos <= |t| <= pos + limit && BoundariesSoFar(t, pos, limit, done)
    ensures done == Boundaries(t, 0, limit)
  {
    assert done + [] == done;
  }

  /** Searching what is left finds the same break as searching the whole text from `pos`. */
  lemma RFindOfSlice(t: string, c: char, pos: nat, n: nat)
    requires pos + n <= |t|
    ensures var r := RFind(t, c, pos, pos + n);
            RFind(t[pos..], c, 0, n) == if r == -1 then -1 else r - pos
  {
    RFindIsLast(t, c, pos, pos + n);
    RFindIsLast(t[pos..], c, 0, n);
  }

  lemma CutOfRest(t: string, pos: nat, limit: nat, r: string, cut: int)
    requires 0 < limit && pos + limit < |t| && IsRest(t, pos, r)
    requires var newline := RFind(r, '\n', 0, limit);
             var space := RFind(r, ' ', 0, limit);
             cut == if 0 < newline then newline else if 0 < space then space else limit
    ensures 0 < cut <= limit && CutAt(t, pos, limit) == pos + cut
  {
    RFindOfSlice(t, '\n', pos, limit);
    RFindOfSlice(t, ' ', pos, limit);
  }

  /** What `strip` leaves of a piece is never empty, so no piece is dropped. */
  lemma PieceOfRest(t: string, pos: nat, r: string, cut: nat)
    requires 0 < cut && pos + cut <= |t| && IsRest(t, pos, r)
    ensures Trim(r[..cut]) == Trim(t[pos..pos + cut]) != []
  {
    var p := t[pos..pos + cut];
    assert r[..cut] == p;
    PieceHasText(t, pos, pos + cut);
  }

  lemma PieceHasText(t: string, pos: nat, cut: nat)
    requires pos < cut <= |t| && AtWord(t, pos)
    ensures Trim(t[pos..cut]) != []
  {
    var p := t[pos..cut];
    assert p[0] == t[pos];
    SkipBack(p, |p|);
  }

  /** After a cut, `strip` and `trimStart` both leave the text from the next visible character. */
  lemma NextRest(t: string, pos: nat, r: string, cut: nat)
    requires 0 < cut && pos + cut < |t| && IsRest(t, pos, r)
    ensures var next := SkipSpace(t, pos + cut);
            && IsRest(t, next, Trim(r[cut..])) && TrimStart(r[cut..]) == Trim(r[cut..])
            && next + |Trim(r[cut..])| == |t|
  {
    hide Trim, TrimStart, SkipSpace;
    NextWord(t, pos + cut);
    var s := t[pos + cut..];
    assert r[cut..] == s;
    TrimOfSlice(t, pos + cut);
  }

  lemma NextWord(t: string, cut: nat)
    requires cut < |t| && IsTrimmed(t)
    ensures SkipSpace(t, cut) < |t| && AtWord(t, SkipSpace(t, cut))
  {
    SkipForward(t, cut);
  }

  lemma TrimOfSlice(t: string, cut: nat)
    requires cut < |t| && IsTrimmed(t)
    ensures Trim(t[cut..]) == TrimStart(t[cut..]) == t[SkipSpace(t, cut)..]
  {
    hide Trim, SkipSpace, SpaceBefore;
    var s, next := t[cut..], SkipSpace(t, cut);
    SkipOfSlice(t, cut, cut);
    SkipForward(s, 0);
    assert s[|s| - 1] == t[|t| - 1];
    TrimIs(s, next - cut, |s|);
    assert s[next - cut..] == t[next..];
  }

  lemma SkipOfSlice(t: string, pos: nat, i: nat)
    requires pos <= i <= |t|
    ensures SkipSpace(t[pos..], i - pos) == SkipSpace(t, i) - pos
    decreases |t| - i
  {
    if i < |t| && IsSpace(t[i]) { SkipOfSlice(t, pos, i + 1); }
  }

  /** Strictly increasing positions after `from` and before `end`. */
  predicate Within(boundaries: seq<nat>, from: nat, end: nat) {
    boundaries == [] || (from < boundaries[0] < end && Within(boundaries[1..], boundaries[0], end))
  }

  /** What a reader of the boundaries does: slice the text there and trim each slice. */
  function SliceAndTrim(t: string, from: nat, boundaries: seq<nat>): seq<string>
    requires from <= |t| && Within(boundaries, from, |t|)
    decreases |boundaries|
  {
    if boundaries == [] then [Trim(t[from..])]
    else [Trim(t[from..boundaries[0]])] + SliceAndTrim(t, boundaries[0], boundaries[1..])
  }

  lemma TrimPast(t: string, from: nat, pos: nat, e: nat)
    requires from <= pos <= e <= |t| && SpaceIn(t, from, pos)
    ensures Trim(t[from..e]) == Trim(t[pos..e])
  {
    var s := t[from..e];
    assert s[pos - from..] == t[pos..e];
    assert forall i :: 0 <= i < |s| ==> s[i] == t[from + i];
    TrimAfterSpace(s, pos - from);
  }

  lemma LastPiece(t: string, from: nat, pos: nat)
    requires from <= pos < |t| && SpaceIn(t, from, pos) && IsTrimmed(t) && AtWord(t, pos)
    ensures Trim(t[from..]) == t[pos..]
  {
    hide Trim;
    assert t[from..|t|] == t[from..] && t[pos..|t|] == t[pos..];
    TrimPast(t, from, pos, |t|);
    assert t[pos..][0] == t[pos];
    TrimTrims(t[pos..]);
  }

  lemma {:induction false} RefinesFrom(t: string, from: nat, pos: nat, limit: nat)
    requires 0 < limit && from <= pos < |t| && SpaceIn(t, from, pos)
    requires IsTrimmed(t) && AtWord(t, pos)
    ensures var bs := Boundaries(t, pos, limit);
            && Within(bs, from, |t|)
            && SliceAndTrim(t, from, bs) == Chunks(t, pos, limit)
            && |Chunks(t, pos, limit)| == |bs| + 1
    decreases |t| - pos
  {
    hide Trim, SpaceIn, IsTrimmed, CutAt, SkipSpace;
    if |t| - pos <= limit {
      LastPiece(t, from, pos);
    } else {
      var cut := CutAt(t, pos, limit);
      var next := SkipSpace(t, cut);
      NextWord(t, cut);
      SkipForward(t, cut);
      RefinesFrom(t, cut, next, limit);
      TrimPast(t, from, pos, cut);
      assert ([cut] + Boundaries(t, next, limit))[1..] == Boundaries(t, next, limit);
    }
  }

  /** The composer refines the dispatcher: cutting the trimmed text at the composer's
      boundaries and trimming the slices gives the dispatcher's chunks. */
  lemma ComposerMatchesDispatcher(text: string, limit: nat)
    requires 0 < limit && Trim(text) != []
    ensures var t := Trim(text); var bs := Boundaries(t, 0, limit);
            && Within(bs, 0, |t|)
            && SliceAndTrim(t, 0, bs) == Chunks(t, 0, limit)
            && |Chunks(t, 0, limit)| == |bs| + 1
  {
    var t := Trim(text);
    TrimTrims(text);
    RefinesFrom(t, 0, 0, limit);
  }

  /** Where a chunk lies in the text. */
  datatype Span = Span(from: nat, to: nat)

  /** From `pos` on the chunks are the text at these positions, in order, one after the other,
      with whitespace and nothing else before, between and after them. */
  predicate SlicesInOrder(t: string, pos: nat, spans: seq<Span>, chunks: seq<string>)
    requires pos <= |t|
    decreases |spans|
  {
    if spans == [] then chunks == [] && SpaceIn(t, pos, |t|)
    else
      var s := spans[0];
      && pos <= s.from < s.to <= |t| && SpaceIn(t, pos, s.from)
      && chunks != [] && chunks[0] == t[s.from..s.to]
      && SlicesInOrder(t, s.to, spans[1..], chunks[1..])
  }

  lemma OneMoreSlice(t: string, pos: nat, s: Span, spans: seq<Span>, chunks: seq<string>)
    requires pos <= s.from < s.to <= |t| && SpaceIn(t, pos, s.from) && SlicesInOrder(t, s.to, spans, chunks)
    ensures SlicesInOrder(t, pos, [s] + spans, [t[s.from..s.to]] + chunks)
  {
    assert ([s] + spans)[1..] == spans && ([t[s.from..s.to]] + chunks)[1..] == chunks;
  }

  /** Trimming a piece that begins a word only takes whitespace off its end. */
  lemma PieceIsASlice(t: string, pos: nat, cut: nat) returns (e: nat)
    requires pos < cut <= |t| && AtWord(t, pos)
    ensures pos < e <= cut && Trim(t[pos..cut]) == t[pos..e] && SpaceIn(t, e, cut)
  {
    hide Trim, SkipSpace, SpaceBefore;
    var p := t[pos..cut];
    assert forall i :: 0 <= i < |p| ==> p[i] == t[pos + i];
    var n := SpaceBefore(p, |p|);
    SkipBack(p, |p|);
    assert !IsSpace(p[0]);
    e := pos + n;
    TrimIs(p, 0, n);
    assert p[0..n] == t[pos..e];
    assert forall i :: e <= i < cut ==> t[i] == p[i - pos];
  }

  lemma JoinSpace(t: string, a: nat, b: nat, c: nat)
    requires a <= b <= c <= |t| && SpaceIn(t, a, b) && SpaceIn(t, b, c)
    ensures SpaceIn(t, a, c)
  {
  }

  /** Nothing but whitespace is lost: the chunks are slices of the text, in order. `gap` is where
      the chunk before, if any, ended. */
  lemma {:induction false} ChunksAreSlices(t: string, gap: nat, pos: nat, limit: nat) returns (spans: seq<Span>)
    requires 0 < limit && gap <= pos <= |t| && SpaceIn(t, gap, pos) && IsTrimmed(t) && AtWord(t, pos)
    ensures SlicesInOrder(t, gap, spans, Chunks(t, pos, limit))
    decreases |t| - pos
  {
    hide Trim, SkipSpace, SpaceIn, CutAt;
    if pos == |t| {
      spans := [];
    } else if |t| - pos <= limit {
      NoSpaceLeft(t);
      spans := [Span(pos, |t|)];
      OneMoreSlice(t, gap, Span(pos, |t|), [], []);
      assert t[pos..|t|] == t[pos..];
    } else {
      var cut := CutAt(t, pos, limit);
      var next := SkipSpace(t, cut);
      NextWord(t, cut);
      SkipForward(t, cut);
      var e := PieceIsASlice(t, pos, cut);
      JoinSpace(t, e, cut, next);
      var rest := ChunksAreSlices(t, e, next, limit);
      OneMoreSlice(t, gap, Span(pos, e), rest, Chunks(t, next, limit));
      spans := [Span(pos, e)] + rest;
    }
  }

  lemma NoSpaceLeft(t: string)
    ensures SpaceIn(t, |t|, |t|)
  {
  }

  /** Every chunk is a trimmed text that fits the channel and carries something. */
  lemma {:induction false} ChunksFit(t: string, pos: nat, limit: nat)
    requires 0 < limit && pos <= |t| && IsTrimmed(t) && AtWord(t, pos)
    ensures forall c :: c in Chunks(t, pos, limit) ==> IsTrimmed(c) && 1 <= |c| <= limit
    decreases |t| - pos
  {
    if limit < |t| - pos {
      var cut := CutAt(t, pos, limit);
      NextWord(t, cut);
      PieceHasText(t, pos, cut);
      TrimTrims(t[pos..cut]);
      ChunksFit(t, SkipSpace(t, cut), limit);
    }
  }

  /** The best place to cut what is left from `pos` on: the last newline within the limit, without
      one the last space, without either the limit itself. A break at `pos` is none. */
  predicate IsBestCut(t: string, pos: nat, limit: nat, cut: nat)
    requires pos + limit < |t|
  {
    var newline := exists i :: pos < i < pos + limit && t[i] == '\n';
    var space := exists i :: pos < i < pos + limit && t[i] == ' ';
    if newline then pos < cut < pos + limit && t[cut] == '\n' && forall i :: cut < i < pos + limit ==> t[i] != '\n'
    else if space then pos < cut < pos + limit && t[cut] == ' ' && forall i :: cut < i < pos + limit ==> t[i] != ' '
    else cut == pos + limit
  }

  /** Each boundary is the best cut of what the ones before leave, less the whitespace in front;
      there is one as long as more is left than the limit. */
  predicate BestCuts(t: string, pos: nat, limit: nat, boundaries: seq<nat>)
    requires 0 < limit && pos <= |t|
    decreases |boundaries|
  {
    if |t| - pos <= limit then boundaries == []
    else
      && boundaries != [] && IsBestCut(t, pos, limit, boundaries[0])
      && var cut := boundaries[0]; BestCuts(t, SkipSpace(t, cut), limit, boundaries[1..])
  }

  lemma CutIsBest(t: string, pos: nat, limit: nat)
    requires 0 < limit && pos + limit < |t|
    ensures IsBestCut(t, pos, limit, CutAt(t, pos, limit))
  {
    RFindIsLast(t, '\n', pos, pos + limit);
    RFindIsLast(t, ' ', pos, pos + limit);
  }

  lemma {:induction false} BoundariesAreBestCuts(t: string, pos: nat, limit: nat)
    requires 0 < limit && pos <= |t|
    ensures BestCuts(t, pos, limit, Boundaries(t, pos, limit))
    decreases |t| - pos
  {
    hide CutAt, SkipSpace, IsBestCut;
    if limit < |t| - pos {
      var cut := CutAt(t, pos, limit);
      CutIsBest(t, pos, limit);
      BoundariesAreBestCuts(t, SkipSpace(t, cut), limit);
      assert ([cut] + Boundaries(t, SkipSpace(t, cut), limit))[1..] == Boundaries(t, SkipSpace(t, cut), limit);
    }
  }

  predicate IsBreak(c: char) { c == ' ' || c == '\n' }

  /** A boundary splits a word only when the word itself is longer than the limit: the
      `limit` characters before it and the one after hold no space and no newline. */
  lemma {:induction false} WordsAreCutOnlyWhenTooLong(t: string, pos: nat, limit: nat, b: nat)
    requires 0 < limit && pos <= |t| && IsTrimmed(t) && AtWord(t, pos)
    requires b in Boundaries(t, pos, limit)
    ensures 0 < b < |t|
    ensures !IsBreak(t[b - 1]) && !IsBreak(t[b]) ==>
              limit <= b && forall i :: b - limit <= i <= b ==> !IsBreak(t[i])
    decreases |t| - pos
  {
    var cut := CutAt(t, pos, limit);
    RFindIsLast(t, '\n', pos, pos + limit);
    RFindIsLast(t, ' ', pos, pos + limit);
    NextWord(t, cut);
    if b == cut {
      assert IsBreak(t[b]) || b == pos + limit;
    } else {
      assert b in Boundaries(t, SkipSpace(t, cut), limit);
      WordsAreCutOnlyWhenTooLong(t, SkipSpace(t, cut), limit, b);
    }
  }
}
