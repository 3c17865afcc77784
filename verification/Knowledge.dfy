/** Overlapping windows over a document's text, as they are embedded. */
module Knowledge {
  import opened Text

  /** Every run of whitespace becomes one space. */
  function Collapse(s: string): string {
    if s == [] then []
    else if !IsSpace(s[0]) then [s[0]] + Collapse(s[1..])
    else if 1 < |s| && IsSpace(s[1]) then Collapse(s[1..])
    else [' '] + Collapse(s[1..])
  }

  function Normalise(text: string): string { Trim(Collapse(text)) }

  /** Only single spaces between words. */
  predicate SingleSpaced(t: string) {
    && (forall i :: 0 <= i < |t| && IsSpace(t[i]) ==> t[i] == ' ')
    && (forall i :: 0 < i < |t| ==> !(IsSpace(t[i - 1]) && IsSpace(t[i])))
  }

  lemma {:induction false} CollapseIsSingleSpaced(s: string)
    ensures var r := Collapse(s);
            SingleSpaced(r) && (r != [] ==> s != [] && (IsSpace(r[0]) <==> IsSpace(s[0])))
  {
    if s != [] { CollapseIsSingleSpaced(s[1..]); }
  }

  lemma NormaliseIsSingleSpaced(text: string)
    ensures IsTrimmed(Normalise(text)) && SingleSpaced(Normalise(text))
  {
    CollapseIsSingleSpaced(text);
    TrimTrims(Collapse(text));
    var r := Collapse(text);
    hide Collapse, IsTrimmed;
    if Lead(r) < SpaceBefore(r, |r|) { SliceSingleSpaced(r, Lead(r), SpaceBefore(r, |r|)); }
  }

  lemma SliceSingleSpaced(r: string, a: nat, e: nat)
    requires SingleSpaced(r) && a <= e <= |r|
    ensures SingleSpaced(r[a..e])
  {
    var t := r[a..e];
    assert forall i :: 0 <= i < |t| ==> t[i] == r[a + i];
    forall i | 0 < i < |t| ensures !(IsSpace(t[i - 1]) && IsSpace(t[i])) {
      assert t[i - 1] == r[a + i - 1] && t[i] == r[a + i];
    }
  }

  /** The words of a text: its longest runs without whitespace, in order. */
  function Words(s: string): seq<string> {
    if s == [] then []
    else if IsSpace(s[0]) then Words(s[1..])
    else if |s| == 1 || IsSpace(s[1]) then [[s[0]]] + Words(s[1..])
    else
      var rest := Words(s[1..]);
      if rest == [] then [] else [[s[0]] + rest[0]] + rest[1..]
  }

  /** The words with one space between neighbours. */
  function Spaced(words: seq<string>): string {
    if words == [] then [] else if |words| == 1 then words[0] else words[0] + " " + Spaced(words[1..])
  }

  lemma {:induction false} CollapseKeepsWords(s: string)
    ensures Words(Collapse(s)) == Words(s)
    decreases |s|
  {
    if s != [] {
      CollapseKeepsWords(s[1..]);
      CollapseIsSingleSpaced(s[1..]);
      var rest := Collapse(s[1..]);
      assert ([s[0]] + rest)[1..] == rest && ([' '] + rest)[1..] == rest;
    }
  }

  lemma {:induction false} SpaceInFront(s: string, n: nat)
    requires n <= |s| && SpaceIn(s, 0, n)
    ensures Words(s[n..]) == Words(s)
    decreases n
  {
    if n == 0 {
      assert s[0..] == s;
    } else {
      assert s[1..][n - 1..] == s[n..];
      assert forall i :: 0 <= i < n - 1 ==> s[1..][i] == s[i + 1];
      SpaceInFront(s[1..], n - 1);
    }
  }

  lemma {:induction false} SpaceAtTheEnd(s: string)
    requires s != [] && IsSpace(s[|s| - 1])
    ensures Words(s[..|s| - 1]) == Words(s)
    decreases |s|
  {
    var n := |s| - 1;
    if n == 0 {
      assert s[..0] == [] && s[1..] == [];
    } else {
      SpaceAtTheEnd(s[1..]);
      assert s[1..][..n - 1] == s[..n][1..];
      if n == 1 { assert s[1..][1..] == []; }
    }
  }

  lemma {:induction false} SpaceBehind(s: string, n: nat)
    requires n <= |s| && SpaceIn(s, n, |s|)
    ensures Words(s[..n]) == Words(s)
    decreases |s|
  {
    if n == |s| {
      assert s[..n] == s;
    } else {
      SpaceAtTheEnd(s);
      SpaceBehind(s[..|s| - 1], n);
      assert s[..|s| - 1][..n] == s[..n];
    }
  }

  lemma TrimKeepsWords(s: string)
    ensures Words(Trim(s)) == Words(s)
  {
    hide Words, SkipSpace, SpaceBefore;
    var a, e := Lead(s), SpaceBefore(s, |s|);
    SkipForward(s, 0);
    SkipBack(s, |s|);
    SpaceBehind(s, e);
    if a < e {
      SpaceInFront(s[..e], a);
      assert s[..e][a..] == s[a..e];
    } else {
      assert s[..e] == [];
    }
  }

  lemma {:induction false} SpacedWords(t: string)
    requires SingleSpaced(t) && (t != [] ==> !IsSpace(t[|t| - 1]))
    ensures Words(t) == [] <==> t == []
    ensures t != [] ==> t == (if IsSpace(t[0]) then " " else "") + Spaced(Words(t))
    decreases |t|
  {
    if t != [] {
      var rest := t[1..];
      assert forall i :: 0 <= i < |rest| ==> rest[i] == t[i + 1];
      SpacedWords(rest);
      assert t == [t[0]] + rest;
      if rest != [] { WordOnTheFront(t); }
    }
  }

  lemma WordOnTheFront(t: string)
    requires 2 <= |t| && SingleSpaced(t)
    requires t[1..] == (if IsSpace(t[1]) then " " else "") + Spaced(Words(t[1..])) && Words(t[1..]) != []
    ensures t == (if IsSpace(t[0]) then " " else "") + Spaced(Words(t))
  {
    hide Spaced;
    var words := Words(t[1..]);
    assert t == [t[0]] + t[1..] && t[1..][0] == t[1];
    if !IsSpace(t[0]) && !IsSpace(t[1]) {
      LongerWord(t[0], words);
    } else if !IsSpace(t[0]) {
      NewWord(t[0], words);
    }
  }

  lemma LongerWord(c: char, words: seq<string>)
    requires words != []
    ensures Spaced([[c] + words[0]] + words[1..]) == [c] + Spaced(words)
  {
    var all := [[c] + words[0]] + words[1..];
    assert all[1..] == words[1..];
  }

  lemma NewWord(c: char, words: seq<string>)
    requires words != []
    ensures Spaced([[c]] + words) == [c] + (" " + Spaced(words))
  {
    assert ([[c]] + words)[1..] == words;
  }

  /** Normalising keeps the words, with one space between neighbours, and nothing else. */
  lemma NormaliseIsSpacedWords(text: string)
    ensures Normalise(text) == Spaced(Words(text))
  {
    hide Words, Collapse, Trim;
    CollapseKeepsWords(text);
    TrimKeepsWords(Collapse(text));
    NormaliseIsSingleSpaced(text);
    var t := Normalise(text);
    SpacedWords(t);
    if t == [] { NoWords(); }
  }

  lemma NoWords()
    ensures Spaced([]) == []
  {
  }

  datatype Window = Window(start: nat, end: nat) {
    function Length(): int { end - start }
  }

  /** Where the window from `start` ends: at the last space in its second half, or full. */
  function WindowEnd(t: string, size: nat, start: nat): (end: nat)
    requires start < |t|
    ensures start <= end <= start + size && end <= |t| && (0 < size ==> start < end)
    ensures end < |t| ==> start + size / 2 <= end
  {
    if |t| <= start + size then |t|
    else
      var boundary := RFind(t, ' ', start + size / 2, start + size);
      if start < boundary then boundary else start + size
  }

  function NextStart(start: nat, end: nat, overlap: nat): nat {
    if start + 1 < end - overlap then end - overlap else start + 1
  }

  function Windows(t: string, size: nat, overlap: nat, start: nat): seq<Window>
    decreases |t| - start
  {
    if |t| <= start then []
    else
      var end := WindowEnd(t, size, start);
      [Window(start, end)] + if |t| <= end then [] else Windows(t, size, overlap, NextStart(start, end, overlap))
  }

  predicate Inside(windows: seq<Window>, t: string) {
    forall i :: 0 <= i < |windows| ==> windows[i].start <= windows[i].end <= |t|
  }

  /** The windows' texts, trimmed; blank ones are dropped. */
  function Parts(t: string, windows: seq<Window>): seq<string>
    requires Inside(windows, t)
  {
    if windows == [] then []
    else
      var part := Trim(t[windows[0].start..windows[0].end]);
      (if part == [] then [] else [part]) + Parts(t, windows[1..])
  }

  lemma {:induction false} PartsAreNotBlank(t: string, windows: seq<Window>)
    requires Inside(windows, t)
    ensures forall p :: p in Parts(t, windows) ==> IsTrimmed(p) && p != []
    ensures forall w :: w in windows && Trim(t[w.start..w.end]) != [] ==> Trim(t[w.start..w.end]) in Parts(t, windows)
    ensures |Parts(t, windows)| <= |windows|
  {
    hide Trim, IsTrimmed;
    if windows != [] {
      TrimTrims(t[windows[0].start..windows[0].end]);
      PartsAreNotBlank(t, windows[1..]);
      assert windows == [windows[0]] + windows[1..];
    }
  }

  lemma {:induction false} WindowsInside(t: string, size: nat, overlap: nat, start: nat)
    ensures Inside(Windows(t, size, overlap, start), t)
    decreases |t| - start
  {
    if start < |t| {
      var end := WindowEnd(t, size, start);
      if end < |t| { WindowsInside(t, size, overlap, NextStart(start, end, overlap)); }
    }
  }

  /** What is left to split gives the rest of the parts. */
  ghost predicate PartsSoFar(t: string, size: nat, overlap: nat, start: nat, result: seq<string>) {
    var all, rest := Windows(t, size, overlap, 0), Windows(t, size, overlap, start);
    Inside(all, t) && Inside(rest, t) && result + Parts(t, rest) == Parts(t, all)
  }

  lemma NextPart(t: string, size: nat, overlap: nat, start: nat, result: seq<string>)
    requires start < |t| && PartsSoFar(t, size, overlap, start, result)
    ensures var end := WindowEnd(t, size, start);
            var part := Trim(t[start..end]);
            var result' := if part == [] then result else result + [part];
            if |t| <= end then
              Inside(Windows(t, size, overlap, 0), t) && result' == Parts(t, Windows(t, size, overlap, 0))
            else PartsSoFar(t, size, overlap, NextStart(start, end, overlap), result')
  {
    hide Trim, Inside;
    WindowsInside(t, size, overlap, 0);
    var end := WindowEnd(t, size, start);
    var rest := if |t| <= end then [] else Windows(t, size, overlap, NextStart(start, end, overlap));
    if end < |t| { WindowsInside(t, size, overlap, NextStart(start, end, overlap)); } else { NoneInside(t); }
    FirstPart(t, Window(start, end), rest, result);
  }

  lemma NoneInside(t: string)
    ensures Inside([], t) && Parts(t, []) == []
  {
  }

  lemma FirstPart(t: string, w: Window, rest: seq<Window>, result: seq<string>)
    requires w.start <= w.end <= |t| && Inside(rest, t)
    ensures var part := Trim(t[w.start..w.end]);
            && Inside([w] + rest, t)
            && result + Parts(t, [w] + rest) == (if part == [] then result else result + [part]) + Parts(t, rest)
  {
    hide Trim;
    var part := Trim(t[w.start..w.end]);
    var one := if part == [] then [] else [part];
    assert ([w] + rest)[1..] == rest;
    assert Parts(t, [w] + rest) == one + Parts(t, rest);
    assert result + (one + Parts(t, rest)) == (result + one) + Parts(t, rest);
  }

  method SplitDocument(text: string, size: nat, overlap: nat) returns (result: seq<string>)
    ensures var t := Normalise(text);
            Inside(Windows(t, size, overlap, 0), t) && result == Parts(t, Windows(t, size, overlap, 0))
  {
    hide Trim, Windows, Parts, Inside, PartsSoFar, WindowEnd, RFind, Collapse;
    var t := Normalise(text);
    result := [];
    var start := 0;
    StartParts(t, size, overlap);
    while start < |t|
      invariant PartsSoFar(t, size, overlap, start, result)
      decreases |t| - start
    {
      NextPart(t, size, overlap, start, result);
      WindowEndIs(t, size, start);
      var end := if |t| < start + size then |t| else start + size;
      if end < |t| {
        var boundary := RFind(t, ' ', start + size / 2, end);
        if boundary > start { end := boundary; }
      }
      var part := Trim(t[start..end]);
      if part != [] { result := result + [part]; }
      if end >= |t| { return; }
      start := if start + 1 < end - overlap then end - overlap else start + 1;
    }
    NoMoreParts(t, size, overlap, start, result);
  }

  lemma WindowEndIs(t: string, size: nat, start: nat)
    requires start < |t|
    ensures WindowEnd(t, size, start) ==
              if |t| <= start + size then |t|
              else var boundary := RFind(t, ' ', start + size / 2, start + size);
                   if start < boundary then boundary else start + size
  {
  }

  lemma StartParts(t: string, size: nat, overlap: nat)
    ensures PartsSoFar(t, size, overlap, 0, [])
  {
    WindowsInside(t, size, overlap, 0);
  }

  lemma NoMoreParts(t: string, size: nat, overlap: nat, start: nat, result: seq<string>)
    requires |t| <= start && PartsSoFar(t, size, overlap, start, result)
    ensures Inside(Windows(t, size, overlap, 0), t) && result == Parts(t, Windows(t, size, overlap, 0))
  {
    assert result + [] == result;
  }

  // ----- what the windows cover -----

  function Min(a: int, b: int): int { if a <= b then a else b }

  /** From `start` on: no gap up to the end of the text, no window empty or over-long, and two
      neighbours share the asked-for overlap, or all but one character of the earlier window. */
  predicate Tiles(windows: seq<Window>, t: string, size: nat, overlap: nat, start: nat) {
    && windows != [] && windows[0].start == start && windows[|windows| - 1].end == |t|
    && (forall i :: 0 <= i < |windows| ==> 1 <= windows[i].Length() <= size)
    && (forall i :: 0 <= i < |windows| - 1 ==>
          windows[i].end - windows[i + 1].start == Min(overlap, windows[i].Length() - 1))
  }

  lemma {:induction false} WindowsTile(t: string, size: nat, overlap: nat, start: nat)
    requires 0 < size && start < |t|
    ensures Tiles(Windows(t, size, overlap, start), t, size, overlap, start)
    decreases |t| - start
  {
    hide RFind, WindowEnd;
    var end := WindowEnd(t, size, start);
    if end < |t| {
      hide Tiles;
      var next := NextStart(start, end, overlap);
      WindowsTile(t, size, overlap, next);
      TilesCons(end, Windows(t, size, overlap, next), t, size, overlap, start);
    }
  }

  lemma TilesCons(end: nat, rest: seq<Window>, t: string, size: nat, overlap: nat, start: nat)
    requires 1 <= end - start <= size && Tiles(rest, t, size, overlap, NextStart(start, end, overlap))
    ensures Tiles([Window(start, end)] + rest, t, size, overlap, start)
  {
    var all := [Window(start, end)] + rest;
    assert forall i :: 1 <= i < |all| ==> all[i] == rest[i - 1];
    assert all[|all| - 1] == rest[|rest| - 1];
  }

  ghost predicate CoveredBy(windows: seq<Window>, p: nat) {
    exists i :: 0 <= i < |windows| && windows[i].start <= p < windows[i].end
  }

  lemma {:induction false} TilesCover(windows: seq<Window>, t: string, size: nat, overlap: nat, start: nat, p: nat,
                                      i: nat)
    requires Tiles(windows, t, size, overlap, start) && start <= p < |t|
    requires i < |windows| && windows[i].start <= p
    ensures CoveredBy(windows, p)
    decreases |windows| - i
  {
    if windows[i].end <= p { TilesCover(windows, t, size, overlap, start, p, i + 1); }
  }

  lemma EmptyWindows(t: string, overlap: nat, start: nat)
    ensures forall i :: 0 <= i < |Windows(t, 0, overlap, start)| ==> Windows(t, 0, overlap, start)[i].Length() <= 0
    decreases |t| - start
  {
  }

  ghost predicate CoverAll(windows: seq<Window>, t: string) {
    forall p :: 0 <= p < |t| ==> CoveredBy(windows, p)
  }

  /** Every character of the text is in some window, exactly when windows may hold anything. */
  lemma EveryCharacterIsCovered(t: string, size: nat, overlap: nat)
    requires t != []
    ensures CoverAll(Windows(t, size, overlap, 0), t) <==> 0 < size
  {
    hide WindowEnd, Windows;
    var windows := Windows(t, size, overlap, 0);
    if 0 < size {
      WindowsTile(t, size, overlap, 0);
      assert windows[0].start == 0;
      forall p | 0 <= p < |t| ensures CoveredBy(windows, p) { TilesCover(windows, t, size, overlap, 0, p, 0); }
    } else {
      EmptyWindows(t, overlap, 0);
      assert !CoveredBy(windows, 0);
      assert !CoverAll(windows, t);
    }
  }

  /** A window ends with the text, at the last space of its second half, or full when there is none. */
  ghost predicate EndsWell(t: string, size: nat, w: Window)
    requires w.start <= w.end <= |t|
  {
    var full := w.start + size;
    var breaks := exists i :: w.start + size / 2 <= i < full && w.start < i && i < |t| && t[i] == ' ';
    if |t| <= full then w.end == |t|
    else if breaks then
      && w.start < w.end < full && w.start + size / 2 <= w.end && t[w.end] == ' '
      && forall i :: w.end < i < full ==> t[i] != ' '
    else w.end == full
  }

  lemma WindowEndsWell(t: string, size: nat, start: nat)
    requires start < |t|
    ensures EndsWell(t, size, Window(start, WindowEnd(t, size, start)))
  {
    if start + size < |t| { RFindIsLast(t, ' ', start + size / 2, start + size); }
  }

  lemma {:induction false} WindowsEndAtSpaces(t: string, size: nat, overlap: nat, start: nat)
    ensures AllEndWell(t, size, Windows(t, size, overlap, start))
    decreases |t| - start
  {
    hide WindowEnd, EndsWell, AllEndWell;
    NoneEnd(t, size);
    if start < |t| {
      var end := WindowEnd(t, size, start);
      WindowEndsWell(t, size, start);
      var rest := if |t| <= end then [] else Windows(t, size, overlap, NextStart(start, end, overlap));
      if end < |t| { WindowsEndAtSpaces(t, size, overlap, NextStart(start, end, overlap)); }
      OneMoreEnds(t, size, Window(start, end), rest);
    }
  }

  ghost predicate AllEndWell(t: string, size: nat, windows: seq<Window>) {
    forall i :: 0 <= i < |windows| ==> windows[i].start <= windows[i].end <= |t| && EndsWell(t, size, windows[i])
  }

  lemma NoneEnd(t: string, size: nat)
    ensures AllEndWell(t, size, [])
  {
  }

  lemma OneMoreEnds(t: string, size: nat, w: Window, rest: seq<Window>)
    requires w.start <= w.end <= |t| && EndsWell(t, size, w) && AllEndWell(t, size, rest)
    ensures AllEndWell(t, size, [w] + rest)
  {
    hide EndsWell;
  }

  /** With more than the overlap in half a window, neighbours share exactly the overlap, and
      there are at most ceil(|t| / (size / 2 - overlap)) windows. */
  lemma OverlapAndCount(t: string, size: nat, overlap: nat)
    requires t != [] && overlap < size / 2
    ensures var windows := Windows(t, size, overlap, 0);
            && (forall i :: 0 <= i < |windows| - 1 ==> windows[i].end - windows[i + 1].start == overlap)
            && (|windows| - 1) * (size / 2 - overlap) < |t|
  {
    WindowsTile(t, size, overlap, 0);
    CountFrom(t, size, overlap, 0);
    HalfWindows(t, size, overlap, 0);
  }

  /** Every window but the last is at least half full. */
  predicate HalfFull(windows: seq<Window>, size: nat) {
    forall i :: 0 <= i < |windows| - 1 ==> size / 2 <= windows[i].Length()
  }

  lemma {:induction false} HalfWindows(t: string, size: nat, overlap: nat, start: nat)
    ensures HalfFull(Windows(t, size, overlap, start), size)
    decreases |t| - start
  {
    hide WindowEnd;
    if start < |t| {
      var end := WindowEnd(t, size, start);
      if end < |t| {
        hide HalfFull;
        HalfWindows(t, size, overlap, NextStart(start, end, overlap));
        HalfFullCons(Window(start, end), Windows(t, size, overlap, NextStart(start, end, overlap)), size);
      }
    }
  }

  lemma HalfFullCons(w: Window, rest: seq<Window>, size: nat)
    requires size / 2 <= w.Length() && HalfFull(rest, size)
    ensures HalfFull([w] + rest, size)
  {
  }

  lemma MulStep(n: int, d: int)
    ensures n * d == (n - 1) * d + d
  {
  }

  lemma {:induction false} CountFrom(t: string, size: nat, overlap: nat, start: nat)
    requires overlap < size / 2 && start < |t|
    ensures start + (|Windows(t, size, overlap, start)| - 1) * (size / 2 - overlap) < |t|
    decreases |t| - start
  {
    hide WindowEnd;
    var end := WindowEnd(t, size, start);
    if end < |t| {
      var next := NextStart(start, end, overlap);
      var rest := Windows(t, size, overlap, next);
      CountFrom(t, size, overlap, next);
      MulStep(|rest|, size / 2 - overlap);
    }
  }

  /** Every window becomes a part of its own, its trimmed text. */
  ghost predicate OnePartEach(t: string, windows: seq<Window>) {
    && Inside(windows, t) && |Parts(t, windows)| == |windows|
    && forall i :: 0 <= i < |windows| ==> Parts(t, windows)[i] == Trim(t[windows[i].start..windows[i].end]) != []
  }

  lemma OnePartMore(t: string, w: Window, rest: seq<Window>)
    requires w.start <= w.end <= |t| && Trim(t[w.start..w.end]) != [] && OnePartEach(t, rest)
    ensures OnePartEach(t, [w] + rest)
  {
    hide Trim;
    var all := [w] + rest;
    assert all[1..] == rest;
    assert Parts(t, all) == [Trim(t[w.start..w.end])] + Parts(t, rest);
  }

  /** No window of two or more characters is blank, so none is dropped. */
  lemma {:induction false} EveryWindowIsAPart(t: string, size: nat, overlap: nat, start: nat)
    requires 2 <= size && IsTrimmed(t) && SingleSpaced(t)
    ensures OnePartEach(t, Windows(t, size, overlap, start))
    decreases |t| - start
  {
    if start < |t| {
      hide Trim, IsTrimmed, SingleSpaced, WindowEnd;
      WindowHasText(t, size, start);
      var end := WindowEnd(t, size, start);
      var rest := if |t| <= end then [] else Windows(t, size, overlap, NextStart(start, end, overlap));
      if end < |t| { EveryWindowIsAPart(t, size, overlap, NextStart(start, end, overlap)); }
      OnePartMore(t, Window(start, end), rest);
    }
  }

  lemma WindowHasText(t: string, size: nat, start: nat)
    requires 2 <= size && IsTrimmed(t) && SingleSpaced(t) && start < |t|
    ensures Trim(t[start..WindowEnd(t, size, start)]) != []
  {
    var end := WindowEnd(t, size, start);
    var w := t[start..end];
    if |t| <= start + size {
      assert w[|w| - 1] == t[|t| - 1];
    } else {
      RFindIsLast(t, ' ', start + size / 2, start + size);
      if end == start + 1 { assert t[end - 1] == w[0]; } else { assert w[0] == t[start] && w[1] == t[start + 1]; }
    }
    SkipForward(w, 0);
    SkipBack(w, |w|);
  }
}
