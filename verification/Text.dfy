/** Strings as the senders and the knowledge store see them: one whitespace table and
    the standard-library operations the algorithms below are built on. */
module Text {

  /** The code points Python's `str.strip` and `\s` treat as whitespace. */
  predicate IsSpace(c: char) {
    var n := c as int;
    || 0x09 <= n <= 0x0D || 0x1C <= n <= 0x20 || n == 0x85 || n == 0xA0 || n == 0x1680
    || 0x2000 <= n <= 0x200A || n == 0x2028 || n == 0x2029 || n == 0x202F || n == 0x205F || n == 0x3000
  }

  /** The whitespace characters one by one. */
  const WHITESPACE: string :=
    "\t\n\U{B}\U{C}\r\U{1C}\U{1D}\U{1E}\U{1F} \U{85}\U{A0}\U{1680}\U{2000}\U{2001}\U{2002}\U{2003}"
    + "\U{2004}\U{2005}\U{2006}\U{2007}\U{2008}\U{2009}\U{200A}\U{2028}\U{2029}\U{202F}\U{205F}\U{3000}"

  lemma WhitespaceIsTheTable(c: char)
    ensures IsSpace(c) <==> c in WHITESPACE
  {
  }

  /** The characters of `s` from `lo` up to `hi` are all whitespace. */
  predicate SpaceIn(s: string, lo: nat, hi: nat)
    requires hi <= |s|
  {
    forall i :: lo <= i < hi ==> IsSpace(s[i])
  }

  /** Nothing left for `strip` to remove. */
  predicate IsTrimmed(s: string) {
    s == [] || (!IsSpace(s[0]) && !IsSpace(s[|s| - 1]))
  }

  /** The first position from `i` on that is not whitespace. */
  function SkipSpace(s: string, i: nat): (n: nat)
    requires i <= |s|
    ensures i <= n <= |s|
    ensures n < |s| ==> !IsSpace(s[n])
    decreases |s| - i
  {
    if i == |s| || !IsSpace(s[i]) then i else SkipSpace(s, i + 1)
  }

  /** Where the whitespace that ends `s[..i]` begins. */
  function SpaceBefore(s: string, i: nat): (n: nat)
    requires i <= |s|
    ensures n <= i
    ensures 0 < n ==> !IsSpace(s[n - 1])
  {
    if i == 0 || !IsSpace(s[i - 1]) then i else SpaceBefore(s, i - 1)
  }

  lemma SkipForward(s: string, i: nat)
    requires i <= |s|
    ensures SpaceIn(s, i, SkipSpace(s, i))
    decreases |s| - i
  {
  }

  lemma SkipBack(s: string, i: nat)
    requires i <= |s|
    ensures SpaceIn(s, SpaceBefore(s, i), i)
  {
  }

  /** How many leading characters `strip` removes. */
  function Lead(s: string): nat { SkipSpace(s, 0) }

  function TrimStart(s: string): string { s[Lead(s)..] }

  function Trim(s: string): string {
    var a, e := Lead(s), SpaceBefore(s, |s|);
    if a < e then s[a..e] else []
  }

  /** `s.rfind(c, lo, hi)`: the last position of `c` from `lo` up to `hi`, or -1. */
  function RFind(s: string, c: char, lo: nat, hi: nat): (r: int)
    requires hi <= |s|
    ensures r == -1 || lo <= r < hi
    decreases hi
  {
    if hi <= lo then -1 else if s[hi - 1] == c then hi - 1 else RFind(s, c, lo, hi - 1)
  }

  lemma RFindIsLast(s: string, c: char, lo: nat, hi: nat)
    requires hi <= |s|
    ensures var r := RFind(s, c, lo, hi);
            && (r != -1 ==> s[r] == c)
            && forall k :: lo <= k < hi && r < k ==> s[k] != c
    decreases hi
  {
  }

  /** Any way of splitting off whitespace on both sides is what `strip` does. */
  lemma TrimIs(s: string, a: nat, e: nat)
    requires a <= e <= |s| && SpaceIn(s, 0, a) && SpaceIn(s, e, |s|)
    requires a < e ==> !IsSpace(s[a]) && !IsSpace(s[e - 1])
    ensures Trim(s) == s[a..e]
  {
    var l, t := Lead(s), SpaceBefore(s, |s|);
    SkipForward(s, 0);
    SkipBack(s, |s|);
    if a < e {
      assert l == a && t == e;
    } else {
      assert l == |s|;
    }
  }

  lemma TrimTrims(s: string)
    ensures IsTrimmed(Trim(s))
    ensures IsTrimmed(s) ==> Trim(s) == s
  {
    if Lead(s) < SpaceBefore(s, |s|) {
      var r := Trim(s);
      assert r[0] == s[Lead(s)] && r[|r| - 1] == s[SpaceBefore(s, |s|) - 1];
    }
    if IsTrimmed(s) {
      TrimIs(s, 0, |s|);
    }
  }

  /** Whitespace in front is invisible to `strip`. */
  lemma TrimAfterSpace(s: string, g: nat)
    requires g <= |s| && SpaceIn(s, 0, g)
    ensures Trim(s) == Trim(s[g..])
  {
    hide Trim, SkipSpace, SpaceBefore;
    var r := s[g..];
    var a, e := Lead(r), SpaceBefore(r, |r|);
    SkipForward(r, 0);
    SkipBack(r, |r|);
    assert forall i :: g <= i < |s| ==> s[i] == r[i - g];
    if a < e {
      TrimIs(r, a, e);
      TrimIs(s, g + a, g + e);
      assert s[g + a..g + e] == r[a..e];
    } else {
      TrimIs(r, 0, 0);
      TrimIs(s, 0, 0);
    }
  }

  /** A natural number in decimal. */
  function Digits(n: nat): string {
    if n < 10 then ["0123456789"[n]] else Digits(n / 10) + ["0123456789"[n % 10]]
  }

  /** The number a string of digits denotes. */
  function ParseDigits(s: string): int {
    if s == [] then 0 else 10 * ParseDigits(s[..|s| - 1]) + (s[|s| - 1] as int - '0' as int)
  }

  predicate AllDigits(s: string) {
    forall i :: 0 <= i < |s| ==> '0' <= s[i] <= '9'
  }

  /** The shortest string of digits that denotes the number. */
  lemma {:induction false} DigitsDenote(n: nat)
    ensures ParseDigits(Digits(n)) == n && AllDigits(Digits(n)) && Digits(n) != []
    ensures n == 0 || Digits(n)[0] != '0'
  {
    assert "0123456789"[n % 10] as int == '0' as int + n % 10;
    if 10 <= n {
      DigitsDenote(n / 10);
      assert Digits(n)[..|Digits(n)| - 1] == Digits(n / 10);
    }
  }
}
