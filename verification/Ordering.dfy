/** Sorting by a strict total order, as `ORDER BY` and `sorted` do. */
module Ordering {

  /** Any two different elements are in order one way, and only one. */
  ghost predicate StrictTotal<T(!new)>(before: (T, T) -> bool) {
    && (forall a, b :: before(a, b) ==> !before(b, a))
    && (forall a, b :: a != b ==> before(a, b) || before(b, a))
    && (forall a, b, c :: before(a, b) && before(b, c) ==> before(a, c))
  }

  ghost predicate Sorted<T>(s: seq<T>, before: (T, T) -> bool) {
    forall i, j :: 0 <= i < j < |s| ==> before(s[i], s[j])
  }

  ghost predicate NoDuplicates<T>(s: seq<T>) {
    forall i, j :: 0 <= i < j < |s| ==> s[i] != s[j]
  }

  function Insert<T>(x: T, s: seq<T>, before: (T, T) -> bool): seq<T> {
    if s == [] then [x]
    else if before(x, s[0]) then [x] + s
    else [s[0]] + Insert(x, s[1..], before)
  }

  function Sort<T>(s: seq<T>, before: (T, T) -> bool): seq<T> {
    if s == [] then [] else Insert(s[0], Sort(s[1..], before), before)
  }

  lemma {:induction false} InsertSorts<T(!new)>(x: T, s: seq<T>, before: (T, T) -> bool)
    requires StrictTotal(before) && Sorted(s, before) && x !in s
    ensures var r := Insert(x, s, before);
            Sorted(r, before) && |r| == |s| + 1 && forall y :: y in r <==> y == x || y in s
  {
    if s != [] && !before(x, s[0]) {
      var rest := Insert(x, s[1..], before);
      InsertSorts(x, s[1..], before);
      assert s == [s[0]] + s[1..];
      assert forall y :: y in s[1..] ==> before(s[0], y);
      assert forall i :: 0 <= i < |rest| ==> rest[i] in rest;
    }
  }

  /** Sorting keeps exactly the elements and puts every earlier one before every later one. */
  lemma {:induction false} SortSorts<T(!new)>(s: seq<T>, before: (T, T) -> bool)
    requires StrictTotal(before) && NoDuplicates(s)
    ensures var r := Sort(s, before);
            Sorted(r, before) && |r| == |s| && forall y :: y in r <==> y in s
  {
    if s != [] {
      var t := s[1..];
      assert forall i :: 0 <= i < |t| ==> t[i] == s[i + 1];
      SortSorts(t, before);
      assert s[0] !in t;
      InsertSorts(s[0], Sort(t, before), before);
      assert s == [s[0]] + t;
    }
  }
}
