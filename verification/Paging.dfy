/** Keyset paging of the conversation list, which reorders while it is read. */
module Paging {
  import opened Options
  import opened Ordering

  datatype Time = Never | At(instant: int)

  /** What the list sorts by: newest activity first, conversations without any last, then the
      newest id. Ids are unique. */
  datatype Key = Key(last: Time, id: int)

  predicate Before(a: Key, b: Key) {
    match (a.last, b.last)
    case (At(s), At(t)) => s > t || (s == t && a.id > b.id)
    case (At(_), Never) => true
    case (Never, At(_)) => false
    case (Never, Never) => a.id > b.id
  }

  lemma BeforeIsTotal()
    ensures StrictTotal(Before)
  {
  }

  // ----- the seek predicate, in SQL's three-valued logic -----

  datatype Truth = True | False | Unknown

  function Less(a: Time, b: Time): Truth {
    if a.Never? || b.Never? then Unknown else if a.instant < b.instant then True else False
  }

  function Equal(a: Time, b: Time): Truth {
    if a.Never? || b.Never? then Unknown else if a == b then True else False
  }

  function IsNull(a: Time): Truth { if a.Never? then True else False }

  function Known(b: bool): Truth { if b then True else False }

  function And(a: Truth, b: Truth): Truth {
    if a.False? || b.False? then False else if a.True? && b.True? then True else Unknown
  }

  function Or(a: Truth, b: Truth): Truth {
    if a.True? || b.True? then True else if a.False? && b.False? then False else Unknown
  }

  /** Conjunction is the least of two truth values and disjunction the greatest, with `Unknown` between
      `False` and `True`; comparing with a missing time is unknown. */
  lemma LogicIsSql(a: Truth, b: Truth, s: Time, t: Time)
    ensures And(a, b).True? <==> a.True? && b.True?
    ensures And(a, b).False? <==> a.False? || b.False?
    ensures Or(a, b).True? <==> a.True? || b.True?
    ensures Or(a, b).False? <==> a.False? && b.False?
    ensures Less(s, t).Unknown? <==> s == Never || t == Never
    ensures Equal(s, t).Unknown? <==> s == Never || t == Never
    ensures s.At? && t.At? ==> (Less(s, t).True? <==> s.instant < t.instant)
    ensures s.At? && t.At? ==> (Equal(s, t).True? <==> s.instant == t.instant)
  {
  }

  /** The conversation list's filter for a cursor. */
  function Seek(cursor: Key, row: Key): Truth {
    if cursor.last.Never? then And(IsNull(row.last), Known(row.id < cursor.id))
    else
      var sameTime := And(Equal(row.last, cursor.last), Known(row.id < cursor.id));
      Or(IsNull(row.last), Or(Less(row.last, cursor.last), sameTime))
  }

  /** The message list's filter; its rows all have a time, and so must its cursor. */
  function SeekMessages(cursor: Key, row: Key): Truth {
    Or(Less(row.last, cursor.last), And(Equal(row.last, cursor.last), Known(row.id < cursor.id)))
  }

  /** A row passes the filter exactly when it comes strictly after the cursor in the list's order. */
  lemma SeekIsStrictlyAfter(cursor: Key, row: Key)
    ensures Seek(cursor, row).True? <==> Before(cursor, row)
    ensures cursor.last.At? && row.last.At? ==> (SeekMessages(cursor, row).True? <==> Before(cursor, row))
  {
  }

  // ----- one page -----

  function Filter(rows: seq<Key>, cursor: Option<Key>): (r: seq<Key>)
    ensures forall k :: k in r <==> k in rows && (cursor.None? || Seek(cursor.value, k).True?)
    ensures NoDuplicates(rows) ==> NoDuplicates(r)
  {
    if rows == [] then []
    else
      var last, init := rows[|rows| - 1], rows[..|rows| - 1];
      assert rows == init + [last] && (NoDuplicates(rows) ==> NoDuplicates(init) && last !in init);
      Filter(init, cursor) + if cursor.None? || Seek(cursor.value, last).True? then [last] else []
  }

  datatype Page = Page(items: seq<Key>, next: Option<Key>)

  /** The rows the query yields, best first. */
  function Selected(rows: seq<Key>, cursor: Option<Key>): seq<Key> {
    Sort(Filter(rows, cursor), Before)
  }

  function List(rows: seq<Key>, cursor: Option<Key>, limit: nat): Page
    requires 1 <= limit
  {
    var found := Selected(rows, cursor);
    if |found| > limit then Page(found[..limit], Some(found[limit - 1])) else Page(found, None)
  }

  predicate Passed(cursor: Option<Key>, k: Key) {
    cursor.Some? && !Before(cursor.value, k)
  }

  lemma SelectedRows(rows: seq<Key>, cursor: Option<Key>)
    requires NoDuplicates(rows)
    ensures Sorted(Selected(rows, cursor), Before)
    ensures forall k :: k in Selected(rows, cursor) <==> k in rows && (cursor.None? || Before(cursor.value, k))
  {
    BeforeIsTotal();
    SortSorts(Filter(rows, cursor), Before);
    forall k ensures k in Selected(rows, cursor) <==> k in rows && (cursor.None? || Before(cursor.value, k)) {
      if cursor.Some? { SeekIsStrictlyAfter(cursor.value, k); }
    }
  }

  /** In the list's order and no longer than asked for; when there is more, it is full and its last
      row is the next cursor. */
  ghost predicate IsPage(page: Page, limit: nat) {
    && Sorted(page.items, Before) && |page.items| <= limit
    && (page.next.Some? ==> |page.items| == limit && 0 < limit && page.next.value == page.items[limit - 1])
  }

  /** A page returns a present row exactly when the cursor has not passed it and the next
      cursor has, or there is none. */
  lemma PageReturnsExactly(rows: seq<Key>, cursor: Option<Key>, limit: nat, k: Key)
    requires 1 <= limit && NoDuplicates(rows) && k in rows
    ensures var page := List(rows, cursor, limit);
            k in page.items <==> !Passed(cursor, k) && (page.next.None? || Passed(page.next, k))
    ensures IsPage(List(rows, cursor, limit), limit)
  {
    SelectedRows(rows, cursor);
    var found := Selected(rows, cursor);
    if |found| > limit {
      var last := found[limit - 1];
      if k in found {
        var i :| 0 <= i < |found| && found[i] == k;
        if limit <= i { assert Before(last, k); } else { assert found[..limit][i] == k; }
      }
    }
  }

  // ----- following the cursor while the table changes -----

  /** The pages a reader gets when the table holds `tables[i]` as page `i` is asked for. */
  function Follow(tables: seq<seq<Key>>, cursor: Option<Key>, limit: nat): seq<Page>
    requires 1 <= limit
    decreases |tables|
  {
    if tables == [] then []
    else
      var page := List(tables[0], cursor, limit);
      [page] + if page.next.None? then [] else Follow(tables[1..], page.next, limit)
  }

  /** The reader reached a page without a next cursor. */
  predicate Finished(pages: seq<Page>) {
    pages != [] && pages[|pages| - 1].next.None?
  }

  function Times(pages: seq<Page>, k: Key): nat {
    if pages == [] then 0 else (if k in pages[0].items then 1 else 0) + Times(pages[1..], k)
  }

  lemma {:induction false} FollowReturnsOnce(tables: seq<seq<Key>>, cursor: Option<Key>, limit: nat, k: Key)
    requires 1 <= limit && forall i :: 0 <= i < |tables| ==> NoDuplicates(tables[i]) && k in tables[i]
    ensures var pages := Follow(tables, cursor, limit);
            && Times(pages, k) <= (if Passed(cursor, k) then 0 else 1)
            && (Finished(pages) ==> Times(pages, k) == if Passed(cursor, k) then 0 else 1)
    decreases |tables|
  {
    if tables != [] {
      var page := List(tables[0], cursor, limit);
      PageReturnsExactly(tables[0], cursor, limit, k);
      var pages := Follow(tables, cursor, limit);
      if page.next.Some? {
        if Passed(cursor, k) { NextCursorIsLater(tables[0], cursor, limit, k); }
        FollowReturnsOnce(tables[1..], page.next, limit, k);
        var rest := Follow(tables[1..], page.next, limit);
        assert pages == [page] + rest && pages[1..] == rest;
      } else {
        assert pages == [page] && pages[1..] == [];
      }
    }
  }

  /** The cursor only moves forward: what it has passed stays passed. */
  lemma NextCursorIsLater(rows: seq<Key>, cursor: Option<Key>, limit: nat, k: Key)
    requires 1 <= limit && NoDuplicates(rows) && List(rows, cursor, limit).next.Some? && Passed(cursor, k)
    ensures Passed(List(rows, cursor, limit).next, k)
  {
    SelectedRows(rows, cursor);
    var found := Selected(rows, cursor);
    assert found[limit - 1] in found;
  }

  /** Whatever happens to other rows between pages, a row whose sort key stays as it is comes
      back exactly once when the reader follows the cursor to the end. */
  lemma SteadyRowIsReadOnce(tables: seq<seq<Key>>, limit: nat, k: Key)
    requires 1 <= limit && forall i :: 0 <= i < |tables| ==> NoDuplicates(tables[i]) && k in tables[i]
    requires Finished(Follow(tables, None, limit))
    ensures Times(Follow(tables, None, limit), k) == 1
  {
    FollowReturnsOnce(tables, None, limit, k);
  }

  /** A row's sort key as each page is asked for: it stays or moves up, never down. */
  predicate NeverMovesDown(keys: seq<Key>) {
    forall i :: 0 < i < |keys| ==> keys[i] == keys[i - 1] || Before(keys[i], keys[i - 1])
  }

  /** How often the row comes back. */
  function TimesMoving(pages: seq<Page>, keys: seq<Key>): nat
    requires |pages| <= |keys|
  {
    if pages == [] then 0 else (if keys[0] in pages[0].items then 1 else 0) + TimesMoving(pages[1..], keys[1..])
  }

  lemma FollowIsNoLonger(tables: seq<seq<Key>>, cursor: Option<Key>, limit: nat)
    requires 1 <= limit
    ensures |Follow(tables, cursor, limit)| <= |tables|
    decreases |tables|
  {
    hide List;
  }

  lemma PassedStaysPassed(cursor: Option<Key>, k: Key, later: Key)
    requires Passed(cursor, k) && (later == k || Before(later, k))
    ensures Passed(cursor, later)
  {
  }

  /** What is returned was not passed and then is; what was passed stays passed. */
  lemma ReturnedIsPassed(rows: seq<Key>, cursor: Option<Key>, limit: nat, k: Key)
    requires 1 <= limit && NoDuplicates(rows)
    ensures var page := List(rows, cursor, limit);
            && (k in page.items ==> !Passed(cursor, k) && (page.next.Some? ==> Passed(page.next, k)))
            && (page.next.Some? && Passed(cursor, k) ==> Passed(page.next, k))
  {
    hide Sort, Filter, Before;
    SelectedRows(rows, cursor);
    if k in List(rows, cursor, limit).items { PageReturnsExactly(rows, cursor, limit, k); }
    if List(rows, cursor, limit).next.Some? && Passed(cursor, k) { NextCursorIsLater(rows, cursor, limit, k); }
  }

  lemma {:induction false} FollowReturnsAtMostOnce(tables: seq<seq<Key>>, cursor: Option<Key>, limit: nat,
                                                   keys: seq<Key>)
    requires 1 <= limit && |tables| <= |keys| && NeverMovesDown(keys)
    requires forall i :: 0 <= i < |tables| ==> NoDuplicates(tables[i])
    ensures |Follow(tables, cursor, limit)| <= |tables|
    ensures TimesMoving(Follow(tables, cursor, limit), keys) <= if keys != [] && Passed(cursor, keys[0]) then 0 else 1
    decreases |tables|
  {
    hide List, Before, Passed, NoDuplicates;
    FollowIsNoLonger(tables, cursor, limit);
    if tables != [] {
      var page := List(tables[0], cursor, limit);
      ReturnedIsPassed(tables[0], cursor, limit, keys[0]);
      var rest := if page.next.None? then [] else Follow(tables[1..], page.next, limit);
      assert Follow(tables, cursor, limit) == [page] + rest && ([page] + rest)[1..] == rest;
      if page.next.Some? {
        if 1 < |keys| && Passed(page.next, keys[0]) { PassedStaysPassed(page.next, keys[0], keys[1]); }
        FollowReturnsAtMostOnce(tables[1..], page.next, limit, keys[1..]);
      }
    }
  }

  /** A row that moves up the list while it is read, even onto pages already read, or that comes
      and goes, is returned at most once: once the cursor has passed it, never again. */
  lemma RowMovingUpIsReadAtMostOnce(tables: seq<seq<Key>>, limit: nat, keys: seq<Key>)
    requires 1 <= limit && |tables| <= |keys| && NeverMovesDown(keys)
    requires forall i :: 0 <= i < |tables| ==> NoDuplicates(tables[i])
    ensures |Follow(tables, None, limit)| <= |tables|
    ensures TimesMoving(Follow(tables, None, limit), keys) <= 1
  {
    FollowReturnsAtMostOnce(tables, None, limit, keys);
  }

  // ----- a table that stays as it is -----

  function Concat(pages: seq<Page>): seq<Key> {
    if pages == [] then [] else pages[0].items + Concat(pages[1..])
  }

  function Repeated(rows: seq<Key>, n: nat): seq<seq<Key>> {
    if n == 0 then [] else [rows] + Repeated(rows, n - 1)
  }

  lemma {:induction false} SortedIsUnique(s: seq<Key>, t: seq<Key>)
    requires Sorted(s, Before) && Sorted(t, Before) && forall k :: k in s <==> k in t
    ensures s == t
  {
    assert t != [] ==> t[0] in t;
    if s != [] {
      assert s[0] in t;
      assert t[0] in s;
      HeadIsFirst(s, t[0]);
      HeadIsFirst(t, s[0]);
      forall k ensures k in s[1..] <==> k in t[1..] { TailMembers(s, k); TailMembers(t, k); }
      SortedIsUnique(s[1..], t[1..]);
      assert s == [s[0]] + s[1..] && t == [t[0]] + t[1..];
    }
  }

  lemma HeadIsFirst(s: seq<Key>, k: Key)
    requires Sorted(s, Before) && k in s
    ensures k == s[0] || Before(s[0], k)
  {
    hide Before;
    var i :| 0 <= i < |s| && s[i] == k;
  }

  lemma TailMembers(s: seq<Key>, k: Key)
    requires Sorted(s, Before) && s != []
    ensures k in s[1..] <==> k in s && k != s[0]
  {
    assert s == [s[0]] + s[1..];
    if k in s[1..] {
      var i :| 0 <= i < |s[1..]| && s[1..][i] == k;
      assert Before(s[0], s[i + 1]);
    }
  }

  lemma RestMembers(found: seq<Key>, limit: nat, k: Key)
    requires 1 <= limit <= |found| && Sorted(found, Before)
    ensures k in found[limit..] <==> k in found && Before(found[limit - 1], k)
  {
    if k in found[limit..] {
      var i :| 0 <= i < |found[limit..]| && found[limit..][i] == k;
      assert found[limit + i] == k;
    }
    if k in found && Before(found[limit - 1], k) {
      var last, i :| last == found[limit - 1] && 0 <= i < |found| && found[i] == k;
      assert i < limit - 1 ==> Before(k, last);
      assert found[limit..][i - limit] == k;
    }
  }

  /** What is selected after the last row of a page is what the page left over. */
  lemma RestAfterCursor(rows: seq<Key>, cursor: Option<Key>, limit: nat)
    requires 1 <= limit < |Selected(rows, cursor)| && NoDuplicates(rows)
    ensures var found := Selected(rows, cursor);
            Selected(rows, Some(found[limit - 1])) == found[limit..]
  {
    var found := Selected(rows, cursor);
    var last := found[limit - 1];
    SelectedRows(rows, cursor);
    SelectedRows(rows, Some(last));
    hide Selected, Before;
    assert last in found;
    forall k ensures k in found[limit..] <==> k in found && Before(last, k) { RestMembers(found, limit, k); }
    SortedIsUnique(Selected(rows, Some(last)), found[limit..]);
  }

  lemma {:induction false} PagesOfAStaticTable(rows: seq<Key>, cursor: Option<Key>, limit: nat, n: nat)
    requires 1 <= limit && NoDuplicates(rows) && |Selected(rows, cursor)| < n
    ensures var pages := Follow(Repeated(rows, n), cursor, limit);
            Finished(pages) && Concat(pages) == Selected(rows, cursor)
    decreases n
  {
    hide Selected, Before, Follow, Repeated, Concat, NoDuplicates;
    var page := List(rows, cursor, limit);
    RepeatedStep(rows, n, cursor, limit);
    if page.next.Some? {
      RestAfterCursor(rows, cursor, limit);
      PagesOfAStaticTable(rows, page.next, limit, n - 1);
      TwoParts(Selected(rows, cursor), limit);
    }
  }

  lemma TwoParts(found: seq<Key>, limit: nat)
    requires limit <= |found|
    ensures found[..limit] + found[limit..] == found && |found[limit..]| == |found| - limit
  {
  }

  lemma RepeatedStep(rows: seq<Key>, n: nat, cursor: Option<Key>, limit: nat)
    requires 1 <= limit && 0 < n
    ensures var page, pages := List(rows, cursor, limit), Follow(Repeated(rows, n), cursor, limit);
            if page.next.None? then Finished(pages) && Concat(pages) == page.items
            else
              var rest := Follow(Repeated(rows, n - 1), page.next, limit);
              (Finished(rest) ==> Finished(pages)) && Concat(pages) == page.items + Concat(rest)
  {
    hide List;
    var page := List(rows, cursor, limit);
    var rest := if page.next.None? then [] else Follow(Repeated(rows, n - 1), page.next, limit);
    assert Repeated(rows, n)[1..] == Repeated(rows, n - 1);
    assert Follow(Repeated(rows, n), cursor, limit) == [page] + rest;
    assert ([page] + rest)[1..] == rest;
    assert page.items + [] == page.items;
  }

  /** On a table that does not change, enough pages are the whole list, in order. */
  lemma StaticPagesAreTheList(rows: seq<Key>, limit: nat)
    requires 1 <= limit && NoDuplicates(rows)
    ensures var pages := Follow(Repeated(rows, |Sort(rows, Before)| + 1), None, limit);
            Finished(pages) && Concat(pages) == Sort(rows, Before)
  {
    FilterKeepsAll(rows);
    PagesOfAStaticTable(rows, None, limit, |Sort(rows, Before)| + 1);
  }

  lemma FilterKeepsAll(rows: seq<Key>)
    ensures Filter(rows, None) == rows
  {
  }
}
