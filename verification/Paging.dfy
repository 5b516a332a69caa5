/** Cursor paging, as the message list and the two friend lists do it: fetch one
    row more than the page holds, trim it, and name the last id kept as the cursor
    of the next request. */
module Paging {
  import opened Common

  datatype Direction = Ascending | Descending

  predicate Before(dir: Direction, a: int, b: int) {
    if dir.Ascending? then a < b else b < a
  }

  predicate PastCursor(dir: Direction, cursor: Option<int>, id: int) {
    cursor.None? || Before(dir, cursor.value, id)
  }

  /** The ids a request with this cursor may still return. */
  function Remaining(dir: Direction, table: set<int>, cursor: Option<int>): set<int> {
    set x | x in table && PastCursor(dir, cursor, x)
  }

  predicate StrictlyOrdered(dir: Direction, q: seq<int>) {
    forall i, j :: 0 <= i < j < |q| ==> Before(dir, q[i], q[j])
  }

  lemma {:induction false} FirstExists(dir: Direction, s: set<int>)
    requires s != {}
    ensures exists x :: x in s && forall y :: y in s && y != x ==> Before(dir, x, y)
  {
    var z := Pick(s);
    var t := s - {z};
    if t == {} {
      assert forall y :: y in s && y != z ==> y in t;
    } else {
      FirstExists(dir, t);
      var x :| x in t && forall y :: y in t && y != x ==> Before(dir, x, y);
      var first := if Before(dir, x, z) then x else z;
      forall y | y in s && y != first ensures Before(dir, first, y) {
        assert y == z || y in t;
      }
    }
  }

  function First(dir: Direction, s: set<int>): (x: int)
    requires s != {}
    ensures x in s && forall y :: y in s && y != x ==> Before(dir, x, y)
  {
    FirstExists(dir, s);
    var x :| x in s && forall y :: y in s && y != x ==> Before(dir, x, y);
    x
  }

  /** ORDER BY id over a set of distinct ids. */
  function Listing(dir: Direction, s: set<int>): (q: seq<int>)
    ensures |q| == |s|
  {
    if s == {} then []
    else
      var x := First(dir, s);
      [x] + Listing(dir, s - {x})
  }

  lemma {:induction false} ListingElements(dir: Direction, s: set<int>)
    ensures forall x :: x in Listing(dir, s) <==> x in s
  {
    if s != {} {
      ListingElements(dir, s - {First(dir, s)});
    }
  }

  lemma {:induction false} ListingOrdered(dir: Direction, s: set<int>)
    ensures StrictlyOrdered(dir, Listing(dir, s))
  {
    if s != {} {
      var x := First(dir, s);
      var tail := Listing(dir, s - {x});
      ListingOrdered(dir, s - {x});
      ListingElements(dir, s - {x});
      PrependOrdered(dir, x, tail);
    }
  }

  lemma PrependOrdered(dir: Direction, x: int, tail: seq<int>)
    requires StrictlyOrdered(dir, tail)
    requires forall y :: y in tail ==> Before(dir, x, y)
    ensures StrictlyOrdered(dir, [x] + tail)
  {
  }

  lemma ListingAt(dir: Direction, s: set<int>, n: nat)
    requires n < |s|
    ensures Listing(dir, s)[n] in s
  {
    var q := Listing(dir, s);
    ListingElements(dir, s);
    var c := q[n];
    assert c in q;
  }

  lemma PastSecond(dir: Direction, s: set<int>, c: int)
    requires s != {} && c in s - {First(dir, s)}
    ensures Remaining(dir, s, Some(c)) == Remaining(dir, s - {First(dir, s)}, Some(c))
  {
  }

  /** Dropping the first n ids of a listing leaves the listing of what is past the
      n-th id. */
  lemma {:induction false} ListingSplit(dir: Direction, s: set<int>, n: nat)
    requires 0 < n <= |s|
    ensures Listing(dir, s)[n..] == Listing(dir, Remaining(dir, s, Some(Listing(dir, s)[n - 1])))
  {
    var x := First(dir, s);
    var t := s - {x};
    var tail := Listing(dir, t);
    var q := Listing(dir, s);
    assert q == [x] + tail;
    if n == 1 {
      assert Remaining(dir, s, Some(x)) == t;
      assert q[1..] == tail;
    } else {
      var c := tail[n - 2];
      assert q[n - 1] == c;
      assert q[n..] == tail[n - 1..];
      ListingSplit(dir, t, n - 1);
      ListingAt(dir, t, n - 2);
      PastSecond(dir, s, c);
    }
  }

  /** WHERE id is past the cursor, ORDER BY id, LIMIT limit. */
  function Query(dir: Direction, table: set<int>, cursor: Option<int>, limit: nat): seq<int> {
    var all := Listing(dir, Remaining(dir, table, cursor));
    if |all| <= limit then all else all[..limit]
  }

  /** Taking first ids until there are enough, or none is left, gives the query's answer. */
  lemma FrontIsQuery(dir: Direction, table: set<int>, cursor: Option<int>, limit: nat, ids: seq<int>, rest: set<int>)
    requires Listing(dir, Remaining(dir, table, cursor)) == ids + Listing(dir, rest)
    requires |ids| <= limit && (|ids| == limit || rest == {})
    ensures ids == Query(dir, table, cursor, limit)
  {
  }

  lemma QueryInTable(dir: Direction, table: set<int>, cursor: Option<int>, limit: nat, i: nat)
    requires i < |Query(dir, table, cursor, limit)|
    ensures Query(dir, table, cursor, limit)[i] in Remaining(dir, table, cursor)
  {
    ListingAt(dir, Remaining(dir, table, cursor), i);
  }

  /** How a database answers the query: the next id in order, until there are enough. */
  method Select(dir: Direction, table: set<int>, cursor: Option<int>, limit: nat) returns (ids: seq<int>)
    ensures ids == Query(dir, table, cursor, limit)
  {
    var rest := Remaining(dir, table, cursor);
    ids := [];
    while |ids| < limit && rest != {}
      invariant |ids| <= limit
      invariant Listing(dir, Remaining(dir, table, cursor)) == ids + Listing(dir, rest)
      decreases |rest|
    {
      var next := First(dir, rest);
      assert ids + ([next] + Listing(dir, rest - {next})) == (ids + [next]) + Listing(dir, rest - {next});
      ids := ids + [next];
      rest := rest - {next};
    }
    FrontIsQuery(dir, table, cursor, limit, ids, rest);
  }

  // ---- The same query over rows that come in some order, perhaps with repetitions ----

  function PastRows(dir: Direction, rows: seq<int>, cursor: Option<int>): seq<int> {
    if rows == [] then []
    else (if PastCursor(dir, cursor, rows[0]) then [rows[0]] else []) + PastRows(dir, rows[1..], cursor)
  }

  function InsertRow(dir: Direction, x: int, sorted: seq<int>): seq<int> {
    if sorted == [] || !Before(dir, sorted[0], x) then [x] + sorted
    else [sorted[0]] + InsertRow(dir, x, sorted[1..])
  }

  function SortRows(dir: Direction, rows: seq<int>): seq<int> {
    if rows == [] then [] else InsertRow(dir, rows[0], SortRows(dir, rows[1..]))
  }

  function QueryRows(dir: Direction, rows: seq<int>, cursor: Option<int>, limit: nat): seq<int> {
    var all := SortRows(dir, PastRows(dir, rows, cursor));
    if |all| <= limit then all else all[..limit]
  }

  lemma FirstIsUnique(dir: Direction, s: set<int>, x: int)
    requires x in s && forall y :: y in s && y != x ==> Before(dir, x, y)
    ensures First(dir, s) == x
  {
  }

  lemma ListingUnfold(dir: Direction, s: set<int>, x: int, t: set<int>)
    requires x in s && First(dir, s) == x && t == s - {x}
    ensures Listing(dir, s) == [x] + Listing(dir, t)
  {
  }

  lemma InsertBehind(dir: Direction, x: int, s: set<int>, first: int, t: set<int>)
    requires x !in s && first in s && First(dir, s) == first && t == s - {first}
    requires Before(dir, first, x)
    requires InsertRow(dir, x, Listing(dir, t)) == Listing(dir, t + {x})
    ensures InsertRow(dir, x, Listing(dir, s)) == Listing(dir, s + {x})
  {
    ListingUnfold(dir, s, first, t);
    FirstIsUnique(dir, s + {x}, first);
    assert s + {x} - {first} == t + {x};
    ListingUnfold(dir, s + {x}, first, t + {x});
    var q := [first] + Listing(dir, t);
    assert q[1..] == Listing(dir, t);
  }

  lemma InsertAhead(dir: Direction, x: int, s: set<int>)
    requires x !in s && s != {} && !Before(dir, First(dir, s), x)
    ensures InsertRow(dir, x, Listing(dir, s)) == Listing(dir, s + {x})
  {
  }

  lemma {:induction false} InsertListing(dir: Direction, x: int, s: set<int>)
    requires x !in s
    ensures InsertRow(dir, x, Listing(dir, s)) == Listing(dir, s + {x})
  {
    if s == {} {
      FirstIsUnique(dir, {x}, x);
      assert s + {x} == {x} && {x} - {x} == {};
    } else {
      var first := First(dir, s);
      if Before(dir, first, x) {
        InsertListing(dir, x, s - {first});
        InsertBehind(dir, x, s, first, s - {first});
      } else {
        InsertAhead(dir, x, s);
      }
    }
  }

  ghost function RowSet(rows: seq<int>): set<int> {
    if rows == [] then {} else {rows[0]} + RowSet(rows[1..])
  }

  lemma {:induction false} RowSetElements(rows: seq<int>, x: int)
    ensures x in RowSet(rows) <==> x in rows
  {
    if rows != [] {
      RowSetElements(rows[1..], x);
      assert rows == [rows[0]] + rows[1..];
    }
  }

  lemma RemainingAdd(dir: Direction, s: set<int>, x: int, cursor: Option<int>)
    ensures Remaining(dir, {x} + s, cursor)
            == if PastCursor(dir, cursor, x) then Remaining(dir, s, cursor) + {x} else Remaining(dir, s, cursor)
  {
  }

  lemma {:induction false} SortDistinct(dir: Direction, rows: seq<int>, cursor: Option<int>)
    requires NoDuplicates(rows)
    ensures SortRows(dir, PastRows(dir, rows, cursor)) == Listing(dir, Remaining(dir, RowSet(rows), cursor))
  {
    if rows != [] {
      var x, rest := rows[0], rows[1..];
      SortDistinct(dir, rest, cursor);
      RowSetElements(rest, x);
      assert x !in rest;
      RemainingAdd(dir, RowSet(rest), x, cursor);
      var tail := PastRows(dir, rest, cursor);
      if PastCursor(dir, cursor, x) {
        assert PastRows(dir, rows, cursor) == [x] + tail;
        assert ([x] + tail)[1..] == tail;
        InsertListing(dir, x, Remaining(dir, RowSet(rest), cursor));
      } else {
        assert PastRows(dir, rows, cursor) == tail;
      }
    }
  }

  /** Over rows without repetition it is the query over the set of ids. */
  lemma QueryRowsDistinct(dir: Direction, rows: seq<int>, table: set<int>, cursor: Option<int>, limit: nat)
    requires NoDuplicates(rows)
    requires forall x :: x in rows <==> x in table
    ensures QueryRows(dir, rows, cursor, limit) == Query(dir, table, cursor, limit)
  {
    SortDistinct(dir, rows, cursor);
    forall x ensures x in RowSet(rows) <==> x in table {
      RowSetElements(rows, x);
    }
    assert RowSet(rows) == table;
  }

  datatype Page = Page(ids: seq<int>, next: Option<int>)

  /** The page a service returns: `limit + 1` rows fetched, at most `limit` kept. */
  function PageOf(dir: Direction, table: set<int>, cursor: Option<int>, limit: nat): Page
    requires limit > 0
  {
    var rows := Query(dir, table, cursor, limit + 1);
    if |rows| > limit then Page(rows[..limit], Some(rows[limit - 1])) else Page(rows, None)
  }

  lemma RemainingNarrows(dir: Direction, table: set<int>, cursor: Option<int>, last: int)
    requires PastCursor(dir, cursor, last)
    ensures Remaining(dir, Remaining(dir, table, cursor), Some(last)) == Remaining(dir, table, Some(last))
  {
  }

  lemma LastPage(dir: Direction, table: set<int>, cursor: Option<int>, limit: nat)
    requires limit > 0 && |Remaining(dir, table, cursor)| <= limit
    ensures PageOf(dir, table, cursor, limit) == Page(Listing(dir, Remaining(dir, table, cursor)), None)
  {
  }

  lemma FullPage(dir: Direction, table: set<int>, cursor: Option<int>, limit: nat)
    requires limit > 0 && |Remaining(dir, table, cursor)| > limit
    ensures var all := Listing(dir, Remaining(dir, table, cursor));
            PageOf(dir, table, cursor, limit) == Page(all[..limit], Some(all[limit - 1]))
  {
    var all := Listing(dir, Remaining(dir, table, cursor));
    assert all[..limit + 1][..limit] == all[..limit];
  }

  lemma RestOfListing(dir: Direction, table: set<int>, cursor: Option<int>, n: nat)
    requires 0 < n <= |Remaining(dir, table, cursor)|
    ensures var all := Listing(dir, Remaining(dir, table, cursor));
            all[n..] == Listing(dir, Remaining(dir, table, Some(all[n - 1])))
  {
    var remaining := Remaining(dir, table, cursor);
    ListingSplit(dir, remaining, n);
    ListingAt(dir, remaining, n - 1);
    RemainingNarrows(dir, table, cursor, Listing(dir, remaining)[n - 1]);
  }

  /** A page and the listing of what its next cursor leaves, put together, are the
      listing of what remained. The page has a next cursor exactly when it could not
      hold all of that, and the cursor is the last id on the page. */
  lemma PageSplitsListing(dir: Direction, table: set<int>, cursor: Option<int>, limit: nat)
    requires limit > 0
    ensures var p := PageOf(dir, table, cursor, limit);
            var all := Listing(dir, Remaining(dir, table, cursor));
            && (p.next.Some? <==> |all| > limit)
            && (p.next.None? ==> p.ids == all)
            && (p.next.Some? ==>
                  && |p.ids| == limit
                  && p.next.value == p.ids[limit - 1]
                  && all == p.ids + Listing(dir, Remaining(dir, table, p.next)))
  {
    var all := Listing(dir, Remaining(dir, table, cursor));
    if |all| > limit {
      FullPage(dir, table, cursor, limit);
      RestOfListing(dir, table, cursor, limit);
      assert all == all[..limit] + all[limit..];
    } else {
      LastPage(dir, table, cursor, limit);
    }
  }

  lemma PageOrdered(dir: Direction, table: set<int>, cursor: Option<int>, limit: nat)
    requires limit > 0
    ensures StrictlyOrdered(dir, PageOf(dir, table, cursor, limit).ids)
    ensures forall x :: x in PageOf(dir, table, cursor, limit).ids ==> x in Remaining(dir, table, cursor)
  {
    var p := PageOf(dir, table, cursor, limit);
    var all := Listing(dir, Remaining(dir, table, cursor));
    PageSplitsListing(dir, table, cursor, limit);
    ListingOrdered(dir, Remaining(dir, table, cursor));
    ListingElements(dir, Remaining(dir, table, cursor));
    assert |p.ids| <= |all| && p.ids == all[..|p.ids|];
    forall i, j | 0 <= i < j < |p.ids| ensures Before(dir, p.ids[i], p.ids[j]) {
      assert p.ids[i] == all[i] && p.ids[j] == all[j];
    }
    forall x | x in p.ids ensures x in Remaining(dir, table, cursor) {
      assert x in all;
    }
  }

  // ---- A page in plain terms ----

  /** The newest ids below a cursor, newest first: what is left out is older than all of
      them, and there is a next cursor, the last id, if and only if something is. */
  ghost predicate NewestFirst(page: Page, table: set<int>, cursor: Option<int>, limit: nat) {
    && |page.ids| <= limit
    && (forall i, j :: 0 <= i < j < |page.ids| ==> page.ids[i] > page.ids[j])
    && (forall x :: x in page.ids ==> x in table && (cursor.Some? ==> x < cursor.value))
    && (forall x :: x in table && (cursor.Some? ==> x < cursor.value) && x !in page.ids ==>
                      page.next.Some? && x < page.next.value)
    && (page.next.Some? ==>
          && |page.ids| == limit > 0 && page.next.value == page.ids[limit - 1]
          && exists x :: x in table && x < page.next.value)
  }

  /** The smallest ids above a cursor, in ascending order, likewise. */
  ghost predicate SmallestFirst(page: Page, table: set<int>, cursor: Option<int>, limit: nat) {
    && |page.ids| <= limit
    && (forall i, j :: 0 <= i < j < |page.ids| ==> page.ids[i] < page.ids[j])
    && (forall x :: x in page.ids ==> x in table && (cursor.Some? ==> x > cursor.value))
    && (forall x :: x in table && (cursor.Some? ==> x > cursor.value) && x !in page.ids ==>
                      page.next.Some? && x > page.next.value)
    && (page.next.Some? ==>
          && |page.ids| == limit > 0 && page.next.value == page.ids[limit - 1]
          && exists x :: x in table && x > page.next.value)
  }

  lemma PageLeavesOut(dir: Direction, table: set<int>, cursor: Option<int>, limit: nat, x: int)
    requires limit > 0 && x in Remaining(dir, table, cursor)
    ensures var p := PageOf(dir, table, cursor, limit);
            x in p.ids || (p.next.Some? && Before(dir, p.next.value, x))
  {
    var p := PageOf(dir, table, cursor, limit);
    PageSplitsListing(dir, table, cursor, limit);
    ListingElements(dir, Remaining(dir, table, cursor));
    assert x in Listing(dir, Remaining(dir, table, cursor));
    if x !in p.ids {
      ListingElements(dir, Remaining(dir, table, p.next));
      assert x in Listing(dir, Remaining(dir, table, p.next));
    }
  }

  lemma NextHasMore(dir: Direction, table: set<int>, cursor: Option<int>, limit: nat)
    requires limit > 0 && PageOf(dir, table, cursor, limit).next.Some?
    ensures exists x :: x in table && Before(dir, PageOf(dir, table, cursor, limit).next.value, x)
  {
    var next := PageOf(dir, table, cursor, limit).next;
    PageSplitsListing(dir, table, cursor, limit);
    assert Remaining(dir, table, next) != {};
    var x := Pick(Remaining(dir, table, next));
    assert x in table && Before(dir, next.value, x);
  }

  lemma DescendingIsNewest(table: set<int>, cursor: Option<int>, limit: nat)
    requires limit > 0
    ensures NewestFirst(PageOf(Descending, table, cursor, limit), table, cursor, limit)
  {
    var p := PageOf(Descending, table, cursor, limit);
    PageOrdered(Descending, table, cursor, limit);
    PageSplitsListing(Descending, table, cursor, limit);
    assert forall i, j :: 0 <= i < j < |p.ids| ==> Before(Descending, p.ids[i], p.ids[j]);
    forall x | x in table && (cursor.Some? ==> x < cursor.value) && x !in p.ids
      ensures p.next.Some? && x < p.next.value
    {
      PageLeavesOut(Descending, table, cursor, limit, x);
    }
    if p.next.Some? {
      NextHasMore(Descending, table, cursor, limit);
    }
  }

  lemma AscendingIsSmallest(table: set<int>, cursor: Option<int>, limit: nat)
    requires limit > 0
    ensures SmallestFirst(PageOf(Ascending, table, cursor, limit), table, cursor, limit)
  {
    var p := PageOf(Ascending, table, cursor, limit);
    PageOrdered(Ascending, table, cursor, limit);
    PageSplitsListing(Ascending, table, cursor, limit);
    assert forall i, j :: 0 <= i < j < |p.ids| ==> Before(Ascending, p.ids[i], p.ids[j]);
    forall x | x in table && (cursor.Some? ==> x > cursor.value) && x !in p.ids
      ensures p.next.Some? && x > p.next.value
    {
      PageLeavesOut(Ascending, table, cursor, limit, x);
    }
    if p.next.Some? {
      NextHasMore(Ascending, table, cursor, limit);
    }
  }

  /** What a client has after following the cursor: the ids of all its pages, how
      many requests it made, and whether the last page said there is no more. */
  datatype Walk = Walk(ids: seq<int>, pages: nat, done: bool)

  /** A walk over a table that may change between requests: `tables[i]` is what the
      i-th request finds. */
  function Follow(dir: Direction, tables: seq<set<int>>, cursor: Option<int>, limit: nat): Walk
    requires limit > 0
  {
    if tables == [] then Walk([], 0, false)
    else
      var p := PageOf(dir, tables[0], cursor, limit);
      if p.next.None? then Walk(p.ids, 1, true)
      else
        var w := Follow(dir, tables[1..], p.next, limit);
        Walk(p.ids + w.ids, 1 + w.pages, w.done)
  }

  lemma ConcatOrdered(dir: Direction, front: seq<int>, back: seq<int>)
    requires front != [] && StrictlyOrdered(dir, front) && StrictlyOrdered(dir, back)
    requires forall y :: y in back ==> Before(dir, front[|front| - 1], y)
    ensures StrictlyOrdered(dir, front + back)
  {
    var q, n := front + back, |front|;
    forall i, j | 0 <= i < j < |q| ensures Before(dir, q[i], q[j]) {
      if j < n {
        assert Before(dir, front[i], front[j]);
      } else {
        assert q[j] == back[j - n] && q[j] in back;
        if i < n - 1 {
          assert Before(dir, front[i], front[n - 1]);
        } else if i >= n {
          assert Before(dir, back[i - n], back[j - n]);
        }
      }
    }
  }

  /** Whatever happens to the table between requests, the client sees ids in strict
      order, all of them past its first cursor. */
  lemma {:induction false} WalkOrdered(dir: Direction, tables: seq<set<int>>, cursor: Option<int>, limit: nat)
    requires limit > 0
    ensures StrictlyOrdered(dir, Follow(dir, tables, cursor, limit).ids)
    ensures forall x :: x in Follow(dir, tables, cursor, limit).ids ==> PastCursor(dir, cursor, x)
  {
    if tables != [] {
      var p := PageOf(dir, tables[0], cursor, limit);
      PageOrdered(dir, tables[0], cursor, limit);
      if p.next.Some? {
        PageSplitsListing(dir, tables[0], cursor, limit);
        var w := Follow(dir, tables[1..], p.next, limit);
        WalkOrdered(dir, tables[1..], p.next, limit);
        var c := p.next.value;
        assert c in p.ids;
        forall x | x in w.ids ensures PastCursor(dir, cursor, x) {
          assert Before(dir, c, x);
        }
        ConcatOrdered(dir, p.ids, w.ids);
      }
    }
  }

  lemma OrderedHasNoDuplicates(dir: Direction, q: seq<int>)
    requires StrictlyOrdered(dir, q)
    ensures NoDuplicates(q)
  {
  }

  /** Every id the client sees was in the table that one of its requests found. */
  lemma {:induction false} WalkSound(dir: Direction, tables: seq<set<int>>, cursor: Option<int>, limit: nat, x: int)
    requires limit > 0
    requires x in Follow(dir, tables, cursor, limit).ids
    ensures exists i :: 0 <= i < |tables| && x in tables[i]
  {
    var p := PageOf(dir, tables[0], cursor, limit);
    PageOrdered(dir, tables[0], cursor, limit);
    if x in p.ids {
      assert x in tables[0];
    } else {
      WalkSound(dir, tables[1..], p.next, limit, x);
      var i :| 0 <= i < |tables[1..]| && x in tables[1..][i];
      assert x in tables[i + 1];
    }
  }

  /** A walk that ends has seen every id past its cursor that was there for every
      request it made. */
  lemma {:induction false} WalkComplete(dir: Direction, tables: seq<set<int>>, cursor: Option<int>, limit: nat, x: int)
    requires limit > 0
    requires Follow(dir, tables, cursor, limit).done
    requires PastCursor(dir, cursor, x)
    requires forall i :: 0 <= i < Follow(dir, tables, cursor, limit).pages && i < |tables| ==> x in tables[i]
    ensures x in Follow(dir, tables, cursor, limit).ids
  {
    var p := PageOf(dir, tables[0], cursor, limit);
    var remaining := Remaining(dir, tables[0], cursor);
    assert x in tables[0];
    assert x in remaining;
    PageSplitsListing(dir, tables[0], cursor, limit);
    ListingElements(dir, remaining);
    if p.next.Some? && x !in p.ids {
      ListingElements(dir, Remaining(dir, tables[0], p.next));
      assert x in p.ids + Listing(dir, Remaining(dir, tables[0], p.next));
      var later := tables[1..];
      forall i | 0 <= i < Follow(dir, later, p.next, limit).pages && i < |later| ensures x in later[i] {
        assert later[i] == tables[i + 1];
      }
      WalkComplete(dir, later, p.next, limit, x);
    }
  }

  function PagesNeeded(n: nat, limit: nat): nat
    requires limit > 0
  {
    if n <= limit then 1 else 1 + PagesNeeded(n - limit, limit)
  }

  /** That count is the larger of one and the quotient rounded up: the pages hold
      all n ids, and one page fewer would not. */
  lemma {:induction false} PagesNeededIsCeiling(n: nat, limit: nat)
    requires limit > 0
    ensures n <= PagesNeeded(n, limit) * limit
    ensures n > 0 ==> (PagesNeeded(n, limit) - 1) * limit < n
    ensures n == 0 ==> PagesNeeded(n, limit) == 1
  {
    if n > limit {
      PagesNeededIsCeiling(n - limit, limit);
    }
  }

  /** Between two requests nothing changes behind the client's cursor. In front of it,
      and on the pages it has seen, anything may. */
  ghost predicate StillBehind(dir: Direction, tables: seq<set<int>>, cursor: Option<int>, limit: nat)
    requires limit > 0
    decreases |tables|
  {
    |tables| > 1 ==>
      var next := PageOf(dir, tables[0], cursor, limit).next;
      next.Some? ==>
        && Remaining(dir, tables[1], next) == Remaining(dir, tables[0], next)
        && StillBehind(dir, tables[1..], next, limit)
  }

  /** With enough requests such a walk ends, has made exactly as many as the first
      table needs, and has collected exactly what was there at the first one. */
  lemma {:induction false} WalkTerminates(dir: Direction, tables: seq<set<int>>, cursor: Option<int>, limit: nat,
                                          n: nat)
    requires limit > 0 && tables != []
    requires StillBehind(dir, tables, cursor, limit)
    requires n == |Remaining(dir, tables[0], cursor)|
    requires |tables| >= PagesNeeded(n, limit)
    ensures Follow(dir, tables, cursor, limit)
            == Walk(Listing(dir, Remaining(dir, tables[0], cursor)), PagesNeeded(n, limit), true)
  {
    var p := PageOf(dir, tables[0], cursor, limit);
    PageSplitsListing(dir, tables[0], cursor, limit);
    if n > limit {
      assert |p.ids + Listing(dir, Remaining(dir, tables[0], p.next))| == n;
      WalkTerminates(dir, tables[1..], p.next, limit, n - limit);
    }
  }

  // ---- Whatever is inserted ----

  lemma {:induction false} PagesNeededGrows(m: nat, n: nat, limit: nat)
    requires limit > 0 && m <= n
    ensures PagesNeeded(m, limit) <= PagesNeeded(n, limit)
  {
    if m > limit {
      PagesNeededGrows(m - limit, n - limit, limit);
    }
  }

  lemma DisjointSizes(a: set<int>, b: set<int>, whole: set<int>)
    requires a !! b && a <= whole && b <= whole
    ensures |a| + |b| <= |whole|
  {
    var rest := whole - a;
    assert whole == a + rest;
    SubsetSize(b, rest);
  }

  /** A page with a next cursor leaves that many ids fewer of any larger set. */
  lemma PageConsumes(dir: Direction, table: set<int>, all: set<int>, cursor: Option<int>, limit: nat)
    requires limit > 0 && table <= all && PageOf(dir, table, cursor, limit).next.Some?
    ensures var next := PageOf(dir, table, cursor, limit).next;
            |Remaining(dir, all, next)| + limit <= |Remaining(dir, all, cursor)|
  {
    var p := PageOf(dir, table, cursor, limit);
    var before, after := Remaining(dir, table, cursor), Remaining(dir, table, p.next);
    PageSplitsListing(dir, table, cursor, limit);
    PageOrdered(dir, table, cursor, limit);
    assert p.next.value in p.ids;
    assert |p.ids + Listing(dir, after)| == |before|;
    assert after <= before;
    assert |before - after| == limit;
    forall x | x in before - after ensures x in Remaining(dir, all, cursor) {
      assert x in table;
    }
    DisjointSizes(Remaining(dir, all, p.next), before - after, Remaining(dir, all, cursor));
  }

  /** Even if ids come in behind the cursor, the walk ends within the requests that all
      the ids there ever are would need. */
  lemma {:induction false} WalkBounded(dir: Direction, tables: seq<set<int>>, all: set<int>, cursor: Option<int>,
                                       limit: nat)
    requires limit > 0
    requires forall i :: 0 <= i < |tables| ==> tables[i] <= all
    requires |tables| >= PagesNeeded(|Remaining(dir, all, cursor)|, limit)
    ensures Follow(dir, tables, cursor, limit).done
    ensures Follow(dir, tables, cursor, limit).pages <= PagesNeeded(|Remaining(dir, all, cursor)|, limit)
    decreases |tables|
  {
    var p := PageOf(dir, tables[0], cursor, limit);
    if p.next.Some? {
      PageConsumes(dir, tables[0], all, cursor, limit);
      var n := |Remaining(dir, all, cursor)|;
      PagesNeededGrows(|Remaining(dir, all, p.next)|, n - limit, limit);
      PageSplitsListing(dir, tables[0], cursor, limit);
      WalkBounded(dir, tables[1..], all, p.next, limit);
    }
  }
}
