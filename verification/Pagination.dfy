/** Keyset pagination of the query methods (`storage/postgres.go`). A cursor is the key of a
    row: its time and the rank of its secondary key (row id, or source and interval). */
module Pagination {
  import opened MarketModel

  datatype Key = Key(time: int, tie: int)

  predicate Less(a: Key, b: Key) {
    a.time < b.time || (a.time == b.time && a.tie < b.tie)
  }

  datatype Row = Row(group: string, key: Key, body: string)

  /** A result in `ORDER BY` order; keys are unique. */
  ghost predicate KeySorted(rows: seq<Row>) {
    forall i, j :: 0 <= i < j < |rows| ==> Less(rows[i].key, rows[j].key)
  }

  const DEFAULT_LIMIT := 200

  /** The page size: kept if it is in range, otherwise the default or the cap. */
  function ValidateQueryLimit(limit: int): (r: int)
    ensures 1 <= r <= 1000
    ensures 1 <= limit <= 1000 ==> r == limit
    ensures limit <= 0 ==> r == DEFAULT_LIMIT
    ensures limit > 1000 ==> r == 1000
  {
    if limit <= 0 then DEFAULT_LIMIT else if limit > 1000 then 1000 else limit
  }

  predicate Matches(r: Row, group: string, from: int, to: int) {
    r.group == group && from <= r.key.time < to
  }

  /** The rows of a group in `[from, to)`. */
  function Matching(table: seq<Row>, group: string, from: int, to: int): seq<Row> {
    if table == [] then []
    else
      var front := Matching(table[..|table| - 1], group, from, to);
      if Matches(table[|table| - 1], group, from, to) then front + [table[|table| - 1]] else front
  }

  predicate Past(cursor: Option<Key>, r: Row) {
    cursor.None? || Less(cursor.value, r.key)
  }

  /** The rows strictly after the cursor. */
  function After(rows: seq<Row>, cursor: Option<Key>): seq<Row> {
    if rows == [] then []
    else
      var front := After(rows[..|rows| - 1], cursor);
      if Past(cursor, rows[|rows| - 1]) then front + [rows[|rows| - 1]] else front
  }

  datatype Page = Page(rows: seq<Row>, next: Option<Key>)

  /** One page: fetch one row more than the limit, keep `limit`, and use the key of the extra
      row, which is not returned, as the cursor. */
  function PageOf(rows: seq<Row>, limit: int, cursor: Option<Key>): Page
    requires limit >= 1
  {
    var found := After(rows, cursor);
    if |found| > limit then Page(found[..limit], Some(found[limit].key)) else Page(found, None)
  }

  /** The query loop over an ordered table. */
  method Query(table: seq<Row>, group: string, from: int, to: int, limit0: int, cursor: Option<Key>)
    returns (page: Page)
    ensures page == PageOf(Matching(table, group, from, to), ValidateQueryLimit(limit0), cursor)
  {
    var limit := ValidateQueryLimit(limit0);
    var fetchLimit := limit + 1;
    var rows: seq<Row> := [];
    ghost var all: seq<Row> := [];
    for i := 0 to |table|
      invariant all == After(Matching(table[..i], group, from, to), cursor)
      invariant rows == if |all| <= fetchLimit then all else all[..fetchLimit]
    {
      var r := table[i];
      AfterMatching(table[..i], r, group, from, to, cursor);
      assert table[..i + 1] == table[..i] + [r];
      if Matches(r, group, from, to) && Past(cursor, r) {
        assert |all| >= fetchLimit ==> (all + [r])[..fetchLimit] == all[..fetchLimit];
        all := all + [r];
        if |rows| < fetchLimit {
          rows := rows + [r];
        }
      }
    }
    assert table[..|table|] == table;
    if |rows| > limit {
      var last := rows[limit];
      assert rows[..limit] == all[..limit];
      page := Page(rows[..limit], Some(last.key));
    } else {
      page := Page(rows, None);
    }
  }

  lemma AfterMatching(table: seq<Row>, r: Row, group: string, from: int, to: int, cursor: Option<Key>)
    ensures After(Matching(table + [r], group, from, to), cursor) ==
      After(Matching(table, group, from, to), cursor)
      + (if Matches(r, group, from, to) && Past(cursor, r) then [r] else [])
  {
    assert (table + [r])[..|table|] == table;
    var ms := Matching(table, group, from, to);
    assert (ms + [r])[..|ms|] == ms;
  }

  lemma {:induction false} MatchingIsSorted(table: seq<Row>, group: string, from: int, to: int)
    requires KeySorted(table)
    ensures KeySorted(Matching(table, group, from, to))
    ensures forall r :: r in Matching(table, group, from, to) <==> r in table && Matches(r, group, from, to)
  {
    if table != [] {
      var front, last := table[..|table| - 1], table[|table| - 1];
      MatchingIsSorted(front, group, from, to);
      assert table == front + [last];
      assert forall r :: r in front ==> Less(r.key, last.key);
    }
  }

  /** The row belongs to the query: its group, the half-open time range, and beyond the cursor
      by time and then by secondary key. */
  predicate Wanted(r: Row, group: string, from: int, to: int, cursor: Option<Key>) {
    && r.group == group && from <= r.key.time && r.key.time < to
    && (cursor.Some? ==>
          || r.key.time > cursor.value.time
          || (r.key.time == cursor.value.time && r.key.tie > cursor.value.tie))
  }

  /** What a page holds of an ordered table: rows that belong to the query, in ascending order
      of time and then secondary key; all of them when there is no next cursor, and otherwise
      `limit` rows, exactly those before the next cursor, whose own row belongs to the query
      too and is not returned. */
  lemma PageHolds(table: seq<Row>, group: string, from: int, to: int, limit: int, cursor: Option<Key>)
    requires KeySorted(table) && limit >= 1
    ensures var page := PageOf(Matching(table, group, from, to), limit, cursor);
      && KeySorted(page.rows) && |page.rows| <= limit
      && (forall r :: r in page.rows <==>
            r in table && Wanted(r, group, from, to, cursor) && (page.next.Some? ==> Less(r.key, page.next.value)))
      && (page.next.Some? ==> |page.rows| == limit)
      && (page.next.Some? ==> exists r :: r in table && Wanted(r, group, from, to, cursor) && r.key == page.next.value)
  {
    var rows := Matching(table, group, from, to);
    MatchingIsSorted(table, group, from, to);
    AfterIsSorted(rows, cursor);
    var found := After(rows, cursor);
    if |found| > limit {
      assert found[limit] in found;
      forall r | r in found
        ensures r in found[..limit] <==> Less(r.key, found[limit].key)
      {
        var i :| 0 <= i < |found| && found[i] == r;
        if i < limit {
          assert found[..limit][i] == r;
        }
      }
    }
  }

  lemma {:induction false} AfterIsSorted(rows: seq<Row>, cursor: Option<Key>)
    requires KeySorted(rows)
    ensures KeySorted(After(rows, cursor))
    ensures forall r :: r in After(rows, cursor) <==> r in rows && Past(cursor, r)
  {
    if rows != [] {
      var front, last := rows[..|rows| - 1], rows[|rows| - 1];
      AfterIsSorted(front, cursor);
      assert rows == front + [last];
      assert forall r :: r in front ==> Less(r.key, last.key);
    }
  }

  // ---- cursors and suffixes ---------------------------------------------------------

  lemma {:induction false} AfterNone(rows: seq<Row>)
    ensures After(rows, None) == rows
  {
    if rows != [] {
      AfterNone(rows[..|rows| - 1]);
      assert rows == rows[..|rows| - 1] + [rows[|rows| - 1]];
    }
  }

  /** The cursor of row `k` continues at row `k + 1`. */
  lemma {:induction false} AfterRow(rows: seq<Row>, k: nat, n: nat)
    requires KeySorted(rows) && k < |rows| && n <= |rows|
    ensures After(rows[..n], Some(rows[k].key)) == if k + 1 <= n then rows[k + 1..n] else []
  {
    if n > 0 {
      AfterRow(rows, k, n - 1);
      assert rows[..n][..n - 1] == rows[..n - 1];
      if n - 1 > k {
        assert rows[k + 1..n] == rows[k + 1..n - 1] + [rows[n - 1]];
      }
    }
  }

  lemma AfterRowAll(rows: seq<Row>, k: nat)
    requires KeySorted(rows) && k < |rows|
    ensures After(rows, Some(rows[k].key)) == rows[k + 1..]
  {
    AfterRow(rows, k, |rows|);
    assert rows[..|rows|] == rows;
  }

  /** Position `k` in the result stands for this cursor. */
  function CursorFor(rows: seq<Row>, k: nat): Option<Key>
    requires k <= |rows|
  {
    if k == 0 then None else Some(rows[k - 1].key)
  }

  lemma AfterPosition(rows: seq<Row>, k: nat)
    requires KeySorted(rows) && k <= |rows|
    ensures After(rows, CursorFor(rows, k)) == rows[k..]
  {
    if k == 0 {
      AfterNone(rows);
    } else {
      AfterRowAll(rows, k - 1);
    }
  }

  /** Whatever the cursor, what lies after it is a suffix. */
  lemma {:induction false} AfterIsSuffix(rows: seq<Row>, cursor: Option<Key>)
    requires KeySorted(rows)
    ensures |After(rows, cursor)| <= |rows|
    ensures After(rows, cursor) == rows[|rows| - |After(rows, cursor)|..]
  {
    if rows != [] {
      var n := |rows| - 1;
      var front, last := rows[..n], rows[n];
      AfterIsSuffix(front, cursor);
      var found := After(front, cursor);
      assert rows == front + [last];
      if Past(cursor, last) {
        assert front[n - |found|..] + [last] == rows[n - |found|..];
      } else {
        NothingFound(rows, cursor);
      }
    }
  }

  lemma NothingFound(rows: seq<Row>, cursor: Option<Key>)
    requires KeySorted(rows) && rows != [] && !Past(cursor, rows[|rows| - 1])
    ensures After(rows[..|rows| - 1], cursor) == []
  {
    var front, last := rows[..|rows| - 1], rows[|rows| - 1];
    forall r | r in front
      ensures !Past(cursor, r)
    {
      assert Less(r.key, last.key);
    }
    if After(front, cursor) != [] {
      FoundIsThere(front, cursor);
    }
  }

  lemma {:induction false} FoundIsThere(rows: seq<Row>, cursor: Option<Key>)
    ensures After(rows, cursor) != [] ==> exists r :: r in rows && Past(cursor, r)
  {
    if rows != [] {
      var front, last := rows[..|rows| - 1], rows[|rows| - 1];
      FoundIsThere(front, cursor);
      assert last in rows && forall r :: r in front ==> r in rows;
    }
  }

  // ---- following cursors ------------------------------------------------------------

  /** The cursor of the `i`-th row found leaves fewer rows to find. */
  lemma CursorAdvances(rows: seq<Row>, cursor: Option<Key>, i: nat)
    requires KeySorted(rows) && i < |After(rows, cursor)|
    ensures |After(rows, Some(After(rows, cursor)[i].key))| == |After(rows, cursor)| - i - 1
  {
    AfterIsSuffix(rows, cursor);
    AfterRowAll(rows, |rows| - |After(rows, cursor)| + i);
  }

  /** All rows a client sees that starts at any cursor and follows the returned ones to the
      end. */
  ghost function Walk(rows: seq<Row>, limit: int, cursor: Option<Key>): seq<Row>
    requires limit >= 1 && KeySorted(rows)
    decreases |After(rows, cursor)|
  {
    var page := PageOf(rows, limit, cursor);
    if page.next.None? then page.rows
    else
      CursorAdvances(rows, cursor, limit);
      page.rows + Walk(rows, limit, page.next)
  }

  /** The indices `limit`, `2 * limit + 1`, `3 * limit + 2`, ... */
  predicate IsBoundary(limit: int, i: int)
    requires limit >= 1
    decreases i
  {
    i == limit || (i > limit && IsBoundary(limit, i - limit - 1))
  }

  /** Where pages start: `0`, `limit + 1`, `2 * limit + 2`, ... */
  predicate StartsPage(limit: int, k: int)
    requires limit >= 1
    decreases k
  {
    k == 0 || (k > limit && StartsPage(limit, k - limit - 1))
  }

  /** From the start of a page, the next boundary is `limit` away. */
  lemma {:induction false} NextBoundary(limit: int, k: nat, d: nat)
    requires limit >= 1 && StartsPage(limit, k) && d <= limit
    ensures IsBoundary(limit, k + d) <==> d == limit
    decreases k
  {
    if k > 0 {
      NextBoundary(limit, k - limit - 1, d);
    }
  }

  /** The first `n` rows without those at boundaries. */
  function WithoutBoundaryRows(rows: seq<Row>, limit: int, n: nat): seq<Row>
    requires limit >= 1 && n <= |rows|
  {
    if n == 0 then []
    else WithoutBoundaryRows(rows, limit, n - 1) + (if IsBoundary(limit, n - 1) then [] else [rows[n - 1]])
  }

  lemma {:induction false} KeptStretch(rows: seq<Row>, limit: int, k: nat, n: nat)
    requires limit >= 1 && StartsPage(limit, k) && k <= n <= |rows| && n <= k + limit
    ensures WithoutBoundaryRows(rows, limit, n) == WithoutBoundaryRows(rows, limit, k) + rows[k..n]
  {
    if n > k {
      KeptStretch(rows, limit, k, n - 1);
      NextBoundary(limit, k, n - 1 - k);
      assert rows[k..n] == rows[k..n - 1] + [rows[n - 1]];
    }
  }

  /** One full page and the row after it. */
  lemma BoundaryStretch(rows: seq<Row>, limit: int, k: nat)
    requires limit >= 1 && StartsPage(limit, k) && k + limit + 1 <= |rows|
    ensures WithoutBoundaryRows(rows, limit, k + limit + 1) == WithoutBoundaryRows(rows, limit, k) + rows[k..k + limit]
    ensures StartsPage(limit, k + limit + 1)
  {
    KeptStretch(rows, limit, k, k + limit);
    NextBoundary(limit, k, limit);
  }

  lemma {:induction false} WalkFrom(rows: seq<Row>, limit: int, k: nat)
    requires limit >= 1 && KeySorted(rows) && k <= |rows| && StartsPage(limit, k)
    ensures WithoutBoundaryRows(rows, limit, |rows|) ==
            WithoutBoundaryRows(rows, limit, k) + Walk(rows, limit, CursorFor(rows, k))
    decreases |rows| - k
  {
    if |rows| - k <= limit {
      LastPage(rows, limit, k);
      KeptStretch(rows, limit, k, |rows|);
    } else {
      FullPage(rows, limit, k);
      BoundaryStretch(rows, limit, k);
      WalkFrom(rows, limit, k + limit + 1);
      Regroup(WithoutBoundaryRows(rows, limit, k), rows[k..k + limit],
              Walk(rows, limit, CursorFor(rows, k + limit + 1)));
    }
  }

  lemma Regroup(a: seq<Row>, b: seq<Row>, c: seq<Row>)
    ensures a + b + c == a + (b + c)
  {
  }

  lemma LastPage(rows: seq<Row>, limit: int, k: nat)
    requires limit >= 1 && KeySorted(rows) && k <= |rows| <= k + limit
    ensures Walk(rows, limit, CursorFor(rows, k)) == rows[k..|rows|]
  {
    AfterPosition(rows, k);
    assert rows[k..] == rows[k..|rows|];
  }

  lemma FullPage(rows: seq<Row>, limit: int, k: nat)
    requires limit >= 1 && KeySorted(rows) && k + limit < |rows|
    ensures Walk(rows, limit, CursorFor(rows, k)) ==
            rows[k..k + limit] + Walk(rows, limit, CursorFor(rows, k + limit + 1))
  {
    AfterPosition(rows, k);
    assert rows[k..][..limit] == rows[k..k + limit];
  }

  /** Following the cursors returns exactly the matching rows in key order, without repeats,
      except those at indices `limit`, `2 * limit + 1`, ... */
  lemma WalkSkipsBoundaryRows(rows: seq<Row>, limit: int)
    requires limit >= 1 && KeySorted(rows)
    ensures Walk(rows, limit, None) == WithoutBoundaryRows(rows, limit, |rows|)
    ensures KeySorted(Walk(rows, limit, None))
  {
    WalkFrom(rows, limit, 0);
    WithoutIsSorted(rows, limit, |rows|);
  }

  lemma {:induction false} WithoutIsSorted(rows: seq<Row>, limit: int, n: nat)
    requires limit >= 1 && KeySorted(rows) && n <= |rows|
    ensures KeySorted(WithoutBoundaryRows(rows, limit, n))
    ensures forall r :: r in WithoutBoundaryRows(rows, limit, n) ==> r in rows[..n]
    ensures |WithoutBoundaryRows(rows, limit, n)| <= n
  {
    if n > 0 {
      WithoutIsSorted(rows, limit, n - 1);
      assert forall r :: r in rows[..n - 1] ==> Less(r.key, rows[n - 1].key);
      assert forall r :: r in rows[..n - 1] ==> r in rows[..n];
      assert rows[n - 1] in rows[..n];
    }
  }

  /** The promise that no row is skipped at page boundaries holds exactly when everything fits
      on the first page. */
  lemma NothingSkippedExactlyOnOnePage(rows: seq<Row>, limit: int)
    requires limit >= 1 && KeySorted(rows)
    ensures Walk(rows, limit, None) == rows <==> |rows| <= limit
  {
    WalkSkipsBoundaryRows(rows, limit);
    if |rows| <= limit {
      KeptStretch(rows, limit, 0, |rows|);
      assert rows[0..|rows|] == rows;
    } else {
      LosesOne(rows, limit, |rows|);
    }
  }

  lemma {:induction false} LosesOne(rows: seq<Row>, limit: int, n: nat)
    requires limit >= 1 && limit < n <= |rows|
    ensures |WithoutBoundaryRows(rows, limit, n)| < n
  {
    if n - 1 > limit {
      LosesOne(rows, limit, n - 1);
    } else {
      ShorterThan(rows, limit, n - 1);
    }
  }

  lemma {:induction false} ShorterThan(rows: seq<Row>, limit: int, n: nat)
    requires limit >= 1 && n <= |rows|
    ensures |WithoutBoundaryRows(rows, limit, n)| <= n
  {
    if n > 0 {
      ShorterThan(rows, limit, n - 1);
    }
  }

  // ---- the cursor that would keep the promise ---------------------------------------

  /** The same page, with the key of the last row returned as the cursor. */
  function LastRowPage(rows: seq<Row>, limit: int, cursor: Option<Key>): Page
    requires limit >= 1
  {
    var found := After(rows, cursor);
    if |found| > limit then Page(found[..limit], Some(found[limit - 1].key)) else Page(found, None)
  }

  ghost function LastRowWalk(rows: seq<Row>, limit: int, cursor: Option<Key>): seq<Row>
    requires limit >= 1 && KeySorted(rows)
    decreases |After(rows, cursor)|
  {
    var page := LastRowPage(rows, limit, cursor);
    if page.next.None? then page.rows
    else
      CursorAdvances(rows, cursor, limit - 1);
      page.rows + LastRowWalk(rows, limit, page.next)
  }

  /** Taking the cursor from the last returned row returns every matching row after the
      cursor, wherever the walk starts. */
  lemma {:induction false} LastRowWalkIsComplete(rows: seq<Row>, limit: int, cursor: Option<Key>)
    requires limit >= 1 && KeySorted(rows)
    ensures LastRowWalk(rows, limit, cursor) == After(rows, cursor)
    decreases |After(rows, cursor)|
  {
    var found := After(rows, cursor);
    if |found| > limit {
      CursorAdvances(rows, cursor, limit - 1);
      LastRowWalkIsComplete(rows, limit, Some(found[limit - 1].key));
      AfterIsSuffix(rows, cursor);
      AfterRowAll(rows, |rows| - |found| + limit - 1);
      assert found[..limit] + found[limit..] == found;
    }
  }
}
