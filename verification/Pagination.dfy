/**
 * Keyset pagination: packages/shared/src/pagination.ts, the cursor conditions of
 * apps/api/src/services/cursor.ts and the list operations that use them. The table may
 * change between two page reads.
 */
module Pagination {
  import opened Wrappers

  /** The sort key of a row; ids are unique, and uuids are compared as 128-bit numbers. */
  datatype Row = Row(createdAt: int, id: nat)

  datatype Cursor = Cursor(createdAt: int, id: nat)

  datatype Direction = Asc | Desc

  datatype Page = Page(items: seq<Row>, next: Option<Cursor>)

  /** The condition sent to the database for the rows after a cursor. */
  predicate AfterCursor(dir: Direction, c: Cursor, row: Row) {
    match dir
    case Asc => row.createdAt > c.createdAt || (row.createdAt == c.createdAt && row.id > c.id)
    case Desc => row.createdAt < c.createdAt || (row.createdAt == c.createdAt && row.id < c.id)
  }

  function BuildPage(rows: seq<Row>, limit: nat): Page {
    var hasMore := |rows| > limit;
    var items := if hasMore then rows[..limit] else rows;
    var next := if hasMore && items != [] then Some(CursorOf(items[|items| - 1])) else None;
    Page(items, next)
  }

  function CursorOf(row: Row): Cursor {
    Cursor(row.createdAt, row.id)
  }

  // ---- What the database answers ----

  /** ORDER BY createdAt, id in the given direction. */
  predicate Before(dir: Direction, a: Row, b: Row) {
    match dir
    case Asc => a.createdAt < b.createdAt || (a.createdAt == b.createdAt && a.id < b.id)
    case Desc => a.createdAt > b.createdAt || (a.createdAt == b.createdAt && a.id > b.id)
  }

  ghost predicate Ordered(dir: Direction, rows: seq<Row>) {
    forall i, j :: 0 <= i < j < |rows| ==> Before(dir, rows[i], rows[j])
  }

  ghost predicate IsFirst(dir: Direction, rows: set<Row>, first: Row) {
    first in rows && forall r :: r in rows && r != first ==> Before(dir, first, r)
  }

  lemma {:induction false} FirstExists(dir: Direction, rows: set<Row>)
    requires rows != {}
    ensures exists first :: IsFirst(dir, rows, first)
    decreases rows
  {
    var r :| r in rows;
    if rows == {r} {
      assert IsFirst(dir, rows, r);
    } else {
      FirstExists(dir, rows - {r});
      var first :| IsFirst(dir, rows - {r}, first);
      forall x | x in rows ensures x == r || x == first || Before(dir, first, x) {
        assert x == r || x in rows - {r};
      }
      assert IsFirst(dir, rows, r) || IsFirst(dir, rows, first);
    }
  }

  ghost function Sorted(dir: Direction, rows: set<Row>): seq<Row>
    decreases rows
  {
    if rows == {} then []
    else
      FirstExists(dir, rows);
      var first :| IsFirst(dir, rows, first);
      [first] + Sorted(dir, rows - {first})
  }

  ghost function Matching(table: set<Row>, dir: Direction, cursor: Option<Cursor>): set<Row> {
    set r | r in table && (cursor.None? || AfterCursor(dir, cursor.value, r))
  }

  ghost function Query(table: set<Row>, dir: Direction, cursor: Option<Cursor>, take: nat): seq<Row> {
    var all := Sorted(dir, Matching(table, dir, cursor));
    if |all| <= take then all else all[..take]
  }

  /** One list request: fetch a sentinel row beyond the limit, then trim it. */
  ghost function ReadPage(table: set<Row>, dir: Direction, cursor: Option<Cursor>, limit: nat): Page {
    BuildPage(Query(table, dir, cursor, limit + 1), limit)
  }

  // ---- Sorting ----

  lemma {:induction false} SortedIsOrdered(dir: Direction, rows: set<Row>)
    ensures Ordered(dir, Sorted(dir, rows)) && |Sorted(dir, rows)| == |rows|
    ensures forall r :: r in Sorted(dir, rows) <==> r in rows
    decreases rows
  {
    if rows != {} {
      FirstExists(dir, rows);
      var first :| IsFirst(dir, rows, first) && Sorted(dir, rows) == [first] + Sorted(dir, rows - {first});
      SortedIsOrdered(dir, rows - {first});
    }
  }

  /** There is only one way to order a set. */
  lemma {:induction false} OrderedIsSorted(dir: Direction, s: seq<Row>, rows: set<Row>)
    requires Ordered(dir, s) && forall r :: r in s <==> r in rows
    ensures Sorted(dir, rows) == s
    decreases |s|
  {
    assert s != [] ==> s[0] in rows;
    if rows != {} {
      FirstExists(dir, rows);
      var first :| IsFirst(dir, rows, first) && Sorted(dir, rows) == [first] + Sorted(dir, rows - {first});
      assert s[0] == first by {
        var k :| 0 <= k < |s| && s[k] == first;
        assert s[0] in rows;
      }
      assert forall k :: 1 <= k < |s| ==> s[k] != first;
      OrderedIsSorted(dir, s[1..], rows - {first});
    }
  }

  // ---- One page ----

  /** In an ordered list, what comes after an element is what is beyond it in the order. */
  lemma AfterElement(dir: Direction, all: seq<Row>, k: nat, r: Row)
    requires Ordered(dir, all) && k < |all|
    ensures r in all[k + 1..] <==> r in all && Before(dir, all[k], r)
  {
    if r in all[k + 1..] {
      var i :| k + 1 <= i < |all| && all[i] == r;
    }
    if r in all && Before(dir, all[k], r) {
      var i :| 0 <= i < |all| && all[i] == r;
      assert i > k;
      assert all[k + 1..][i - k - 1] == r;
    }
  }

  lemma UpToElement(dir: Direction, all: seq<Row>, k: nat, r: Row)
    requires Ordered(dir, all) && k < |all|
    ensures r in all[..k + 1] <==> r in all && !Before(dir, all[k], r)
    ensures r in all[..k + 1] ==> r == all[k] || Before(dir, r, all[k])
  {
    AfterElement(dir, all, k, r);
    assert all == all[..k + 1] + all[k + 1..];
    if r in all[..k + 1] {
      var i :| 0 <= i < k + 1 && all[..k + 1][i] == r;
      assert all[i] == r;
    }
  }

  /** The cursor of an element selects exactly the elements after it. */
  lemma CursorSelectsRest(table: set<Row>, dir: Direction, cursor: Option<Cursor>, k: nat)
    requires k < |Sorted(dir, Matching(table, dir, cursor))|
    ensures var all := Sorted(dir, Matching(table, dir, cursor));
      Sorted(dir, Matching(table, dir, Some(CursorOf(all[k])))) == all[k + 1..]
  {
    var rows := Matching(table, dir, cursor);
    var all := Sorted(dir, rows);
    SortedIsOrdered(dir, rows);
    assert all[k] in rows;
    var rest := Matching(table, dir, Some(CursorOf(all[k])));
    forall r ensures r in all[k + 1..] <==> r in rest {
      AfterElement(dir, all, k, r);
      assert AfterCursor(dir, CursorOf(all[k]), r) <==> Before(dir, all[k], r);
    }
    OrderedIsSorted(dir, all[k + 1..], rest);
  }

  /** A page lists the first rows; it has a next cursor, that of its last row, exactly when rows remain. */
  predicate IsPageOf(page: Page, all: seq<Row>, limit: nat) {
    if |all| <= limit then page == Page(all, None)
    else 1 <= limit && page == Page(all[..limit], Some(CursorOf(all[limit - 1])))
  }

  lemma PageIsPrefix(table: set<Row>, dir: Direction, cursor: Option<Cursor>, limit: nat)
    requires 1 <= limit
    ensures var page, all := ReadPage(table, dir, cursor, limit), Sorted(dir, Matching(table, dir, cursor));
      && IsPageOf(page, all, limit)
      && (page.next.Some? ==> Sorted(dir, Matching(table, dir, page.next)) == all[limit..])
  {
    var all := Sorted(dir, Matching(table, dir, cursor));
    if |all| > limit {
      CursorSelectsRest(table, dir, cursor, limit - 1);
      assert Query(table, dir, cursor, limit + 1)[..limit] == all[..limit];
    }
  }

  // ---- Walks ----

  datatype Walked = Walked(items: seq<Row>, finished: bool)

  /** Follow the next cursor from page to page; `tables[k]` is the table at the k-th read. */
  ghost function Walk(tables: seq<set<Row>>, dir: Direction, cursor: Option<Cursor>, limit: nat): Walked {
    if tables == [] then Walked([], false)
    else
      var page := ReadPage(tables[0], dir, cursor, limit);
      if page.next.None? then Walked(page.items, true)
      else
        var rest := Walk(tables[1..], dir, page.next, limit);
        Walked(page.items + rest.items, rest.finished)
  }

  predicate Beyond(dir: Direction, cursor: Option<Cursor>, row: Row) {
    cursor.None? || AfterCursor(dir, cursor.value, row)
  }

  /** The rows of a page are those not beyond the next cursor, and they come before those that are. */
  lemma PageSplits(page: Page, all: seq<Row>, dir: Direction, limit: nat, r: Row)
    requires Ordered(dir, all) && IsPageOf(page, all, limit)
    ensures Ordered(dir, page.items)
    ensures r in page.items <==> r in all && (page.next.None? || !Beyond(dir, page.next, r))
    ensures forall b :: r in page.items && page.next.Some? && Beyond(dir, page.next, b) ==> Before(dir, r, b)
    ensures page.next.Some? ==> exists last :: last in all && page.next == Some(CursorOf(last))
  {
    if |all| > limit {
      UpToElement(dir, all, limit - 1, r);
      assert forall b :: Beyond(dir, page.next, b) <==> Before(dir, all[limit - 1], b);
      assert all[limit - 1] in all;
    }
  }

  /** The rows of one page are those between its cursor and the next one. */
  lemma PageIsBetweenCursors(table: set<Row>, dir: Direction, cursor: Option<Cursor>, limit: nat, r: Row)
    requires 1 <= limit
    ensures var page := ReadPage(table, dir, cursor, limit);
      && Ordered(dir, page.items)
      && (r in page.items <==> r in table && Beyond(dir, cursor, r) && (page.next.None? || !Beyond(dir, page.next, r)))
      && (page.next.Some? && Beyond(dir, page.next, r) ==> Beyond(dir, cursor, r))
      && forall b :: r in page.items && page.next.Some? && Beyond(dir, page.next, b) ==> Before(dir, r, b)
  {
    var rows := Matching(table, dir, cursor);
    SortedIsOrdered(dir, rows);
    PageIsPrefix(table, dir, cursor, limit);
    PageSplits(ReadPage(table, dir, cursor, limit), Sorted(dir, rows), dir, limit, r);
    assert r in Sorted(dir, rows) <==> r in rows;
  }

  /**
   * Whatever is inserted and deleted between the reads, the items come in strict order,
   * so that no row is returned twice, and each was in a table when it was read.
   */
  lemma {:induction false} WalkRepeatsNothing(tables: seq<set<Row>>, dir: Direction, cursor: Option<Cursor>, limit: nat)
    requires 1 <= limit
    ensures var w := Walk(tables, dir, cursor, limit);
      && Ordered(dir, w.items)
      && forall r :: r in w.items ==> Beyond(dir, cursor, r) && exists k :: 0 <= k < |tables| && r in tables[k]
  {
    if tables != [] {
      var page := ReadPage(tables[0], dir, cursor, limit);
      forall r ensures Ordered(dir, page.items)
        && (r in page.items ==> r in tables[0] && Beyond(dir, cursor, r))
        && (page.next.Some? && Beyond(dir, page.next, r) ==> Beyond(dir, cursor, r))
        && forall b :: r in page.items && page.next.Some? && Beyond(dir, page.next, b) ==> Before(dir, r, b)
      {
        PageIsBetweenCursors(tables[0], dir, cursor, limit, r);
      }
      if page.next.Some? {
        var rest := Walk(tables[1..], dir, page.next, limit);
        WalkRepeatsNothing(tables[1..], dir, page.next, limit);
        forall r | r in rest.items ensures exists k :: 0 <= k < |tables| && r in tables[k] {
          var k :| 0 <= k < |tables[1..]| && r in tables[1..][k];
          assert r in tables[k + 1];
        }
        JoinOrdered(dir, page.items, rest.items);
      }
    }
  }

  lemma JoinOrdered(dir: Direction, a: seq<Row>, b: seq<Row>)
    requires Ordered(dir, a) && Ordered(dir, b)
    requires forall x, y :: x in a && y in b ==> Before(dir, x, y)
    ensures Ordered(dir, a + b)
  {
    forall i, j | 0 <= i < j < |a + b| ensures Before(dir, (a + b)[i], (a + b)[j]) {
      if i < |a| <= j {
        assert a[i] in a && b[j - |a|] in b;
      }
    }
  }

  /** A finished walk returned every row that was in the table at each of its reads. */
  lemma {:induction false} WalkMissesNothing(tables: seq<set<Row>>, dir: Direction, cursor: Option<Cursor>, limit: nat, r: Row)
    requires 1 <= limit && Walk(tables, dir, cursor, limit).finished
    requires Beyond(dir, cursor, r) && forall k :: 0 <= k < |tables| ==> r in tables[k]
    ensures r in Walk(tables, dir, cursor, limit).items
  {
    var page := ReadPage(tables[0], dir, cursor, limit);
    PageIsBetweenCursors(tables[0], dir, cursor, limit, r);
    if r !in page.items {
      assert forall k :: 0 <= k < |tables[1..]| ==> tables[1..][k] == tables[k + 1];
      WalkMissesNothing(tables[1..], dir, page.next, limit, r);
    }
  }

  /** The same table at each of n reads. */
  function Unchanged(table: set<Row>, n: nat): seq<set<Row>> {
    if n == 0 then [] else [table] + Unchanged(table, n - 1)
  }

  /** How many rows fit on n pages: n times the limit. */
  function Room(n: nat, limit: nat): nat {
    if n == 0 then 0 else limit + Room(n - 1, limit)
  }

  lemma {:induction false} RoomIsProduct(n: nat, limit: nat)
    ensures Room(n, limit) == n * limit
  {
    if n > 0 {
      RoomIsProduct(n - 1, limit);
      assert n * limit == limit + (n - 1) * limit;
    }
  }

  /**
   * On a table that does not change, the pages concatenate to the whole table in order,
   * and the walk ends with the first read by which there was room for all its rows.
   */
  lemma {:induction false} WalkOverFixedTable(table: set<Row>, n: nat, dir: Direction, cursor: Option<Cursor>, limit: nat)
    requires 1 <= limit && 1 <= n
    ensures var w, all := Walk(Unchanged(table, n), dir, cursor, limit), Sorted(dir, Matching(table, dir, cursor));
      && (w.finished <==> |all| <= Room(n, limit))
      && w.items == if w.finished then all else all[..Room(n, limit)]
    decreases n
  {
    PageIsPrefix(table, dir, cursor, limit);
    WalkStep(table, n, dir, cursor, limit);
    var page := ReadPage(table, dir, cursor, limit);
    if page.next.Some? && n > 1 {
      WalkOverFixedTable(table, n - 1, dir, page.next, limit);
    }
    var rest := Walk(Unchanged(table, n - 1), dir, page.next, limit);
    JoinReads(page, Sorted(dir, Matching(table, dir, cursor)), rest, limit, Room(n - 1, limit));
  }

  /** A page and what the rest of the walk found, put together. */
  lemma JoinReads(page: Page, all: seq<Row>, rest: Walked, limit: nat, more: nat)
    requires IsPageOf(page, all, limit)
    requires page.next.Some? ==> (rest.finished <==> |all| - limit <= more)
    requires page.next.Some? ==> rest.items == if rest.finished then all[limit..] else all[limit..][..more]
    ensures page.next.None? ==> page.items == all && |all| <= limit + more
    ensures page.next.Some? ==> (rest.finished <==> |all| <= limit + more)
    ensures page.next.Some? ==> page.items + rest.items == if rest.finished then all else all[..limit + more]
  {
    if page.next.Some? {
      TakeInTwo(all, limit, more);
    }
  }

  lemma WalkStep(table: set<Row>, n: nat, dir: Direction, cursor: Option<Cursor>, limit: nat)
    requires 1 <= n
    ensures var page := ReadPage(table, dir, cursor, limit);
      Walk(Unchanged(table, n), dir, cursor, limit) ==
        if page.next.None? then Walked(page.items, true)
        else
          var rest := Walk(Unchanged(table, n - 1), dir, page.next, limit);
          Walked(page.items + rest.items, rest.finished)
  {
    assert Unchanged(table, n)[1..] == Unchanged(table, n - 1);
  }

  lemma TakeInTwo(all: seq<Row>, a: nat, b: nat)
    requires a <= |all|
    ensures all[..a] + all[a..] == all && all[..a] + [] == all[..a]
    ensures a + b <= |all| ==> all[..a] + all[a..][..b] == all[..a + b]
  {
  }
}
