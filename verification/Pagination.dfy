/**
 * Keyset pagination of the workspace list tools (src/integrations/workspace-tools.js): a page
 * asks for one row more than its limit, and its cursor is the id of its last row.
 */
module Pagination {
  import opened Options

  /** A row and its id; ids are compared as the database orders them. */
  datatype Row = Row(id: int, data: string)

  predicate Ordered(rows: seq<Row>) {
    forall i, j :: 0 <= i < j < |rows| ==> rows[i].id < rows[j].id
  }

  /** The rows of a table, by id. */
  type Table = rows: seq<Row> | Ordered(rows) witness []

  datatype Page = Page(items: seq<Row>, nextCursor: Option<int>)

  predicate After(row: Row, after: Option<int>) {
    after.None? || row.id > after.value
  }

  /** The rows that match and come after the cursor, in id order. */
  function Select(table: Table, where: Row -> bool, after: Option<int>): (rows: seq<Row>)
    ensures Ordered(rows)
    ensures forall r :: r in rows <==> r in table && where(r) && After(r, after)
  {
    if table == [] then []
    else
      var last := table[|table| - 1];
      var front := Select(table[..|table| - 1], where, after);
      assert table == table[..|table| - 1] + [last];
      assert forall r :: r in front ==> r.id < last.id;
      if where(last) && After(last, after) then front + [last] else front
  }

  /** A decoration adds to rows; it keeps their order and ids. */
  ghost predicate KeepsIds(decorate: seq<Row> -> seq<Row>) {
    forall rows :: Ids(decorate(rows)) == Ids(rows)
  }

  function Ids(rows: seq<Row>): (ids: seq<int>)
    ensures |ids| == |rows|
  {
    seq(|rows|, i requires 0 <= i < |rows| => rows[i].id)
  }

  /** One call of the tool. */
  function List(table: Table, where: Row -> bool, decorate: seq<Row> -> seq<Row>, limit: nat, after: Option<int>): Page
    requires limit >= 1 && KeepsIds(decorate)
  {
    var rows := Take(Select(table, where, after), limit + 1);
    var items := decorate(Take(rows, limit));
    assert Ids(items) == Ids(Take(rows, limit));
    Page(items, if |rows| > limit then Some(items[|items| - 1].id) else None)
  }

  function Take(rows: seq<Row>, n: nat): (r: seq<Row>)
    ensures |r| == if |rows| > n then n else |rows|
  {
    if |rows| > n then rows[..n] else rows
  }

  lemma TakeLess(rows: seq<Row>, n: nat)
    ensures Take(Take(rows, n + 1), n) == Take(rows, n)
  {
  }

  // ---------------------------------------------------------------- one page

  lemma LastIsGreatest(a: seq<Row>, r: Row)
    requires Ordered(a) && a != []
    ensures r in a ==> r.id <= a[|a| - 1].id
    ensures r in a[..|a| - 1] <==> r in a && r != a[|a| - 1]
  {
    assert a == a[..|a| - 1] + [a[|a| - 1]];
  }

  lemma {:induction false} SameElementsSameOrder(a: seq<Row>, b: seq<Row>)
    requires Ordered(a) && Ordered(b) && forall r :: r in a <==> r in b
    ensures a == b
    decreases |a|
  {
    assert (a == []) == (b == []) by {
      assert a != [] ==> a[0] in b;
      assert b != [] ==> b[0] in b;
    }
    if a != [] {
      var x, y := a[|a| - 1], b[|b| - 1];
      assert x in a && y in b;
      LastIsGreatest(a, y);
      LastIsGreatest(b, x);
      SameId(b, x, y);
      var a', b' := a[..|a| - 1], b[..|b| - 1];
      forall r ensures r in a' <==> r in b' {
        LastIsGreatest(a, r);
        LastIsGreatest(b, r);
      }
      SameElementsSameOrder(a', b');
      assert a == a[..|a| - 1] + [x] && b == b[..|b| - 1] + [y];
    }
  }

  lemma SameId(rows: seq<Row>, x: Row, y: Row)
    requires Ordered(rows) && x in rows && y in rows && x.id == y.id
    ensures x == y
  {
  }

  /** Selecting after the k-th row's id gives what follows it. */
  lemma SelectContinues(table: Table, where: Row -> bool, after: Option<int>, k: nat)
    requires 1 <= k <= |Select(table, where, after)|
    ensures var rows := Select(table, where, after);
            Select(table, where, Some(rows[k - 1].id)) == rows[k..]
  {
    var rows := Select(table, where, after);
    var next := Select(table, where, Some(rows[k - 1].id));
    assert rows[k - 1] in rows;
    forall r ensures r in next <==> r in rows[k..] {
      if r in next {
        assert r in rows;
        var i :| 0 <= i < |rows| && rows[i] == r;
        assert i >= k;
        assert rows[k..][i - k] == r;
      }
      if r in rows[k..] {
        assert r in rows;
      }
    }
    SameElementsSameOrder(next, rows[k..]);
  }

  /** A page holds the next rows, `limit` at most, and has a cursor exactly when more follow. */
  lemma PageIsTheNextRows(table: Table, where: Row -> bool, decorate: seq<Row> -> seq<Row>, limit: nat, after: Option<int>)
    requires limit >= 1 && KeepsIds(decorate)
    ensures var page, rows := List(table, where, decorate, limit, after), Select(table, where, after);
            match page.nextCursor
            case None => |rows| <= limit && Ids(page.items) == Ids(rows)
            case Some(cursor) =>
              && |rows| > limit && Ids(page.items) == Ids(rows[..limit])
              && cursor == rows[limit - 1].id && Select(table, where, Some(cursor)) == rows[limit..]
  {
    var page, rows := List(table, where, decorate, limit, after), Select(table, where, after);
    TakeLess(rows, limit);
    assert Ids(page.items) == Ids(Take(rows, limit));
    if |rows| > limit {
      assert Ids(page.items)[limit - 1] == Ids(Take(rows, limit))[limit - 1];
      SelectContinues(table, where, after, limit);
    }
  }

  // ---------------------------------------------------------------- a table at rest

  /** Every page in turn, following the cursor until there is none. */
  function Follow(table: Table, where: Row -> bool, decorate: seq<Row> -> seq<Row>, limit: nat, after: Option<int>): seq<Row>
    requires limit >= 1 && KeepsIds(decorate)
    decreases |Select(table, where, after)|
  {
    var page := List(table, where, decorate, limit, after);
    PageIsTheNextRows(table, where, decorate, limit, after);
    page.items + if page.nextCursor.None? then [] else Follow(table, where, decorate, limit, page.nextCursor)
  }

  /** Following the cursor ends, and shows every matching row once, in id order. */
  lemma {:induction false} FollowingShowsEveryRowOnce(
    table: Table, where: Row -> bool, decorate: seq<Row> -> seq<Row>, limit: nat, after: Option<int>)
    requires limit >= 1 && KeepsIds(decorate)
    ensures Ids(Follow(table, where, decorate, limit, after)) == Ids(Select(table, where, after))
    decreases |Select(table, where, after)|
  {
    var page, rows := List(table, where, decorate, limit, after), Select(table, where, after);
    PageIsTheNextRows(table, where, decorate, limit, after);
    if page.nextCursor.Some? {
      FollowingShowsEveryRowOnce(table, where, decorate, limit, page.nextCursor);
      JoinIds(page.items, Follow(table, where, decorate, limit, page.nextCursor), rows, limit);
    } else {
      assert page.items + [] == page.items;
    }
  }

  lemma JoinIds(items: seq<Row>, rest: seq<Row>, rows: seq<Row>, limit: nat)
    requires limit <= |rows| && Ids(items) == Ids(rows[..limit]) && Ids(rest) == Ids(rows[limit..])
    ensures Ids(items + rest) == Ids(rows)
  {
    IdsAppend(items, rest);
    IdsAppend(rows[..limit], rows[limit..]);
    assert rows == rows[..limit] + rows[limit..];
  }

  lemma IdsAppend(a: seq<Row>, b: seq<Row>)
    ensures Ids(a + b) == Ids(a) + Ids(b)
  {
  }

  // ---------------------------------------------------------------- a table that changes

  datatype Session = Session(items: seq<Row>, finished: bool)

  /** The pages of a caller that follows the cursor while the table changes between calls. */
  function Visit(tables: seq<Table>, where: Row -> bool, decorate: seq<Row> -> seq<Row>, limit: nat, after: Option<int>): Session
    requires limit >= 1 && KeepsIds(decorate)
    decreases |tables|
  {
    if tables == [] then Session([], false)
    else
      var page := List(tables[0], where, decorate, limit, after);
      if page.nextCursor.None? then Session(page.items, true)
      else
        var rest := Visit(tables[1..], where, decorate, limit, page.nextCursor);
        Session(page.items + rest.items, rest.finished)
  }

  predicate Increasing(ids: seq<int>, after: Option<int>) {
    && (forall i, j :: 0 <= i < j < |ids| ==> ids[i] < ids[j])
    && (after.Some? ==> forall i :: 0 <= i < |ids| ==> ids[i] > after.value)
  }

  lemma IdsOfSelectedIncrease(table: Table, where: Row -> bool, after: Option<int>)
    ensures Increasing(Ids(Select(table, where, after)), after)
  {
    var rows := Select(table, where, after);
    forall i | 0 <= i < |rows| ensures After(rows[i], after) {
      assert rows[i] in rows;
    }
  }

  /** The ids of a page are some of the selected ones, from the first. */
  lemma PageIdsIncrease(table: Table, where: Row -> bool, decorate: seq<Row> -> seq<Row>, limit: nat, after: Option<int>)
    requires limit >= 1 && KeepsIds(decorate)
    ensures var page := List(table, where, decorate, limit, after);
            && Increasing(Ids(page.items), after)
            && (page.nextCursor.Some? ==> page.items != [] && Ids(page.items)[|page.items| - 1] == page.nextCursor.value)
  {
    var page, rows := List(table, where, decorate, limit, after), Select(table, where, after);
    PageIsTheNextRows(table, where, decorate, limit, after);
    IdsOfSelectedIncrease(table, where, after);
    forall i | 0 <= i < |page.items| ensures Ids(page.items)[i] == Ids(rows)[i] {
    }
  }

  lemma IncreasingAppend(a: seq<int>, b: seq<int>, after: Option<int>)
    requires a != [] && Increasing(a, after) && Increasing(b, Some(a[|a| - 1]))
    ensures Increasing(a + b, after)
  {
    assert forall i :: 0 <= i < |a| ==> a[i] <= a[|a| - 1];
  }

  /** Whatever is inserted, deleted or edited between pages, no row is shown twice. */
  lemma {:induction false} NoRowIsShownTwice(
    tables: seq<Table>, where: Row -> bool, decorate: seq<Row> -> seq<Row>, limit: nat, after: Option<int>)
    requires limit >= 1 && KeepsIds(decorate)
    ensures Increasing(Ids(Visit(tables, where, decorate, limit, after).items), after)
    decreases |tables|
  {
    if tables != [] {
      var page := List(tables[0], where, decorate, limit, after);
      PageIdsIncrease(tables[0], where, decorate, limit, after);
      if page.nextCursor.Some? {
        NoRowIsShownTwice(tables[1..], where, decorate, limit, page.nextCursor);
        var rest := Visit(tables[1..], where, decorate, limit, page.nextCursor).items;
        IncreasingAppend(Ids(page.items), Ids(rest), after);
        IdsAppend(page.items, rest);
      }
    }
  }

  /** A row with this id is in the table and matches. */
  predicate Matching(table: Table, where: Row -> bool, id: int) {
    exists i :: 0 <= i < |table| && table[i].id == id && where(table[i])
  }

  lemma SelectedIds(table: Table, where: Row -> bool, after: Option<int>, id: int)
    ensures id in Ids(Select(table, where, after)) <==> Matching(table, where, id) && (after.None? || id > after.value)
  {
    var rows := Select(table, where, after);
    if id in Ids(rows) {
      var i :| 0 <= i < |rows| && Ids(rows)[i] == id;
      assert rows[i] in rows && rows[i] in table;
    }
    if Matching(table, where, id) && (after.None? || id > after.value) {
      var i :| 0 <= i < |table| && table[i].id == id && where(table[i]);
      assert table[i] in rows;
      var j :| 0 <= j < |rows| && rows[j] == table[i];
      assert Ids(rows)[j] == id;
    }
  }

  /** A row there throughout, its data edited or not, is shown by the time the cursor ends. */
  lemma {:induction false} RowsThereThroughoutAreShown(
    tables: seq<Table>, where: Row -> bool, decorate: seq<Row> -> seq<Row>, limit: nat, after: Option<int>, id: int)
    requires limit >= 1 && KeepsIds(decorate) && (after.None? || id > after.value)
    requires forall i :: 0 <= i < |tables| ==> Matching(tables[i], where, id)
    requires Visit(tables, where, decorate, limit, after).finished
    ensures id in Ids(Visit(tables, where, decorate, limit, after).items)
    decreases |tables|
  {
    var table := tables[0];
    var page, rows := List(table, where, decorate, limit, after), Select(table, where, after);
    PageIsTheNextRows(table, where, decorate, limit, after);
    SelectedIds(table, where, after, id);
    if page.nextCursor.Some? {
      var rest := Visit(tables[1..], where, decorate, limit, page.nextCursor).items;
      IdsAppend(page.items, rest);
      if id > page.nextCursor.value {
        RowsThereThroughoutAreShown(tables[1..], where, decorate, limit, page.nextCursor, id);
      } else {
        ShownUpToTheCursor(rows, limit, id);
      }
    }
  }

  lemma ShownUpToTheCursor(rows: seq<Row>, limit: nat, id: int)
    requires Ordered(rows) && 1 <= limit < |rows| && id in Ids(rows) && id <= rows[limit - 1].id
    ensures id in Ids(rows[..limit])
  {
    var i :| 0 <= i < |rows| && Ids(rows)[i] == id;
    assert i < limit;
    assert Ids(rows[..limit])[i] == id;
  }

  /** And nothing is shown that did not match when its page was read. */
  lemma {:induction false} OnlyMatchingRowsAreShown(
    tables: seq<Table>, where: Row -> bool, decorate: seq<Row> -> seq<Row>, limit: nat, after: Option<int>, id: int)
    requires limit >= 1 && KeepsIds(decorate)
    requires id in Ids(Visit(tables, where, decorate, limit, after).items)
    ensures exists i :: 0 <= i < |tables| && Matching(tables[i], where, id)
    decreases |tables|
  {
    var table := tables[0];
    var page, rows := List(table, where, decorate, limit, after), Select(table, where, after);
    PageIsTheNextRows(table, where, decorate, limit, after);
    SelectedIds(table, where, after, id);
    if id in Ids(page.items) {
      var i :| 0 <= i < |page.items| && Ids(page.items)[i] == id;
      assert Ids(rows)[i] == id;
    } else {
      var rest := Visit(tables[1..], where, decorate, limit, page.nextCursor).items;
      IdsAppend(page.items, rest);
      OnlyMatchingRowsAreShown(tables[1..], where, decorate, limit, page.nextCursor, id);
      var i :| 0 <= i < |tables[1..]| && Matching(tables[1..][i], where, id);
      assert Matching(tables[i + 1], where, id);
    }
  }
}
