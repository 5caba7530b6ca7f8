/**
 Keyset pagination: the lists of alert rules, of current and past incidents, and of a post's comments. Each query
 carries a cursor, the place of the last row that was handed out, and asks for one row more than it shows.
 */
module Keyset {
  import opened Options

  datatype Kind = Rules | Current | Past | Comments

  /** A row of one of the tables, deleted rules left out. The owner is an incident's rule or a comment's post. */
  datatype Row = Row(id: nat, status: string, source: string, severity: string, owner: nat, at: int)

  datatype Query = Query(kind: Kind, status: string, source: string, severity: string, owner: nat,
                         start: int, end: int, limit: nat, before: nat, time: int, rank: nat)

  function Rank(row: Row): nat { if row.severity == "critical" then 1 else 0 }

  /** The filters of the query. An empty text and a zero owner do not filter; a comment always has a post. */
  predicate Where(q: Query, row: Row) {
    match q.kind
    case Rules => (q.status != "" ==> row.status == q.status) && (q.source != "" ==> row.source == q.source)
    case Comments => row.owner == q.owner
    case _ =>
      && (if q.kind == Current then row.status == "firing" else q.start <= row.at <= q.end)
      && (q.status != "" ==> row.status == q.status)
      && (q.severity != "" ==> row.severity == q.severity)
      && (q.source != "" ==> row.source == q.source)
      && (q.owner > 0 ==> row.owner == q.owner)
  }

  /** The condition that the cursor adds to the query. */
  predicate Beyond(q: Query, row: Row) {
    match q.kind
    case Rules => row.id < q.before
    case Comments => row.id < q.before
    case Past => row.at < q.time || (row.at == q.time && row.id < q.before)
    case Current =>
      Rank(row) < q.rank || (Rank(row) == q.rank && (row.at > q.time || (row.at == q.time && row.id > q.before)))
  }

  predicate Matches(q: Query, row: Row) { Where(q, row) && (q.before > 0 ==> Beyond(q, row)) }

  /** The order of the list. */
  predicate First(kind: Kind, a: Row, b: Row) {
    match kind
    case Rules => a.id > b.id
    case Comments => a.id > b.id
    case Past => a.at > b.at || (a.at == b.at && a.id > b.id)
    case Current => Rank(a) > Rank(b) || (Rank(a) == Rank(b) && (a.at < b.at || (a.at == b.at && a.id < b.id)))
  }

  // The database.

  function Filter(table: seq<Row>, q: Query): (rows: seq<Row>)
    ensures forall row :: row in rows <==> row in table && Matches(q, row)
  {
    if table == [] then []
    else
      var front, row := Filter(table[..|table| - 1], q), table[|table| - 1];
      assert table == table[..|table| - 1] + [row];
      if Matches(q, row) then front + [row] else front
  }

  function Put(kind: Kind, rows: seq<Row>, row: Row): (out: seq<Row>)
    ensures forall r :: r in out <==> r in rows || r == row
  {
    if rows == [] || First(kind, row, rows[0]) then [row] + rows
    else [rows[0]] + Put(kind, rows[1..], row)
  }

  function Sort(kind: Kind, rows: seq<Row>): (out: seq<Row>)
    ensures forall r :: r in out <==> r in rows
  {
    if rows == [] then [] else Put(kind, Sort(kind, rows[1..]), rows[0])
  }

  function Select(table: seq<Row>, q: Query): seq<Row> {
    var rows := Sort(q.kind, Filter(table, q));
    if |rows| <= q.limit + 1 then rows else rows[..q.limit + 1]
  }

  // The service.

  function Advance(q: Query, last: Row): Query {
    match q.kind
    case Rules => q.(before := last.id)
    case Comments => q.(before := last.id)
    case _ => q.(before := last.id, time := last.at, rank := Rank(last))
  }

  datatype Page = Page(rows: seq<Row>, next: Option<Query>)

  function PageOf(table: seq<Row>, q: Query): Page
    requires q.limit >= 1
  {
    var rows := Select(table, q);
    if |rows| <= q.limit then Page(rows, None) else Page(rows[..q.limit], Some(Advance(q, rows[q.limit - 1])))
  }

  // The order.

  /** The rows of a table have keys of their own, from one up. */
  ghost predicate Keyed(table: seq<Row>) {
    && (forall i, j :: 0 <= i < j < |table| ==> table[i].id != table[j].id)
    && (forall i :: 0 <= i < |table| ==> table[i].id > 0)
  }

  ghost predicate InOrder(kind: Kind, rows: seq<Row>) {
    forall i, j :: 0 <= i < j < |rows| ==> First(kind, rows[i], rows[j])
  }

  lemma {:induction false} FilterKeyed(table: seq<Row>, q: Query)
    requires Keyed(table)
    ensures Keyed(Filter(table, q))
  {
    if table != [] {
      var n := |table| - 1;
      FilterKeyed(table[..n], q);
      forall r | r in Filter(table[..n], q) ensures r.id != table[n].id {
        var i :| 0 <= i < n && table[i] == r;
      }
    }
  }

  lemma {:induction false} PutInOrder(kind: Kind, rows: seq<Row>, row: Row)
    requires InOrder(kind, rows) && forall r :: r in rows ==> r.id != row.id
    ensures InOrder(kind, Put(kind, rows, row))
  {
    if rows != [] && !First(kind, row, rows[0]) {
      PutInOrder(kind, rows[1..], row);
      var rest := Put(kind, rows[1..], row);
      forall j | 0 <= j < |rest| ensures First(kind, rows[0], rest[j]) {
        assert rest[j] in rest;
        if rest[j] != row {
          var k :| 0 <= k < |rows[1..]| && rows[1..][k] == rest[j];
          assert First(kind, rows[0], rows[k + 1]);
        }
      }
    } else {
      forall j | 0 <= j < |rows| ensures First(kind, row, rows[j]) {
        assert j > 0 ==> First(kind, rows[0], rows[j]);
      }
    }
  }

  lemma {:induction false} SortInOrder(kind: Kind, rows: seq<Row>)
    requires Keyed(rows)
    ensures InOrder(kind, Sort(kind, rows))
  {
    if rows != [] {
      SortInOrder(kind, rows[1..]);
      forall r | r in Sort(kind, rows[1..]) ensures r.id != rows[0].id {
        var k :| 0 <= k < |rows[1..]| && rows[1..][k] == r;
        assert rows[k + 1] == r;
      }
      PutInOrder(kind, Sort(kind, rows[1..]), rows[0]);
    }
  }

  /** There is only one way to list the same rows in order. */
  lemma {:induction false} OneOrder(kind: Kind, a: seq<Row>, b: seq<Row>)
    requires InOrder(kind, a) && InOrder(kind, b) && forall r :: r in a <==> r in b
    ensures a == b
  {
    Inhabited(a);
    Inhabited(b);
    if a != [] && b != [] {
      assert a[0] in b;
      assert b[0] in a;
      var i :| 0 <= i < |b| && b[i] == a[0];
      var j :| 0 <= j < |a| && a[j] == b[0];
      assert i > 0 ==> First(kind, b[0], a[0]);
      assert j > 0 ==> First(kind, a[0], b[0]);
      RestSame(kind, a, b);
      OneOrder(kind, a[1..], b[1..]);
    }
  }

  lemma Inhabited(a: seq<Row>)
    ensures a != [] ==> exists r :: r in a
  {
    if a != [] {
      assert a[0] in a;
    }
  }

  lemma RestSame(kind: Kind, a: seq<Row>, b: seq<Row>)
    requires InOrder(kind, a) && InOrder(kind, b) && forall r :: r in a <==> r in b
    requires a != [] && b != [] && a[0] == b[0]
    ensures forall r :: r in a[1..] <==> r in b[1..]
  {
    forall r | r in a[1..] ensures r in b[1..] {
      OnlyOnce(kind, a, r);
      assert r in b;
    }
    forall r | r in b[1..] ensures r in a[1..] {
      OnlyOnce(kind, b, r);
      assert r in a;
    }
  }

  lemma OnlyOnce(kind: Kind, a: seq<Row>, r: Row)
    requires InOrder(kind, a) && a != [] && r in a[1..]
    ensures r in a && r != a[0]
  {
    var k :| 0 <= k < |a[1..]| && a[1..][k] == r;
    assert a[k + 1] == r && First(kind, a[0], a[k + 1]);
  }

  // Following the cursors.

  /** The rows that the query has still to hand out, in order. */
  function Remaining(table: seq<Row>, q: Query): seq<Row> { Sort(q.kind, Filter(table, q)) }

  /** The cursor's condition is the order: after advancing past a row, what comes beyond it is what it precedes. */
  lemma CursorIsOrder(q: Query, last: Row, row: Row)
    ensures Beyond(Advance(q, last), row) <==> First(q.kind, last, row)
    ensures Where(Advance(q, last), row) <==> Where(q, row)
  {}

  lemma BeyondIsFurther(q: Query, last: Row, row: Row)
    requires Beyond(q, last) && First(q.kind, last, row)
    ensures Beyond(q, row)
  {}

  lemma AdvanceDropsPage(table: seq<Row>, q: Query)
    requires Keyed(table) && 1 <= q.limit < |Remaining(table, q)|
    ensures var rows := Remaining(table, q);
            Remaining(table, Advance(q, rows[q.limit - 1])) == rows[q.limit..]
  {
    var rows := Remaining(table, q);
    var last := rows[q.limit - 1];
    var q' := Advance(q, last);
    FilterKeyed(table, q);
    FilterKeyed(table, q');
    SortInOrder(q.kind, Filter(table, q));
    SortInOrder(q'.kind, Filter(table, q'));
    hide Sort, Where, Beyond, First, Filter, Keyed;
    assert last in rows;
    forall row ensures row in rows[q.limit..] <==> row in Remaining(table, q') {
      CursorIsOrder(q, last, row);
      LaterIsFurther(q, rows, row);
      MatchesFurther(table, q, last, row);
    }
    OneOrder(q.kind, rows[q.limit..], Remaining(table, q'));
  }

  /** In a list in order, the rows from a position on are those that the row before it precedes. */
  lemma LaterIsFurther(q: Query, rows: seq<Row>, row: Row)
    requires InOrder(q.kind, rows) && 1 <= q.limit < |rows|
    ensures row in rows[q.limit..] <==> row in rows && First(q.kind, rows[q.limit - 1], row)
  {
    if row in rows[q.limit..] {
      var k :| 0 <= k < |rows[q.limit..]| && rows[q.limit..][k] == row;
      assert rows[q.limit + k] == row;
    }
    forall k | 0 <= k < q.limit ensures !First(q.kind, rows[q.limit - 1], rows[k]) {
      if k < q.limit - 1 {
        assert First(q.kind, rows[k], rows[q.limit - 1]);
      }
    }
    if row in rows && First(q.kind, rows[q.limit - 1], row) {
      var k :| 0 <= k < |rows| && rows[k] == row;
      assert rows[q.limit..][k - q.limit] == row;
    }
  }

  lemma MatchesFurther(table: seq<Row>, q: Query, last: Row, row: Row)
    requires last in table && Matches(q, last) && last.id > 0
    ensures Matches(Advance(q, last), row) <==> Matches(q, row) && First(q.kind, last, row)
  {
    CursorIsOrder(q, last, row);
    if q.before > 0 && First(q.kind, last, row) {
      BeyondIsFurther(q, last, row);
    }
  }

  function Pages(table: seq<Row>, q: Query): (pages: seq<seq<Row>>)
    requires q.limit >= 1 && Keyed(table)
    decreases |Remaining(table, q)|
  {
    var page := PageOf(table, q);
    if page.next.None? then [page.rows]
    else
      AdvanceDropsPage(table, q);
      [page.rows] + Pages(table, page.next.value)
  }

  lemma PageHandsOut(table: seq<Row>, q: Query)
    requires q.limit >= 1 && Keyed(table)
    ensures var page := PageOf(table, q);
            && page.rows + (if page.next.Some? then Remaining(table, page.next.value) else []) == Remaining(table, q)
            && |page.rows| <= q.limit && (page.next.Some? ==> |page.rows| == q.limit)
  {
    hide Sort, Filter, Keyed, Advance;
    var rows := Remaining(table, q);
    if |rows| > q.limit {
      AdvanceDropsPage(table, q);
      assert rows[..q.limit + 1][..q.limit] == rows[..q.limit];
    }
  }

  /**
   The handler reads one row too many to learn whether there is more: what it hands out and what the next query has
   still to hand out are together what this one had.
   */
  method List(table: seq<Row>, q: Query) returns (rows: seq<Row>, next: Option<Query>)
    requires q.limit >= 1
    ensures Page(rows, next) == PageOf(table, q)
    ensures Keyed(table) ==>
              && rows + (if next.Some? then Remaining(table, next.value) else []) == Remaining(table, q)
              && |rows| <= q.limit && (next.Some? ==> |rows| == q.limit)
  {
    hide Select, Remaining, Keyed;
    if Keyed(table) {
      PageHandsOut(table, q);
    }
    rows := Select(table, q);
    next := None;
    if |rows| > q.limit {
      rows := rows[..q.limit];
      var last := rows[|rows| - 1];
      var q' := q.(before := last.id);
      if q.kind == Past || q.kind == Current {
        q' := q'.(time := last.at, rank := 0);
        if last.severity == "critical" {
          q' := q'.(rank := 1);
        }
      }
      next := Some(q');
    }
  }

  function Concat(pages: seq<seq<Row>>): seq<Row> {
    if pages == [] then [] else pages[0] + Concat(pages[1..])
  }

  /** The number of pages is the number of rows divided by the limit, rounded up, and one if there are no rows. */
  predicate PageCount(n: nat, limit: nat, pages: nat) {
    if n == 0 then pages == 1 else (pages - 1) * limit < n <= pages * limit
  }

  lemma OnePageMore(n: nat, limit: nat, pages: nat)
    requires 1 <= limit < n && PageCount(n - limit, limit, pages)
    ensures PageCount(n, limit, pages + 1)
  {
    assert (pages + 1) * limit == pages * limit + limit && pages * limit == (pages - 1) * limit + limit;
  }

  lemma OnePage(n: nat, limit: nat)
    requires 1 <= limit && n <= limit
    ensures PageCount(n, limit, 1)
  {}

  lemma FollowsNext(table: seq<Row>, q: Query)
    requires q.limit >= 1 && Keyed(table)
    ensures var rows := Remaining(table, q);
            if |rows| <= q.limit then Pages(table, q) == [rows]
            else
              var next := Advance(q, rows[q.limit - 1]);
              && next.limit == q.limit
              && Remaining(table, next) == rows[q.limit..]
              && Pages(table, q) == [rows[..q.limit]] + Pages(table, next)
  {
    hide Sort, Filter, Keyed;
    var rows := Remaining(table, q);
    if |rows| > q.limit {
      AdvanceDropsPage(table, q);
      assert rows[..q.limit + 1][..q.limit] == rows[..q.limit];
    }
  }

  /**
   Following the cursors from any query hands out exactly the rows that match it, in the order of the list, none
   twice and none missing, in as few pages as the limit allows; only the last page may be short.
   */
  lemma {:induction false} PagesComplete(table: seq<Row>, q: Query)
    requires q.limit >= 1 && Keyed(table)
    ensures var pages, rows := Pages(table, q), Remaining(table, q);
            && Concat(pages) == rows
            && PageCount(|rows|, q.limit, |pages|)
            && (forall i :: 0 <= i < |pages| - 1 ==> |pages[i]| == q.limit)
    decreases |Remaining(table, q)|
  {
    hide Keyed, Remaining, Pages, Advance, PageCount;
    FollowsNext(table, q);
    var pages, rows := Pages(table, q), Remaining(table, q);
    if |rows| <= q.limit {
      assert pages[1..] == [];
      OnePage(|rows|, q.limit);
    } else {
      var next := Advance(q, rows[q.limit - 1]);
      PagesComplete(table, next);
      assert pages[1..] == Pages(table, next);
      OnePageMore(|rows|, q.limit, |Pages(table, next)|);
    }
  }

  /** From the first query on, the rows handed out are the filtered table, each row once, in order. */
  lemma FirstQueryListsAll(table: seq<Row>, q: Query)
    requires q.limit >= 1 && Keyed(table) && q.before == 0
    ensures var out := Concat(Pages(table, q));
            InOrder(q.kind, out) && forall row :: row in out <==> row in table && Where(q, row)
  {
    PagesComplete(table, q);
    FilterKeyed(table, q);
    SortInOrder(q.kind, Filter(table, q));
  }

  // What the lists show, in their own words.

  /** A filter that is not given lets everything pass. */
  predicate Passes(filter: string, field: string) { filter == "" || field == filter }

  /** The rows a list is about. */
  predicate Listed(q: Query, row: Row) {
    match q.kind
    case Rules => Passes(q.status, row.status) && Passes(q.source, row.source)
    case Comments => row.owner == q.owner
    case Current => row.status == "firing" && IncidentPasses(q, row)
    case Past => !(row.at < q.start) && !(q.end < row.at) && IncidentPasses(q, row)
  }

  predicate IncidentPasses(q: Query, row: Row) {
    && Passes(q.status, row.status) && Passes(q.severity, row.severity) && Passes(q.source, row.source)
    && (q.owner == 0 || row.owner == q.owner)
  }

  /** What comes before what: critical before warning and oldest first, or newest first; and never two ways at once. */
  predicate Precedes(kind: Kind, a: Row, b: Row) {
    match kind
    case Current =>
      if (a.severity == "critical") != (b.severity == "critical") then a.severity == "critical"
      else if a.at != b.at then a.at < b.at
      else a.id < b.id
    case Past => if a.at != b.at then b.at < a.at else b.id < a.id
    case _ => b.id < a.id
  }

  /**
   From the first query on, a list hands out exactly the rows it is about, each once: firing incidents with the
   critical ones first and the oldest of them first, past incidents of the window, rules and comments with the newest
   first.
   */
  lemma ListsShowAll(table: seq<Row>, q: Query)
    requires q.limit >= 1 && Keyed(table) && q.before == 0
    ensures var out := Concat(Pages(table, q));
            && (forall row :: row in out <==> row in table && Listed(q, row))
            && (forall i, j :: 0 <= i < j < |out| ==> Precedes(q.kind, out[i], out[j]))
  {
    hide Pages, Concat, Keyed;
    FirstQueryListsAll(table, q);
    forall row ensures Listed(q, row) <==> Where(q, row) {}
    forall a, b ensures Precedes(q.kind, a, b) <==> First(q.kind, a, b) {}
  }

  /** The database is asked for one row more than the page shows, and never for more than that. */
  lemma OneRowMore(table: seq<Row>, q: Query)
    ensures Select(table, q) <= Remaining(table, q) && |Select(table, q)| <= q.limit + 1
    ensures Select(table, q) < Remaining(table, q) ==> |Select(table, q)| == q.limit + 1
  {
    hide Sort, Filter;
  }
}
