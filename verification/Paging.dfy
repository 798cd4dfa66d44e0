/**
 Keyset pagination of layawatch/store/queries.py (trace list, log list) and the export loop of
 layawatch/api/logs.py. A table is the list of its rows in any physical order; ids are unique.
 */
module Paging {
  import opened Options

  /** Trace ids are text, log ids integers; SQLite sorts numbers before text. */
  datatype Id = Number(n: int) | Text(s: string)

  datatype Row = Row(duration: real, ts: real, id: Id)

  datatype Order = Newest | Slowest

  /** What the opaque cursor decodes to: its order mode and the last row's keys. */
  datatype Cursor =
    | NewestCursor(ts: real, id: Id)
    | SlowestCursor(duration: real, ts: real, id: Id)

  datatype Page = Page(items: seq<Row>, next: Option<Cursor>, total: nat)

  datatype Result = Ok(page: Page) | InvalidFilter

  const MAX_LIMIT := 200
  const EXPORT_LIMIT := 10000

  // ---- sort orders --------------------------------------------------------------------------

  predicate TextLess(a: string, b: string) {
    if b == "" then false
    else if a == "" then true
    else if a[0] != b[0] then a[0] < b[0]
    else TextLess(a[1..], b[1..])
  }

  predicate IdLess(a: Id, b: Id) {
    match (a, b)
    case (Number(x), Number(y)) => x < y
    case (Number(_), Text(_)) => true
    case (Text(_), Number(_)) => false
    case (Text(x), Text(y)) => TextLess(x, y)
  }

  /** ORDER BY, key by key. */
  predicate Before(o: Order, a: Row, b: Row) {
    match o
    case Newest => if a.ts != b.ts then a.ts > b.ts else IdLess(b.id, a.id)
    case Slowest =>
      if a.duration != b.duration then a.duration > b.duration
      else if a.ts != b.ts then a.ts > b.ts
      else IdLess(a.id, b.id)
  }

  function CursorOf(o: Order, r: Row): Cursor {
    match o
    case Newest => NewestCursor(r.ts, r.id)
    case Slowest => SlowestCursor(r.duration, r.ts, r.id)
  }

  function OrderOf(c: Cursor): Order { if c.NewestCursor? then Newest else Slowest }

  /** The keyset clause, as the SQL spells it. */
  predicate After(c: Cursor, r: Row) {
    match c
    case NewestCursor(ts, id) => r.ts < ts || (r.ts == ts && IdLess(r.id, id))
    case SlowestCursor(duration, ts, id) =>
      || r.duration < duration
      || (r.duration == duration && r.ts < ts)
      || (r.duration == duration && r.ts == ts && IdLess(id, r.id))
  }

  lemma TextLessTransitive(a: string, b: string, c: string)
    requires TextLess(a, b) && TextLess(b, c)
    ensures TextLess(a, c)
  {
  }

  lemma TextLessTotal(a: string, b: string)
    ensures a == b || TextLess(a, b) || TextLess(b, a)
    ensures !(TextLess(a, b) && TextLess(b, a))
  {
    if a != "" && b != "" && a[0] == b[0] {
      TextLessTotal(a[1..], b[1..]);
      assert a == [a[0]] + a[1..] && b == [b[0]] + b[1..];
    }
  }

  lemma BeforeTransitive(o: Order, a: Row, b: Row, c: Row)
    requires Before(o, a, b) && Before(o, b, c)
    ensures Before(o, a, c)
  {
    forall x: string, y: string, z: string | TextLess(x, y) && TextLess(y, z)
      ensures TextLess(x, z)
    {
      TextLessTransitive(x, y, z);
    }
  }

  lemma BeforeTotal(o: Order, a: Row, b: Row)
    ensures a.id == b.id || Before(o, a, b) || Before(o, b, a)
    ensures !(Before(o, a, b) && Before(o, b, a))
  {
    if a.id.Text? && b.id.Text? {
      TextLessTotal(a.id.s, b.id.s);
    }
  }

  /** The keyset clause and the sort agree, so a cursor cuts the sorted list in two. */
  lemma CursorCutsTheOrder(o: Order, last: Row, r: Row)
    ensures After(CursorOf(o, last), r) <==> Before(o, last, r)
  {
  }

  // ---- the query ----------------------------------------------------------------------------

  function Filter(table: seq<Row>, p: Row -> bool): seq<Row> {
    if table == [] then []
    else
      var front, r := Filter(table[..|table| - 1], p), table[|table| - 1];
      if p(r) then front + [r] else front
  }

  function Insert(o: Order, r: Row, sorted: seq<Row>): seq<Row> {
    if sorted == [] then [r]
    else if Before(o, r, sorted[0]) then [r] + sorted
    else [sorted[0]] + Insert(o, r, sorted[1..])
  }

  function Sort(o: Order, rows: seq<Row>): seq<Row> {
    if rows == [] then [] else Insert(o, rows[0], Sort(o, rows[1..]))
  }

  function Take(rows: seq<Row>, n: nat): seq<Row> { if |rows| <= n then rows else rows[..n] }

  /** Still to come, at the caller's cursor. */
  predicate Ahead(cursor: Option<Cursor>, r: Row) { cursor.None? || After(cursor.value, r) }

  function Wanted(p: Row -> bool, cursor: Option<Cursor>): Row -> bool {
    r => p(r) && Ahead(cursor, r)
  }

  /** The query asks for a row too many to learn whether there is more. */
  function Cut(o: Order, ordered: seq<Row>, limit: nat, total: nat): Page
    requires 1 <= limit
  {
    var rows := Take(ordered, limit + 1);
    var items := Take(rows, limit);
    Page(items, if |rows| > limit then Some(CursorOf(o, items[|items| - 1])) else None, total)
  }

  /** One page of one snapshot; the total ignores the cursor. */
  function Fetch(o: Order, table: seq<Row>, p: Row -> bool, cursor: Option<Cursor>, limit: nat): Page
    requires 1 <= limit
  {
    Cut(o, Sort(o, Filter(table, Wanted(p, cursor))), limit, |Filter(table, p)|)
  }

  /** `list_traces`: a cursor brings its order with it and refuses another one. */
  function ListTraces(table: seq<Row>, p: Row -> bool, order: Option<Order>,
                      cursor: Option<Cursor>, limit: nat): Result
    requires 1 <= limit
  {
    if cursor.None? then Ok(Fetch(if order.Some? then order.value else Newest, table, p, None, limit))
    else if order.Some? && order.value != OrderOf(cursor.value) then InvalidFilter
    else Ok(Fetch(OrderOf(cursor.value), table, p, cursor, limit))
  }

  // ---- sorting lemmas -----------------------------------------------------------------------

  predicate Sorted(o: Order, rows: seq<Row>) {
    forall i, j | 0 <= i < j < |rows| :: Before(o, rows[i], rows[j])
  }

  predicate UniqueIds(table: seq<Row>) {
    forall i, j | 0 <= i < j < |table| :: table[i].id != table[j].id
  }

  lemma {:induction false} FilterMembers(table: seq<Row>, p: Row -> bool)
    ensures forall r :: r in Filter(table, p) <==> r in table && p(r)
  {
    if table != [] {
      var front, last := table[..|table| - 1], table[|table| - 1];
      FilterMembers(front, p);
      assert table == front + [last];
    }
  }

  lemma {:induction false} FilterUnique(table: seq<Row>, p: Row -> bool)
    requires UniqueIds(table)
    ensures UniqueIds(Filter(table, p))
  {
    if table != [] {
      var front, last := table[..|table| - 1], table[|table| - 1];
      FilterUnique(front, p);
      FilterMembers(front, p);
      forall i | 0 <= i < |Filter(front, p)| ensures Filter(front, p)[i].id != last.id {
        assert Filter(front, p)[i] in front;
      }
    }
  }

  lemma {:induction false} InsertMembers(o: Order, r: Row, sorted: seq<Row>)
    ensures forall x :: x in Insert(o, r, sorted) <==> x == r || x in sorted
    ensures |Insert(o, r, sorted)| == |sorted| + 1
  {
    if sorted != [] {
      InsertMembers(o, r, sorted[1..]);
      assert sorted == [sorted[0]] + sorted[1..];
    }
  }

  lemma {:induction false} SortMembers(o: Order, rows: seq<Row>)
    ensures forall x :: x in Sort(o, rows) <==> x in rows
    ensures |Sort(o, rows)| == |rows|
  {
    if rows != [] {
      SortMembers(o, rows[1..]);
      InsertMembers(o, rows[0], Sort(o, rows[1..]));
      assert rows == [rows[0]] + rows[1..];
    }
  }

  lemma ConsSorted(o: Order, r: Row, rest: seq<Row>)
    requires Sorted(o, rest) && forall x | x in rest :: Before(o, r, x)
    ensures Sorted(o, [r] + rest)
  {
  }

  lemma {:induction false} InsertSorted(o: Order, r: Row, sorted: seq<Row>)
    requires Sorted(o, sorted) && forall x | x in sorted :: x.id != r.id
    ensures Sorted(o, Insert(o, r, sorted))
  {
    if sorted != [] {
      var head, rest := sorted[0], sorted[1..];
      BeforeTotal(o, r, head);
      if Before(o, r, head) {
        forall x | x in sorted ensures Before(o, r, x) {
          if x != head {
            BeforeTransitive(o, r, head, x);
          }
        }
        ConsSorted(o, r, sorted);
      } else {
        InsertSorted(o, r, rest);
        InsertMembers(o, r, rest);
        ConsSorted(o, head, Insert(o, r, rest));
      }
    }
  }

  lemma {:induction false} SortSorts(o: Order, rows: seq<Row>)
    requires UniqueIds(rows)
    ensures Sorted(o, Sort(o, rows))
  {
    if rows != [] {
      SortSorts(o, rows[1..]);
      SortMembers(o, rows[1..]);
      InsertSorted(o, rows[0], Sort(o, rows[1..]));
    }
  }

  lemma FirstIsLeast(o: Order, a: seq<Row>, b: seq<Row>)
    requires a != [] && b != [] && Sorted(o, a) && Sorted(o, b) && forall r :: r in a <==> r in b
    ensures a[0] == b[0]
  {
    assert b[0] in a && a[0] in b;
    var i :| 0 <= i < |a| && a[i] == b[0];
    var j :| 0 <= j < |b| && b[j] == a[0];
    BeforeTotal(o, a[0], b[0]);
  }

  lemma SortedDistinct(o: Order, a: seq<Row>)
    requires Sorted(o, a) && a != []
    ensures a[0] !in a[1..]
  {
    BeforeTotal(o, a[0], a[0]);
  }

  lemma HasMember(a: seq<Row>)
    ensures a == [] || a[0] in a
  {
  }

  /** There is one sorted list of a set of rows. */
  lemma {:induction false} SortedIsUnique(o: Order, a: seq<Row>, b: seq<Row>)
    requires Sorted(o, a) && Sorted(o, b) && forall r :: r in a <==> r in b
    ensures a == b
  {
    HasMember(a);
    HasMember(b);
    if a != [] && b != [] {
      FirstIsLeast(o, a, b);
      SortedDistinct(o, a);
      SortedDistinct(o, b);
      assert a == [a[0]] + a[1..] && b == [b[0]] + b[1..];
      assert forall r :: r in a[1..] <==> r in a && r != a[0];
      assert forall r :: r in b[1..] <==> r in b && r != a[0];
      SortedIsUnique(o, a[1..], b[1..]);
    }
  }

  // ---- one page -----------------------------------------------------------------------------

  /** The filtered rows, in order: what the pages have to add up to. */
  function Listing(o: Order, table: seq<Row>, p: Row -> bool): seq<Row> { Sort(o, Filter(table, p)) }

  lemma ListingIs(o: Order, table: seq<Row>, p: Row -> bool)
    requires UniqueIds(table)
    ensures Sorted(o, Listing(o, table, p))
    ensures forall r :: r in Listing(o, table, p) <==> r in table && p(r)
    ensures |Listing(o, table, p)| == |Filter(table, p)|
  {
    FilterUnique(table, p);
    FilterMembers(table, p);
    SortSorts(o, Filter(table, p));
    SortMembers(o, Filter(table, p));
  }

  /** The rows a cursor lets through are the listing behind the row it was made from. */
  lemma ListingAfter(o: Order, table: seq<Row>, p: Row -> bool, k: nat)
    requires UniqueIds(table) && 0 < k <= |Listing(o, table, p)|
    ensures var l := Listing(o, table, p);
            Listing(o, table, Wanted(p, Some(CursorOf(o, l[k - 1])))) == l[k..]
  {
    var l := Listing(o, table, p);
    var q := Wanted(p, Some(CursorOf(o, l[k - 1])));
    ListingIs(o, table, p);
    ListingIs(o, table, q);
    forall r ensures r in Listing(o, table, q) <==> r in l[k..] {
      CursorCutsTheOrder(o, l[k - 1], r);
      TailIsAfter(o, l, k, r);
    }
    SortedIsUnique(o, Listing(o, table, q), l[k..]);
  }

  lemma TailIsAfter(o: Order, l: seq<Row>, k: nat, r: Row)
    requires Sorted(o, l) && 0 < k <= |l|
    ensures r in l[k..] <==> r in l && Before(o, l[k - 1], r)
  {
    if r in l {
      var i :| 0 <= i < |l| && l[i] == r;
      BeforeTotal(o, l[k - 1], r);
      assert i >= k ==> l[k..][i - k] == r;
    }
  }

  function Min(x: nat, y: nat): nat { if x < y then x else y }

  /** The cursor a caller holds after `k` rows of a listing. */
  function CursorAt(o: Order, l: seq<Row>, k: nat): Option<Cursor>
    requires k <= |l|
  {
    if k == 0 then None else Some(CursorOf(o, l[k - 1]))
  }

  function PageAt(o: Order, l: seq<Row>, k: nat, limit: nat): Page
    requires k <= |l|
  {
    var to := Min(k + limit, |l|);
    Page(l[k..to], if to < |l| then CursorAt(o, l, to) else None, |l|)
  }

  /** A page asked for behind position `k` is the slice of the listing that starts there. */
  lemma PageIsSlice(o: Order, table: seq<Row>, p: Row -> bool, k: nat, limit: nat)
    requires UniqueIds(table) && 1 <= limit && k <= |Listing(o, table, p)|
    ensures Fetch(o, table, p, CursorAt(o, Listing(o, table, p), k), limit)
         == PageAt(o, Listing(o, table, p), k, limit)
  {
    var l := Listing(o, table, p);
    ListingIs(o, table, p);
    if k > 0 {
      ListingAfter(o, table, p, k);
    } else {
      ListingIs(o, table, Wanted(p, None));
      SortedIsUnique(o, Listing(o, table, Wanted(p, None)), l);
    }
    CutIsSlice(o, l, k, limit);
  }

  lemma CutIsSlice(o: Order, l: seq<Row>, k: nat, limit: nat)
    requires k <= |l| && 1 <= limit
    ensures Cut(o, l[k..], limit, |l|) == PageAt(o, l, k, limit)
  {
  }

  // ---- the first page, column by column -----------------------------------------------------

  /** Up to position `k` the texts agree; there the first ends, or has the smaller character. */
  predicate ParsAt(a: string, b: string, k: nat) {
    k <= |a| && k < |b| && a[..k] == b[..k] && (k == |a| || a[k] < b[k])
  }

  lemma ParsBehind(a: string, b: string, k: nat)
    requires a != "" && b != "" && a[0] == b[0]
    ensures ParsAt(a, b, k + 1) <==> ParsAt(a[1..], b[1..], k)
  {
    if k < |a| && k < |b| {
      assert a[..k + 1] == [a[0]] + a[1..][..k] && b[..k + 1] == [b[0]] + b[1..][..k];
    }
  }

  lemma SharedStart(a: string, b: string, k: nat)
    requires 0 < k <= |a| && k <= |b| && a[..k] == b[..k]
    ensures a != "" && b != "" && a[0] == b[0]
  {
    assert a[..k][0] == b[..k][0];
  }

  lemma ParsFirst(a: string, b: string, k: nat)
    requires a == "" || b == "" || a[0] != b[0]
    ensures ParsAt(a, b, k) <==> k == 0 && b != "" && (a == "" || a[0] < b[0])
  {
    if ParsAt(a, b, k) && k > 0 {
      SharedStart(a, b, k);
    }
  }

  lemma ParsAtOnce(a: string, b: string)
    requires a == "" || b == "" || a[0] != b[0]
    ensures TextLess(a, b) <==> exists k: nat :: ParsAt(a, b, k)
  {
    forall k: nat ensures ParsAt(a, b, k) <==> k == 0 && TextLess(a, b) {
      ParsFirst(a, b, k);
    }
    assert ParsAt(a, b, 0) <==> TextLess(a, b);
  }

  lemma ParsLater(a: string, b: string)
    requires a != "" && b != "" && a[0] == b[0]
    ensures (exists k: nat :: ParsAt(a, b, k)) <==> (exists k: nat :: ParsAt(a[1..], b[1..], k))
  {
    if k: nat :| ParsAt(a, b, k) {
      assert k > 0;
      ParsBehind(a, b, k - 1);
      assert ParsAt(a[1..], b[1..], k - 1);
    }
    if k: nat :| ParsAt(a[1..], b[1..], k) {
      ParsBehind(a, b, k);
      assert ParsAt(a, b, k + 1);
    }
  }

  /** Text ids compare character by character, a prefix before what it begins. */
  lemma {:induction false} TextLessIs(a: string, b: string)
    ensures TextLess(a, b) <==> exists k: nat :: ParsAt(a, b, k)
  {
    if a == "" || b == "" || a[0] != b[0] {
      ParsAtOnce(a, b);
    } else {
      TextLessIs(a[1..], b[1..]);
      ParsLater(a, b);
    }
  }

  /** Later first; at the same moment the greater id first. */
  predicate Newer(a: Row, b: Row) { a.ts > b.ts || (a.ts == b.ts && IdLess(b.id, a.id)) }

  /** Longer first, then later, then the smaller id. */
  predicate Slower(a: Row, b: Row) {
    || a.duration > b.duration
    || (a.duration == b.duration && (a.ts > b.ts || (a.ts == b.ts && IdLess(a.id, b.id))))
  }

  /** The first `limit` of the matching rows in the order `before`. */
  ghost predicate IsFirstPage(table: seq<Row>, p: Row -> bool, limit: nat, items: seq<Row>,
                              before: (Row, Row) -> bool) {
    && |items| == Min(limit, |Filter(table, p)|)
    && (forall i | 0 <= i < |items| :: items[i] in table && p(items[i]))
    && (forall i, j | 0 <= i < j < |items| :: before(items[i], items[j]))
    && (forall i, r | 0 <= i < |items| && r in table && p(r) && r !in items :: before(items[i], r))
  }

  lemma BehindTheFirst(o: Order, l: seq<Row>, n: nat, i: nat, r: Row)
    requires Sorted(o, l) && i < n <= |l| && r in l && r !in l[..n]
    ensures Before(o, l[i], r)
  {
    var j :| 0 <= j < |l| && l[j] == r;
    assert forall m | 0 <= m < n :: l[m] in l[..n];
  }

  lemma FirstItems(o: Order, table: seq<Row>, p: Row -> bool, limit: nat)
    requires UniqueIds(table) && 1 <= limit
    ensures var items := Fetch(o, table, p, None, limit).items;
            && |items| == Min(limit, |Filter(table, p)|)
            && (forall i | 0 <= i < |items| :: items[i] in table && p(items[i]))
            && (forall i, j | 0 <= i < j < |items| :: Before(o, items[i], items[j]))
            && (forall i, r | 0 <= i < |items| && r in table && p(r) && r !in items :: Before(o, items[i], r))
  {
    var l, items := Listing(o, table, p), Fetch(o, table, p, None, limit).items;
    ListingIs(o, table, p);
    PageIsSlice(o, table, p, 0, limit);
    assert items == l[..Min(limit, |l|)];
    assert forall i | 0 <= i < |items| :: items[i] == l[i] && l[i] in l;
    forall i, r | 0 <= i < |items| && r in table && p(r) && r !in items ensures Before(o, items[i], r) {
      assert r in l;
      BehindTheFirst(o, l, |items|, i, r);
    }
  }

  /** Without a cursor, and without an order or asked for the newest: the newest rows. */
  lemma FirstPageIsNewest(table: seq<Row>, p: Row -> bool, order: Option<Order>, limit: nat)
    requires UniqueIds(table) && 1 <= limit && (order == None || order == Some(Newest))
    ensures var r := ListTraces(table, p, order, None, limit);
            r.Ok? && IsFirstPage(table, p, limit, r.page.items, (a, b) => Newer(a, b))
  {
    FirstItems(Newest, table, p, limit);
  }

  lemma FirstPageIsSlowest(table: seq<Row>, p: Row -> bool, limit: nat)
    requires UniqueIds(table) && 1 <= limit
    ensures var r := ListTraces(table, p, Some(Slowest), None, limit);
            r.Ok? && IsFirstPage(table, p, limit, r.page.items, (a, b) => Slower(a, b))
  {
    FirstItems(Slowest, table, p, limit);
  }

  /** The order a caller gets that follows the cursors it is sent. */
  function Asked(order: Option<Order>): Order { if order == Some(Slowest) then Slowest else Newest }

  lemma NextRequest(table: seq<Row>, p: Row -> bool, order: Option<Order>, cursor: Option<Cursor>, limit: nat)
    requires 1 <= limit && (cursor.Some? ==> OrderOf(cursor.value) == Asked(order))
    ensures ListTraces(table, p, order, cursor, limit)
         == Ok(Fetch(Asked(order), table, p, cursor, limit))
  {
  }

  /** Following next_cursor through the trace list, the order parameter sent along or not. */
  method FollowTraces(table: seq<Row>, p: Row -> bool, order: Option<Order>, limit: nat)
      returns (items: seq<Row>)
    requires UniqueIds(table) && 1 <= limit
    ensures items == Listing(Asked(order), table, p)
  {
    ghost var l := Listing(Asked(order), table, p);
    items := [];
    var cursor: Option<Cursor> := None;
    var more := true;
    while more
      invariant |items| <= |l| && items == l[..|items|]
      invariant more ==> cursor == CursorAt(Asked(order), l, |items|)
      invariant !more ==> items == l
      decreases |l| - |items|, more
    {
      NextRequest(table, p, order, cursor, limit);
      PageIsSlice(Asked(order), table, p, |items|, limit);
      PageAdvances(Asked(order), l, |items|, limit);
      var page := ListTraces(table, p, order, cursor, limit).page;
      items := items + page.items;
      cursor := page.next;
      more := cursor.Some?;
    }
  }

  /** A next_cursor sent back alone, or with the same order, continues in that order. */
  lemma CursorCarriesItsOrder(table: seq<Row>, p: Row -> bool, order: Option<Order>,
                              cursor: Option<Cursor>, limit: nat, later: seq<Row>)
    requires 1 <= limit
    requires var r := ListTraces(table, p, order, cursor, limit); r.Ok? && r.page.next.Some?
    ensures var next := ListTraces(table, p, order, cursor, limit).page.next;
            var o := OrderOf(next.value);
            && (order.Some? ==> o == order.value) && (cursor.Some? ==> o == OrderOf(cursor.value))
            && ListTraces(later, p, None, next, limit) == Ok(Fetch(o, later, p, next, limit))
            && (forall other :: ListTraces(later, p, Some(other), next, limit) == InvalidFilter
                                <==> other != o)
  {
  }

  // ---- pages of one table -------------------------------------------------------------------

  /** Following next_cursor to the end, on a table that stays as it is. */
  method FollowPages(o: Order, table: seq<Row>, p: Row -> bool, limit: nat) returns (items: seq<Row>)
    requires UniqueIds(table) && 1 <= limit
    ensures items == Listing(o, table, p)
  {
    ghost var l := Listing(o, table, p);
    items := [];
    var cursor: Option<Cursor> := None;
    var more := true;
    while more
      invariant |items| <= |l| && items == l[..|items|]
      invariant more ==> cursor == CursorAt(o, l, |items|)
      invariant !more ==> items == l
      decreases |l| - |items|, more
    {
      PageIsSlice(o, table, p, |items|, limit);
      PageAdvances(o, l, |items|, limit);
      var page := Fetch(o, table, p, cursor, limit);
      items := items + page.items;
      cursor := page.next;
      more := cursor.Some?;
    }
  }

  /** A page moves the caller on along the listing, to its end iff there is no next cursor. */
  lemma PageAdvances(o: Order, l: seq<Row>, k: nat, limit: nat)
    requires k <= |l| && 1 <= limit
    ensures var page := PageAt(o, l, k, limit);
            var to := k + |page.items|;
            && to <= |l| && l[..k] + page.items == l[..to]
            && (page.next.None? ==> to == |l|)
            && (page.next.Some? ==> to > k && page.next == CursorAt(o, l, to))
  {
  }

  /** The export loop: pages of MAX_LIMIT until the cap, then cut at the cap. */
  method Export(table: seq<Row>, p: Row -> bool) returns (lines: seq<Row>)
    requires UniqueIds(table)
    ensures var l := Listing(Newest, table, p); lines == l[..Min(|l|, 10000)]
  {
    ghost var l := Listing(Newest, table, p);
    var items: seq<Row> := [];
    var cursor: Option<Cursor> := None;
    while |items| < EXPORT_LIMIT
      invariant |items| <= |l| && items == l[..|items|]
      invariant cursor == CursorAt(Newest, l, |items|)
      decreases EXPORT_LIMIT - |items|
    {
      PageIsSlice(Newest, table, p, |items|, MAX_LIMIT);
      PageAdvances(Newest, l, |items|, MAX_LIMIT);
      var page := Fetch(Newest, table, p, cursor, MAX_LIMIT);
      items := items + page.items;
      cursor := page.next;
      if cursor.None? {
        assert items == l;
        break;
      }
    }
    lines := Take(items, EXPORT_LIMIT);
  }

  // ---- pages of a table that changes between requests ---------------------------------------

  /** A caller's state: `more` while next_cursor was not null. */
  datatype Walk = Walk(items: seq<Row>, cursor: Option<Cursor>, more: bool)

  /** One request per snapshot, each answered from the table as it is then. */
  function Walked(o: Order, tables: seq<seq<Row>>, p: Row -> bool, limit: nat): Walk
    requires 1 <= limit
  {
    if tables == [] then Walk([], None, true)
    else
      var w := Walked(o, tables[..|tables| - 1], p, limit);
      if !w.more then w
      else
        var page := Fetch(o, tables[|tables| - 1], p, w.cursor, limit);
        Walk(w.items + page.items, page.next, page.next.Some?)
  }

  /** Rows are never updated: an id always stands for the same row. */
  ghost predicate Consistent(tables: seq<seq<Row>>) {
    && (forall i | 0 <= i < |tables| :: UniqueIds(tables[i]))
    && forall i, j, r, x | 0 <= i < |tables| && 0 <= j < |tables| && r in tables[i] && x in tables[j]
         && r.id == x.id :: r == x
  }

  ghost predicate Everywhere(tables: seq<seq<Row>>, r: Row) {
    forall i | 0 <= i < |tables| :: r in tables[i]
  }

  ghost predicate Somewhere(tables: seq<seq<Row>>, r: Row) {
    exists i :: 0 <= i < |tables| && r in tables[i]
  }

  ghost predicate CursorOk(o: Order, items: seq<Row>, cursor: Option<Cursor>) {
    cursor.Some? ==> items != [] && cursor.value == CursorOf(o, items[|items| - 1])
  }

  ghost predicate NothingMissed(tables: seq<seq<Row>>, p: Row -> bool, w: Walk) {
    forall r | p(r) && Everywhere(tables, r) :: r in w.items || (w.more && Ahead(w.cursor, r))
  }

  ghost predicate WalkInv(o: Order, tables: seq<seq<Row>>, p: Row -> bool, w: Walk) {
    && Sorted(o, w.items)
    && (w.more ==> CursorOk(o, w.items, w.cursor) && (w.cursor.None? ==> w.items == []))
    && (forall r | r in w.items :: p(r) && Somewhere(tables, r))
    && NothingMissed(tables, p, w)
  }

  /** What one answer promises about its own snapshot. */
  ghost predicate PageOk(o: Order, table: seq<Row>, p: Row -> bool, cursor: Option<Cursor>, page: Page) {
    && Sorted(o, page.items)
    && CursorOk(o, page.items, page.next)
    && (forall r | r in page.items :: r in table && p(r) && Ahead(cursor, r))
    && (forall r | r in table && p(r) && Ahead(cursor, r) ::
          r in page.items || (page.next.Some? && After(page.next.value, r)))
  }

  /** A page of a sorted list, for any rows it was the list of. */
  lemma CutIsOk(o: Order, l: seq<Row>, limit: nat, total: nat)
    requires Sorted(o, l) && 1 <= limit
    ensures var page := Cut(o, l, limit, total);
            && Sorted(o, page.items) && CursorOk(o, page.items, page.next)
            && (forall r | r in page.items :: r in l)
            && (forall r | r in l :: r in page.items || (page.next.Some? && After(page.next.value, r)))
  {
    var page := Cut(o, l, limit, total);
    assert page.items == l[..Min(limit, |l|)];
    forall r | r in l ensures r in page.items || (page.next.Some? && After(page.next.value, r)) {
      var i :| 0 <= i < |l| && l[i] == r;
      if i < limit {
        assert page.items[i] == r;
      } else {
        CursorCutsTheOrder(o, l[limit - 1], r);
      }
    }
  }

  lemma FetchIsOk(o: Order, table: seq<Row>, p: Row -> bool, cursor: Option<Cursor>, limit: nat)
    requires UniqueIds(table) && 1 <= limit
    ensures PageOk(o, table, p, cursor, Fetch(o, table, p, cursor, limit))
  {
    ListingIs(o, table, Wanted(p, cursor));
    CutIsOk(o, Listing(o, table, Wanted(p, cursor)), limit, |Filter(table, p)|);
  }

  lemma PageContinues(o: Order, items: seq<Row>, cursor: Option<Cursor>, more: seq<Row>)
    requires Sorted(o, items) && Sorted(o, more) && CursorOk(o, items, cursor)
    requires cursor.None? ==> items == []
    requires forall r | r in more :: Ahead(cursor, r)
    ensures Sorted(o, items + more)
  {
    forall i, j | 0 <= i < j < |items + more| ensures Before(o, (items + more)[i], (items + more)[j]) {
      if i < |items| <= j {
        var last, r := items[|items| - 1], more[j - |items|];
        assert r in more;
        CursorCutsTheOrder(o, last, r);
        if i < |items| - 1 {
          BeforeTransitive(o, items[i], last, r);
        }
      }
    }
  }

  lemma EverywhereSnoc(front: seq<seq<Row>>, table: seq<Row>, r: Row)
    ensures Everywhere(front + [table], r) <==> Everywhere(front, r) && r in table
    ensures Somewhere(front + [table], r) <==> Somewhere(front, r) || r in table
  {
    var tables := front + [table];
    assert tables[|front|] == table && forall i | 0 <= i < |front| :: tables[i] == front[i];
  }

  /** One more request: what is ahead of the new cursor, or listed, covers what was ahead before. */
  lemma StepKeepsWalk(o: Order, front: seq<seq<Row>>, table: seq<Row>, p: Row -> bool, w: Walk,
                      page: Page)
    requires w.more && WalkInv(o, front, p, w) && PageOk(o, table, p, w.cursor, page)
    ensures WalkInv(o, front + [table], p, Walk(w.items + page.items, page.next, page.next.Some?))
  {
    var u := Walk(w.items + page.items, page.next, page.next.Some?);
    PageContinues(o, w.items, w.cursor, page.items);
    forall r | r in u.items ensures p(r) && Somewhere(front + [table], r) {
      EverywhereSnoc(front, table, r);
    }
    forall r | p(r) && Everywhere(front + [table], r)
      ensures r in u.items || (u.more && Ahead(u.cursor, r))
    {
      EverywhereSnoc(front, table, r);
    }
  }

  lemma {:induction false} WalkInvAlways(o: Order, tables: seq<seq<Row>>, p: Row -> bool, limit: nat)
    requires (forall i | 0 <= i < |tables| :: UniqueIds(tables[i])) && 1 <= limit
    ensures WalkInv(o, tables, p, Walked(o, tables, p, limit))
  {
    if tables != [] {
      var front, table := tables[..|tables| - 1], tables[|tables| - 1];
      var w := Walked(o, front, p, limit);
      WalkInvAlways(o, front, p, limit);
      assert tables == front + [table];
      if w.more {
        FetchIsOk(o, table, p, w.cursor, limit);
        StepKeepsWalk(o, front, table, p, w, Fetch(o, table, p, w.cursor, limit));
      } else {
        forall r ensures (Somewhere(front, r) ==> Somewhere(tables, r))
                      && (Everywhere(tables, r) ==> Everywhere(front, r)) {
          EverywhereSnoc(front, table, r);
        }
      }
    }
  }

  /**
   With inserts and deletes between the requests: what has been listed is in sort order and has
   no id twice; once next_cursor was null, every matching row that was there throughout is listed.
   */
  lemma NoRowTwiceNoneLost(o: Order, tables: seq<seq<Row>>, p: Row -> bool, limit: nat)
    requires Consistent(tables) && 1 <= limit
    ensures var w := Walked(o, tables, p, limit);
            && Sorted(o, w.items) && UniqueIds(w.items)
            && (forall r | r in w.items :: p(r) && Somewhere(tables, r))
            && (!w.more ==> forall r | p(r) && Everywhere(tables, r) :: r in w.items)
  {
    var w := Walked(o, tables, p, limit);
    WalkInvAlways(o, tables, p, limit);
    forall i, j | 0 <= i < j < |w.items| ensures w.items[i].id != w.items[j].id {
      assert w.items[i] in w.items && w.items[j] in w.items;
      BeforeTotal(o, w.items[i], w.items[j]);
    }
  }
}
