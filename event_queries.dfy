/** The read-only event queries: the public list (sort column, direction, page window and
    pagination metadata) and the creator's own events. A query reads the events table as
    a scan of rows in no particular order. */
module EventQueries {
  import opened Wrappers
  import opened ApiUtils
  import opened Schema
  import Validation

  /** An event row with the number of its attendee rows (`count(attendees.id)`). */
  datatype EventRow = EventRow(event: Event, attendeeCount: nat)

  datatype Column = ByDate | ByCreated | ByTitle
  datatype Direction = Asc | Desc

  /** 'title' and 'created' pick their columns; everything else sorts by date. */
  function ColumnOf(sort: string): (c: Column)
    ensures c == ByTitle <==> sort == "title"
    ensures c == ByCreated <==> sort == "created"
  {
    if sort == "title" then ByTitle else if sort == "created" then ByCreated else ByDate
  }

  /** Only 'desc' sorts descending. */
  function DirectionOf(order: string): (d: Direction)
    ensures d == Desc <==> order == "desc"
  {
    if order == "desc" then Desc else Asc
  }

  // ------------------------------------------------------------ ordering

  /** Text ordering: character by character, a proper prefix first. */
  predicate StrLe(a: string, b: string)
    decreases |a|
  {
    a == [] || (b != [] && (a[0] < b[0] || (a[0] == b[0] && StrLe(a[1..], b[1..]))))
  }

  lemma {:induction false} StrLeTotal(a: string, b: string)
    ensures StrLe(a, b) || StrLe(b, a)
    decreases |a|
  {
    if a != [] && b != [] && a[0] == b[0] {
      StrLeTotal(a[1..], b[1..]);
    }
  }

  lemma {:induction false} StrLeTrans(a: string, b: string, c: string)
    requires StrLe(a, b) && StrLe(b, c)
    ensures StrLe(a, c)
    decreases |a|
  {
    if a != [] && a[0] == b[0] && b[0] == c[0] {
      StrLeTrans(a[1..], b[1..], c[1..]);
    }
  }

  predicate KeyLe(a: EventRow, b: EventRow, col: Column) {
    match col
    case ByDate => a.event.date <= b.event.date
    case ByCreated => a.event.createdAt <= b.event.createdAt
    case ByTitle => StrLe(a.event.title, b.event.title)
  }

  /** `a` may come before `b` under the chosen column and direction. */
  predicate Before(a: EventRow, b: EventRow, col: Column, dir: Direction) {
    if dir == Asc then KeyLe(a, b, col) else KeyLe(b, a, col)
  }

  lemma BeforeTotal(a: EventRow, b: EventRow, col: Column, dir: Direction)
    ensures Before(a, b, col, dir) || Before(b, a, col, dir)
  {
    if col == ByTitle { StrLeTotal(a.event.title, b.event.title); }
  }

  lemma BeforeTrans(a: EventRow, b: EventRow, c: EventRow, col: Column, dir: Direction)
    requires Before(a, b, col, dir) && Before(b, c, col, dir)
    ensures Before(a, c, col, dir)
  {
    if col == ByTitle {
      if dir == Asc { StrLeTrans(a.event.title, b.event.title, c.event.title); }
      else { StrLeTrans(c.event.title, b.event.title, a.event.title); }
    }
  }

  predicate SortedBy(s: seq<EventRow>, col: Column, dir: Direction) {
    forall i, j :: 0 <= i < j < |s| ==> Before(s[i], s[j], col, dir)
  }

  function Insert(x: EventRow, s: seq<EventRow>, col: Column, dir: Direction): (r: seq<EventRow>)
    requires SortedBy(s, col, dir)
    ensures SortedBy(r, col, dir)
    ensures multiset(r) == multiset(s) + multiset{x}
    ensures |r| == |s| + 1
  {
    if s == [] then [x]
    else if Before(x, s[0], col, dir) then
      InsertInFront(x, s, col, dir);
      [x] + s
    else
      BeforeTotal(x, s[0], col, dir);
      var t := Insert(x, s[1..], col, dir);
      InsertBehind(x, s, t, col, dir);
      [s[0]] + t
  }

  lemma InsertInFront(x: EventRow, s: seq<EventRow>, col: Column, dir: Direction)
    requires SortedBy(s, col, dir) && s != [] && Before(x, s[0], col, dir)
    ensures SortedBy([x] + s, col, dir)
  {
    forall j | 0 < j < |s| ensures Before(x, s[j], col, dir) {
      BeforeTrans(x, s[0], s[j], col, dir);
    }
  }

  lemma InsertBehind(x: EventRow, s: seq<EventRow>, t: seq<EventRow>, col: Column, dir: Direction)
    requires SortedBy(s, col, dir) && s != [] && Before(s[0], x, col, dir)
    requires SortedBy(t, col, dir) && multiset(t) == multiset(s[1..]) + multiset{x}
    ensures SortedBy([s[0]] + t, col, dir)
    ensures multiset([s[0]] + t) == multiset(s) + multiset{x}
  {
    assert s == [s[0]] + s[1..];
    forall j | 0 <= j < |t| ensures Before(s[0], t[j], col, dir) {
      assert t[j] in multiset(t);
      if t[j] != x {
        assert t[j] in multiset(s[1..]);
        var k :| 0 <= k < |s[1..]| && s[1..][k] == t[j];
        assert s[k + 1] == t[j];
      }
    }
  }

  /** The rows in `ORDER BY column direction`; ties stay in scan order. */
  function Sort(s: seq<EventRow>, col: Column, dir: Direction): (r: seq<EventRow>)
    ensures SortedBy(r, col, dir)
    ensures multiset(r) == multiset(s)
    ensures |r| == |s|
  {
    if s == [] then []
    else
      assert s == [s[0]] + s[1..];
      Insert(s[0], Sort(s[1..], col, dir), col, dir)
  }

  // ------------------------------------------------------------ windows

  /** `LIMIT limit OFFSET offset` as SQLite reads them: a negative offset counts as zero
      and a negative limit as no limit. */
  function Window(rows: seq<EventRow>, offset: int, limit: int): (w: seq<EventRow>)
    ensures 0 <= offset <= |rows| && 0 <= limit ==> w == rows[offset..Min(offset + limit, |rows|)]
    ensures offset < 0 && 0 <= limit ==> w == rows[..Min(limit, |rows|)]
    ensures 0 <= offset <= |rows| && limit < 0 ==> w == rows[offset..]
    ensures offset < 0 && limit < 0 ==> w == rows
    ensures |rows| <= offset ==> w == []
    ensures 0 <= limit ==> |w| <= limit
  {
    var start := if offset < 0 then 0 else if offset > |rows| then |rows| else offset;
    var end := if limit < 0 || start + limit > |rows| then |rows| else start + limit;
    rows[start..end]
  }

  function Min(a: int, b: int): int { if a <= b then a else b }

  /** `scan` reads the events table `t`: every stored event exactly once, each with the
      number of its attendee rows. */
  predicate ScanOf(t: Tables, scan: seq<EventRow>) {
    |scan| == |t.events|
    && (forall i :: 0 <= i < |scan| ==>
          scan[i].event.id in t.events && t.events[scan[i].event.id] == scan[i].event
          && scan[i].attendeeCount == Count(t.attendees, scan[i].event.id))
    && (forall i, j :: 0 <= i < j < |scan| ==> scan[i].event.id != scan[j].event.id)
    && (forall k :: k in t.events ==> exists i :: 0 <= i < |scan| && scan[i].event.id == k)
  }

  /** A row drawn from a scan of `t` is a stored event with its attendee count. */
  predicate RowOf(t: Tables, x: EventRow) {
    x.event.id in t.events && t.events[x.event.id] == x.event
    && x.attendeeCount == Count(t.attendees, x.event.id)
  }

  datatype ListResult = ListResult(events: seq<EventRow>, pagination: PaginationMeta)

  /** The list handler after schema checks: sort the scan of the events table, cut out
      the page window, and describe the pagination of all events. `pageNum` and
      `limitNum` are the integers the page and limit strings parse to. */
  function Listing(t: Tables, scan: seq<EventRow>, q: Validation.EventQuery, pageNum: int, limitNum: int)
    : (r: ListResult)
    requires ScanOf(t, scan)
    ensures r.pagination == Meta(|t.events|, pageNum, limitNum)
    ensures multiset(r.events) <= multiset(scan)
    ensures forall x :: x in r.events ==> RowOf(t, x)
    ensures SortedBy(r.events, ColumnOf(q.sort), DirectionOf(q.order))
    ensures limitNum >= 0 ==> |r.events| <= limitNum
  {
    var sorted := Sort(scan, ColumnOf(q.sort), DirectionOf(q.order));
    var w := Paginate(pageNum, limitNum);
    var page := Window(sorted, w.offset, w.limit);
    WindowOfSorted(sorted, w.offset, w.limit, ColumnOf(q.sort), DirectionOf(q.order));
    DrawnFromScan(t, scan, page);
    ListResult(page, Meta(|scan|, pageNum, limitNum))
  }

  /** Every row of a sub-multiset of a scan of `t` is a stored event with its count. */
  lemma DrawnFromScan(t: Tables, scan: seq<EventRow>, rows: seq<EventRow>)
    requires ScanOf(t, scan) && multiset(rows) <= multiset(scan)
    ensures forall x :: x in rows ==> RowOf(t, x)
  {
    forall x | x in rows ensures RowOf(t, x) {
      assert x in multiset(rows);
      assert x in multiset(scan);
      var i :| 0 <= i < |scan| && scan[i] == x;
    }
  }

  lemma WindowOfSorted(s: seq<EventRow>, offset: int, limit: int, col: Column, dir: Direction)
    requires SortedBy(s, col, dir)
    ensures SortedBy(Window(s, offset, limit), col, dir)
    ensures multiset(Window(s, offset, limit)) <= multiset(s)
  {
    var start := if offset < 0 then 0 else if offset > |s| then |s| else offset;
    var end := if limit < 0 || start + limit > |s| then |s| else start + limit;
    assert Window(s, offset, limit) == s[start..end];
    SliceOfSorted(s, start, end, col, dir);
  }

  lemma SliceOfSorted(s: seq<EventRow>, i: int, j: int, col: Column, dir: Direction)
    requires 0 <= i <= j <= |s| && SortedBy(s, col, dir)
    ensures SortedBy(s[i..j], col, dir)
    ensures multiset(s[i..j]) <= multiset(s)
  {
    assert s == s[..i] + s[i..j] + s[j..];
    assert multiset(s) == multiset(s[..i]) + multiset(s[i..j]) + multiset(s[j..]);
  }

  /** `GET /api/events`: a rejected query is a 400 with the schema's report. */
  function ListEvents(t: Tables, scan: seq<EventRow>, raw: Validation.RawQuery, pageNum: int, limitNum: int)
    : (r: Reply<ListResult>)
    requires ScanOf(t, scan)
    ensures Validation.ParseQuery(raw).None? ==> r.status == 400 && r.body.SchemaRejected?
    ensures Validation.ParseQuery(raw).Some? ==>
              r == Done(200, Listing(t, scan, Validation.ParseQuery(raw).value, pageNum, limitNum), "")
  {
    match Validation.ParseQuery(raw)
    case None => Reply(400, SchemaRejected(["query"]))
    case Some(q) => Done(200, Listing(t, scan, q, pageNum, limitNum), "")
  }

  lemma WindowAt(rows: seq<EventRow>, offset: int, limit: int, m: int)
    requires 0 <= offset && 0 <= m < limit && offset + m < |rows|
    ensures m < |Window(rows, offset, limit)| && Window(rows, offset, limit)[m] == rows[offset + m]
  {
  }

  lemma PageStart(i: nat, limit: int)
    requires limit > 0
    ensures Paginate(i / limit + 1, limit).offset + i % limit == i
    ensures 0 <= Paginate(i / limit + 1, limit).offset && 0 <= i % limit < limit
  {
    assert Paginate(i / limit + 1, limit).offset == (i / limit) * limit;
    assert (i / limit) * limit + i % limit == i;
  }

  /** With a positive limit, row `i` of the sorted events is row `i % limit` of page
      `i / limit + 1`: the pages tile the list with no gap and no overlap. */
  lemma EveryRowOnItsPage(t: Tables, scan: seq<EventRow>, q: Validation.EventQuery, limit: int, i: nat)
    requires ScanOf(t, scan) && limit > 0 && i < |scan|
    ensures var sorted := Sort(scan, ColumnOf(q.sort), DirectionOf(q.order));
            var page := Listing(t, scan, q, i / limit + 1, limit).events;
            i % limit < |page| && page[i % limit] == sorted[i]
  {
    var sorted := Sort(scan, ColumnOf(q.sort), DirectionOf(q.order));
    RowOnPage(sorted, limit, i);
    ListingPage(t, scan, q, i / limit + 1, limit);
  }

  /** Row `i` of any row sequence is row `i % limit` of the window of page `i / limit + 1`. */
  lemma RowOnPage(rows: seq<EventRow>, limit: int, i: nat)
    requires limit > 0 && i < |rows|
    ensures var w := Paginate(i / limit + 1, limit);
            i % limit < |Window(rows, w.offset, w.limit)| && Window(rows, w.offset, w.limit)[i % limit] == rows[i]
  {
    var w := Paginate(i / limit + 1, limit);
    PageStart(i, limit);
    WindowAt(rows, w.offset, w.limit, i % limit);
  }

  /** The page of a listing is the window of the sorted scan. */
  lemma ListingPage(t: Tables, scan: seq<EventRow>, q: Validation.EventQuery, pageNum: int, limitNum: int)
    requires ScanOf(t, scan)
    ensures Listing(t, scan, q, pageNum, limitNum).events
            == Window(Sort(scan, ColumnOf(q.sort), DirectionOf(q.order)),
                      Paginate(pageNum, limitNum).offset, Paginate(pageNum, limitNum).limit)
  {
  }

  // ---------------------------------------------------------- created

  function OwnedBy(rows: seq<EventRow>, userId: string): (r: seq<EventRow>)
    ensures forall x :: x in r <==> x in rows && x.event.createdBy == userId
    ensures multiset(r) <= multiset(rows)
  {
    if rows == [] then []
    else
      assert rows == [rows[0]] + rows[1..];
      (if rows[0].event.createdBy == userId then [rows[0]] else []) + OwnedBy(rows[1..], userId)
  }

  /** `GET /api/events/user/created` after authentication: exactly the caller's stored
      events, newest first. */
  function CreatedBy(t: Tables, scan: seq<EventRow>, userId: string): (r: seq<EventRow>)
    requires ScanOf(t, scan)
    ensures forall x :: x in r <==> x in scan && x.event.createdBy == userId
    ensures multiset(r) <= multiset(scan)
    ensures forall x :: x in r ==> RowOf(t, x) && x.event.createdBy == userId
    ensures forall k :: k in t.events && t.events[k].createdBy == userId ==>
              exists j :: 0 <= j < |r| && r[j].event.id == k
    ensures SortedBy(r, ByCreated, Desc)
  {
    var owned := OwnedBy(scan, userId);
    var r := Sort(owned, ByCreated, Desc);
    SameElements(r, owned);
    DrawnFromScan(t, scan, r);
    OwnedAllListed(t, scan, r, userId);
    r
  }

  lemma SameElements(a: seq<EventRow>, b: seq<EventRow>)
    requires multiset(a) == multiset(b)
    ensures forall x :: x in a <==> x in b
  {
    assert forall x :: x in a <==> x in multiset(a);
    assert forall x :: x in b <==> x in multiset(b);
  }

  /** Every stored event of the user has a row among the selected ones. */
  lemma OwnedAllListed(t: Tables, scan: seq<EventRow>, r: seq<EventRow>, userId: string)
    requires ScanOf(t, scan)
    requires forall x :: x in r <==> x in scan && x.event.createdBy == userId
    ensures forall k :: k in t.events && t.events[k].createdBy == userId ==>
              exists j :: 0 <= j < |r| && r[j].event.id == k
  {
    forall k | k in t.events && t.events[k].createdBy == userId
      ensures exists j :: 0 <= j < |r| && r[j].event.id == k
    {
      var i :| 0 <= i < |scan| && scan[i].event.id == k;
      assert scan[i] in r;
      var j :| 0 <= j < |r| && r[j] == scan[i];
    }
  }
}
