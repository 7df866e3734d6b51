/** The audit log: keyset pagination while rows come and go, and the retention purge. */
module AuditPages {
  import opened Sizes
  import opened Wrappers

  type Id = nat

  datatype Row = Row(id: Id, createdAt: int, action: nat, actor: nat, entity: nat)

  datatype Filter = Filter(
    action: Option<nat>,
    actor: Option<nat>,
    entity: Option<nat>,
    since: Option<int>,
    until: Option<int>)

  const PAGE_SIZE: nat := 100
  const PURGE_BATCH_SIZE: nat := 1000

  predicate Matches(f: Filter, r: Row) {
    && (f.action.Some? ==> r.action == f.action.value)
    && (f.actor.Some? ==> r.actor == f.actor.value)
    && (f.entity.Some? ==> r.entity == f.entity.value)
    && (f.since.Some? ==> r.createdAt >= f.since.value)
    && (f.until.Some? ==> r.createdAt <= f.until.value)
  }

  /** The order of a listing: by (created_at, id), ascending or descending. */
  predicate Before(a: Row, b: Row, asc: bool) {
    if asc then a.createdAt < b.createdAt || (a.createdAt == b.createdAt && a.id < b.id)
    else a.createdAt > b.createdAt || (a.createdAt == b.createdAt && a.id > b.id)
  }

  predicate After(after: Option<Row>, r: Row, asc: bool) {
    after.Some? ==> Before(after.value, r, asc)
  }

  predicate Wanted(f: Filter, after: Option<Row>, r: Row, asc: bool) {
    Matches(f, r) && After(after, r, asc)
  }

  predicate DistinctIds(rows: seq<Row>) {
    forall i, j :: 0 <= i < j < |rows| ==> rows[i].id != rows[j].id
  }

  predicate Ordered(rows: seq<Row>, asc: bool) {
    forall i, j :: 0 <= i < j < |rows| ==> Before(rows[i], rows[j], asc)
  }

  function Insert(rows: seq<Row>, r: Row, asc: bool): seq<Row> {
    if rows == [] || Before(r, rows[0], asc) then [r] + rows else [rows[0]] + Insert(rows[1..], r, asc)
  }

  /** WHERE and ORDER BY: the wanted rows, in order. */
  function Select(rows: seq<Row>, f: Filter, after: Option<Row>, asc: bool): seq<Row> {
    if rows == [] then []
    else
      var rest := Select(rows[1..], f, after, asc);
      if Wanted(f, after, rows[0], asc) then Insert(rest, rows[0], asc) else rest
  }

  function Take(rows: seq<Row>, n: nat): seq<Row> {
    if |rows| <= n then rows else rows[..n]
  }

  function Find(rows: seq<Row>, id: Id): Option<Row> {
    if rows == [] then None else if rows[0].id == id then Some(rows[0]) else Find(rows[1..], id)
  }

  datatype Page = Page(rows: seq<Row>, hasMore: bool)

  /** The page after a row. One more row than it holds is fetched, to know whether there
      are more. */
  function PageAfter(rows: seq<Row>, f: Filter, after: Option<Row>, asc: bool): Page {
    var fetched := Take(Select(rows, f, after, asc), PAGE_SIZE + 1);
    Page(Take(fetched, PAGE_SIZE), |fetched| > PAGE_SIZE)
  }

  /** A request makes two statements: it looks its cursor up, and lists. These are the
      tables they find; without a cursor there is no lookup. */
  datatype Request = Request(looked: seq<Row>, listed: seq<Row>)

  function PageOf(q: Request, f: Filter, last: Option<Id>, asc: bool): Page {
    if !Known(q.looked, last) then Page([], false)
    else PageAfter(q.listed, f, CursorRow(q.looked, last), asc)
  }

  predicate Known(rows: seq<Row>, last: Option<Id>) {
    last.Some? ==> Find(rows, last.value).Some?
  }

  function CursorRow(rows: seq<Row>, last: Option<Id>): Option<Row> {
    if last.None? then None else Find(rows, last.value)
  }

  datatype Error = InvalidInput

  class AuditLog {
    var rows: seq<Row>
    /** The trigger that forbids updates and deletes. */
    var appendOnly: bool

    constructor ()
      ensures rows == [] && appendOnly
    {
      rows, appendOnly := [], true;
    }

    method InsertAuditLog(r: Row)
      requires DistinctIds(rows + [r])
      modifies this`rows
      ensures rows == old(rows) + [r]
    {
      rows := rows + [r];
    }

    /** `meanwhile` is the table as other requests leave it between the lookup of the cursor
        and the listing. */
    method ListAuditLogs(f: Filter, last: Option<Id>, asc: bool, limit: int, meanwhile: seq<Row>)
      returns (logs: seq<Row>)
      modifies this`rows
      ensures rows == if last.Some? && Known(old(rows), last) then meanwhile else old(rows)
      ensures logs == if !Known(old(rows), last) then []
                      else Take(Select(rows, f, CursorRow(old(rows), last), asc),
                                (if limit <= 0 || limit > 100 then 100 else limit) + 1)
    {
      var size := limit;
      if size <= 0 || size > 100 {
        size := 100;
      }
      var fetch := size + 1;
      var after := None;
      if last.Some? {
        after := Find(rows, last.value);
        if after.None? {
          return [];
        }
        rows := meanwhile;
      }
      logs := Take(Select(rows, f, after, asc), fetch);
    }

    method ListAuditLogsOrdered(f: Filter, last: Option<Id>, order: string, meanwhile: seq<Row>)
      returns (page: Result<Page, Error>)
      modifies this`rows
      ensures page == if order in ["", "desc"] then Ok(PageOf(Request(old(rows), rows), f, last, false))
                      else if order == "asc" then Ok(PageOf(Request(old(rows), rows), f, last, true))
                      else Err(InvalidInput)
      ensures rows == if page.Ok? && last.Some? && Known(old(rows), last) then meanwhile else old(rows)
    {
      hide Select, Find;
      var orderAsc := false;
      if order == "asc" {
        orderAsc := true;
      } else if order !in ["", "desc"] {
        return Err(InvalidInput);
      }
      var logs := ListAuditLogs(f, last, orderAsc, PAGE_SIZE, meanwhile);
      var hasMore := |logs| > PAGE_SIZE;
      if hasMore {
        logs := logs[..PAGE_SIZE];
      }
      page := Ok(Page(logs, hasMore));
    }

    /** Deletes the oldest rows created before the cutoff, at most `limit`. */
    method PurgeAuditLogsBatch(cutoff: int, limit: nat) returns (removed: nat)
      requires DistinctIds(rows) && !appendOnly
      modifies this`rows
      ensures var victims := Take(Select(old(rows), Expired(cutoff), None, true), limit);
              rows == Without(old(rows), victims) && removed == |victims|
      ensures DistinctIds(rows) && |rows| == |old(rows)| - removed && removed <= limit
      ensures forall r :: r in rows ==> r in old(rows)
      ensures forall gone :: gone in old(rows) && gone !in rows ==>
                gone.createdAt < cutoff && forall r :: r in rows ==> gone.createdAt <= r.createdAt
      ensures removed < limit ==> forall r :: r in rows ==> r.createdAt >= cutoff
    {
      hide Select;
      VictimsAreOldest(rows, cutoff, limit);
      var victims := Take(Select(rows, Expired(cutoff), None, true), limit);
      SelectIsRight(rows, Expired(cutoff), None, true);
      WithoutSome(rows, victims);
      WithoutIsRight(rows, victims);
      rows, removed := Without(rows, victims), |victims|;
    }

    /** The whole purge. Whatever interrupts it, the trigger is back when it ends. */
    method PurgeAuditLogs(cutoff: int, deadline: Option<nat>) returns (finished: bool)
      requires DistinctIds(rows)
      modifies this
      ensures appendOnly && DistinctIds(rows)
      ensures finished ==> rows == NotOlder(old(rows), cutoff)
      ensures NotOlder(rows, cutoff) == NotOlder(old(rows), cutoff)
      ensures !finished ==> deadline.Some? && |rows| == |old(rows)| - 1000 * deadline.value
    {
      hide Select, Without;
      if !appendOnly {
        appendOnly := true;
      }
      appendOnly := false;
      var batches := 0;
      finished := false;
      while true
        invariant !appendOnly && DistinctIds(rows)
        invariant NotOlder(rows, cutoff) == NotOlder(old(rows), cutoff)
        invariant finished ==> NotOlder(rows, cutoff) == rows
        invariant !finished ==> |rows| == |old(rows)| - 1000 * batches
        decreases |rows|, !finished
      {
        if deadline == Some(batches) {
          break;
        }
        ghost var before := rows;
        var n := PurgeAuditLogsBatch(cutoff, PURGE_BATCH_SIZE);
        BatchKeepsYoung(before, cutoff, PURGE_BATCH_SIZE);
        if n < PURGE_BATCH_SIZE {
          finished := true;
          break;
        }
        batches := batches + 1;
      }
      appendOnly := true;
    }
  }

  function Expired(cutoff: int): Filter {
    Filter(None, None, None, None, Some(cutoff - 1))
  }

  function Without(rows: seq<Row>, victims: seq<Row>): seq<Row> {
    if rows == [] then []
    else (if rows[0] in victims then [] else [rows[0]]) + Without(rows[1..], victims)
  }

  function NotOlder(rows: seq<Row>, cutoff: int): seq<Row> {
    if rows == [] then []
    else (if rows[0].createdAt < cutoff then [] else [rows[0]]) + NotOlder(rows[1..], cutoff)
  }

  // --------------------------------------------------------------- what a query is

  lemma {:induction false} InsertIsRight(rows: seq<Row>, r: Row, asc: bool)
    requires Ordered(rows, asc) && forall x :: x in rows ==> x.id != r.id
    ensures Ordered(Insert(rows, r, asc), asc)
    ensures forall x :: x in Insert(rows, r, asc) <==> x in rows || x == r
    decreases |rows|
  {
    if rows != [] && !Before(r, rows[0], asc) {
      InsertIsRight(rows[1..], r, asc);
      assert rows[0] in rows && forall x :: x in rows[1..] ==> x in rows;
      assert forall x :: x in Insert(rows[1..], r, asc) ==> Before(rows[0], x, asc);
    }
  }

  lemma {:induction false} SelectIsRight(rows: seq<Row>, f: Filter, after: Option<Row>, asc: bool)
    requires DistinctIds(rows)
    ensures Ordered(Select(rows, f, after, asc), asc)
    ensures forall r :: r in Select(rows, f, after, asc) <==> r in rows && Wanted(f, after, r, asc)
    decreases |rows|
  {
    hide Wanted, Before;
    if rows != [] {
      SelectIsRight(rows[1..], f, after, asc);
      assert forall x :: x in rows <==> x == rows[0] || x in rows[1..];
      if Wanted(f, after, rows[0], asc) {
        InsertIsRight(Select(rows[1..], f, after, asc), rows[0], asc);
      }
    }
  }

  /** Two ordered lists of the same rows are the same list. */
  lemma {:induction false} OrderedIsUnique(a: seq<Row>, b: seq<Row>, asc: bool)
    requires Ordered(a, asc) && Ordered(b, asc)
    requires forall r :: r in a <==> r in b
    ensures a == b
    decreases |a|
  {
    if a == [] {
      assert forall s: seq<Row> :: s != [] ==> s[0] in s;
    } else {
      assert a[0] in b && b[0] in a;
      var i :| 0 <= i < |b| && b[i] == a[0];
      var j :| 0 <= j < |a| && a[j] == b[0];
      assert i == 0 && j == 0;
      forall r ensures r in a[1..] <==> r in b[1..] {
        assert r in a[1..] ==> r in a && r != a[0];
        assert r in b[1..] ==> r in b && r != b[0];
      }
      OrderedIsUnique(a[1..], b[1..], asc);
    }
  }

  lemma {:induction false} FindIsRight(rows: seq<Row>, id: Id)
    ensures match Find(rows, id)
            case None => forall r :: r in rows ==> r.id != id
            case Some(r) => r in rows && r.id == id
    decreases |rows|
  {
    if rows != [] && rows[0].id != id {
      FindIsRight(rows[1..], id);
    }
  }

  /** A page is ordered, holds wanted rows of the table and no others before its end, and
      says whether wanted rows are missing from it. */
  lemma PageIsRight(rows: seq<Row>, f: Filter, after: Option<Row>, asc: bool)
    requires DistinctIds(rows)
    ensures var p := PageAfter(rows, f, after, asc);
            && Ordered(p.rows, asc)
            && (forall r :: r in p.rows ==> r in rows && Wanted(f, after, r, asc))
            && |p.rows| <= 100 && (p.hasMore ==> |p.rows| == 100)
            && (p.hasMore <==> exists r :: r in rows && Wanted(f, after, r, asc) && r !in p.rows)
            && (forall r :: r in rows && Wanted(f, after, r, asc) && r !in p.rows && p.hasMore ==>
                  Before(p.rows[99], r, asc))
  {
    var p := PageAfter(rows, f, after, asc);
    var all := Select(rows, f, after, asc);
    SelectIsRight(rows, f, after, asc);
    hide Select, Wanted, Find;
    assert p.rows == Take(all, PAGE_SIZE);
    if |all| > PAGE_SIZE {
      var next := all[PAGE_SIZE];
      assert next in all && forall k :: 0 <= k < PAGE_SIZE ==> Before(all[k], next, asc);
      forall r | r in rows && Wanted(f, after, r, asc) && r !in p.rows ensures Before(p.rows[PAGE_SIZE - 1], r, asc) {
        var k :| 0 <= k < |all| && all[k] == r;
        assert forall i :: 0 <= i < PAGE_SIZE ==> all[i] == p.rows[i] && p.rows[i] in p.rows;
      }
    }
  }

  /** The rows a filter asks for: those with the action, actor and entity named, if any,
      written within the dates, both included. */
  predicate Asked(f: Filter, r: Row) {
    && f.action in {None, Some(r.action)} && f.actor in {None, Some(r.actor)} && f.entity in {None, Some(r.entity)}
    && (f.since.Some? ==> f.since.value <= r.createdAt)
    && (f.until.Some? ==> r.createdAt <= f.until.value)
  }

  /** Written later; of two written at once, the one with the greater id. */
  predicate Newer(a: Row, b: Row) {
    a.createdAt > b.createdAt || (a.createdAt == b.createdAt && a.id > b.id)
  }

  /** A page in the terms of the request: its rows are rows of the table that were asked for
      and that the cursor leaves ahead, one after the other; and a row of that kind that is
      missing comes after the hundred that are on the page. */
  lemma PageAnswersRequest(rows: seq<Row>, f: Filter, after: Option<Row>, asc: bool)
    requires DistinctIds(rows)
    ensures var p := PageAfter(rows, f, after, asc);
            && (forall r :: r in p.rows ==> r in rows && Asked(f, r))
            && (after.Some? ==>
                  forall r :: r in p.rows ==> if asc then Newer(r, after.value) else Newer(after.value, r))
            && (forall i, j :: 0 <= i < j < |p.rows| ==>
                  if asc then Newer(p.rows[j], p.rows[i]) else Newer(p.rows[i], p.rows[j]))
            && forall r :: r in rows && Asked(f, r) && r !in p.rows &&
                           (after.Some? ==> if asc then Newer(r, after.value) else Newer(after.value, r)) ==>
                 |p.rows| == 100 && p.hasMore && if asc then Newer(r, p.rows[99]) else Newer(p.rows[99], r)
  {
    PageIsRight(rows, f, after, asc);
    hide PageAfter;
    assert forall a, b :: (Newer(a, b) <==> Before(b, a, true)) && (Newer(a, b) <==> Before(a, b, false));
    assert forall r :: Asked(f, r) <==> Matches(f, r);
  }

  // ------------------------------------------------- crawls over a changing table

  /** Ids are never reused and rows never change. */
  ghost predicate Consistent(tables: seq<Request>) {
    && (forall i :: 0 <= i < |tables| ==> DistinctIds(tables[i].listed))
    && forall i, j, a, b ::
         0 <= i < |tables| && 0 <= j < |tables| && SeenBy(tables[i], a) && SeenBy(tables[j], b) && a.id == b.id ==>
           a == b
  }

  predicate SeenBy(q: Request, r: Row) {
    r in q.looked || r in q.listed
  }

  /** The last_id of request n: the last row of the page before. */
  function CursorAt(tables: seq<Request>, f: Filter, asc: bool, n: nat): Option<Id>
    requires n <= |tables|
    decreases n, 0
  {
    if n == 0 then None
    else
      var rows := PageAt(tables, f, asc, n - 1).rows;
      if rows == [] then None else Some(rows[|rows| - 1].id)
  }

  function PageAt(tables: seq<Request>, f: Filter, asc: bool, n: nat): Page
    requires n < |tables|
    decreases n, 1
  {
    PageOf(tables[n], f, CursorAt(tables, f, asc, n), asc)
  }

  /** All rows of the first n pages. */
  function Collected(tables: seq<Request>, f: Filter, asc: bool, n: nat): seq<Row>
    requires n <= |tables|
  {
    if n == 0 then [] else Collected(tables, f, asc, n - 1) + PageAt(tables, f, asc, n - 1).rows
  }

  /** The first n pages each announced another one, and their cursors were still there when
      it was asked for. */
  predicate Going(tables: seq<Request>, f: Filter, asc: bool, n: nat)
    requires n <= |tables|
  {
    && (forall i: nat :: i < n ==> PageAt(tables, f, asc, i).hasMore)
    && forall i: nat :: i <= n && i < |tables| ==> Known(tables[i].looked, CursorAt(tables, f, asc, i))
  }

  ghost predicate PresentSince(tables: seq<Request>, n: nat, r: Row)
    requires n <= |tables|
  {
    forall i :: 0 <= i < n ==> r in tables[i].listed
  }

  ghost predicate Progress(tables: seq<Request>, f: Filter, asc: bool, n: nat)
    requires n <= |tables|
  {
    var done := Collected(tables, f, asc, n);
    && Ordered(done, asc)
    && |done| == n * PAGE_SIZE
    && (forall r :: r in done ==> Matches(f, r))
    && (n > 0 ==> CursorAt(tables, f, asc, n) == Some(done[|done| - 1].id) && done[|done| - 1] in tables[n - 1].listed)
    && forall r :: Matches(f, r) && PresentSince(tables, n, r) && r !in done ==>
         n == 0 || Before(done[|done| - 1], r, asc)
  }

  lemma CursorIsLast(tables: seq<Request>, f: Filter, asc: bool, n: nat)
    requires Consistent(tables) && n < |tables| && Progress(tables, f, asc, n)
    requires Known(tables[n].looked, CursorAt(tables, f, asc, n))
    ensures var done := Collected(tables, f, asc, n);
            CursorRow(tables[n].looked, CursorAt(tables, f, asc, n)) == if n == 0 then None else Some(done[|done| - 1])
  {
    hide PageAt;
    if n > 0 {
      FindIsRight(tables[n].looked, CursorAt(tables, f, asc, n).value);
    }
  }

  lemma Joined(done: seq<Row>, page: seq<Row>, asc: bool)
    requires Ordered(done, asc) && Ordered(page, asc)
    requires done != [] ==> forall r :: r in page ==> Before(done[|done| - 1], r, asc)
    ensures Ordered(done + page, asc)
  {
    var all := done + page;
    forall i, j | 0 <= i < j < |all| ensures Before(all[i], all[j], asc) {
      if i < |done| <= j {
        assert all[j] in page;
        assert i == |done| - 1 || Before(done[i], done[|done| - 1], asc);
      }
    }
  }

  lemma DistinctAt(tables: seq<Request>, n: nat)
    requires Consistent(tables) && n < |tables|
    ensures DistinctIds(tables[n].listed)
  {
  }

  lemma PageOfNext(tables: seq<Request>, f: Filter, asc: bool, n: nat)
    requires n < |tables|
    ensures PageAt(tables, f, asc, n) == PageOf(tables[n], f, CursorAt(tables, f, asc, n), asc)
    ensures Collected(tables, f, asc, n + 1) == Collected(tables, f, asc, n) + PageAt(tables, f, asc, n).rows
  {
  }

  /** The page that comes next, seen from what was collected before it. */
  lemma NextAfter(tables: seq<Request>, f: Filter, asc: bool, n: nat)
    requires Consistent(tables) && n < |tables| && Progress(tables, f, asc, n)
    requires Known(tables[n].looked, CursorAt(tables, f, asc, n))
    ensures var done, page := Collected(tables, f, asc, n), PageAt(tables, f, asc, n);
            && Ordered(page.rows, asc)
            && (done != [] ==> forall r :: r in page.rows ==> Before(done[|done| - 1], r, asc))
            && (forall r :: r in page.rows ==> Matches(f, r) && r in tables[n].listed)
            && (page.hasMore ==> |page.rows| == PAGE_SIZE)
            && forall r :: r in tables[n].listed && Matches(f, r) && r !in page.rows
                           && (done == [] || Before(done[|done| - 1], r, asc)) ==>
                 page.hasMore && Before(page.rows[PAGE_SIZE - 1], r, asc)
  {
    hide PageAfter, PageAt, CursorAt, Collected, Find, Matches, Before, Ordered, Consistent, Known;
    PageOfNext(tables, f, asc, n);
    CursorIsLast(tables, f, asc, n);
    DistinctAt(tables, n);
    PageIsRight(tables[n].listed, f, CursorRow(tables[n].looked, CursorAt(tables, f, asc, n)), asc);
  }

  /** What one more page adds. */
  lemma NextPage(tables: seq<Request>, f: Filter, asc: bool, n: nat)
    requires Consistent(tables) && n < |tables| && Progress(tables, f, asc, n)
    requires Known(tables[n].looked, CursorAt(tables, f, asc, n))
    ensures var all, page := Collected(tables, f, asc, n + 1), PageAt(tables, f, asc, n);
            && Ordered(all, asc)
            && (forall r :: r in all ==> Matches(f, r))
            && (forall r :: Matches(f, r) && PresentSince(tables, n + 1, r) && r !in all ==>
                  page.hasMore && Before(page.rows[PAGE_SIZE - 1], r, asc))
            && (page.hasMore ==> |page.rows| == PAGE_SIZE && page.rows[PAGE_SIZE - 1] in tables[n].listed)
  {
    hide PageAt, CursorAt, Collected, Matches, Before, Ordered, Consistent, Known;
    var done, page := Collected(tables, f, asc, n), PageAt(tables, f, asc, n);
    PageOfNext(tables, f, asc, n);
    NextAfter(tables, f, asc, n);
    Joined(done, page.rows, asc);
    forall r | Matches(f, r) && PresentSince(tables, n + 1, r) && r !in done + page.rows
      ensures page.hasMore && Before(page.rows[PAGE_SIZE - 1], r, asc)
    {
      assert r in tables[n].listed && PresentSince(tables, n, r);
    }
  }

  lemma PageProgresses(tables: seq<Request>, f: Filter, asc: bool, n: nat)
    requires Consistent(tables) && n < |tables| && Progress(tables, f, asc, n)
    requires Known(tables[n].looked, CursorAt(tables, f, asc, n)) && PageAt(tables, f, asc, n).hasMore
    ensures Progress(tables, f, asc, n + 1)
  {
    hide PageAt, CursorAt, Collected, Matches, Before, Ordered, Consistent, PresentSince, Known;
    NextPage(tables, f, asc, n);
    CursorNext(tables, f, asc, n);
    PageOfNext(tables, f, asc, n);
    var done, page := Collected(tables, f, asc, n), PageAt(tables, f, asc, n);
    var all := Collected(tables, f, asc, n + 1);
    assert all[|all| - 1] == page.rows[PAGE_SIZE - 1];
  }

  lemma CursorNext(tables: seq<Request>, f: Filter, asc: bool, n: nat)
    requires n < |tables|
    ensures var rows := PageAt(tables, f, asc, n).rows;
            CursorAt(tables, f, asc, n + 1) == if rows == [] then None else Some(rows[|rows| - 1].id)
  {
  }

  lemma {:induction false} GoingProgresses(tables: seq<Request>, f: Filter, asc: bool, n: nat)
    requires Consistent(tables) && n <= |tables| && Going(tables, f, asc, n)
    ensures Progress(tables, f, asc, n)
  {
    hide PageAt, CursorAt, Progress, Consistent;
    if n == 0 {
      NothingYet(tables, f, asc);
    } else {
      GoingProgresses(tables, f, asc, n - 1);
      PageProgresses(tables, f, asc, n - 1);
    }
  }

  lemma NothingYet(tables: seq<Request>, f: Filter, asc: bool)
    ensures Progress(tables, f, asc, 0)
  {
  }

  /** A crawl that follows its cursors to the last page, over a table that changes between
      requests but keeps each cursor row, returns rows in order, none twice, and every
      matching row that was there all along. */
  lemma CrawlSeesEveryRowOnce(tables: seq<Request>, f: Filter, asc: bool)
    requires Consistent(tables) && tables != []
    requires Going(tables, f, asc, |tables| - 1) && !PageAt(tables, f, asc, |tables| - 1).hasMore
    ensures var all := Collected(tables, f, asc, |tables|);
            && Ordered(all, asc)
            && (forall i, j :: 0 <= i < j < |all| ==> all[i] != all[j])
            && (forall r :: r in all ==> Matches(f, r))
            && (forall r :: Matches(f, r) && (forall i :: 0 <= i < |tables| ==> r in tables[i].listed) ==> r in all)
  {
    hide PageAt, CursorAt, Progress, Consistent;
    var n := |tables| - 1;
    GoingProgresses(tables, f, asc, n);
    NextPage(tables, f, asc, n);
    var all := Collected(tables, f, asc, |tables|);
    forall i, j | 0 <= i < j < |all| ensures all[i] != all[j] {
      assert Before(all[i], all[j], asc);
    }
    forall r | Matches(f, r) && (forall i :: 0 <= i < |tables| ==> r in tables[i].listed) ensures r in all {
      assert PresentSince(tables, |tables|, r);
    }
  }

  /** Every table holds the rows of the one before. */
  ghost predicate Grows(tables: seq<Request>) {
    && (forall i, r :: 0 <= i < |tables| && r in tables[i].looked ==> r in tables[i].listed)
    && (forall i, r :: 0 <= i < |tables| - 1 && r in tables[i].listed ==> r in tables[i + 1].looked)
  }

  lemma {:induction false} GrowingGoes(tables: seq<Request>, f: Filter, asc: bool, n: nat)
    requires Consistent(tables) && Grows(tables) && n < |tables|
    requires forall i: nat :: i < n ==> PageAt(tables, f, asc, i).hasMore
    ensures Going(tables, f, asc, n)
  {
    hide PageAt, Consistent, CursorAt, Progress, Known, Grows;
    if n == 0 {
      FirstHasNoCursor(tables, f, asc);
    } else {
      GrowingGoes(tables, f, asc, n - 1);
      GoingProgresses(tables, f, asc, n - 1);
      PageProgresses(tables, f, asc, n - 1);
      CursorStays(tables, f, asc, n);
    }
  }

  lemma CursorStays(tables: seq<Request>, f: Filter, asc: bool, n: nat)
    requires Grows(tables) && 0 < n < |tables| && Progress(tables, f, asc, n)
    ensures Known(tables[n].looked, CursorAt(tables, f, asc, n))
  {
    hide CursorAt, Collected, Find, Matches, Ordered, Before, PresentSince;
    var done := Collected(tables, f, asc, n);
    FindIsRight(tables[n].looked, done[|done| - 1].id);
  }

  lemma FirstHasNoCursor(tables: seq<Request>, f: Filter, asc: bool)
    ensures CursorAt(tables, f, asc, 0) == None && (tables != [] ==> Known(tables[0].looked, None))
  {
  }

  lemma {:induction false} StaysPresent(tables: seq<Request>, i: nat, r: Row)
    requires Grows(tables) && i < |tables| && r in tables[0].listed
    ensures r in tables[i].listed
  {
    if i > 0 {
      StaysPresent(tables, i - 1, r);
    }
  }

  /** While no row is purged, no cursor is ever stale: a crawl to the last page returns, in
      order and once each, every matching row there was when it began. */
  lemma GrowingTableIsListed(tables: seq<Request>, f: Filter, asc: bool)
    requires Consistent(tables) && Grows(tables) && tables != []
    requires forall i: nat :: i < |tables| ==> (PageAt(tables, f, asc, i).hasMore <==> i < |tables| - 1)
    ensures var all := Collected(tables, f, asc, |tables|);
            && Ordered(all, asc)
            && (forall i, j :: 0 <= i < j < |all| ==> all[i] != all[j])
            && (forall r :: r in all ==> Matches(f, r))
            && (forall r :: Matches(f, r) && r in tables[0].listed ==> r in all)
  {
    hide PageAt, CursorAt, Consistent, Collected, Matches, Grows, Going;
    GrowingGoes(tables, f, asc, |tables| - 1);
    CrawlSeesEveryRowOnce(tables, f, asc);
    forall r | Matches(f, r) && r in tables[0].listed ensures r in Collected(tables, f, asc, |tables|) {
      forall i | 0 <= i < |tables| ensures r in tables[i].listed {
        StaysPresent(tables, i, r);
      }
    }
  }

  // ------------------------------------------------------- crawls over a fixed table

  lemma {:induction false} OnlyTableRows(rows: seq<Row>, tables: seq<Request>, f: Filter, asc: bool, n: nat)
    requires DistinctIds(rows) && n <= |tables| && forall i :: 0 <= i < |tables| ==> tables[i] == Request(rows, rows)
    ensures forall r :: r in Collected(tables, f, asc, n) ==> r in rows
  {
    if n > 0 {
      OnlyTableRows(rows, tables, f, asc, n - 1);
      var last := CursorAt(tables, f, asc, n - 1);
      if Known(rows, last) {
        PageIsRight(rows, f, CursorRow(rows, last), asc);
      }
      hide PageOf, CursorAt;
    }
  }

  /** On a fixed table the pages put together are the whole listing, and a crawl ends: while
      pages announce more, fewer rows were returned than match. */
  lemma {:induction false} FixedTableIsListed(rows: seq<Row>, tables: seq<Request>, f: Filter, asc: bool)
    requires DistinctIds(rows) && tables != [] && forall i :: 0 <= i < |tables| ==> tables[i] == Request(rows, rows)
    requires Going(tables, f, asc, |tables| - 1)
    ensures if PageAt(tables, f, asc, |tables| - 1).hasMore then 100 * |tables| < |Select(rows, f, None, asc)|
            else Collected(tables, f, asc, |tables|) == Select(rows, f, None, asc)
  {
    hide PageAt, CursorAt, Progress, Select, Matches, Find;
    var n := |tables| - 1;
    assert Consistent(tables) by {
      UniqueById(rows);
    }
    SelectIsRight(rows, f, None, asc);
    var listing := Select(rows, f, None, asc);
    OnlyTableRows(rows, tables, f, asc, |tables|);
    if PageAt(tables, f, asc, n).hasMore {
      GoingProgresses(tables, f, asc, n);
      PageProgresses(tables, f, asc, n);
      MoreIsLeft(rows, tables, f, asc, n);
    } else {
      CrawlSeesEveryRowOnce(tables, f, asc);
      var all := Collected(tables, f, asc, |tables|);
      forall r ensures r in all <==> r in listing {
      }
      OrderedIsUnique(all, listing, asc);
    }
  }

  lemma UniqueById(rows: seq<Row>)
    requires DistinctIds(rows)
    ensures forall a, b :: a in rows && b in rows && a.id == b.id ==> a == b
  {
  }

  lemma AfterLastIsNew(done: seq<Row>, r: Row, asc: bool)
    requires Ordered(done, asc) && (done != [] ==> Before(done[|done| - 1], r, asc))
    ensures r !in done
  {
    assert forall k :: 0 <= k < |done| - 1 ==> Before(done[k], done[|done| - 1], asc);
  }

  lemma MoreIsLeft(rows: seq<Row>, tables: seq<Request>, f: Filter, asc: bool, n: nat)
    requires DistinctIds(rows) && n < |tables| && tables[n] == Request(rows, rows) && Consistent(tables)
    requires Progress(tables, f, asc, n) && Progress(tables, f, asc, n + 1)
    requires Known(rows, CursorAt(tables, f, asc, n)) && PageAt(tables, f, asc, n).hasMore
    requires forall r :: r in Collected(tables, f, asc, n + 1) ==> r in rows
    ensures PAGE_SIZE * (n + 1) < |Select(rows, f, None, asc)|
  {
    PageOfNext(tables, f, asc, n);
    CursorIsLast(tables, f, asc, n);
    hide PageAfter, PageAt, CursorAt, Collected, Find, Matches, Select, Consistent, Before, Ordered, PresentSince,
      DistinctIds;
    OneMoreRow(rows, f, Collected(tables, f, asc, n), PageAt(tables, f, asc, n), asc);
  }

  lemma OneMoreRow(rows: seq<Row>, f: Filter, done: seq<Row>, page: Page, asc: bool)
    requires DistinctIds(rows) && page.hasMore
    requires page == PageAfter(rows, f, if done == [] then None else Some(done[|done| - 1]), asc)
    requires Ordered(done, asc) && Ordered(done + page.rows, asc)
    requires forall r :: r in done + page.rows ==> r in rows && Matches(f, r)
    ensures |done + page.rows| < |Select(rows, f, None, asc)|
  {
    var after := if done == [] then None else Some(done[|done| - 1]);
    PageIsRight(rows, f, after, asc);
    SelectIsRight(rows, f, None, asc);
    hide PageAfter, Matches, Select, Before, Ordered, DistinctIds;
    var r :| r in rows && Wanted(f, after, r, asc) && r !in page.rows;
    AfterLastIsNew(done, r, asc);
    SmallerSet(done + page.rows, Select(rows, f, None, asc), r, asc);
  }

  lemma SmallerSet(a: seq<Row>, b: seq<Row>, extra: Row, asc: bool)
    requires Ordered(a, asc) && Ordered(b, asc) && extra in b && extra !in a
    requires forall r :: r in a ==> r in b
    ensures |a| < |b|
  {
    DistinctSize(a);
    DistinctSize(b);
    var x, y := Elements(a), Elements(b);
    assert x <= y - {extra};
    SubsetSize(x, y - {extra});
  }

  // -------------------------------------------------------------------- the purge

  lemma {:induction false} WithoutIsRight(rows: seq<Row>, victims: seq<Row>)
    requires DistinctIds(rows)
    ensures DistinctIds(Without(rows, victims))
    ensures forall r :: r in Without(rows, victims) <==> r in rows && r !in victims
    decreases |rows|
  {
    if rows != [] {
      WithoutIsRight(rows[1..], victims);
      assert forall x :: x in rows[1..] ==> x.id != rows[0].id;
      var rest := Without(rows[1..], victims);
      assert Without(rows, victims) == if rows[0] in victims then rest else [rows[0]] + rest;
    }
  }

  lemma WithoutSome(rows: seq<Row>, victims: seq<Row>)
    requires DistinctIds(rows) && Ordered(victims, true) && forall r :: r in victims ==> r in rows
    ensures DistinctIds(Without(rows, victims)) && |Without(rows, victims)| == |rows| - |victims|
  {
    WithoutIsRight(rows, victims);
    var left := Without(rows, victims);
    DistinctSize(rows);
    DistinctSize(victims);
    DistinctSize(left);
    hide Without;
    var all, gone := Elements(rows), Elements(victims);
    assert Elements(left) == all - gone && gone <= all;
  }

  lemma {:induction false} WithoutOld(rows: seq<Row>, victims: seq<Row>, cutoff: int)
    requires forall r :: r in victims ==> r.createdAt < cutoff
    ensures NotOlder(Without(rows, victims), cutoff) == NotOlder(rows, cutoff)
    decreases |rows|
  {
    if rows != [] {
      WithoutOld(rows[1..], victims, cutoff);
      var rest := Without(rows[1..], victims);
      if rows[0] in victims {
        assert Without(rows, victims) == rest;
      } else {
        assert Without(rows, victims) == [rows[0]] + rest;
      }
    }
  }

  lemma {:induction false} AllYoung(rows: seq<Row>, cutoff: int)
    requires forall r :: r in rows ==> r.createdAt >= cutoff
    ensures NotOlder(rows, cutoff) == rows
    decreases |rows|
  {
    if rows != [] {
      AllYoung(rows[1..], cutoff);
    }
  }

  lemma VictimsAreOldest(before: seq<Row>, cutoff: int, limit: nat)
    requires DistinctIds(before)
    ensures var victims := Take(Select(before, Expired(cutoff), None, true), limit);
            && (forall r :: r in victims ==> r.createdAt < cutoff)
            && (|victims| < limit ==> forall r :: r in before && r.createdAt < cutoff ==> r in victims)
            && forall v, r :: v in victims && r in before && r !in victims ==> v.createdAt <= r.createdAt
  {
    var expired := Select(before, Expired(cutoff), None, true);
    SelectIsRight(before, Expired(cutoff), None, true);
    hide Select, DistinctIds, Ordered;
    assert forall r :: r in Take(expired, limit) ==> r in expired;
  }

  lemma BatchKeepsYoung(before: seq<Row>, cutoff: int, limit: nat)
    requires DistinctIds(before)
    ensures var victims := Take(Select(before, Expired(cutoff), None, true), limit);
            var left := Without(before, victims);
            && NotOlder(left, cutoff) == NotOlder(before, cutoff)
            && (|victims| < limit ==> NotOlder(left, cutoff) == left)
  {
    hide Select, Without, NotOlder, Take, DistinctIds;
    var victims := Take(Select(before, Expired(cutoff), None, true), limit);
    VictimsAreOldest(before, cutoff, limit);
    WithoutOld(before, victims, cutoff);
    WithoutIsRight(before, victims);
    if |victims| < limit {
      AllYoung(Without(before, victims), cutoff);
    }
  }

  /** A finished purge leaves exactly the rows that are young enough, in place. */
  lemma {:induction false} NotOlderIsRight(rows: seq<Row>, cutoff: int)
    ensures forall r :: r in NotOlder(rows, cutoff) <==> r in rows && r.createdAt >= cutoff
    ensures DistinctIds(rows) ==> DistinctIds(NotOlder(rows, cutoff))
    decreases |rows|
  {
    hide DistinctIds;
    if rows == [] {
    } else {
      NotOlderIsRight(rows[1..], cutoff);
      var rest := NotOlder(rows[1..], cutoff);
      assert forall r :: r in rows <==> r == rows[0] || r in rows[1..];
      assert NotOlder(rows, cutoff) == if rows[0].createdAt < cutoff then rest else [rows[0]] + rest;
      DistinctParts(rows, rest);
    }
  }

  lemma DistinctParts(rows: seq<Row>, rest: seq<Row>)
    requires rows != [] && forall r :: r in rest ==> r in rows[1..]
    ensures DistinctIds(rows) ==> DistinctIds(rows[1..])
    ensures DistinctIds(rows) && DistinctIds(rest) ==> DistinctIds([rows[0]] + rest)
  {
    if DistinctIds(rows) {
      forall k | 0 <= k < |rest| ensures rest[k].id != rows[0].id {
        assert rest[k] in rows[1..];
      }
    }
  }

  /** A page is empty and last exactly when no row passes the filter after the cursor. */
  lemma EmptyPage(rows: seq<Row>, f: Filter, after: Option<Row>, asc: bool)
    requires DistinctIds(rows)
    ensures PageAfter(rows, f, after, asc) == Page([], false) <==> forall r :: r in rows ==> !Wanted(f, after, r, asc)
  {
    hide PageAfter, Wanted, DistinctIds, Ordered, Before;
    PageIsRight(rows, f, after, asc);
    var p := PageAfter(rows, f, after, asc);
    if p.rows != [] {
      assert p.rows[0] in p.rows;
    }
  }

  /** What a purge leaves comes before an expired row in descending order, after it in
      ascending order. */
  lemma LeftOfExpired(left: seq<Row>, f: Filter, cursor: Row, cutoff: int, asc: bool)
    requires cursor.createdAt < cutoff && forall r :: r in left ==> r.createdAt >= cutoff
    ensures (forall r :: r in left ==> !Wanted(f, Some(cursor), r, asc)) <==>
            !asc || forall r :: r in left ==> !Matches(f, r)
  {
    hide Matches;
    forall r | r in left ensures Wanted(f, Some(cursor), r, asc) <==> asc && Matches(f, r) {
    }
  }

  /** When the purge takes the cursor's row, the next page is empty and last. That is right
      exactly when no row that is left passes the filter after the cursor: always in
      descending order, and in ascending order exactly when nothing left passes the filter. */
  lemma PurgedCursor(rows: seq<Row>, listed: seq<Row>, f: Filter, cursor: Row, cutoff: int, asc: bool)
    requires DistinctIds(rows) && cursor in rows && cursor.createdAt < cutoff
    ensures var left := NotOlder(rows, cutoff);
            && PageOf(Request(left, listed), f, Some(cursor.id), asc) == Page([], false)
            && (PageAfter(left, f, Some(cursor), asc) == Page([], false)
                <==> forall r :: r in left ==> !Wanted(f, Some(cursor), r, asc))
            && (PageAfter(left, f, Some(cursor), asc) == Page([], false)
                <==> !asc || forall r :: r in left ==> !Matches(f, r))
  {
    hide NotOlder, PageAfter, Matches, DistinctIds, Wanted, Find;
    var left := NotOlder(rows, cutoff);
    NotOlderIsRight(rows, cutoff);
    PurgedIsUnknown(rows, cursor, cutoff);
    EmptyPage(left, f, Some(cursor), asc);
    LeftOfExpired(left, f, cursor, cutoff, asc);
  }

  lemma PurgedIsUnknown(rows: seq<Row>, cursor: Row, cutoff: int)
    requires DistinctIds(rows) && cursor in rows && cursor.createdAt < cutoff
    ensures Find(NotOlder(rows, cutoff), cursor.id) == None
  {
    NotOlderIsRight(rows, cutoff);
    FindIsRight(NotOlder(rows, cutoff), cursor.id);
    hide NotOlder;
  }
}
