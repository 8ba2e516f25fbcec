/** Keyset pagination over a principal's jobs.
    Models `JobRepository.list_for_owner` of src/autoswe/repository.py and `list_jobs` of
    src/autoswe/api/jobs.py. */
module Paging {
  import opened Options

  datatype Row = Row(owner: string, createdAt: int, id: nat)

  datatype Page = Page(items: seq<Row>, nextCursor: Option<int>, nextCursorId: Option<nat>)

  ghost predicate UniqueIds(rows: set<Row>) {
    forall a, b :: a in rows && b in rows && a.id == b.id ==> a == b
  }

  /** The listing order: by time, then by id, newest first. */
  predicate Newer(a: Row, b: Row) {
    a.createdAt > b.createdAt || (a.createdAt == b.createdAt && a.id > b.id)
  }

  // ------------------------------------------------------------------ the query

  function Matching(rows: set<Row>, owner: string, before: Option<int>, beforeId: Option<nat>): set<Row> {
    if before.Some? && beforeId.Some? then
      set r | r in rows && r.owner == owner &&
              (r.createdAt < before.value || (r.createdAt == before.value && r.id < beforeId.value))
    else if before.Some? then set r | r in rows && r.owner == owner && r.createdAt < before.value
    else set r | r in rows && r.owner == owner
  }

  ghost predicate IsNewest(rows: set<Row>, r: Row) {
    r in rows && forall x :: x in rows && x != r ==> Newer(r, x)
  }

  lemma {:induction false} NewestExists(rows: set<Row>)
    requires rows != {} && UniqueIds(rows)
    ensures exists r :: IsNewest(rows, r)
    decreases |rows|
  {
    var a :| a in rows;
    var rest := rows - {a};
    assert forall x :: x in rows && x != a ==> x in rest && x.id != a.id;
    if rest == {} {
      assert IsNewest(rows, a);
    } else {
      NewestExists(rest);
      var r :| IsNewest(rest, r);
      if Newer(r, a) {
        assert IsNewest(rows, r);
      } else {
        assert r.id != a.id;
        assert IsNewest(rows, a);
      }
    }
  }

  /** ORDER BY created_at DESC, id DESC. */
  ghost function Descending(rows: set<Row>): (d: seq<Row>)
    decreases |rows|
  {
    if r :| IsNewest(rows, r) then [r] + Descending(rows - {r}) else []
  }

  ghost predicate Sorted(d: seq<Row>) {
    forall i, j :: 0 <= i < j < |d| ==> Newer(d[i], d[j])
  }

  /** `d` lists exactly these rows, newest first. */
  ghost predicate Lists(d: seq<Row>, rows: set<Row>) {
    |d| == |rows| && (forall r :: r in d <==> r in rows) && Sorted(d)
  }

  lemma NewestIsFirst(rows: set<Row>)
    requires UniqueIds(rows) && rows != {}
    ensures Descending(rows) != [] && IsNewest(rows, Descending(rows)[0])
    ensures Descending(rows)[1..] == Descending(rows - {Descending(rows)[0]})
  {
    NewestExists(rows);
  }

  lemma {:induction false} DescendingLists(rows: set<Row>)
    requires UniqueIds(rows)
    ensures Lists(Descending(rows), rows)
    decreases |rows|
  {
    if rows != {} {
      NewestIsFirst(rows);
      var d := Descending(rows);
      DescendingLists(rows - {d[0]});
      ListsOneMore(d, rows);
    }
  }

  lemma ListsOneMore(d: seq<Row>, rows: set<Row>)
    requires d != [] && IsNewest(rows, d[0]) && Lists(d[1..], rows - {d[0]})
    ensures Lists(d, rows)
  {
    assert d == [d[0]] + d[1..];
    forall i, j | 0 <= i < j < |d| ensures Newer(d[i], d[j]) {
      assert d[j] == d[1..][j - 1] && d[j] in rows - {d[0]};
      assert i > 0 ==> d[i] == d[1..][i - 1];
    }
  }

  function First(s: seq<Row>, n: nat): seq<Row> {
    if |s| <= n then s else s[..n]
  }

  ghost function ListForOwner(rows: set<Row>, owner: string, limit: nat,
    before: Option<int>, beforeId: Option<nat>): seq<Row>
  {
    First(Descending(Matching(rows, owner, before, beforeId)), limit)
  }

  /** `list_jobs` asks for one row more than the page holds, to know whether there is a next page. */
  function PageOf(jobs: seq<Row>, limit: nat): Page
    requires limit >= 1
  {
    if |jobs| > limit then Page(jobs[..limit], Some(jobs[limit - 1].createdAt), Some(jobs[limit - 1].id))
      else Page(jobs, None, None)
  }

  ghost function ListJobs(rows: set<Row>, owner: string, limit: nat, before: Option<int>, beforeId: Option<nat>): Page
    requires limit >= 1
  {
    PageOf(ListForOwner(rows, owner, limit + 1, before, beforeId), limit)
  }

  // ------------------------------------------------------------------ following the cursors

  function OlderThan(rows: set<Row>, last: Row): set<Row> {
    set r | r in rows && Newer(last, r)
  }

  lemma OlderSkipsNewest(rows: set<Row>, newest: Row, x: Row)
    requires UniqueIds(rows) && IsNewest(rows, newest)
    ensures OlderThan(rows, newest) == rows - {newest}
    ensures x in rows - {newest} ==> OlderThan(rows - {newest}, x) == OlderThan(rows, x)
  {
  }

  /** The rows after place `n` of the listing are the rows older than the one before that place. */
  lemma {:induction false} RestIsOlder(rows: set<Row>, n: nat)
    requires UniqueIds(rows) && 1 <= n <= |Descending(rows)|
    ensures Descending(rows)[n..] == Descending(OlderThan(rows, Descending(rows)[n - 1]))
    decreases n
  {
    var d := Descending(rows);
    var rest := rows - {d[0]};
    NewestIsFirst(rows);
    DescendingLists(rest);
    OlderSkipsNewest(rows, d[0], d[n - 1]);
    if n > 1 {
      assert d[n - 1] == d[1..][n - 2];
      RestIsOlder(rest, n - 1);
      assert d[1..][n - 1..] == d[n..];
    }
  }

  /** What is left for the request with this cursor. */
  ghost function Left(rows: set<Row>, owner: string, before: Option<int>, beforeId: Option<nat>): seq<Row>
  {
    Descending(Matching(rows, owner, before, beforeId))
  }

  lemma CursorIsLast(matching: set<Row>, rows: set<Row>, owner: string, before: Option<int>, beforeId: Option<nat>,
                     last: Row)
    requires matching == Matching(rows, owner, before, beforeId) && last in matching
    ensures OlderThan(matching, last) == Matching(rows, owner, Some(last.createdAt), Some(last.id))
  {
  }

  /** `page` is the next piece of `all`, and its cursor stands for exactly the rest. */
  ghost predicate NextPiece(page: Page, all: seq<Row>, rows: set<Row>, owner: string, limit: nat) {
    && |page.items| <= limit
    && if page.nextCursor.None? then page.items == all
       else |page.items| == limit < |all| && all == page.items + Left(rows, owner, page.nextCursor, page.nextCursorId)
  }

  lemma OneMoreIsEnough(all: seq<Row>, limit: nat)
    requires limit >= 1
    ensures PageOf(First(all, limit + 1), limit) == PageOf(all, limit)
  {
    if |all| > limit { assert all[..limit + 1][..limit] == all[..limit]; }
  }

  /** The query returns no more rows than it was asked for: the newest, and all if there are no more. */
  lemma QueryIsBounded(rows: set<Row>, owner: string, limit: nat, before: Option<int>, beforeId: Option<nat>)
    ensures var all, found := Left(rows, owner, before, beforeId), ListForOwner(rows, owner, limit, before, beforeId);
      found <= all && |found| == if |all| < limit then |all| else limit
  {
  }

  lemma PageAndRest(rows: set<Row>, owner: string, limit: nat, before: Option<int>, beforeId: Option<nat>)
    requires UniqueIds(rows) && limit >= 1
    ensures NextPiece(ListJobs(rows, owner, limit, before, beforeId), Left(rows, owner, before, beforeId),
      rows, owner, limit)
  {
    var matching := Matching(rows, owner, before, beforeId);
    var all := Descending(matching);
    OneMoreIsEnough(all, limit);
    if |all| > limit {
      DescendingLists(matching);
      RestIsOlder(matching, limit);
      CursorIsLast(matching, rows, owner, before, beforeId, all[limit - 1]);
      assert all == all[..limit] + all[limit..];
    }
  }

  /** All the pages a client gets by following cursors. */
  ghost function Pages(rows: set<Row>, owner: string, limit: nat,
    before: Option<int>, beforeId: Option<nat>): seq<seq<Row>>
    requires UniqueIds(rows) && limit >= 1
    decreases |Left(rows, owner, before, beforeId)|
  {
    PageAndRest(rows, owner, limit, before, beforeId);
    var page := ListJobs(rows, owner, limit, before, beforeId);
    if page.nextCursor.None? then [page.items]
    else [page.items] + Pages(rows, owner, limit, page.nextCursor, page.nextCursorId)
  }

  function Flatten(pages: seq<seq<Row>>): seq<Row> {
    if pages == [] then [] else pages[0] + Flatten(pages[1..])
  }

  lemma {:induction false} PagesAreTheListing(rows: set<Row>, owner: string, limit: nat, before: Option<int>,
                                              beforeId: Option<nat>)
    requires UniqueIds(rows) && limit >= 1
    ensures Flatten(Pages(rows, owner, limit, before, beforeId)) == Left(rows, owner, before, beforeId)
    decreases |Left(rows, owner, before, beforeId)|
  {
    PageAndRest(rows, owner, limit, before, beforeId);
    var page := ListJobs(rows, owner, limit, before, beforeId);
    if page.nextCursor.Some? {
      PagesAreTheListing(rows, owner, limit, page.nextCursor, page.nextCursorId);
      var more := Pages(rows, owner, limit, page.nextCursor, page.nextCursorId);
      assert ([page.items] + more)[1..] == more;
    }
  }

  /** Following the cursors from the first page shows every job of the owner exactly once, newest
      first, whatever the page size and however many jobs share a timestamp. */
  lemma EveryJobOnce(rows: set<Row>, owner: string, limit: nat)
    requires UniqueIds(rows) && limit >= 1
    ensures var shown := Flatten(Pages(rows, owner, limit, None, None));
      && (forall r :: r in shown <==> r in rows && r.owner == owner)
      && (forall i, j :: 0 <= i < j < |shown| ==> shown[i] != shown[j] && Newer(shown[i], shown[j]))
  {
    PagesAreTheListing(rows, owner, limit, None, None);
    DescendingLists(Matching(rows, owner, None, None));
  }

  /** Jobs submitted while a client is paging are newer than its cursor and do not disturb it. */
  lemma NewJobsDoNotDisturb(rows: set<Row>, added: set<Row>, owner: string, limit: nat, last: Row)
    requires UniqueIds(rows + added) && UniqueIds(rows) && limit >= 1
    requires forall r :: r in added ==> !Newer(last, r)
    ensures ListJobs(rows + added, owner, limit, Some(last.createdAt), Some(last.id))
         == ListJobs(rows, owner, limit, Some(last.createdAt), Some(last.id))
  {
    assert Matching(rows + added, owner, Some(last.createdAt), Some(last.id))
      == Matching(rows, owner, Some(last.createdAt), Some(last.id));
  }

  /** A cursor of the time alone shows the same rest exactly when no job left to show shares that time. */
  lemma TimeAloneNeedsNoTies(rows: set<Row>, owner: string, last: Row)
    requires UniqueIds(rows)
    ensures Left(rows, owner, Some(last.createdAt), None) == Left(rows, owner, Some(last.createdAt), Some(last.id))
      <==> forall r :: r in rows && r.owner == owner && r.createdAt == last.createdAt ==> r.id >= last.id
  {
    var alone := Matching(rows, owner, Some(last.createdAt), None);
    var both := Matching(rows, owner, Some(last.createdAt), Some(last.id));
    if forall r :: r in rows && r.owner == owner && r.createdAt == last.createdAt ==> r.id >= last.id {
      assert alone == both;
    } else {
      var r :| r in rows && r.owner == owner && r.createdAt == last.createdAt && r.id < last.id;
      DescendingLists(alone);
      DescendingLists(both);
      assert r in Descending(both) && r !in Descending(alone);
    }
  }
}
