// Keyset pagination over the audit log (rubezh-api/internal/api/audit.go on top of
// the query): following next_cursor page by page while rows are being inserted.
module AuditPages {
  import opened Wrappers
  import opened AuditQuery
  import opened Bags

  /** (created_at, id) order: `a` comes before `b` in the log. */
  predicate Older(a: Row, b: Row) {
    KeyLess(a.createdAt, a.id, Cursor(b.createdAt, b.id))
  }

  ghost predicate UniqueIds(table: set<Row>) {
    forall a, b :: a in table && b in table && a.id == b.id ==> a == b
  }

  ghost predicate Newest(page: seq<Row>) {
    forall i, j :: 0 <= i < j < |page| ==> Older(page[j], page[i])
  }

  /** `page` answers ORDER BY created_at DESC, id DESC LIMIT over the rows of the
      table that satisfy `selected`. */
  ghost predicate Answers(table: set<Row>, selected: Row -> bool, limit: nat, page: seq<Row>) {
    && Newest(page) && |page| <= limit
    && (forall i :: 0 <= i < |page| ==> page[i] in table && selected(page[i]))
    && (forall r :: r in table && selected(r) && r !in page ==>
          |page| == limit && forall i :: 0 <= i < |page| ==> Older(r, page[i]))
  }

  // ----- one request

  /** `assembleAuditList`: a full page names its last row as the next cursor. */
  function NextCursor(page: seq<Row>, limit: int): Option<Cursor> {
    if |page| >= limit && |page| > 0 then Some(Cursor(page[|page| - 1].createdAt, page[|page| - 1].id)) else None
  }

  datatype Summary = Summary(
    id: int, createdAt: int, userId: string, eventType: string, providerId: Option<string>,
    riskLevel: Option<string>, decision: Option<string>, hasLeak: bool)

  function ToSummary(r: Row): Summary {
    Summary(r.id, r.createdAt, r.userId, r.eventType, r.providerId, r.riskLevel, r.decision, r.leak == Some("true"))
  }

  /** The columns a summary shows, one by one. */
  ghost predicate Shows(s: Summary, r: Row) {
    && s.id == r.id && s.createdAt == r.createdAt && s.userId == r.userId && s.eventType == r.eventType
    && s.providerId == r.providerId && s.riskLevel == r.riskLevel && s.decision == r.decision
    && (s.hasLeak <==> r.leak == Some("true"))
  }

  /** A row found by a filter shows what was asked for. */
  lemma ShowsWhatWasAsked(f: Filter, r: Row, like: (string, string) -> bool)
    requires Matches(f, r, like)
    ensures var s := ToSummary(r);
      && (f.userId.Some? ==> s.userId == f.userId.value) && (f.eventTypes != [] ==> s.eventType in f.eventTypes)
      && (f.providerId.Some? ==> s.providerId == f.providerId)
      && (f.decisions != [] ==> s.decision.Some? && s.decision.value in f.decisions)
      && (f.riskLevels != [] ==> s.riskLevel.Some? && s.riskLevel.value in f.riskLevels)
      && (f.hasLeak.Some? ==> s.hasLeak == f.hasLeak.value)
  {
  }

  method AssembleAuditList(rows: seq<Row>, limit: int) returns (events: seq<Summary>, next: Option<Cursor>)
    ensures |events| == |rows| && forall i :: 0 <= i < |rows| ==> events[i] == ToSummary(rows[i])
    ensures forall i :: 0 <= i < |rows| ==> Shows(events[i], rows[i])
    ensures next == NextCursor(rows, limit)
  {
    events := [];
    for i := 0 to |rows|
      invariant |events| == i && forall k :: 0 <= k < i ==> events[k] == ToSummary(rows[k])
    {
      events := events + [ToSummary(rows[i])];
    }
    next := None;
    if |rows| >= limit && |rows| > 0 {
      var last := rows[|rows| - 1];
      next := Some(Cursor(last.createdAt, last.id));
    }
  }

  // ----- a walk through the log

  /** The client's filter with the cursor it sends along. */
  function Request(f: Filter, prior: seq<seq<Row>>): Filter {
    if prior == [] then f.(cursor := None) else f.(cursor := NextCursor(prior[|prior| - 1], f.limit))
  }

  ghost predicate AnswersFilter(table: set<Row>, f: Filter, like: (string, string) -> bool, page: seq<Row>) {
    Answers(table, r => Matches(f, r, like), EffectiveLimit(f.limit), page)
  }

  /** Pages fetched one after another from a table that only grows; each request but
      the first carries the cursor of the page before it. */
  ghost predicate Walk(tables: seq<set<Row>>, f: Filter, like: (string, string) -> bool, pages: seq<seq<Row>>) {
    && |tables| == |pages| && 1 <= f.limit <= 200
    && (forall i :: 0 <= i < |tables| ==> UniqueIds(tables[i]))
    && (forall i, j :: 0 <= i <= j < |tables| ==> tables[i] <= tables[j])
    && (forall i :: 0 <= i < |pages| ==> AnswersFilter(tables[i], Request(f, pages[..i]), like, pages[i]))
    && (forall i :: 0 <= i < |pages| - 1 ==> NextCursor(pages[i], f.limit).Some?)
  }

  /** The last page came without a cursor. */
  ghost predicate Finished(f: Filter, pages: seq<seq<Row>>) {
    pages != [] && NextCursor(pages[|pages| - 1], f.limit).None?
  }

  function Visited(pages: seq<seq<Row>>): seq<Row> {
    if pages == [] then [] else Visited(pages[..|pages| - 1]) + pages[|pages| - 1]
  }

  lemma WalkFront(tables: seq<set<Row>>, f: Filter, like: (string, string) -> bool, pages: seq<seq<Row>>)
    requires Walk(tables, f, like, pages) && pages != []
    ensures Walk(tables[..|tables| - 1], f, like, pages[..|pages| - 1])
    ensures AnswersFilter(tables[|tables| - 1], Request(f, pages[..|pages| - 1]), like, pages[|pages| - 1])
    ensures |pages| >= 2 ==> NextCursor(pages[|pages| - 2], f.limit).Some?
  {
    hide AnswersFilter, UniqueIds, Request;
    var m := |pages| - 1;
    var front := pages[..m];
    forall i | 0 <= i < |front|
      ensures AnswersFilter(tables[..m][i], Request(f, front[..i]), like, front[i])
    {
      assert front[..i] == pages[..i];
      assert AnswersFilter(tables[i], Request(f, pages[..i]), like, pages[i]);
    }
  }

  /** `r` satisfies the filter the client started with. */
  ghost predicate Wanted(f: Filter, like: (string, string) -> bool, r: Row) {
    Matches(f.(cursor := None), r, like)
  }

  /** `r` lies below the cursor taken from the pages so far. */
  ghost predicate Below(prior: seq<seq<Row>>, r: Row) {
    prior != [] && prior[|prior| - 1] != [] ==> Older(r, prior[|prior| - 1][|prior[|prior| - 1]| - 1])
  }

  lemma RequestMeaning(f: Filter, like: (string, string) -> bool, prior: seq<seq<Row>>, r: Row)
    requires prior != [] ==> NextCursor(prior[|prior| - 1], f.limit).Some?
    ensures Matches(Request(f, prior), r, like) <==> Wanted(f, like, r) && Below(prior, r)
  {
  }

  lemma OlderTransitive(a: Row, b: Row, c: Row)
    requires Older(a, b) && Older(b, c)
    ensures Older(a, c)
  {
  }

  /** Everything about the rows of one more page. */
  lemma NextPage(table: set<Row>, f: Filter, like: (string, string) -> bool, prior: seq<seq<Row>>, page: seq<Row>)
    requires 1 <= f.limit <= 200 && AnswersFilter(table, Request(f, prior), like, page)
    requires prior != [] ==> NextCursor(prior[|prior| - 1], f.limit).Some?
    ensures Newest(page) && |page| <= f.limit
    ensures forall i :: 0 <= i < |page| ==> page[i] in table && Wanted(f, like, page[i]) && Below(prior, page[i])
    ensures forall r :: r in table && Wanted(f, like, r) && Below(prior, r) && r !in page ==>
              |page| == f.limit && forall i :: 0 <= i < |page| ==> Older(r, page[i])
  {
    hide Wanted, Below, Newest;
    forall r
      ensures Matches(Request(f, prior), r, like) <==> Wanted(f, like, r) && Below(prior, r)
    {
      RequestMeaning(f, like, prior, r);
    }
    hide Matches;
  }

  lemma GrowingTables(tables: seq<set<Row>>, f: Filter, like: (string, string) -> bool, pages: seq<seq<Row>>)
    requires Walk(tables, f, like, pages) && pages != []
    ensures |tables| == |pages| && 1 <= f.limit <= 200 && tables[0] <= tables[|tables| - 1]
    ensures |tables| >= 2 ==> tables[|tables| - 2] <= tables[|tables| - 1]
  {
  }

  ghost predicate LastIs(rows: seq<Row>, r: Row) { rows != [] && rows[|rows| - 1] == r }

  /** The rows visited are strictly descending, satisfy the filter and come from the
      table; the last of them is the cursor row. */
  lemma {:induction false} VisitedInOrder(tables: seq<set<Row>>, f: Filter, like: (string, string) -> bool,
                                          pages: seq<seq<Row>>)
    requires Walk(tables, f, like, pages)
    ensures Newest(Visited(pages))
    ensures forall i :: 0 <= i < |Visited(pages)| ==>
              Wanted(f, like, Visited(pages)[i]) && Visited(pages)[i] in tables[|tables| - 1]
    ensures pages != [] && pages[|pages| - 1] != [] ==>
              LastIs(Visited(pages), pages[|pages| - 1][|pages[|pages| - 1]| - 1])
  {
    hide Wanted, AnswersFilter, Walk;
    if pages != [] {
      var m := |pages| - 1;
      var front, page, rows := pages[..m], pages[m], Visited(pages[..m]);
      GrowingTables(tables, f, like, pages);
      WalkFront(tables, f, like, pages);
      VisitedInOrder(tables[..m], f, like, front);
      NextPage(tables[m], f, like, front, page);
      if front != [] {
        AppendOlder(rows, page, front[m - 1][|front[m - 1]| - 1]);
        assert forall i :: 0 <= i < |page| ==> Below(front, page[i]);
      } else {
        assert rows == [] && rows + page == page;
      }
    }
  }

  lemma AppendOlder(rows: seq<Row>, page: seq<Row>, last: Row)
    requires Newest(rows) && Newest(page) && LastIs(rows, last)
    requires forall i :: 0 <= i < |page| ==> Older(page[i], last)
    ensures Newest(rows + page)
  {
    forall i, j | 0 <= i < |rows| && 0 <= j < |page|
      ensures Older(page[j], rows[i])
    {
      if i < |rows| - 1 {
        OlderTransitive(page[j], last, rows[i]);
      }
    }
  }

  /** A wanted row of the first table is visited, or older than all visited so far. */
  lemma {:induction false} SeenOrOlder(tables: seq<set<Row>>, f: Filter, like: (string, string) -> bool,
                                       pages: seq<seq<Row>>, r: Row)
    requires Walk(tables, f, like, pages) && pages != []
    requires r in tables[0] && Wanted(f, like, r) && r !in Visited(pages)
    ensures |pages[|pages| - 1]| == f.limit && Older(r, pages[|pages| - 1][f.limit - 1])
    decreases |pages|
  {
    hide Wanted, AnswersFilter, Walk, Newest, Older;
    var m := |pages| - 1;
    var front := pages[..m];
    GrowingTables(tables, f, like, pages);
    WalkFront(tables, f, like, pages);
    NextPage(tables[m], f, like, front, pages[m]);
    assert r !in pages[m] && r !in Visited(front);
    if front != [] {
      SeenOrOlder(tables[..m], f, like, front, r);
    }
  }

  lemma NewestDistinct(rows: seq<Row>)
    requires Newest(rows)
    ensures forall i, j :: 0 <= i < j < |rows| ==> rows[i] != rows[j]
  {
  }

  /** A finished walk visits every row that existed at the start and matches the
      filter, exactly once, in strictly descending order, whatever was inserted
      between the requests. */
  lemma WalkIsComplete(tables: seq<set<Row>>, f: Filter, like: (string, string) -> bool, pages: seq<seq<Row>>)
    requires Walk(tables, f, like, pages) && Finished(f, pages)
    ensures Newest(Visited(pages))
    ensures forall r :: r in tables[0] && Wanted(f, like, r) ==> multiset(Visited(pages))[r] == 1
    ensures forall r :: r in Visited(pages) ==> Wanted(f, like, r) && r in tables[|tables| - 1]
  {
    VisitedInOrder(tables, f, like, pages);
    forall r | r in tables[0] && Wanted(f, like, r)
      ensures multiset(Visited(pages))[r] == 1
    {
      if r !in Visited(pages) {
        SeenOrOlder(tables, f, like, pages, r);
      }
      NewestDistinct(Visited(pages));
      OccursOnce(Visited(pages), r);
    }
  }

  lemma OccursOnce(rows: seq<Row>, r: Row)
    requires r in rows && forall i, j :: 0 <= i < j < |rows| ==> rows[i] != rows[j]
    ensures multiset(rows)[r] == 1
  {
    var k :| 0 <= k < |rows| && rows[k] == r;
    assert rows == rows[..k] + [r] + rows[k + 1..];
    assert r !in rows[..k] && r !in rows[k + 1..];
    assert multiset(rows[..k])[r] == 0 && multiset(rows[k + 1..])[r] == 0;
    assert multiset(rows) == multiset(rows[..k]) + multiset{r} + multiset(rows[k + 1..]);
  }

  // ----- termination

  /** Rows inserted after the first request are newer than all that were there. */
  ghost predicate InsertedLater(tables: seq<set<Row>>) {
    forall i, r, s :: 0 <= i < |tables| && r in tables[i] && r !in tables[0] && s in tables[0] ==> Older(s, r)
  }

  lemma OldBelowOld(tables: seq<set<Row>>, i: nat, r: Row, last: Row)
    requires InsertedLater(tables) && i < |tables| && last in tables[0]
    requires r in tables[i] && Older(r, last)
    ensures r in tables[0]
  {
  }

  lemma {:induction false} VisitsOnlyOld(tables: seq<set<Row>>, f: Filter, like: (string, string) -> bool,
                                         pages: seq<seq<Row>>)
    requires Walk(tables, f, like, pages) && InsertedLater(tables) && pages != []
    ensures forall r :: r in Visited(pages) ==> r in tables[0]
  {
    hide Wanted, AnswersFilter, Walk;
    var m := |pages| - 1;
    var front := pages[..m];
    GrowingTables(tables, f, like, pages);
    WalkFront(tables, f, like, pages);
    NextPage(tables[m], f, like, front, pages[m]);
    if front != [] {
      VisitsOnlyOld(tables[..m], f, like, front);
      VisitedInOrder(tables[..m], f, like, front);
      var last := front[m - 1][|front[m - 1]| - 1];
      assert last == Visited(front)[|Visited(front)| - 1];
      forall r | r in pages[m]
        ensures r in tables[0]
      {
        assert Below(front, r);
        OldBelowOld(tables, m, r, last);
      }
    } else {
      assert Visited(front) == [];
    }
  }

  lemma {:induction false} FullPages(f: Filter, pages: seq<seq<Row>>)
    requires forall page :: page in pages ==> |page| >= f.limit
    ensures |Visited(pages)| >= f.limit * |pages|
  {
    if pages != [] {
      var front, last := pages[..|pages| - 1], pages[|pages| - 1];
      FullPages(f, front);
      assert last in pages;
      OnePageMore(f.limit, |front|);
    }
  }

  lemma OnePageMore(limit: int, n: int)
    ensures limit * (n + 1) == limit * n + limit
  {
  }

  lemma {:induction false} DistinctFit(rows: seq<Row>, table: set<Row>)
    requires forall i, j :: 0 <= i < j < |rows| ==> rows[i] != rows[j]
    requires forall r :: r in rows ==> r in table
    ensures |rows| <= |table|
  {
    if rows != [] {
      var n := |rows| - 1;
      assert rows[n] in rows && rows[n] !in rows[..n];
      DistinctFit(rows[..n], table - {rows[n]});
    }
  }

  /** Matching rows that were there at the start. */
  ghost function Early(tables: seq<set<Row>>, f: Filter, like: (string, string) -> bool): set<Row>
    requires tables != []
  {
    set r | r in tables[0] && Wanted(f, like, r)
  }

  /** Matching rows that came in meanwhile, but older than the first row shown. */
  ghost function Late(tables: seq<set<Row>>, f: Filter, like: (string, string) -> bool, first: Row): set<Row>
    requires tables != []
  {
    set r | r in tables[|tables| - 1] && r !in tables[0] && Wanted(f, like, r) && Older(r, first)
  }

  lemma FirstIsNewest(rows: seq<Row>, i: nat)
    requires Newest(rows) && i < |rows|
    ensures rows[i] == rows[0] || Older(rows[i], rows[0])
  {
  }

  lemma {:induction false} VisitedStarts(pages: seq<seq<Row>>)
    requires pages != [] && pages[0] != []
    ensures Visited(pages) != [] && Visited(pages)[0] == pages[0][0]
  {
    if |pages| > 1 {
      VisitedStarts(pages[..|pages| - 1]);
    } else {
      assert Visited(pages[..0]) == [];
    }
  }

  lemma FirstPageIsEarly(tables: seq<set<Row>>, f: Filter, like: (string, string) -> bool, pages: seq<seq<Row>>)
    requires Walk(tables, f, like, pages) && pages != []
    ensures forall r :: r in pages[0] ==> r in tables[0]
  {
    hide Matches;
    assert AnswersFilter(tables[0], Request(f, pages[..0]), like, pages[0]);
  }

  /** Whatever is inserted, and whenever it becomes visible: all that is visited was
      there at the start or lies below the first row shown. */
  lemma VisitsEarlyOrLate(tables: seq<set<Row>>, f: Filter, like: (string, string) -> bool, pages: seq<seq<Row>>)
    requires Walk(tables, f, like, pages) && pages != [] && pages[0] != []
    ensures forall r :: r in Visited(pages) ==> r in Early(tables, f, like) + Late(tables, f, like, pages[0][0])
  {
    hide Wanted, AnswersFilter, Newest, Older;
    VisitedInOrder(tables, f, like, pages);
    VisitedStarts(pages);
    FirstPageIsEarly(tables, f, like, pages);
    hide Walk;
    forall r | r in Visited(pages)
      ensures r in Early(tables, f, like) + Late(tables, f, like, pages[0][0])
    {
      var i :| 0 <= i < |Visited(pages)| && Visited(pages)[i] == r;
      FirstIsNewest(Visited(pages), i);
    }
  }

  lemma FrontLate(tables: seq<set<Row>>, f: Filter, like: (string, string) -> bool, pages: seq<seq<Row>>, first: Row)
    requires Walk(tables, f, like, pages) && |pages| > 1
    ensures Early(tables[..|tables| - 1], f, like) == Early(tables, f, like)
    ensures Late(tables[..|tables| - 1], f, like, first) <= Late(tables, f, like, first)
  {
    hide Wanted, AnswersFilter, Older;
    GrowingTables(tables, f, like, pages);
  }

  /** A walk ends, with no assumption on what is inserted: the pages before the last are
      full of matching rows that were there at the start or, having been committed late,
      lie below the first row shown. */
  lemma WalkBounded(tables: seq<set<Row>>, f: Filter, like: (string, string) -> bool, pages: seq<seq<Row>>)
    requires Walk(tables, f, like, pages) && |pages| > 1
    ensures pages[0] != []
    ensures f.limit * (|pages| - 1) <= |Early(tables, f, like)| + |Late(tables, f, like, pages[0][0])|
  {
    var m := |pages| - 1;
    var front := pages[..m];
    PagesAreFull(tables, f, like, pages);
    FullPages(f, front);
    hide Wanted, AnswersFilter, Newest, Older, Walk;
    WalkFront(tables, f, like, pages);
    VisitedInOrder(tables[..m], f, like, front);
    VisitsEarlyOrLate(tables[..m], f, like, front);
    FrontLate(tables, f, like, pages, pages[0][0]);
    NewestDistinct(Visited(front));
    DistinctFit(Visited(front), Early(tables, f, like) + Late(tables, f, like, pages[0][0]));
    UnionSize(Early(tables, f, like), Late(tables, f, like, pages[0][0]));
  }

  lemma UnionSize<T>(a: set<T>, b: set<T>)
    ensures |a + b| <= |a| + |b|
  {
    assert a + b == a + (b - a) && |a + (b - a)| == |a| + |b - a|;
    SubsetSize(b - a, b);
  }

  lemma PagesAreFull(tables: seq<set<Row>>, f: Filter, like: (string, string) -> bool, pages: seq<seq<Row>>)
    requires Walk(tables, f, like, pages) && pages != []
    ensures |tables| == |pages| && f.limit >= 1
    ensures forall page :: page in pages[..|pages| - 1] ==> |page| >= f.limit
  {
    hide AnswersFilter, UniqueIds, Request;
    forall i | 0 <= i < |pages| - 1
      ensures |pages[i]| >= f.limit
    {
      assert NextCursor(pages[i], f.limit).Some?;
    }
  }

  /** When rows become visible in the order of their keys, nothing comes late. */
  lemma WalkTerminates(tables: seq<set<Row>>, f: Filter, like: (string, string) -> bool, pages: seq<seq<Row>>)
    requires Walk(tables, f, like, pages) && InsertedLater(tables) && pages != []
    ensures f.limit * (|pages| - 1) <= |tables[0]|
  {
    PagesAreFull(tables, f, like, pages);
    if |pages| > 1 {
      WalkBounded(tables, f, like, pages);
      FirstPageIsEarly(tables, f, like, pages);
      NothingLate(tables, f, like, pages[0][0]);
      hide Wanted;
      SubsetSize(Early(tables, f, like), tables[0]);
    }
  }

  lemma NothingLate(tables: seq<set<Row>>, f: Filter, like: (string, string) -> bool, first: Row)
    requires tables != [] && InsertedLater(tables) && first in tables[0]
    ensures Late(tables, f, like, first) == {}
  {
    hide Wanted;
    var n := |tables| - 1;
    forall r | r in tables[n] && r !in tables[0]
      ensures !Older(r, first)
    {
      assert Older(first, r);
    }
  }

  // ----- the same through compiled queries

  /** What `BuildListAuditQuery` promises about its result. */
  ghost predicate Compiled(f: Filter, q: Query, like: (string, string) -> bool) {
    && AllPlaced(q.conds, q.args)
    && (forall r :: AllHold(q.conds, q.args, r, like) <==> Matches(f, r, like))
    && q.limitAt == |q.args| > 0 && q.args[q.limitAt - 1] == Number(EffectiveLimit(f.limit))
  }

  /** The database answers a query: rows that satisfy its conditions, newest first, up to
      the number its last placeholder stands for. */
  ghost predicate AnswersQuery(table: set<Row>, q: Query, like: (string, string) -> bool, page: seq<Row>) {
    && AllPlaced(q.conds, q.args) && InRange(q.args, q.limitAt)
    && q.args[q.limitAt - 1].Number? && q.args[q.limitAt - 1].n >= 0
    && Answers(table, r => AllPlaced(q.conds, q.args) && AllHold(q.conds, q.args, r, like),
               q.args[q.limitAt - 1].n, page)
  }

  /** The queries of a client that follows the cursors, and the pages it gets. */
  ghost predicate QueryWalk(tables: seq<set<Row>>, f: Filter, like: (string, string) -> bool, queries: seq<Query>,
                            pages: seq<seq<Row>>)
  {
    && |tables| == |queries| == |pages| && 1 <= f.limit <= 200
    && (forall i :: 0 <= i < |tables| ==> UniqueIds(tables[i]))
    && (forall i, j :: 0 <= i <= j < |tables| ==> tables[i] <= tables[j])
    && (forall i :: 0 <= i < |pages| ==> Compiled(Request(f, pages[..i]), queries[i], like))
    && (forall i :: 0 <= i < |pages| ==> AnswersQuery(tables[i], queries[i], like, pages[i]))
    && (forall i :: 0 <= i < |pages| - 1 ==> NextCursor(pages[i], f.limit).Some?)
  }

  lemma QueryAnswersFilter(table: set<Row>, f: Filter, like: (string, string) -> bool, q: Query, page: seq<Row>)
    requires Compiled(f, q, like) && AnswersQuery(table, q, like, page)
    ensures AnswersFilter(table, f, like, page)
  {
    hide Matches, AllHold, Newest;
  }

  lemma QueryWalkIsWalk(tables: seq<set<Row>>, f: Filter, like: (string, string) -> bool, queries: seq<Query>,
                        pages: seq<seq<Row>>)
    requires QueryWalk(tables, f, like, queries, pages)
    ensures Walk(tables, f, like, pages)
  {
    hide Compiled, AnswersQuery, AnswersFilter, UniqueIds, Request;
    forall i | 0 <= i < |pages|
      ensures AnswersFilter(tables[i], Request(f, pages[..i]), like, pages[i])
    {
      assert Compiled(Request(f, pages[..i]), queries[i], like);
      QueryAnswersFilter(tables[i], Request(f, pages[..i]), like, queries[i], pages[i]);
    }
  }

  /** The listing as a whole, from the filter over SQL conditions with positional
      arguments to pages and cursors: a client that follows the cursors to the end sees
      every matching row that was there at the start exactly once, newest first, and
      nothing that does not match. */
  lemma ListingIsComplete(tables: seq<set<Row>>, f: Filter, like: (string, string) -> bool, queries: seq<Query>,
                          pages: seq<seq<Row>>)
    requires QueryWalk(tables, f, like, queries, pages) && Finished(f, pages)
    ensures Newest(Visited(pages))
    ensures forall r :: r in tables[0] && Wanted(f, like, r) ==> multiset(Visited(pages))[r] == 1
    ensures forall r :: r in Visited(pages) ==> Wanted(f, like, r) && r in tables[|tables| - 1]
    ensures |pages| > 1 ==> pages[0] != []
    ensures |pages| > 1 ==> f.limit * (|pages| - 1) <= |Early(tables, f, like)| + |Late(tables, f, like, pages[0][0])|
  {
    hide Newest, Wanted, Early, Late;
    QueryWalkIsWalk(tables, f, like, queries, pages);
    WalkIsComplete(tables, f, like, pages);
    if |pages| > 1 {
      WalkBounded(tables, f, like, pages);
    }
  }

  /** One request: the filter is compiled, and a database that answers the query answers
      the filter. */
  method ListAuditEvents(f: Filter, ghost like: (string, string) -> bool, ghost table: set<Row>,
                         database: Query -> seq<Row>)
    returns (rows: seq<Row>, q: Query)
    ensures Compiled(f, q, like) && rows == database(q)
    ensures AnswersQuery(table, q, like, rows) ==> AnswersFilter(table, f, like, rows)
  {
    hide Matches, AllHold, Answers;
    q := BuildListAuditQuery(f, like);
    rows := database(q);
    if AnswersQuery(table, q, like, rows) {
      QueryAnswersFilter(table, f, like, q, rows);
    }
  }
}
