/** Following the cursors of a paged listing (query/app/catalog_store.py).

    Only what a cursor leaves matters here, so crawls are treated for any such function;
    that of a listing comes in at the end. */
module CatalogCrawl {
  import opened PythonLists
  import opened Quotients
  import opened Options
  import opened Sorting
  import opened CatalogPages

  /** The rows each cursor leaves. */
  type Rest = string -> seq<Doc>

  /** The page the store serves for each cursor. */
  type Pager = string -> Page

  /** What a caller has after at most n requests, and whether the last had no cursor to follow. */
  function CrawlBy(at: Pager, cursor: string, n: nat): (seq<Doc>, bool)
    decreases n
  {
    if n == 0 then ([], false)
    else
      match at(cursor)
      case IndexError => ([], false)
      case Page(docs, None) => (docs, true)
      case Page(docs, Some(next)) =>
        var (more, finished) := CrawlBy(at, next, n - 1);
        (docs + more, finished)
  }

  /** Pages are cut from what the cursor leaves. */
  ghost predicate ServedAt(at: Pager, rest: Rest, limit: int, cursor: string) {
    at(cursor) == CutPage(rest(cursor), limit)
  }

  ghost predicate Served(at: Pager, rest: Rest, limit: int) {
    forall cursor :: ServedAt(at, rest, limit, cursor)
  }

  lemma CutLast(r: seq<Doc>, limit: nat)
    requires limit >= 1 && |r| <= limit
    ensures CutPage(r, limit) == Page(r, None)
  {
  }

  lemma CutFull(r: seq<Doc>, limit: nat)
    requires limit >= 1 && |r| > limit
    ensures CutPage(r, limit) == Page(r[..limit], Some(r[limit - 1].document))
  {
  }

  lemma CrawlLast(at: Pager, rest: Rest, limit: nat, cursor: string, n: nat)
    requires Served(at, rest, limit)
    requires limit >= 1 && |rest(cursor)| <= limit && n >= 1
    ensures CrawlBy(at, cursor, n) == (rest(cursor), true)
  {
    CutLast(rest(cursor), limit);
    assert ServedAt(at, rest, limit, cursor);
  }

  lemma CrawlNext(at: Pager, rest: Rest, limit: nat, cursor: string, n: nat)
    requires Served(at, rest, limit)
    requires limit >= 1 && |rest(cursor)| > limit && n >= 1
    ensures var more := CrawlBy(at, rest(cursor)[limit - 1].document, n - 1);
            CrawlBy(at, cursor, n) == (rest(cursor)[..limit] + more.0, more.1)
  {
    CutFull(rest(cursor), limit);
    assert ServedAt(at, rest, limit, cursor);
  }

  // ----- cursors that leave the rows behind them -----

  /** The cursor of each page boundary from the k-th row on leaves the rows after it. */
  ghost predicate BoundariesWork(rest: Rest, rows: seq<Doc>, limit: nat, k: nat)
    requires limit >= 1
    decreases |rows| - k
  {
    k + limit < |rows| ==>
      rest(rows[k + limit - 1].document) == rows[k + limit..] && BoundariesWork(rest, rows, limit, k + limit)
  }

  function PageCount(n: nat, limit: nat): nat
    requires limit >= 1
  {
    if n == 0 then 1 else (n + limit - 1) / limit
  }

  /** The same number, counted page by page. */
  function Pages(n: nat, limit: nat): nat
    requires limit >= 1
    decreases n
  {
    if n <= limit then 1 else 1 + Pages(n - limit, limit)
  }

  lemma {:induction false} PagesIsPageCount(n: nat, limit: nat)
    requires limit >= 1
    ensures Pages(n, limit) == PageCount(n, limit)
    decreases n
  {
    if n <= limit {
      if n > 0 { QuotientUnique(n + limit - 1, limit, 1, n - 1); }
    } else {
      var q, r := (n - 1) / limit, (n - 1) % limit;
      assert n - 1 == q * limit + r;
      assert n + limit - 1 == (q + 1) * limit + r;
      QuotientUnique(n + limit - 1, limit, q + 1, r);
      PagesIsPageCount(n - limit, limit);
    }
  }

  lemma {:induction false} CrawlFrom(at: Pager, rest: Rest, rows: seq<Doc>, limit: nat, k: nat, cursor: string)
    requires Served(at, rest, limit)
    requires limit >= 1 && k <= |rows| && rest(cursor) == rows[k..] && BoundariesWork(rest, rows, limit, k)
    ensures CrawlBy(at, cursor, Pages(|rows| - k, limit)) == (rows[k..], true)
    decreases |rows| - k
  {
    if |rows| - k <= limit {
      CrawlLast(at, rest, limit, cursor, 1);
    } else {
      CrawlFrom(at, rest, rows, limit, k + limit, rows[k + limit - 1].document);
      OnePageMore(at, rest, rows, limit, k, cursor, Pages(|rows| - k - limit, limit));
    }
  }

  lemma OnePageMore(at: Pager, rest: Rest, rows: seq<Doc>, limit: nat, k: nat, cursor: string, n: nat)
    requires Served(at, rest, limit)
    requires limit >= 1 && k + limit < |rows| && rest(cursor) == rows[k..]
    requires CrawlBy(at, rows[k + limit - 1].document, n) == (rows[k + limit..], true)
    ensures CrawlBy(at, cursor, n + 1) == (rows[k..], true)
  {
    CrawlNext(at, rest, limit, cursor, n + 1);
    assert rows[k..][..limit] + rows[k + limit..] == rows[k..];
  }

  /** Fewer requests than pages do not finish. */
  lemma {:induction false} NotSooner(at: Pager, rest: Rest, rows: seq<Doc>, limit: nat, k: nat, cursor: string, n: nat)
    requires Served(at, rest, limit)
    requires limit >= 1 && k <= |rows| && rest(cursor) == rows[k..] && BoundariesWork(rest, rows, limit, k)
    requires n < Pages(|rows| - k, limit)
    ensures !CrawlBy(at, cursor, n).1
    decreases n
  {
    if n > 0 {
      CrawlNext(at, rest, limit, cursor, n);
      NotSooner(at, rest, rows, limit, k + limit, rows[k + limit - 1].document, n - 1);
    }
  }

  /** Where the cursors of the page boundaries work, following them gives every row once, in
      order, in exactly the expected number of requests. */
  lemma WorkingCrawlIsExact(at: Pager, rest: Rest, rows: seq<Doc>, limit: nat)
    requires Served(at, rest, limit)
    requires limit >= 1 && rest("") == rows && BoundariesWork(rest, rows, limit, 0)
    ensures CrawlBy(at, "", PageCount(|rows|, limit)) == (rows, true)
    ensures forall n: nat :: n < PageCount(|rows|, limit) ==> !CrawlBy(at, "", n).1
  {
    PagesIsPageCount(|rows|, limit);
    assert rows[0..] == rows;
    CrawlFrom(at, rest, rows, limit, 0, "");
    forall n: nat | n < PageCount(|rows|, limit) ensures !CrawlBy(at, "", n).1 {
      NotSooner(at, rest, rows, limit, 0, "", n);
    }
  }

  // ----- what a complete crawl shows -----

  /** A cursor leaves only documents beyond it. */
  ghost predicate LeavesBeyond(rest: Rest) {
    forall cursor, d :: cursor != "" && d in rest(cursor) ==> Beyond(d, cursor)
  }

  /** A crawl that has finished gives the same with more requests to spare. */
  lemma {:induction false} FinishedStays(at: Pager, cursor: string, n: nat, m: nat)
    requires n <= m && CrawlBy(at, cursor, n).1
    ensures CrawlBy(at, cursor, m) == CrawlBy(at, cursor, n)
    decreases n
  {
    var page := at(cursor);
    if page.Page? && page.next.Some? { FinishedStays(at, page.next.value, n - 1, m - 1); }
  }

  /** A crawl that ends with all rows is not restarted by an empty cursor on its way. */
  lemma EmptyCursorRestarts(at: Pager, rows: seq<Doc>, k: nat, n: nat, whole: nat)
    requires 0 < k <= |rows| && CrawlBy(at, "", whole) == (rows, true)
    ensures CrawlBy(at, "", n) != (rows[k..], true)
  {
    if CrawlBy(at, "", n).1 {
      FinishedStays(at, "", n, n + whole);
      FinishedStays(at, "", whole, n + whole);
      assert |rows[k..]| < |rows|;
    }
  }

  lemma BeyondTransitive(docs: seq<Doc>, middle: Doc, cursor: string)
    requires Beyond(middle, cursor) && forall d :: d in docs ==> Beyond(d, middle.document)
    ensures forall d :: d in docs ==> Beyond(d, cursor)
  {
    StringLeIsTotalOrder();
  }

  /** Everything collected from a cursor on is beyond it. */
  lemma {:induction false} CollectedBeyond(at: Pager, rest: Rest, limit: nat, cursor: string, n: nat)
    requires Served(at, rest, limit)
    requires LeavesBeyond(rest) && limit >= 1 && cursor != "" && CrawlBy(at, cursor, n).1
    ensures forall d :: d in CrawlBy(at, cursor, n).0 ==> Beyond(d, cursor)
    decreases n
  {
    var r := rest(cursor);
    if |r| <= limit {
      CrawlLast(at, rest, limit, cursor, n);
    } else {
      CrawlNext(at, rest, limit, cursor, n);
      assert r[limit - 1] in r;
      CollectedBeyond(at, rest, limit, r[limit - 1].document, n - 1);
      BeyondTransitive(CrawlBy(at, r[limit - 1].document, n - 1).0, r[limit - 1], cursor);
      assert forall d :: d in r[..limit] ==> d in r;
    }
  }

  lemma FirstOfRest(at: Pager, rest: Rest, rows: seq<Doc>, limit: nat, k: nat, cursor: string, n: nat)
    requires Served(at, rest, limit)
    requires limit >= 1 && k < |rows| && CrawlBy(at, cursor, n) == (rows[k..], true)
    ensures rest(cursor) != [] && rest(cursor)[0] == rows[k]
  {
    var r := rest(cursor);
    if |r| <= limit {
      CrawlLast(at, rest, limit, cursor, n);
    } else {
      CrawlNext(at, rest, limit, cursor, n);
      assert (r[..limit] + CrawlBy(at, r[limit - 1].document, n - 1).0)[0] == r[0];
    }
  }

  /** When all rows from k on are beyond the cursor before them, and it leaves the k-th row
      first, it leaves exactly those rows. */
  ghost predicate LeavesRest(rest: Rest, rows: seq<Doc>, k: nat)
    requires 1 <= k < |rows|
  {
    var cursor := rows[k - 1].document;
    && cursor != ""
    && (forall d :: d in rows[k..] ==> Beyond(d, cursor))
    && rest(cursor) != [] && rest(cursor)[0] == rows[k]
    ==> rest(cursor) == rows[k..]
  }

  ghost predicate AllLeaveRest(rest: Rest, rows: seq<Doc>) {
    forall k :: 1 <= k < |rows| ==> LeavesRest(rest, rows, k)
  }

  /** The cursor a caller has after k rows. */
  function CursorAfter(rows: seq<Doc>, k: nat): string
    requires k <= |rows|
  {
    if k == 0 then "" else rows[k - 1].document
  }

  /** That cursor leaves the rows from k on, and n requests collect exactly them. */
  ghost predicate Collects(at: Pager, rest: Rest, rows: seq<Doc>, n: nat, k: nat) {
    && k <= |rows| && rest(CursorAfter(rows, k)) == rows[k..]
    && CrawlBy(at, CursorAfter(rows, k), n) == (rows[k..], true)
  }

  lemma NextCollects(at: Pager, rest: Rest, rows: seq<Doc>, limit: nat, n: nat, k: nat)
    requires Served(at, rest, limit)
    requires limit >= 1 && k + limit < |rows| && Collects(at, rest, rows, n, k)
    ensures n >= 1 && CrawlBy(at, CursorAfter(rows, k + limit), n - 1) == (rows[k + limit..], true)
  {
    CrawlNext(at, rest, limit, CursorAfter(rows, k), n);
    var more := CrawlBy(at, CursorAfter(rows, k + limit), n - 1);
    SameTail(rows[k..][..limit], more.0, rows[k + limit..], rows[k..]);
  }

  lemma BoundaryWorks(at: Pager, rest: Rest, rows: seq<Doc>, limit: nat, n: nat, k: nat, whole: nat)
    requires Served(at, rest, limit)
    requires LeavesBeyond(rest) && limit >= 1 && 1 <= k < |rows| && LeavesRest(rest, rows, k)
    requires CrawlBy(at, CursorAfter(rows, k), n) == (rows[k..], true)
    requires CrawlBy(at, "", whole) == (rows, true)
    ensures rest(CursorAfter(rows, k)) == rows[k..]
  {
    EmptyCursorRestarts(at, rows, k, n, whole);
    CollectedBeyond(at, rest, limit, CursorAfter(rows, k), n);
    FirstOfRest(at, rest, rows, limit, k, CursorAfter(rows, k), n);
  }

  lemma CollectsOn(at: Pager, rest: Rest, rows: seq<Doc>, limit: nat, n: nat, k: nat, whole: nat)
    requires Served(at, rest, limit)
    requires LeavesBeyond(rest) && AllLeaveRest(rest, rows) && limit >= 1 && k + limit < |rows|
    requires Collects(at, rest, rows, n, k) && CrawlBy(at, "", whole) == (rows, true)
    ensures n >= 1 && rest(rows[k + limit - 1].document) == rows[k + limit..]
    ensures Collects(at, rest, rows, n - 1, k + limit)
  {
    NextCollects(at, rest, rows, limit, n, k);
    BoundaryWorks(at, rest, rows, limit, n - 1, k + limit, whole);
  }

  lemma {:induction false} CompleteShowsWork(at: Pager, rest: Rest, rows: seq<Doc>, limit: nat, n: nat, k: nat,
                                             whole: nat)
    requires Served(at, rest, limit) && LeavesBeyond(rest) && AllLeaveRest(rest, rows) && limit >= 1
    requires Collects(at, rest, rows, n, k) && CrawlBy(at, "", whole) == (rows, true)
    ensures BoundariesWork(rest, rows, limit, k)
    decreases n
  {
    if k + limit < |rows| {
      CollectsOn(at, rest, rows, limit, n, k, whole);
      CompleteShowsWork(at, rest, rows, limit, n - 1, k + limit, whole);
    }
  }

  lemma SameTail(a: seq<Doc>, b: seq<Doc>, c: seq<Doc>, whole: seq<Doc>)
    requires a + b == whole && |a| <= |whole| && c == whole[|a|..]
    ensures b == c
  {
    assert b == (a + b)[|a|..];
  }

  // ----- pages of one row -----

  predicate Increasing(rows: seq<Doc>) {
    forall i, j :: 0 <= i < j < |rows| ==> StringLt(rows[i].document, rows[j].document)
  }

  /** No document but the last has an empty id. */
  predicate Named(rows: seq<Doc>) {
    forall i :: 0 <= i < |rows| - 1 ==> rows[i].document != ""
  }

  lemma StepsIncrease(d: Doc, rest: seq<Doc>)
    requires Increasing(rest) && forall r :: r in rest ==> Beyond(r, d.document)
    ensures Increasing([d] + rest)
  {
    var all := [d] + rest;
    forall i, j | 0 <= i < j < |all| ensures StringLt(all[i].document, all[j].document) {
      if i == 0 { assert rest[j - 1] in rest; } else { assert all[i] == rest[i - 1] && all[j] == rest[j - 1]; }
    }
  }

  lemma {:induction false} OneByOne(at: Pager, rest: Rest, cursor: string, n: nat)
    requires Served(at, rest, 1)
    requires LeavesBeyond(rest) && cursor != "" && CrawlBy(at, cursor, n).1
    ensures Increasing(CrawlBy(at, cursor, n).0)
    decreases n
  {
    var r := rest(cursor);
    if |r| <= 1 {
      CrawlLast(at, rest, 1, cursor, n);
    } else {
      CrawlNext(at, rest, 1, cursor, n);
      assert r[0] in r && r[..1] == [r[0]];
      OneByOne(at, rest, r[0].document, n - 1);
      CollectedBeyond(at, rest, 1, r[0].document, n - 1);
      StepsIncrease(r[0], CrawlBy(at, r[0].document, n - 1).0);
    }
  }

  /** A page that ends on an empty id sends the caller back to the first page. */
  lemma {:induction false} EmptyIdLoops(at: Pager, rest: Rest, n: nat)
    requires Served(at, rest, 1)
    requires |rest("")| > 1 && rest("")[0].document == ""
    ensures !CrawlBy(at, "", n).1
  {
    if n > 0 {
      EmptyIdLoops(at, rest, n - 1);
      CrawlNext(at, rest, 1, "", n);
    }
  }

  lemma CompleteIncreases(at: Pager, rest: Rest, rows: seq<Doc>, n: nat)
    requires Served(at, rest, 1)
    requires LeavesBeyond(rest) && rest("") == rows && |rows| > 1 && CrawlBy(at, "", n) == (rows, true)
    ensures Increasing(rows) && Named(rows)
  {
    var next := rows[0].document;
    CrawlNext(at, rest, 1, "", n);
    if next == "" { EmptyIdLoops(at, rest, n); }
    OneByOne(at, rest, next, n - 1);
    CollectedBeyond(at, rest, 1, next, n - 1);
    var more := CrawlBy(at, next, n - 1).0;
    assert rows == [rows[0]] + more;
    StepsIncrease(rows[0], more);
    forall i | 0 <= i < |rows| - 1 ensures rows[i].document != "" {
      if i > 0 { assert rows[i] in more; }
    }
  }

  // ----- crawling a listing -----

  function RestOf(rows: seq<Doc>): Rest { cursor => Remaining(rows, cursor) }

  function PagerOf(rows: seq<Doc>, limit: int): Pager { cursor => PageOf(rows, limit, cursor) }

  function Crawl(rows: seq<Doc>, limit: int, n: nat): (seq<Doc>, bool) { CrawlBy(PagerOf(rows, limit), "", n) }

  lemma ListingIsServed(rows: seq<Doc>, limit: int)
    ensures Served(PagerOf(rows, limit), RestOf(rows), limit)
  {
    forall cursor ensures ServedAt(PagerOf(rows, limit), RestOf(rows), limit, cursor) {}
  }

  ghost predicate Complete(rows: seq<Doc>, limit: int) {
    exists n: nat :: Crawl(rows, limit, n) == (rows, true)
  }

  lemma {:induction false} FilterIsSuffix<T>(xs: seq<T>, keep: T -> bool, k: nat)
    requires k <= |xs|
    requires forall i :: 0 <= i < |xs| ==> (keep(xs[i]) <==> i >= k)
    ensures Filter(xs, keep) == xs[k..]
  {
    if xs != [] {
      var front := xs[..|xs| - 1];
      if k < |xs| {
        FilterIsSuffix(front, keep, k);
        assert xs[k..] == front[k..] + [xs[|xs| - 1]];
      } else {
        FilterIsSuffix(front, keep, |front|);
      }
    }
  }

  lemma RemainingIsBeyond(rows: seq<Doc>)
    ensures LeavesBeyond(RestOf(rows))
  {
    forall cursor, d | cursor != "" && d in RestOf(rows)(cursor) ensures Beyond(d, cursor) {
      FilterMembers(rows, (d: Doc) => Beyond(d, cursor));
    }
  }

  /** The cursor that ends the first k of increasing rows leaves the rows after them. */
  lemma CursorLeavesRest(rows: seq<Doc>, k: nat)
    requires Increasing(rows) && 1 <= k <= |rows| && rows[k - 1].document != ""
    ensures Remaining(rows, rows[k - 1].document) == rows[k..]
  {
    var cursor := rows[k - 1].document;
    StringLeIsTotalOrder();
    forall i | 0 <= i < |rows| ensures Beyond(rows[i], cursor) <==> i >= k {
      if i < k - 1 { assert StringLt(rows[i].document, cursor); }
    }
    FilterIsSuffix(rows, (d: Doc) => Beyond(d, cursor), k);
  }

  lemma {:induction false} IncreasingWorks(rows: seq<Doc>, limit: nat, k: nat)
    requires limit >= 1 && Increasing(rows) && Named(rows)
    ensures BoundariesWork(RestOf(rows), rows, limit, k)
    decreases |rows| - k
  {
    if k + limit < |rows| {
      CursorLeavesRest(rows, k + limit);
      IncreasingWorks(rows, limit, k + limit);
    }
  }

  /** With document ids that increase through the rows and are not empty, following the cursors
      gives every row once, in order, in exactly the expected number of requests. */
  lemma CrawlIsExact(rows: seq<Doc>, limit: nat)
    requires limit >= 1 && Increasing(rows) && Named(rows)
    ensures Crawl(rows, limit, PageCount(|rows|, limit)) == (rows, true)
    ensures forall n: nat :: n < PageCount(|rows|, limit) ==> !Crawl(rows, limit, n).1
  {
    IncreasingWorks(rows, limit, 0);
    ListingIsServed(rows, limit);
    WorkingCrawlIsExact(PagerOf(rows, limit), RestOf(rows), rows, limit);
  }

  /** Every page size gives a caller all the rows, each once and in order, exactly when the
      document ids increase through the rows and none but the last is empty.  A listing
      over several collections is sorted by collection first but its cursor is a document
      id, so there the ids must increase across collections too. */
  lemma CrawlCompleteIff(rows: seq<Doc>)
    ensures (forall limit :: limit >= 1 ==> Complete(rows, limit)) <==> Increasing(rows) && Named(rows)
  {
    if Increasing(rows) && Named(rows) {
      forall limit | limit >= 1 ensures Complete(rows, limit) { CrawlIsExact(rows, limit); }
    }
    if Complete(rows, 1) && |rows| > 1 {
      var n: nat :| Crawl(rows, 1, n) == (rows, true);
      RemainingIsBeyond(rows);
      ListingIsServed(rows, 1);
      CompleteIncreases(PagerOf(rows, 1), RestOf(rows), rows, n);
    }
  }

  /** Between two equal rows of a sorted list all have the same document id. */
  lemma SandwichedRow(rows: seq<Doc>, i: nat, k: nat)
    requires Sorted(rows, RowLe) && i < k < |rows| && rows[i] == rows[k]
    ensures !Beyond(rows[k], rows[k - 1].document)
  {
    PairLeIsTotalOrder();
    StringLeIsTotalOrder();
    assert i < k - 1 ==> RowLe(rows[i], rows[k - 1]);
    assert RowLe(rows[k - 1], rows[k]);
  }

  /** No earlier row of a sorted list that is beyond a boundary's cursor equals the next row. */
  lemma EarlierDiffers(rows: seq<Doc>, k: nat, d: Doc)
    requires Sorted(rows, RowLe) && 1 <= k < |rows|
    requires d in Filter(rows[..k], (d: Doc) => Beyond(d, rows[k - 1].document))
    ensures d != rows[k]
  {
    FilterMembers(rows[..k], (d: Doc) => Beyond(d, rows[k - 1].document));
    var i :| 0 <= i < k && rows[..k][i] == d;
    if d == rows[k] { SandwichedRow(rows, i, k); }
  }

  lemma SortedLeavesRest(rows: seq<Doc>, k: nat)
    requires Sorted(rows, RowLe) && 1 <= k < |rows|
    ensures LeavesRest(RestOf(rows), rows, k)
  {
    var cursor, later := rows[k - 1].document, rows[k..];
    if cursor != "" && forall d :: d in later ==> Beyond(d, cursor) {
      var early := RemainingSplits(rows, k, cursor);
      if early != [] { EarlierDiffers(rows, k, early[0]); }
    }
  }

  lemma RemainingSplits(rows: seq<Doc>, k: nat, cursor: string) returns (early: seq<Doc>)
    requires cursor != "" && k <= |rows| && forall d :: d in rows[k..] ==> Beyond(d, cursor)
    ensures early == Filter(rows[..k], (d: Doc) => Beyond(d, cursor))
    ensures Remaining(rows, cursor) == early + rows[k..]
  {
    var keep := (d: Doc) => Beyond(d, cursor);
    var later := rows[k..];
    assert rows == rows[..k] + later;
    FilterAppend(rows[..k], later, keep);
    forall i | 0 <= i < |later| ensures keep(later[i]) { assert later[i] in later; }
    FilterIsSuffix(later, keep, 0);
    early := Filter(rows[..k], keep);
  }

  /** A given page size gives a caller all of a listing's rows, each once and in order, exactly
      when the cursor of each of its page boundaries leaves the rows after it. */
  lemma CrawlCompleteAtIff(rows: seq<Doc>, limit: nat)
    requires limit >= 1 && Sorted(rows, RowLe)
    ensures Complete(rows, limit) <==> BoundariesWork(RestOf(rows), rows, limit, 0)
  {
    if BoundariesWork(RestOf(rows), rows, limit, 0) {
      ListingIsServed(rows, limit);
      WorkingCrawlIsExact(PagerOf(rows, limit), RestOf(rows), rows, limit);
      assert Crawl(rows, limit, PageCount(|rows|, limit)) == (rows, true);
    }
    if Complete(rows, limit) {
      var whole: nat :| Crawl(rows, limit, whole) == (rows, true);
      RemainingIsBeyond(rows);
      assert rows[0..] == rows;
      forall k | 1 <= k < |rows| ensures LeavesRest(RestOf(rows), rows, k) { SortedLeavesRest(rows, k); }
      ListingIsServed(rows, limit);
      CompleteShowsWork(PagerOf(rows, limit), RestOf(rows), rows, limit, whole, 0, whole);
    }
  }

  /** Two collections in the wrong order of document ids: one row a page never shows the second. */
  lemma CursorSkipsCollection(a: Doc, b: Doc)
    requires a.tenant == b.tenant && a.collection == "c1" && b.collection == "c2"
    requires a.document == "d2" && b.document == "d1"
    ensures Sorted([a, b], RowLe) && !Complete([a, b], 1)
  {
    var rows := [a, b];
    assert !StringLe("c2", "c1") && !StringLe("d2", "d1");
    assert StringLe("c1", "c2") && StringLe("d1", "d2");
    CrawlCompleteAtIff(rows, 1);
    FilterMembers(rows, (d: Doc) => Beyond(d, "d2"));
    assert rows[1..][0] == b && !Beyond(b, "d2");
  }

  /** Within one collection whose document ids are unique, rows always increase: there every
      page size gives all the readable documents exactly when no id but the last is empty. */
  lemma OneCollectionCrawlIff(s: Store, tenant: string, principal: string, collection: string, document: Option<string>)
    requires DistinctBy(s.documents, (d: Doc) => (d.tenant, d.collection, d.document))
    ensures var rows := Rows(s, tenant, principal, Some(collection), document);
            && Increasing(rows)
            && ((forall limit :: limit >= 1 ==> Complete(rows, limit)) <==> Named(rows))
  {
    var rows := Rows(s, tenant, principal, Some(collection), document);
    RowsAreReadable(s, tenant, principal, Some(collection), document);
    StringLeIsTotalOrder();
    forall i, j | 0 <= i < j < |rows| ensures StringLt(rows[i].document, rows[j].document) {
      assert rows[i] in rows && rows[j] in rows;
      assert RowLe(rows[i], rows[j]);
    }
    CrawlCompleteIff(rows);
  }
}
