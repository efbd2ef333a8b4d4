/** Cursor pagination of the job list: what a client that follows the cursor to the end gets to see. */
module Pagination {
  import opened Common

  /** The columns the listing looks at. Creation times are milliseconds, ids stand for their rank in the id order. */
  datatype Job = Job(id: nat, createdAt: int, projectId: string, queueId: string, jobType: string, status: JobStatus)

  datatype ListQuery = ListQuery(
    cursor: Option<int>, limit: Option<nat>, status: Option<JobStatus>, queueId: Option<string>,
    jobType: Option<string>, from: Option<int>, to: Option<int>)

  /** The where object handed to the database. */
  datatype Where = Where(
    projectId: string, status: Option<JobStatus>, queueId: Option<string>, jobType: Option<string>,
    gte: Option<int>, lte: Option<int>, lt: Option<int>)

  datatype Page = Page(data: seq<Job>, hasMore: bool, cursor: Option<int>)

  predicate Matches(w: Where, j: Job) {
    && j.projectId == w.projectId
    && (w.status.Some? ==> j.status == w.status.value)
    && (w.queueId.Some? ==> j.queueId == w.queueId.value)
    && (w.jobType.Some? ==> j.jobType == w.jobType.value)
    && (w.gte.Some? ==> j.createdAt >= w.gte.value)
    && (w.lte.Some? ==> j.createdAt <= w.lte.value)
    && (w.lt.Some? ==> j.createdAt < w.lt.value)
  }

  /** What the client asks for, the cursor apart. */
  predicate Wanted(projectId: string, q: ListQuery, j: Job) {
    && j.projectId == projectId
    && j.status == q.status.GetOr(j.status)
    && j.queueId == q.queueId.GetOr(j.queueId)
    && j.jobType == q.jobType.GetOr(j.jobType)
    && q.from.GetOr(j.createdAt) <= j.createdAt <= q.to.GetOr(j.createdAt)
  }

  function Filter(jobs: seq<Job>, keep: Job -> bool): seq<Job> {
    if jobs == [] then []
    else if keep(jobs[0]) then [jobs[0]] + Filter(jobs[1..], keep)
    else Filter(jobs[1..], keep)
  }

  function Older(jobs: seq<Job>, time: int): seq<Job> {
    Filter(jobs, (j: Job) => j.createdAt < time)
  }

  /** Every job the client asks for, in the order of the table. */
  function Listing(table: seq<Job>, projectId: string, q: ListQuery): seq<Job> {
    var all := Filter(table, (j: Job) => Wanted(projectId, q, j));
    if q.cursor.Some? then Older(all, q.cursor.value) else all
  }

  /** A missing or zero limit means 50. */
  function Limit(q: ListQuery): (n: nat)
    ensures n > 0
  {
    if q.limit.GetOr(0) == 0 then 50 else q.limit.value
  }

  lemma {:induction false} FilterTwice(jobs: seq<Job>, p: Job -> bool, q: Job -> bool, both: Job -> bool)
    requires forall j :: both(j) <==> p(j) && q(j)
    ensures Filter(Filter(jobs, p), q) == Filter(jobs, both)
  {
    if jobs != [] {
      FilterTwice(jobs[1..], p, q, both);
      if p(jobs[0]) { assert ([jobs[0]] + Filter(jobs[1..], p))[1..] == Filter(jobs[1..], p); }
    }
  }

  lemma {:induction false} FilterSame(jobs: seq<Job>, p: Job -> bool, q: Job -> bool)
    requires forall j :: p(j) <==> q(j)
    ensures Filter(jobs, p) == Filter(jobs, q)
  {
    if jobs != [] { FilterSame(jobs[1..], p, q); }
  }

  /** findMany: the table is given in the order of the query, newest first and larger ids first. */
  function FindMany(table: seq<Job>, w: Where, take: nat): seq<Job> {
    var found := Filter(table, (j: Job) => Matches(w, j));
    if |found| <= take then found else found[..take]
  }

  /** The listing has the rows of the project that meet every filter given and are older than the cursor. */
  lemma ListingIff(table: seq<Job>, projectId: string, q: ListQuery)
    ensures forall j :: j in Listing(table, projectId, q) <==>
            && j in table && j.projectId == projectId
            && (q.status.Some? ==> j.status == q.status.value)
            && (q.queueId.Some? ==> j.queueId == q.queueId.value)
            && (q.jobType.Some? ==> j.jobType == q.jobType.value)
            && (q.from.Some? ==> q.from.value <= j.createdAt)
            && (q.to.Some? ==> j.createdAt <= q.to.value)
            && (q.cursor.Some? ==> j.createdAt < q.cursor.value)
  {
    var all := Filter(table, (j: Job) => Wanted(projectId, q, j));
    FilterKeeps(table, (j: Job) => Wanted(projectId, q, j));
    if q.cursor.Some? {
      FilterKeeps(all, (j: Job) => j.createdAt < q.cursor.value);
      assert forall j :: j in Older(all, q.cursor.value) <==> j in all && j.createdAt < q.cursor.value;
    }
  }

  /** listJobs */
  method ListJobs(table: seq<Job>, projectId: string, q: ListQuery) returns (page: Page)
    ensures var n := if q.limit.None? || q.limit.value == 0 then 50 else q.limit.value;
            && |page.data| == Min(n, |Listing(table, projectId, q)|) && page.data <= Listing(table, projectId, q)
            && (page.hasMore <==> |Listing(table, projectId, q)| > n)
    ensures var all, n := Listing(table, projectId, q), Limit(q);
            && page.hasMore == (|all| > n)
            && page.data == (if |all| > n then all[..n] else all)
            && page.cursor == if |all| > n then Some(all[n - 1].createdAt) else None
  {
    var limit := if q.limit.GetOr(0) == 0 then 50 else q.limit.value;
    var w := Where(projectId, None, None, None, None, None, None);
    if q.status.Some? { w := w.(status := q.status); }
    if q.queueId.Some? { w := w.(queueId := q.queueId); }
    if q.jobType.Some? { w := w.(jobType := q.jobType); }
    if q.from.Some? { w := w.(gte := q.from); }
    if q.to.Some? { w := w.(lte := q.to); }
    if q.cursor.Some? { w := w.(lt := q.cursor); }
    WhereFinds(table, projectId, q, w);
    var jobs := FindMany(table, w, limit + 1);
    var hasMore := |jobs| > limit;
    var data := if hasMore then jobs[..limit] else jobs;
    page := Page(data, hasMore, if hasMore then Some(data[|data| - 1].createdAt) else None);
  }

  lemma WhereFinds(table: seq<Job>, projectId: string, q: ListQuery, w: Where)
    requires w == Where(projectId, q.status, q.queueId, q.jobType, q.from, q.to, q.cursor)
    ensures Filter(table, (j: Job) => Matches(w, j)) == Listing(table, projectId, q)
  {
    var wanted := (j: Job) => Wanted(projectId, q, j);
    var matches := (j: Job) => Matches(w, j);
    if q.cursor.Some? {
      FilterTwice(table, wanted, (j: Job) => j.createdAt < q.cursor.value, matches);
    } else {
      FilterSame(table, matches, wanted);
    }
  }

  // ---------------------------------------------------------------- following the cursor to the end

  lemma {:induction false} FilterShrinks(jobs: seq<Job>, keep: Job -> bool)
    ensures |Filter(jobs, keep)| <= |jobs|
    ensures (exists j :: j in jobs && !keep(j)) ==> |Filter(jobs, keep)| < |jobs|
  {
    if jobs != [] { FilterShrinks(jobs[1..], keep); }
  }

  /** The same query with the cursor of a page selects from that page's listing the strictly older rows. */
  lemma NextListing(table: seq<Job>, projectId: string, q: ListQuery, time: int)
    requires q.cursor.Some? ==> time <= q.cursor.value
    ensures Listing(table, projectId, q.(cursor := Some(time))) == Older(Listing(table, projectId, q), time)
  {
    var all := Filter(table, (j: Job) => Wanted(projectId, q, j));
    var next := q.(cursor := Some(time));
    FilterSame(table, (j: Job) => Wanted(projectId, q, j), (j: Job) => Wanted(projectId, next, j));
    if q.cursor.Some? {
      FilterTwice(all, (j: Job) => j.createdAt < q.cursor.value, (j: Job) => j.createdAt < time,
                  (j: Job) => j.createdAt < time);
    }
  }

  lemma {:induction false} FilterKeeps(jobs: seq<Job>, keep: Job -> bool)
    ensures forall j :: j in Filter(jobs, keep) <==> j in jobs && keep(j)
  {
    if jobs != [] { FilterKeeps(jobs[1..], keep); }
  }

  lemma CursorDecreases(table: seq<Job>, projectId: string, q: ListQuery, n: nat)
    requires n < |Listing(table, projectId, q)|
    ensures var time := Listing(table, projectId, q)[n].createdAt;
            && (q.cursor.Some? ==> time < q.cursor.value)
            && |Listing(table, projectId, q.(cursor := Some(time)))| < |Listing(table, projectId, q)|
  {
    var all := Listing(table, projectId, q);
    var time := all[n].createdAt;
    if q.cursor.Some? {
      FilterKeeps(Filter(table, (j: Job) => Wanted(projectId, q, j)), (j: Job) => j.createdAt < q.cursor.value);
      assert all[n] in all;
    }
    NextListing(table, projectId, q, time);
    assert all[n] in all && !(all[n].createdAt < time);
    FilterShrinks(all, (j: Job) => j.createdAt < time);
  }

  /** The pages a client receives: it repeats the query with the returned cursor while there is more. It always
      comes to an end, whatever the table. */
  function Crawl(table: seq<Job>, projectId: string, q: ListQuery): seq<seq<Job>>
    decreases |Listing(table, projectId, q)|
  {
    var all, n := Listing(table, projectId, q), Limit(q);
    if |all| > n then
      CursorDecreases(table, projectId, q, n - 1);
      [all[..n]] + Crawl(table, projectId, q.(cursor := Some(all[n - 1].createdAt)))
    else [all]
  }

  function Flatten(pages: seq<seq<Job>>): seq<Job> {
    if pages == [] then [] else pages[0] + Flatten(pages[1..])
  }

  /** The query's order: createdAt descending, then id descending. */
  predicate Before(a: Job, b: Job) {
    a.createdAt > b.createdAt || (a.createdAt == b.createdAt && a.id > b.id)
  }

  predicate Ordered(jobs: seq<Job>) {
    forall i, k :: 0 <= i < k < |jobs| ==> Before(jobs[i], jobs[k])
  }

  lemma {:induction false} FilterOrdered(jobs: seq<Job>, keep: Job -> bool)
    requires Ordered(jobs)
    ensures Ordered(Filter(jobs, keep))
  {
    if jobs != [] {
      FilterOrdered(jobs[1..], keep);
      FilterKeeps(jobs[1..], keep);
      var rest := Filter(jobs[1..], keep);
      forall k | 0 <= k < |rest| ensures Before(jobs[0], rest[k]) { assert rest[k] in jobs[1..]; }
    }
  }

  lemma ListingOrdered(table: seq<Job>, projectId: string, q: ListQuery)
    requires Ordered(table)
    ensures Ordered(Listing(table, projectId, q))
  {
    var all := Filter(table, (j: Job) => Wanted(projectId, q, j));
    FilterOrdered(table, (j: Job) => Wanted(projectId, q, j));
    if q.cursor.Some? { FilterOrdered(all, (j: Job) => j.createdAt < q.cursor.value); }
  }

  /** In an ordered list the older rows form a suffix. */
  lemma {:induction false} OlderIsSuffix(jobs: seq<Job>, time: int) returns (cut: nat)
    requires Ordered(jobs)
    ensures cut <= |jobs| && Older(jobs, time) == jobs[cut..]
    ensures forall i :: 0 <= i < |jobs| ==> (i < cut <==> jobs[i].createdAt >= time)
  {
    if jobs == [] {
      cut := 0;
    } else {
      cut := OlderIsSuffix(jobs[1..], time);
      if jobs[0].createdAt >= time {
        cut := cut + 1;
      } else {
        forall i | 0 <= i < |jobs[1..]| ensures jobs[1..][i].createdAt < time {}
        assert jobs[0..] == [jobs[0]] + jobs[1..];
      }
    }
  }

  /** One step of the crawl on an ordered listing: the next listing is what follows the rows that share the
      cursor's time. */
  lemma CrawlStep(table: seq<Job>, projectId: string, q: ListQuery) returns (next: ListQuery, cut: nat)
    requires Ordered(table) && |Listing(table, projectId, q)| > Limit(q)
    ensures var all, n := Listing(table, projectId, q), Limit(q);
            && Crawl(table, projectId, q) == [all[..n]] + Crawl(table, projectId, next)
            && Limit(next) == n
            && n <= cut <= |all|
            && Listing(table, projectId, next) == all[cut..]
            && (forall i :: n - 1 <= i < cut ==> all[i].createdAt == all[n - 1].createdAt)
            && (forall i :: cut <= i < |all| ==> all[i].createdAt < all[n - 1].createdAt)
  {
    var all, n := Listing(table, projectId, q), Limit(q);
    ListingOrdered(table, projectId, q);
    next := q.(cursor := Some(all[n - 1].createdAt));
    CursorDecreases(table, projectId, q, n - 1);
    NextListing(table, projectId, q, all[n - 1].createdAt);
    cut := OlderIsSuffix(all, all[n - 1].createdAt);
  }

  /** Whatever the client receives comes from the listing, keeps its order, and so never repeats a row. */
  lemma {:induction false} CrawlKeepsOrder(table: seq<Job>, projectId: string, q: ListQuery)
    requires Ordered(table)
    ensures forall j :: j in Flatten(Crawl(table, projectId, q)) ==> j in Listing(table, projectId, q)
    ensures Ordered(Flatten(Crawl(table, projectId, q)))
    decreases |Listing(table, projectId, q)|
  {
    var all, n := Listing(table, projectId, q), Limit(q);
    ListingOrdered(table, projectId, q);
    if |all| > n {
      CursorDecreases(table, projectId, q, n - 1);
      var next, cut := CrawlStep(table, projectId, q);
      CrawlKeepsOrder(table, projectId, next);
      FlattenCons(all[..n], Crawl(table, projectId, next));
      forall j | j in Flatten(Crawl(table, projectId, next)) ensures j in all[cut..] {}
      JoinOrdered(all, n, cut, Flatten(Crawl(table, projectId, next)));
    } else {
      FlattenCons(all, []);
    }
  }

  lemma FlattenCons(page: seq<Job>, rest: seq<seq<Job>>)
    ensures Flatten([page] + rest) == page + Flatten(rest)
    ensures Flatten([page]) == page
  {
    assert ([page] + rest)[1..] == rest;
    assert [page][1..] == [];
  }

  lemma JoinOrdered(all: seq<Job>, n: nat, cut: nat, tail: seq<Job>)
    requires n <= cut <= |all| && Ordered(all) && Ordered(tail)
    requires forall j :: j in tail ==> j in all[cut..]
    ensures Ordered(all[..n] + tail)
  {
    var joined := all[..n] + tail;
    forall i, k | 0 <= i < k < |joined| ensures Before(joined[i], joined[k]) {
      if i < n <= k { assert joined[k] in tail; }
    }
  }

  // ---------------------------------------------------------------- exactly what is lost

  /** The row follows the last row of some page but the final one, and shares its creation time. */
  predicate CutOff(pages: seq<seq<Job>>, j: Job) {
    exists k :: 0 <= k < |pages| - 1 && CutOffBy(pages[k], j)
  }

  predicate CutOffBy(page: seq<Job>, j: Job) {
    page != [] && page[|page| - 1].createdAt == j.createdAt && page[|page| - 1].id > j.id
  }

  lemma CutOffCons(page: seq<Job>, rest: seq<seq<Job>>, j: Job)
    requires rest != []
    ensures CutOff([page] + rest, j) <==> CutOffBy(page, j) || CutOff(rest, j)
  {
    var pages := [page] + rest;
    if CutOffBy(page, j) { assert CutOffBy(pages[0], j); }
    if k :| 0 <= k < |rest| - 1 && CutOffBy(rest[k], j) { assert CutOffBy(pages[k + 1], j); }
    if k :| 0 <= k < |pages| - 1 && CutOffBy(pages[k], j) && k > 0 { assert CutOffBy(rest[k - 1], j); }
  }

  lemma {:induction false} CutOffOlder(table: seq<Job>, projectId: string, q: ListQuery, j: Job)
    requires Ordered(table) && CutOff(Crawl(table, projectId, q), j)
    ensures exists seen :: seen in Listing(table, projectId, q) && seen.createdAt == j.createdAt
    decreases |Listing(table, projectId, q)|
  {
    var all, n := Listing(table, projectId, q), Limit(q);
    if |all| > n {
      CursorDecreases(table, projectId, q, n - 1);
      var next, cut := CrawlStep(table, projectId, q);
      CutOffCons(all[..n], Crawl(table, projectId, next), j);
      if CutOffBy(all[..n], j) {
        assert all[n - 1] in all;
      } else {
        CutOffOlder(table, projectId, next, j);
        var seen :| seen in all[cut..] && seen.createdAt == j.createdAt;
        assert seen in all;
      }
    }
  }

  /** The rows before the next listing: the page, and the rows its end cuts off. */
  lemma BeforeCut(all: seq<Job>, n: nat, cut: nat, i: nat)
    requires Ordered(all) && 0 < n <= cut <= |all| && i < cut
    requires forall k :: n - 1 <= k < cut ==> all[k].createdAt == all[n - 1].createdAt
    requires forall k :: cut <= k < |all| ==> all[k].createdAt < all[n - 1].createdAt
    ensures all[i] in all[..n] <==> i < n
    ensures CutOffBy(all[..n], all[i]) <==> i >= n
    ensures forall seen :: seen in all[cut..] ==> seen.createdAt < all[i].createdAt
  {
    assert all[..n][n - 1] == all[n - 1];
  }

  /** And those after it are not cut off by that page. */
  lemma AfterCut(all: seq<Job>, n: nat, cut: nat, i: nat)
    requires Ordered(all) && 0 < n <= cut <= i < |all|
    requires all[i].createdAt < all[n - 1].createdAt
    ensures all[i] !in all[..n] && !CutOffBy(all[..n], all[i]) && all[i] in all[cut..]
  {
    assert all[cut..][i - cut] == all[i];
  }

  /** The rows a client never sees are exactly those cut off by a page's end: they share the creation time of
      that page's last row and come after it. */
  lemma {:induction false} LostIff(table: seq<Job>, projectId: string, q: ListQuery, j: Job)
    requires Ordered(table) && j in Listing(table, projectId, q)
    ensures j !in Flatten(Crawl(table, projectId, q)) <==> CutOff(Crawl(table, projectId, q), j)
    decreases |Listing(table, projectId, q)|
  {
    var all, n := Listing(table, projectId, q), Limit(q);
    ListingOrdered(table, projectId, q);
    if |all| > n {
      CursorDecreases(table, projectId, q, n - 1);
      var next, cut := CrawlStep(table, projectId, q);
      var rest := Crawl(table, projectId, next);
      assert rest != [];
      hide Listing, Crawl, Flatten, CutOff, CutOffBy;
      FlattenCons(all[..n], rest);
      CutOffCons(all[..n], rest, j);
      CrawlKeepsOrder(table, projectId, next);
      var i :| 0 <= i < |all| && all[i] == j;
      if i >= cut {
        AfterCut(all, n, cut, i);
        LostIff(table, projectId, next, j);
      } else {
        BeforeCut(all, n, cut, i);
        if CutOff(rest, j) { CutOffOlder(table, projectId, next, j); }
      }
    } else {
      FlattenCons(all, []);
    }
  }

  /** How many rows k full pages hold. */
  function RowsOf(k: nat, n: nat): nat {
    k * n
  }

  predicate Tie(all: seq<Job>, m: nat) {
    0 < m < |all| && all[m - 1].createdAt == all[m].createdAt
  }

  /** No two rows with equal creation times meet where k full pages end and the next one begins. */
  ghost predicate CleanCuts(all: seq<Job>, n: nat) {
    forall k: nat :: !Tie(all, RowsOf(k, n))
  }

  lemma CleanCutsTail(all: seq<Job>, n: nat)
    requires 0 < n < |all|
    ensures CleanCuts(all, n) <==> !Tie(all, n) && CleanCuts(all[n..], n)
  {
    forall k: nat ensures Tie(all[n..], RowsOf(k, n)) <==> k > 0 && Tie(all, RowsOf(k + 1, n)) {
      assert RowsOf(k + 1, n) == RowsOf(k, n) + n;
    }
    if !Tie(all, n) && CleanCuts(all[n..], n) {
      forall k: nat ensures !Tie(all, RowsOf(k, n)) {
        if k == 1 {
          assert RowsOf(1, n) == n;
        } else if k > 1 {
          assert !Tie(all[n..], RowsOf(k - 1, n));
        }
      }
    }
    if CleanCuts(all, n) {
      assert RowsOf(1, n) == n;
      forall k: nat ensures !Tie(all[n..], RowsOf(k, n)) {
        assert !Tie(all, RowsOf(k + 1, n));
      }
    }
  }

  lemma OnePageClean(all: seq<Job>, n: nat)
    requires |all| <= n
    ensures CleanCuts(all, n)
  {
    forall k: nat ensures !Tie(all, RowsOf(k, n)) {
      if k > 0 { assert RowsOf(k, n) == RowsOf(k - 1, n) + n; }
    }
  }

  /** When the page's end cuts off nothing the rest is complete or not on its own; otherwise a row is lost. */
  lemma CompleteStep(all: seq<Job>, n: nat, cut: nat, tail: seq<Job>)
    requires 0 < n <= cut <= |all| && n < |all| && (cut > n <==> Tie(all, n))
    requires Ordered(all) && forall j :: j in tail ==> j in all[cut..]
    ensures all[..n] + tail == all <==> !Tie(all, n) && tail == all[n..]
  {
    assert all == all[..n] + all[n..];
    if all[..n] + tail == all {
      assert tail == (all[..n] + tail)[n..] == all[n..];
      assert all[n..][0] in tail;
      assert all[n] in all[cut..];
    }
  }

  /** The pages together are the whole listing exactly when no tie straddles a page boundary. */
  lemma {:induction false} CompleteIff(table: seq<Job>, projectId: string, q: ListQuery)
    requires Ordered(table)
    ensures Flatten(Crawl(table, projectId, q)) == Listing(table, projectId, q) <==>
              CleanCuts(Listing(table, projectId, q), Limit(q))
    decreases |Listing(table, projectId, q)|
  {
    var all, n := Listing(table, projectId, q), Limit(q);
    ListingOrdered(table, projectId, q);
    if |all| > n {
      CursorDecreases(table, projectId, q, n - 1);
      var next, cut := CrawlStep(table, projectId, q);
      var tail := Flatten(Crawl(table, projectId, next));
      FlattenCons(all[..n], Crawl(table, projectId, next));
      CrawlKeepsOrder(table, projectId, next);
      CompleteStep(all, n, cut, tail);
      CleanCutsTail(all, n);
      if cut == n { CompleteIff(table, projectId, next); }
    } else {
      FlattenCons(all, []);
      OnePageClean(all, n);
    }
  }

  /** With distinct creation times nothing is lost. */
  lemma DistinctTimesComplete(table: seq<Job>, projectId: string, q: ListQuery)
    requires Ordered(table)
    requires forall a, b :: a in table && b in table && a.createdAt == b.createdAt ==> a == b
    ensures Flatten(Crawl(table, projectId, q)) == Listing(table, projectId, q)
  {
    var all := Listing(table, projectId, q);
    ListingOrdered(table, projectId, q);
    var wanted := Filter(table, (j: Job) => Wanted(projectId, q, j));
    FilterKeeps(table, (j: Job) => Wanted(projectId, q, j));
    if q.cursor.Some? { FilterKeeps(wanted, (j: Job) => j.createdAt < q.cursor.value); }
    forall m: nat | 0 < m < |all| ensures !Tie(all, m) {
      assert all[m - 1] in all && all[m] in all && Before(all[m - 1], all[m]);
    }
    CompleteIff(table, projectId, q);
  }
}
