/**
  The historical backfill of the `collect-historical` route and of the
  `collect_historical_data` script: for each query, page through the search
  results until an empty page, the offset ceiling, or the first article
  older than the window; keep the in-window articles of each page, classify
  them and save them page by page.
 */
module Backfill {
  import opened Wrappers
  import opened Seqs
  import opened Articles
  import opened Settings
  import opened Classifier
  import opened Collector
  import opened Store

  /** The closed publication window `[start, end]`, as timestamps in seconds. */
  datatype Window = Window(start: int, end: int)

  const SecondsPerDay: int := 86400

  /** The number of days the route always backfills, and the script's default. */
  const DefaultDays: int := 7

  /** `[now - days, now]`. */
  function WindowEndingAt(now: int, days: int): (w: Window)
    ensures w.end == now && w.end - w.start == days * SecondsPerDay
  {
    Window(now - days * SecondsPerDay, now)
  }

  /** The script's `days`: its first argument when one is given, else the default. */
  function DaysArgument(arg: Option<int>): (days: int)
    ensures arg.None? ==> days == DefaultDays
    ensures arg.Some? ==> days == arg.value
  {
    arg.GetOr(DefaultDays)
  }

  predicate InWindow(w: Window, x: Candidate) {
    w.start <= x.published <= w.end
  }

  /** The in-window articles of a page and whether the page crossed the window start. */
  datatype Scan = Scan(kept: seq<Candidate>, stop: bool)

  /**
    Scans a page in order: the first article older than the window start
    stops the scan (and the query); articles newer than the window end are
    passed over; the rest are kept.
   */
  function ScanPage(items: seq<Candidate>, w: Window): (r: Scan)
    ensures r.stop <==> exists i :: 0 <= i < |items| && items[i].published < w.start
    ensures forall x :: x in r.kept ==> InWindow(w, x)
    ensures IsSubseq(r.kept, items)
    decreases |items|
  {
    if items == [] then Scan([], false)
    else if items[0].published < w.start then Scan([], true)
    else
      var rest := ScanPage(items[1..], w);
      assert items == [items[0]] + items[1..];
      assert forall i :: 1 <= i < |items| ==> items[i] == items[1..][i - 1];
      if items[0].published <= w.end then
        assert ([items[0]] + rest.kept)[1..] == rest.kept;
        Scan([items[0]] + rest.kept, rest.stop)
      else
        SubseqCons(items[0], rest.kept, items[1..]);
        rest
  }

  /** The window test as a predicate value. */
  function InWindowOf(w: Window): Candidate -> bool {
    x => InWindow(w, x)
  }

  /** The position of the first article older than the window start, or the page length when there is none. */
  function StopAt(items: seq<Candidate>, w: Window): (n: nat)
    ensures n <= |items|
    ensures forall i :: 0 <= i < n ==> items[i].published >= w.start
    ensures n < |items| ==> items[n].published < w.start
    decreases |items|
  {
    if items == [] || items[0].published < w.start then 0
    else
      var n := StopAt(items[1..], w);
      assert forall i :: 1 <= i < n + 1 ==> items[i] == items[1..][i - 1];
      1 + n
  }

  /** The kept articles are exactly the in-window articles before the first too-old one, every occurrence in order. */
  lemma {:induction false} ScanKeptIsFilter(items: seq<Candidate>, w: Window)
    ensures ScanPage(items, w).kept == Filter(InWindowOf(w), items[..StopAt(items, w)])
    decreases |items|
  {
    if items != [] && items[0].published >= w.start {
      var n := StopAt(items, w);
      var m := StopAt(items[1..], w);
      var front := items[..n];
      assert n == m + 1;
      assert front[0] == items[0];
      assert front[1..] == items[1..][..m];
      ScanKeptIsFilter(items[1..], w);
      var rest := Filter(InWindowOf(w), items[1..][..m]);
      assert Filter(InWindowOf(w), front) == if InWindow(w, items[0]) then [items[0]] + rest else rest;
    } else {
      assert items[..StopAt(items, w)] == [];
    }
  }

  /** Articles after the first too-old one are never examined. */
  lemma {:induction false} ScanIgnoresAfterStop(items: seq<Candidate>, rest: seq<Candidate>, w: Window, i: nat)
    requires i < |items| && items[i].published < w.start
    ensures ScanPage(items[..i + 1] + rest, w) == ScanPage(items[..i + 1], w)
    decreases i
  {
    var p := items[..i + 1];
    if i > 0 && p[0].published >= w.start {
      assert (p + rest)[1..] == items[1..][..i] + rest;
      assert p[1..] == items[1..][..i];
      ScanIgnoresAfterStop(items[1..], rest, w, i - 1);
    }
  }

  /** An in-window article that comes before every too-old one is kept. */
  lemma {:induction false} ScanKeepsEarlyInWindow(items: seq<Candidate>, w: Window, j: nat)
    requires j < |items| && InWindow(w, items[j])
    requires forall k :: 0 <= k < j ==> items[k].published >= w.start
    ensures items[j] in ScanPage(items, w).kept
    decreases j
  {
    if j > 0 {
      assert forall k :: 0 <= k < j - 1 ==> items[1..][k] == items[k + 1];
      ScanKeepsEarlyInWindow(items[1..], w, j - 1);
    }
  }

  /** Results per request, and the number of requests per query (`range(1, 1000, 100)`). */
  const PageSize: int := 100
  const MaxPages: nat := 10

  /** The offset of page `k`: 1, 101, ..., 901. */
  function PageStart(k: nat): int {
    1 + PageSize * k
  }

  function PageRequest(query: string, k: nat): Request {
    Request(query, PageSize, PageStart(k))
  }

  /** Why a query's pagination ended. */
  datatype StopReason = Exhausted | WindowExceeded | OffsetCeiling

  /** Scanning the page each request returns. */
  function Scanner(fetch: Fetch, w: Window): Request -> Scan {
    req => ScanPage(fetch(req), w)
  }

  /** The page lets pagination go on: it is non-empty and did not cross the window start. */
  predicate PageContinues(fetch: Fetch, w: Window, req: Request) {
    var page := fetch(req);
    page != [] && !Scanner(fetch, w)(req).stop
  }

  /** Why a page that does not let pagination go on ended it: it was empty, or it crossed the window start. */
  function EndReason(page: seq<Candidate>): StopReason {
    if page == [] then Exhausted else WindowExceeded
  }

  /** The in-window articles of one request's page. */
  function PageKept(fetch: Fetch, w: Window, req: Request): seq<Candidate> {
    Scanner(fetch, w)(req).kept
  }

  /** One issued request and the in-window articles its page yielded. */
  datatype Page = Page(request: Request, kept: seq<Candidate>)

  /** The pages one query went through, and why it stopped. */
  datatype Pagination = Pagination(pages: seq<Page>, stop: StopReason)

  /** The last page of a non-empty run. */
  function Last(pages: seq<Page>): Page
    requires pages != []
  {
    pages[|pages| - 1]
  }

  /**
    Paginates one query from page `k`: stops after an empty page, after a
    page that crossed the window start, or at the offset ceiling.
   */
  function Paginate(fetch: Fetch, query: string, w: Window, k: nat): (r: Pagination)
    requires k <= MaxPages
    ensures |r.pages| <= MaxPages - k
    ensures forall i :: 0 <= i < |r.pages| ==>
      r.pages[i] == Page(PageRequest(query, k + i), PageKept(fetch, w, PageRequest(query, k + i)))
    decreases MaxPages - k
  {
    if k == MaxPages then Pagination([], OffsetCeiling)
    else
      var req := PageRequest(query, k);
      var page := Page(req, PageKept(fetch, w, req));
      if !PageContinues(fetch, w, req) then Pagination([page], EndReason(fetch(req)))
      else
        var rest := Paginate(fetch, query, w, k + 1);
        var pages := [page] + rest.pages;
        assert forall i :: 1 <= i < |pages| ==> pages[i] == rest.pages[i - 1];
        Pagination(pages, rest.stop)
  }

  /** A page that lets pagination go on is followed by the pages from the next offset. */
  lemma PaginateStep(fetch: Fetch, query: string, w: Window, k: nat)
    requires k < MaxPages && PageContinues(fetch, w, PageRequest(query, k))
    ensures var r := Paginate(fetch, query, w, k);
            var rest := Paginate(fetch, query, w, k + 1);
            var req := PageRequest(query, k);
            r.pages == [Page(req, PageKept(fetch, w, req))] + rest.pages && r.stop == rest.stop
  {
  }

  /** A page that ends pagination is the last one, and the stop reason says why it ended it. */
  lemma PaginateEnd(fetch: Fetch, query: string, w: Window, k: nat)
    requires k < MaxPages && !PageContinues(fetch, w, PageRequest(query, k))
    ensures var r := Paginate(fetch, query, w, k);
            var req := PageRequest(query, k);
            && r.pages == [Page(req, PageKept(fetch, w, req))]
            && (r.stop == Exhausted <==> fetch(req) == [])
            && (r.stop == WindowExceeded <==> fetch(req) != [] && Scanner(fetch, w)(req).stop)
  {
  }

  /** Every page but the last lets pagination go on. */
  lemma {:induction false} PaginateContinues(fetch: Fetch, query: string, w: Window, k: nat)
    requires k <= MaxPages
    ensures var r := Paginate(fetch, query, w, k);
      forall i :: 0 <= i < |r.pages| - 1 ==> PageContinues(fetch, w, r.pages[i].request)
    decreases MaxPages - k
  {
    var r := Paginate(fetch, query, w, k);
    if k < MaxPages {
      if PageContinues(fetch, w, PageRequest(query, k)) {
        PaginateStep(fetch, query, w, k);
        PaginateContinues(fetch, query, w, k + 1);
        var rest := Paginate(fetch, query, w, k + 1);
        forall i | 1 <= i < |r.pages| - 1 ensures PageContinues(fetch, w, r.pages[i].request) {
          assert r.pages[i] == rest.pages[i - 1];
        }
      } else {
        PaginateEnd(fetch, query, w, k);
      }
    }
  }

  /** A query that stops before the ceiling stops at its last page, for the reason that page gives. */
  lemma {:induction false} PaginateEndsEarly(fetch: Fetch, query: string, w: Window, k: nat)
    requires k <= MaxPages
    ensures var r := Paginate(fetch, query, w, k);
      r.stop != OffsetCeiling ==>
        && r.pages != []
        && !PageContinues(fetch, w, Last(r.pages).request)
        && r.stop == EndReason(fetch(Last(r.pages).request))
    decreases MaxPages - k
  {
    var r := Paginate(fetch, query, w, k);
    if k < MaxPages {
      if PageContinues(fetch, w, PageRequest(query, k)) {
        PaginateStep(fetch, query, w, k);
        PaginateEndsEarly(fetch, query, w, k + 1);
        var rest := Paginate(fetch, query, w, k + 1);
        if r.stop != OffsetCeiling {
          assert Last(r.pages) == Last(rest.pages);
        }
      } else {
        PaginateEnd(fetch, query, w, k);
      }
    }
  }

  /** A query reaches the offset ceiling exactly when it issued every request and none of its pages stopped it. */
  lemma {:induction false} PaginateCeiling(fetch: Fetch, query: string, w: Window, k: nat)
    requires k <= MaxPages
    ensures var r := Paginate(fetch, query, w, k);
      r.stop == OffsetCeiling <==> |r.pages| == MaxPages - k && (r.pages != [] ==> PageContinues(fetch, w, Last(r.pages).request))
    decreases MaxPages - k
  {
    var r := Paginate(fetch, query, w, k);
    if k < MaxPages {
      if PageContinues(fetch, w, PageRequest(query, k)) {
        PaginateStep(fetch, query, w, k);
        PaginateCeiling(fetch, query, w, k + 1);
        var rest := Paginate(fetch, query, w, k + 1);
        assert |r.pages| == MaxPages - k <==> |rest.pages| == MaxPages - (k + 1);
        if rest.pages != [] {
          assert Last(r.pages) == Last(rest.pages);
        }
      } else {
        PaginateEnd(fetch, query, w, k);
      }
    }
  }

  /** The stop reason describes the last page: empty, crossing the window start, or the ceiling reached with no stop. */
  lemma PaginateStops(fetch: Fetch, query: string, w: Window, k: nat)
    requires k <= MaxPages
    ensures var r := Paginate(fetch, query, w, k);
      && (r.stop == OffsetCeiling <==> |r.pages| == MaxPages - k && (r.pages != [] ==> PageContinues(fetch, w, Last(r.pages).request)))
      && (r.stop == Exhausted ==> r.pages != [] && fetch(Last(r.pages).request) == [])
      && (r.stop == WindowExceeded ==>
            r.pages != [] && fetch(Last(r.pages).request) != [] && Scanner(fetch, w)(Last(r.pages).request).stop)
  {
    PaginateEndsEarly(fetch, query, w, k);
    PaginateCeiling(fetch, query, w, k);
  }

  /** The pages of each query in turn, each query starting again at the first page. */
  function QueryPages(fetch: Fetch, queries: seq<string>, w: Window): seq<Page>
    decreases |queries|
  {
    if queries == [] then [] else Paginate(fetch, queries[0], w, 0).pages + QueryPages(fetch, queries[1..], w)
  }

  /** Every article a page keeps lies in the window. */
  predicate PagesInWindow(w: Window, pages: seq<Page>) {
    forall i :: 0 <= i < |pages| ==> forall x :: x in pages[i].kept ==> InWindow(w, x)
  }

  /** The pages of one query keep only in-window articles. */
  lemma PaginateInWindow(fetch: Fetch, query: string, w: Window)
    ensures PagesInWindow(w, Paginate(fetch, query, w, 0).pages)
  {
    var pages := Paginate(fetch, query, w, 0).pages;
    forall i | 0 <= i < |pages| ensures forall x :: x in pages[i].kept ==> InWindow(w, x) {
      assert pages[i].kept == ScanPage(fetch(pages[i].request), w).kept;
    }
  }

  lemma PagesInWindowConcat(w: Window, a: seq<Page>, b: seq<Page>)
    requires PagesInWindow(w, a) && PagesInWindow(w, b)
    ensures PagesInWindow(w, a + b)
  {
    forall i | 0 <= i < |a + b| ensures forall x :: x in (a + b)[i].kept ==> InWindow(w, x) {
      if i < |a| {
        assert (a + b)[i] == a[i];
      } else {
        assert (a + b)[i] == b[i - |a|];
      }
    }
  }

  lemma {:induction false} QueryPagesInWindow(fetch: Fetch, queries: seq<string>, w: Window)
    ensures PagesInWindow(w, QueryPages(fetch, queries, w))
    decreases |queries|
  {
    if queries != [] {
      QueryPagesInWindow(fetch, queries[1..], w);
      PaginateInWindow(fetch, queries[0], w);
      PagesInWindowConcat(w, Paginate(fetch, queries[0], w, 0).pages, QueryPages(fetch, queries[1..], w));
    }
  }

  /** The medical articles of one page; only a page with in-window articles is classified. */
  function PageBatch(keywords: seq<string>, p: Page): (r: seq<Classified>)
    ensures forall c :: c in r <==> c in Annotate(keywords, p.kept) && c.result.isMedical
  {
    if p.kept != [] then BatchClassify(keywords, p.kept) else []
  }

  /** The medical articles of a run of pages, page after page. */
  function Medical(keywords: seq<string>, pages: seq<Page>): seq<Classified> {
    FlatMap((p: Page) => PageBatch(keywords, p), pages)
  }

  /** The number of in-window articles over a run of pages: the `collected` counter. */
  function KeptCount(pages: seq<Page>): nat
    decreases |pages|
  {
    if pages == [] then 0 else |pages[0].kept| + KeptCount(pages[1..])
  }

  /** A page's medical articles are its own in-window articles, classified medical. */
  lemma PageBatchMembers(keywords: seq<string>, p: Page)
    ensures forall c :: c in PageBatch(keywords, p) ==> c.article in p.kept && c.result.isMedical
  {
  }

  /** Every medical article of a run is medical, and in the window when the pages are. */
  lemma {:induction false} MedicalInWindow(keywords: seq<string>, w: Window, pages: seq<Page>)
    requires PagesInWindow(w, pages)
    ensures forall c :: c in Medical(keywords, pages) ==> c.result.isMedical && InWindow(w, c.article)
    decreases |pages|
  {
    if pages != [] {
      MedicalInWindow(keywords, w, pages[1..]);
      PageBatchMembers(keywords, pages[0]);
    }
  }

  /** Classification never yields more articles than it was given. */
  lemma {:induction false} MedicalAtMostKept(keywords: seq<string>, pages: seq<Page>)
    ensures |Medical(keywords, pages)| <= KeptCount(pages)
    decreases |pages|
  {
    if pages != [] {
      MedicalAtMostKept(keywords, pages[1..]);
    }
  }

  /** Saving page by page: each page's medical articles are saved against the store the previous pages left. */
  function SavePages(style: RecordStyle, keywords: seq<string>, store: set<string>, pages: seq<Page>): (r: Saved)
    decreases |pages|
  {
    if pages == [] then Saved(store, [], 0)
    else
      var s := SaveAll(style, store, PageBatch(keywords, pages[0]));
      var rest := SavePages(style, keywords, s.store, pages[1..]);
      Saved(rest.store, s.saved + rest.saved, s.skipped + rest.skipped)
  }

  /** Saving page by page amounts to one saving loop over all the pages' medical articles. */
  lemma {:induction false} SavePagesFlat(style: RecordStyle, keywords: seq<string>, store: set<string>, pages: seq<Page>)
    ensures SavePages(style, keywords, store, pages) == SaveAll(style, store, Medical(keywords, pages))
    decreases |pages|
  {
    if pages != [] {
      var batch := PageBatch(keywords, pages[0]);
      var s := SaveAll(style, store, batch);
      SavePagesFlat(style, keywords, s.store, pages[1..]);
      SaveAllConcat(style, store, batch, Medical(keywords, pages[1..]));
    }
  }

  /** The totals of a backfill run, with the pages it went through and the store it leaves. */
  datatype Report = Report(pages: seq<Page>, collected: nat, saved: seq<Record>, skipped: nat, store: set<string>)

  /** Rows saved from medical in-window articles are new, in the window, and built in the given style. */
  lemma SavedRows(style: RecordStyle, w: Window, store: set<string>, items: seq<Classified>)
    requires forall c :: c in items ==> c.result.isMedical && InWindow(w, c.article)
    ensures forall rec :: rec in SaveAll(style, store, items).saved ==>
      && rec.url !in store && w.start <= rec.published <= w.end
      && (style == FullRecord ==> rec.isMedical)
      && (style == ScriptRecord ==> !rec.isMedical && rec.keywords.KeywordText?)
      && (exists c :: c in items && rec == ToRecord(style, c))
  {
    var r := SaveAll(style, store, items);
    SaveAllFresh(style, store, items);
    SubseqMembers(r.saved, Records(style, items));
    forall rec | rec in r.saved
      ensures && rec.url !in store && w.start <= rec.published <= w.end
              && (style == FullRecord ==> rec.isMedical)
              && (style == ScriptRecord ==> !rec.isMedical && rec.keywords.KeywordText?)
              && (exists c :: c in items && rec == ToRecord(style, c))
    {
      assert rec.url in RecordUrls(r.saved);
      var i :| 0 <= i < |items| && Records(style, items)[i] == rec;
      assert items[i] in items;
    }
  }

  /**
    The backfill loop shared by the route and the script: every query of
    the medical query list is paginated in turn, and each page's medical
    articles are saved before the next page is fetched.
   */
  function Backfill(style: RecordStyle, fetch: Fetch, keywords: seq<string>, w: Window, store: set<string>): (r: Report)
    ensures r.pages == QueryPages(fetch, MedicalQueries, w) && PagesInWindow(w, r.pages)
    ensures r.collected == KeptCount(r.pages)
    ensures |r.saved| + r.skipped == |Medical(keywords, r.pages)| <= r.collected
    ensures r.store == store + UrlsOf(Medical(keywords, r.pages))
    ensures RecordUrls(r.saved) == UrlsOf(Medical(keywords, r.pages)) - store
    ensures forall i, j :: 0 <= i < j < |r.saved| ==> r.saved[i].url != r.saved[j].url
    ensures forall rec :: rec in r.saved ==>
      && rec.url !in store && w.start <= rec.published <= w.end
      && (style == FullRecord ==> rec.isMedical)
      && (style == ScriptRecord ==> !rec.isMedical && rec.keywords.KeywordText?)
    ensures IsSubseq(r.saved, Records(style, Medical(keywords, r.pages)))
    ensures forall rec :: rec in r.saved ==> exists c :: c in Medical(keywords, r.pages) && rec == ToRecord(style, c)
  {
    var pages := QueryPages(fetch, MedicalQueries, w);
    var medical := Medical(keywords, pages);
    var s := SavePages(style, keywords, store, pages);
    QueryPagesInWindow(fetch, MedicalQueries, w);
    MedicalInWindow(keywords, w, pages);
    MedicalAtMostKept(keywords, pages);
    SavePagesFlat(style, keywords, store, pages);
    SaveAllStore(style, store, medical);
    SaveAllFresh(style, store, medical);
    SavedRows(style, w, store, medical);
    Report(pages, KeptCount(pages), s.saved, s.skipped, s.store)
  }

  /** Backfilling again over the same pages, against the store the first run left, saves nothing. */
  lemma BackfillRerunSavesNothing(style: RecordStyle, fetch: Fetch, keywords: seq<string>, w: Window, store: set<string>)
    ensures var first := Backfill(style, fetch, keywords, w, store);
      var again := Backfill(style, fetch, keywords, w, first.store);
      again.saved == [] && again.store == first.store && again.skipped == |Medical(keywords, first.pages)|
  {
    var first := Backfill(style, fetch, keywords, w, store);
    var pages := first.pages;
    SavePagesFlat(style, keywords, first.store, pages);
    SaveAllAllKnown(style, first.store, Medical(keywords, pages));
  }

  /** Every page's medical articles end up stored, the page that stopped its query's pagination included. */
  lemma PageSaved(style: RecordStyle, fetch: Fetch, keywords: seq<string>, w: Window, store: set<string>, i: nat)
    ensures var r := Backfill(style, fetch, keywords, w, store);
      i < |r.pages| ==> forall c :: c in PageBatch(keywords, r.pages[i]) ==> c.article.url in r.store
  {
    var r := Backfill(style, fetch, keywords, w, store);
    if i < |r.pages| {
      forall c | c in PageBatch(keywords, r.pages[i]) ensures c.article.url in r.store {
        FlatMapHas((p: Page) => PageBatch(keywords, p), r.pages, i, c);
        assert c in Medical(keywords, r.pages);
      }
    }
  }

  /** `POST /api/scheduler/collect-historical`: the last seven days, full rows, after the credentials check. */
  function CollectHistoricalRoute(creds: Credentials, api: SearchApi, keywords: seq<string>, now: int, store: set<string>)
    : (r: Result<Report, RunError>)
    ensures r.Failure? <==> !HasCredentials(creds)
    ensures r.Success? ==> r.value == Backfill(FullRecord, Fetcher(api), keywords, WindowEndingAt(now, DefaultDays), store)
    ensures r.Success? ==> forall rec :: rec in r.value.saved ==>
      rec.url !in store && rec.isMedical && now - DefaultDays * SecondsPerDay <= rec.published <= now
  {
    if !HasCredentials(creds) then Failure(MissingApiKeys)
    else Success(Backfill(FullRecord, Fetcher(api), keywords, WindowEndingAt(now, DefaultDays), store))
  }

  lemma {:induction false} KeptCountConcat(a: seq<Page>, b: seq<Page>)
    ensures KeptCount(a + b) == KeptCount(a) + KeptCount(b)
    decreases |a|
  {
    if a == [] {
      assert a + b == b;
    } else {
      assert (a + b)[1..] == a[1..] + b;
      KeptCountConcat(a[1..], b);
    }
  }

  lemma MedicalConcat(keywords: seq<string>, a: seq<Page>, b: seq<Page>)
    ensures Medical(keywords, a + b) == Medical(keywords, a) + Medical(keywords, b)
  {
    FlatMapConcat((p: Page) => PageBatch(keywords, p), a, b);
  }

  /** Saving the pages `a + b` is saving `a`, then `b` against the store `a` left. */
  lemma {:induction false} SavePagesConcat(style: RecordStyle, keywords: seq<string>, store: set<string>, a: seq<Page>, b: seq<Page>)
    ensures var ra := SavePages(style, keywords, store, a);
            var rb := SavePages(style, keywords, ra.store, b);
            SavePages(style, keywords, store, a + b) == Saved(rb.store, ra.saved + rb.saved, ra.skipped + rb.skipped)
  {
    MedicalConcat(keywords, a, b);
    var ra := SavePages(style, keywords, store, a);
    SavePagesFlat(style, keywords, store, a + b);
    SavePagesFlat(style, keywords, store, a);
    SavePagesFlat(style, keywords, ra.store, b);
    SaveAllConcat(style, store, Medical(keywords, a), Medical(keywords, b));
  }

  /** The script's counters, with the rows it inserted and the store it leaves. */
  datatype Totals = Totals(collected: nat, saved: seq<Record>, skipped: nat, store: set<string>)

  /**
    The script's query loop: each query's `query_collected` and saved rows
    are added to the totals after its pagination, while skips go straight
    to the overall counter.
   */
  function ScriptLoop(fetch: Fetch, keywords: seq<string>, w: Window, queries: seq<string>, store: set<string>): Totals
    decreases |queries|
  {
    if queries == [] then Totals(0, [], 0, store)
    else
      var pages := Paginate(fetch, queries[0], w, 0).pages;
      var s := SavePages(ScriptRecord, keywords, store, pages);
      var rest := ScriptLoop(fetch, keywords, w, queries[1..], s.store);
      Totals(KeptCount(pages) + rest.collected, s.saved + rest.saved, s.skipped + rest.skipped, rest.store)
  }

  /** Summing the per-query counters gives the totals of the backfill loop over all queries' pages. */
  lemma {:induction false} ScriptLoopSums(fetch: Fetch, keywords: seq<string>, w: Window, queries: seq<string>, store: set<string>)
    ensures var pages := QueryPages(fetch, queries, w);
            var s := SavePages(ScriptRecord, keywords, store, pages);
            ScriptLoop(fetch, keywords, w, queries, store) == Totals(KeptCount(pages), s.saved, s.skipped, s.store)
    decreases |queries|
  {
    if queries != [] {
      var head := Paginate(fetch, queries[0], w, 0).pages;
      var tail := QueryPages(fetch, queries[1..], w);
      var s := SavePages(ScriptRecord, keywords, store, head);
      ScriptLoopSums(fetch, keywords, w, queries[1..], s.store);
      KeptCountConcat(head, tail);
      SavePagesConcat(ScriptRecord, keywords, store, head, tail);
    }
  }

  /**
    The `collect_historical_data` script: the last `days` days over the
    collector's queries, reduced rows (no medical flag, keywords joined with
    commas), and no credentials check.
   */
  function CollectHistoricalData(api: SearchApi, keywords: seq<string>, now: int, days: int, store: set<string>): (r: Totals)
    ensures var b := Backfill(ScriptRecord, Fetcher(api), keywords, WindowEndingAt(now, days), store);
      r == Totals(b.collected, b.saved, b.skipped, b.store)
    ensures forall rec :: rec in r.saved ==>
      rec.url !in store && !rec.isMedical && rec.keywords.KeywordText? && now - days * SecondsPerDay <= rec.published <= now
    ensures var b := Backfill(ScriptRecord, Fetcher(api), keywords, WindowEndingAt(now, days), store);
      IsSubseq(r.saved, Records(ScriptRecord, Medical(keywords, b.pages)))
  {
    var w := WindowEndingAt(now, days);
    ScriptLoopSums(Fetcher(api), keywords, w, MedicalQueries, store);
    ScriptLoop(Fetcher(api), keywords, w, MedicalQueries, store)
  }
}
