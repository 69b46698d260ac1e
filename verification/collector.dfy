/**
  The news collector: one search request through an abstract API oracle,
  and the budgeted multi-query collection that deduplicates by URL.
 */
module Collector {
  import opened Wrappers
  import opened Seqs
  import opened Articles
  import opened Html

  /** One search request: query text, page size (`display`) and 1-based offset (`start`). */
  datatype Request = Request(query: string, display: int, start: int)

  /** One result item as the search API returns it; `pubDate` is already a timestamp. */
  datatype RawItem = RawItem(title: string, description: string, link: string, pubDate: int)

  /** The API's answer: a page of items, or a transport / status failure. */
  datatype Response = Items(items: seq<RawItem>) | RequestFailed

  /** The search API, as an oracle from request to response. */
  type SearchApi = Request -> Response

  /** The source label every fetched article carries. */
  const NaverNews: string := "네이버뉴스"

  /** The fixed search queries of the live and backfill runs. */
  const MedicalQueries: seq<string> := ["의료", "병원", "건강", "질병", "치료", "신약"]

  /** The default 1-based offset of a request. */
  const DefaultStart: int := 1

  /** The most items one request may ask for. */
  const MaxDisplay: int := 100

  /** Turns a raw item into a candidate: markup stripped, fixed source label. */
  function Normalize(item: RawItem): (c: Candidate)
    ensures c.source == NaverNews && TagFree(c.title) && TagFree(c.description)
    ensures c.url == item.link && c.published == item.pubDate
    ensures c.title == CleanHtml(item.title) && c.description == CleanHtml(item.description)
  {
    CleanHtmlTagFree(item.title);
    CleanHtmlTagFree(item.description);
    Candidate(CleanHtml(item.title), CleanHtml(item.description), item.link, NaverNews, item.pubDate)
  }

  /** Issues one request; a failed request yields no articles. */
  function CollectArticles(api: SearchApi, req: Request): (r: seq<Candidate>)
    ensures api(req).RequestFailed? ==> r == []
    ensures api(req).Items? ==> |r| == |api(req).items|
    ensures api(req).Items? ==> forall i :: 0 <= i < |r| ==>
      && r[i].url == api(req).items[i].link
      && r[i].published == api(req).items[i].pubDate
      && r[i].title == CleanHtml(api(req).items[i].title)
      && r[i].description == CleanHtml(api(req).items[i].description)
    ensures forall x :: x in r ==> x.source == NaverNews && TagFree(x.title) && TagFree(x.description)
  {
    match api(req)
    case RequestFailed => []
    case Items(items) =>
      seq(|items|, i requires 0 <= i < |items| => Normalize(items[i]))
  }

  /** A failed request cannot be told apart from an empty page. */
  lemma FailureLooksEmpty(api: SearchApi, req: Request)
    requires api(req).RequestFailed? || api(req) == Items([])
    ensures CollectArticles(api, req) == []
  {
  }

  // ---------------------------------------------------------------------
  // URL deduplication through a dictionary keyed by URL
  // ---------------------------------------------------------------------

  /** The position of the first candidate in `xs` with URL `u`. */
  function FirstIndex(xs: seq<Candidate>, u: string): (i: nat)
    requires u in UrlSet(xs)
    ensures i < |xs| && xs[i].url == u
    ensures forall j :: 0 <= j < i ==> xs[j].url != u
    decreases |xs|
  {
    assert xs[0] in xs;
    if xs[0].url == u then 0
    else
      assert forall x :: x in xs && x != xs[0] ==> x in xs[1..];
      1 + FirstIndex(xs[1..], u)
  }

  /** The last candidate in `xs` with URL `u`. */
  function LastWithUrl(xs: seq<Candidate>, u: string): (x: Candidate)
    requires u in UrlSet(xs)
    ensures x in xs && x.url == u
    decreases |xs|
  {
    var last := xs[|xs| - 1];
    if last.url == u then last
    else
      var front := xs[..|xs| - 1];
      assert xs == front + [last];
      UrlSetAppend(front, last);
      LastWithUrl(front, u)
  }

  /** Python's `d[a.url] = a` on a dictionary held as its value list: overwrite in place, or append. */
  function Put(d: seq<Candidate>, a: Candidate): (r: seq<Candidate>)
    requires DistinctUrls(d)
    ensures a.url in UrlSet(d) ==> |r| == |d|
    ensures a.url in UrlSet(d) ==> forall i :: 0 <= i < |d| ==> r[i] == (if d[i].url == a.url then a else d[i])
    ensures a.url !in UrlSet(d) ==> r == d + [a]
    decreases |d|
  {
    if d == [] then [a]
    else
      UrlSetCons(d[0], d[1..]);
      assert [d[0]] + d[1..] == d;
      if d[0].url == a.url then
        [a] + d[1..]
      else
        var rest := Put(d[1..], a);
        [d[0]] + rest
  }

  /**
    `list({a.url: a for a in xs}.values())`: one entry per URL, placed where
    the URL first occurs, holding the last article fetched with that URL.
   */
  function DictValues(xs: seq<Candidate>): (r: seq<Candidate>)
    ensures DistinctUrls(r)
    ensures UrlSet(r) == UrlSet(xs)
    ensures KeepsLast(xs, r)
    ensures FirstOrdered(xs, r)
    decreases |xs|
  {
    if xs == [] then []
    else
      var ys := xs[..|xs| - 1];
      var a := xs[|xs| - 1];
      assert xs == ys + [a];
      var d := DictValues(ys);
      UrlSetAppend(ys, a);
      var r := Put(d, a);
      if a.url in UrlSet(d) then
        OverwriteUrls(d, a, r);
        OverwriteKeepsLast(ys, a, d, r);
        OverwriteOrdered(ys, a, d, r);
        r
      else
        AppendUrls(d, a, r);
        AppendKeepsLast(ys, a, d, r);
        AppendOrdered(ys, a, d, r);
        r
  }

  lemma FirstIndexAppendOld(ys: seq<Candidate>, a: Candidate, u: string)
    requires u in UrlSet(ys)
    ensures u in UrlSet(ys + [a]) && FirstIndex(ys + [a], u) == FirstIndex(ys, u)
  {
    UrlSetAppend(ys, a);
    var xs := ys + [a];
    var p := FirstIndex(ys, u);
    var q := FirstIndex(xs, u);
    assert xs[p] == ys[p];
  }

  lemma FirstIndexAppendNew(ys: seq<Candidate>, a: Candidate)
    requires a.url !in UrlSet(ys)
    ensures a.url in UrlSet(ys + [a]) && FirstIndex(ys + [a], a.url) == |ys|
  {
    UrlSetAppend(ys, a);
    var xs := ys + [a];
    assert xs[|ys|] == a;
  }

  lemma LastWithUrlAppend(ys: seq<Candidate>, a: Candidate, u: string)
    requires u in UrlSet(ys) || u == a.url
    ensures u in UrlSet(ys + [a])
    ensures LastWithUrl(ys + [a], u) == if a.url == u then a else LastWithUrl(ys, u)
  {
    UrlSetAppend(ys, a);
    assert (ys + [a])[..|ys|] == ys;
  }

  /** Every entry of `r` is the last article of `xs` with its URL. */
  predicate KeepsLast(xs: seq<Candidate>, r: seq<Candidate>) {
    forall i :: 0 <= i < |r| ==> r[i].url in UrlSet(xs) && r[i] == LastWithUrl(xs, r[i].url)
  }

  /** The entries of `r` are ordered by where their URLs first occur in `xs`. */
  predicate FirstOrdered(xs: seq<Candidate>, r: seq<Candidate>) {
    forall i, j :: 0 <= i < j < |r| ==> FirstsBefore(xs, r[i].url, r[j].url)
  }

  /** Both URLs occur in `xs`, and `u` occurs first before `v` does. */
  predicate FirstsBefore(xs: seq<Candidate>, u: string, v: string) {
    u in UrlSet(xs) && v in UrlSet(xs) && FirstIndex(xs, u) < FirstIndex(xs, v)
  }

  /** Overwriting an existing key keeps the URL list. */
  lemma OverwriteUrls(d: seq<Candidate>, a: Candidate, r: seq<Candidate>)
    requires DistinctUrls(d) && a.url in UrlSet(d) && r == Put(d, a)
    ensures |r| == |d| && forall i :: 0 <= i < |r| ==> r[i].url == d[i].url
    ensures DistinctUrls(r) && UrlSet(r) == UrlSet(d)
  {
    forall i | 0 <= i < |r| ensures r[i].url == d[i].url {
      assert r[i] == (if d[i].url == a.url then a else d[i]);
    }
    forall u ensures u in UrlSet(r) <==> u in UrlSet(d) {
      if u in UrlSet(r) {
        var x :| x in r && x.url == u;
        var i :| 0 <= i < |r| && r[i] == x;
        assert d[i] in d;
      }
      if u in UrlSet(d) {
        var x :| x in d && x.url == u;
        var i :| 0 <= i < |d| && d[i] == x;
        assert r[i] in r;
      }
    }
  }

  lemma OverwriteKeepsLast(ys: seq<Candidate>, a: Candidate, d: seq<Candidate>, r: seq<Candidate>)
    requires DistinctUrls(d) && UrlSet(d) == UrlSet(ys) && a.url in UrlSet(d) && r == Put(d, a)
    requires KeepsLast(ys, d)
    ensures KeepsLast(ys + [a], r)
  {
    OverwriteUrls(d, a, r);
    forall i | 0 <= i < |r|
      ensures r[i].url in UrlSet(ys + [a]) && r[i] == LastWithUrl(ys + [a], r[i].url)
    {
      LastWithUrlAppend(ys, a, r[i].url);
    }
  }

  /** Two URLs that were already fetched keep their order of first occurrence once one more article is fetched. */
  lemma OrderedPair(ys: seq<Candidate>, a: Candidate, u: string, v: string)
    requires FirstsBefore(ys, u, v)
    ensures FirstsBefore(ys + [a], u, v)
  {
    FirstIndexAppendOld(ys, a, u);
    FirstIndexAppendOld(ys, a, v);
  }

  /** Entries with the same URLs as `d`, in the same places, stay ordered once one more article is fetched. */
  lemma OverwriteOrdered(ys: seq<Candidate>, a: Candidate, d: seq<Candidate>, r: seq<Candidate>)
    requires |r| == |d| && forall i :: 0 <= i < |r| ==> r[i].url == d[i].url
    requires FirstOrdered(ys, d)
    ensures FirstOrdered(ys + [a], r)
  {
    forall i, j | 0 <= i < j < |r| ensures FirstsBefore(ys + [a], r[i].url, r[j].url) {
      assert r[i].url == d[i].url && r[j].url == d[j].url;
      OrderedPair(ys, a, r[i].url, r[j].url);
    }
  }

  /** Adding a new key appends it after every existing entry. */
  lemma AppendUrls(d: seq<Candidate>, a: Candidate, r: seq<Candidate>)
    requires DistinctUrls(d) && a.url !in UrlSet(d) && r == Put(d, a)
    ensures r == d + [a]
    ensures DistinctUrls(r) && UrlSet(r) == UrlSet(d) + {a.url}
  {
    UrlSetAppend(d, a);
    forall i | 0 <= i < |d| ensures d[i].url != a.url {
      assert d[i] in d;
    }
  }

  /** Appending a new key's article keeps every entry the last of its URL. */
  lemma AppendKeepsLast(ys: seq<Candidate>, a: Candidate, d: seq<Candidate>, r: seq<Candidate>)
    requires UrlSet(d) == UrlSet(ys) && a.url !in UrlSet(d) && r == d + [a]
    requires KeepsLast(ys, d)
    ensures KeepsLast(ys + [a], r)
  {
    forall i | 0 <= i < |r|
      ensures r[i].url in UrlSet(ys + [a]) && r[i] == LastWithUrl(ys + [a], r[i].url)
    {
      if i < |d| {
        assert r[i] == d[i] && d[i] in d;
        LastWithUrlAppend(ys, a, d[i].url);
      } else {
        assert r[i] == a;
        LastWithUrlAppend(ys, a, a.url);
      }
    }
  }

  lemma AppendOrdered(ys: seq<Candidate>, a: Candidate, d: seq<Candidate>, r: seq<Candidate>)
    requires DistinctUrls(d) && UrlSet(d) == UrlSet(ys) && a.url !in UrlSet(d) && r == Put(d, a)
    requires FirstOrdered(ys, d)
    ensures FirstOrdered(ys + [a], r)
  {
    AppendUrls(d, a, r);
    FirstIndexAppendNew(ys, a);
    forall i | 0 <= i < |d|
      ensures d[i].url in UrlSet(ys + [a]) && FirstIndex(ys + [a], d[i].url) < |ys|
    {
      assert d[i] in d;
      FirstIndexAppendOld(ys, a, d[i].url);
    }
    forall i, j | 0 <= i < j < |r| ensures FirstsBefore(ys + [a], r[i].url, r[j].url) {
      assert r[i] == d[i];
      if j < |d| {
        assert r[j] == d[j];
        OrderedPair(ys, a, d[i].url, d[j].url);
      } else {
        assert r[j] == a;
      }
    }
  }

  /** Python's `s[:n]`, where a negative `n` drops that many items from the end. */
  function TakePrefix<T>(s: seq<T>, n: int): (r: seq<T>)
    ensures |r| <= |s| && r == s[..|r|]
    ensures n >= 0 ==> |r| == if n <= |s| then n else |s|
    ensures n < 0 ==> |r| == if |s| + n >= 0 then |s| + n else 0
  {
    if n >= 0 then (if n <= |s| then s[..n] else s)
    else (if |s| + n >= 0 then s[..|s| + n] else [])
  }

  // ---------------------------------------------------------------------
  // Budgeted collection over the fixed queries
  // ---------------------------------------------------------------------

  /**
    A page fetcher: the normalised articles one request yields. The
    collection loops below are stated for any fetcher, and run on the
    collector's own single-request collection.
   */
  type Fetch = Request -> seq<Candidate>

  /** The collector's single-request collection over the search API, as a fetcher. */
  function Fetcher(api: SearchApi): Fetch {
    req => CollectArticles(api, req)
  }

  /** The concatenation of the pages the requests return, in request order. */
  function Pages(fetch: Fetch, reqs: seq<Request>): seq<Candidate>
    decreases |reqs|
  {
    if reqs == [] then [] else fetch(reqs[0]) + Pages(fetch, reqs[1..])
  }

  /** The articles of the first `n` requests. */
  function PagesUpTo(fetch: Fetch, reqs: seq<Request>, n: nat): seq<Candidate>
    requires n <= |reqs|
  {
    Pages(fetch, reqs[..n])
  }

  /** The accumulated articles and the requests issued. */
  datatype Gathered = Gathered(articles: seq<Candidate>, requests: seq<Request>)

  /**
    One request per query, in order, appending each page to `acc`, and
    stopping right after the request that brings the pre-dedup count to `budget`.
   */
  function Gather(fetch: Fetch, queries: seq<string>, display: int, budget: int, acc: seq<Candidate>): (r: Gathered)
    ensures |r.requests| <= |queries|
    ensures queries != [] ==> |r.requests| >= 1
    ensures forall i :: 0 <= i < |r.requests| ==> r.requests[i] == Request(queries[i], display, DefaultStart)
    ensures r.articles == acc + Pages(fetch, r.requests)
    ensures forall n :: 1 <= n < |r.requests| ==> |acc| + |PagesUpTo(fetch, r.requests, n)| < budget
    ensures |r.requests| < |queries| ==> |r.articles| >= budget
    decreases |queries|
  {
    if queries == [] then Gathered(acc, [])
    else
      var req := Request(queries[0], display, DefaultStart);
      var page := fetch(req);
      var acc' := acc + page;
      assert Pages(fetch, [req]) == page + Pages(fetch, []);
      if |acc'| >= budget then Gathered(acc', [req])
      else
        var rest := Gather(fetch, queries[1..], display, budget, acc');
        GatherStep(fetch, req, acc, rest.requests, budget);
        var reqs := [req] + rest.requests;
        assert forall i :: 1 <= i < |reqs| ==> reqs[i] == rest.requests[i - 1] && queries[i] == queries[1..][i - 1];
        assert rest.articles == acc + Pages(fetch, reqs);
        Gathered(rest.articles, reqs)
  }

  /** Prepending one request shifts the running counts by that request's page. */
  lemma GatherStep(fetch: Fetch, req: Request, acc: seq<Candidate>, rest: seq<Request>, budget: int)
    requires |acc| + |fetch(req)| < budget
    requires forall n :: 1 <= n < |rest| ==> |acc + fetch(req)| + |PagesUpTo(fetch, rest, n)| < budget
    ensures Pages(fetch, [req] + rest) == fetch(req) + Pages(fetch, rest)
    ensures forall n :: 1 <= n < |[req] + rest| ==> |acc| + |PagesUpTo(fetch, [req] + rest, n)| < budget
  {
    var reqs := [req] + rest;
    assert reqs[1..] == rest;
    forall n | 1 <= n < |reqs|
      ensures |acc| + |PagesUpTo(fetch, reqs, n)| < budget
    {
      assert reqs[..n][1..] == rest[..n - 1];
      assert PagesUpTo(fetch, reqs, n) == fetch(req) + Pages(fetch, rest[..n - 1]);
      if n > 1 {
        assert PagesUpTo(fetch, rest, n - 1) == Pages(fetch, rest[..n - 1]);
      } else {
        assert rest[..0] == [];
      }
    }
  }

  /** What one call of `collect_medical_articles` did: its requests, the raw pages, and the result. */
  datatype MedicalCollection = MedicalCollection(
    requests: seq<Request>,
    fetched: seq<Candidate>,
    articles: seq<Candidate>)

  /** The per-request page size: an even share of the budget, floored, capped at 100. */
  function PerQueryDisplay(maxArticles: int): (d: int)
    ensures d <= MaxDisplay
    ensures d < MaxDisplay ==> d * |MedicalQueries| <= maxArticles < (d + 1) * |MedicalQueries|
    ensures d == MaxDisplay ==> maxArticles >= MaxDisplay * |MedicalQueries|
  {
    var share := maxArticles / |MedicalQueries|;
    if share <= MaxDisplay then share else MaxDisplay
  }

  /** A prefix of a deduplicated list is still deduplicated, and its entries come from `xs`. */
  lemma PrefixKeepsDedup(xs: seq<Candidate>, u: seq<Candidate>, k: nat)
    requires k <= |u|
    requires DistinctUrls(u) && KeepsLast(xs, u) && FirstOrdered(xs, u)
    ensures DistinctUrls(u[..k]) && KeepsLast(xs, u[..k]) && FirstOrdered(xs, u[..k])
    ensures forall x :: x in u[..k] ==> x in xs
  {
    var r := u[..k];
    assert forall i :: 0 <= i < |r| ==> r[i] == u[i];
    forall x | x in r ensures x in xs {
      var i :| 0 <= i < |r| && r[i] == x;
      assert u[i].url in UrlSet(xs) && u[i] == LastWithUrl(xs, u[i].url);
    }
  }

  /** Every URL fetched before the first occurrence of a returned URL is returned too. */
  predicate PrefixClosed(xs: seq<Candidate>, r: seq<Candidate>) {
    forall i, j :: 0 <= i < |xs| && 0 <= j < |r| && r[j].url in UrlSet(xs) && i < FirstIndex(xs, r[j].url) ==>
      xs[i].url in UrlSet(r)
  }

  /** A prefix of a list that covers the fetched URLs in first-occurrence order is closed under earlier first occurrences. */
  lemma PrefixClosedTake(xs: seq<Candidate>, u: seq<Candidate>, k: nat)
    requires k <= |u| && UrlSet(u) == UrlSet(xs) && FirstOrdered(xs, u)
    ensures PrefixClosed(xs, u[..k])
  {
    var r := u[..k];
    forall i, j | 0 <= i < |xs| && 0 <= j < |r| && r[j].url in UrlSet(xs) && i < FirstIndex(xs, r[j].url)
      ensures xs[i].url in UrlSet(r)
    {
      var v := xs[i].url;
      assert xs[i] in xs;
      assert v in UrlSet(xs) && FirstIndex(xs, v) <= i;
      assert v in UrlSet(u);
      var x :| x in u && x.url == v;
      var p :| 0 <= p < |u| && u[p] == x;
      assert r[j] == u[j];
      assert p < j;
      assert r[p] == u[p] && r[p] in r;
    }
  }

  /** `collect_medical_articles(max_articles)`. */
  function CollectMedical(api: SearchApi, maxArticles: int): (r: MedicalCollection)
    ensures 1 <= |r.requests| <= |MedicalQueries|
    ensures forall i :: 0 <= i < |r.requests| ==>
      r.requests[i] == Request(MedicalQueries[i], PerQueryDisplay(maxArticles), DefaultStart)
    ensures r.fetched == Pages(Fetcher(api), r.requests)
    ensures forall n :: 1 <= n < |r.requests| ==> |PagesUpTo(Fetcher(api), r.requests, n)| < maxArticles
    ensures |r.requests| < |MedicalQueries| ==> |r.fetched| >= maxArticles
    ensures maxArticles >= 0 ==> |r.articles| <= maxArticles
    ensures DistinctUrls(r.articles)
    ensures forall x :: x in r.articles ==> x in r.fetched
    ensures KeepsLast(r.fetched, r.articles)
    ensures FirstOrdered(r.fetched, r.articles)
    ensures PrefixClosed(r.fetched, r.articles)
    ensures 0 <= maxArticles && |r.articles| < maxArticles ==> UrlSet(r.articles) == UrlSet(r.fetched)
  {
    var g := Gather(Fetcher(api), MedicalQueries, PerQueryDisplay(maxArticles), maxArticles, []);
    assert [] + Pages(Fetcher(api), g.requests) == Pages(Fetcher(api), g.requests);
    var unique := DictValues(g.articles);
    var r := TakePrefix(unique, maxArticles);
    PrefixKeepsDedup(g.articles, unique, |r|);
    PrefixClosedTake(g.articles, unique, |r|);
    assert 0 <= maxArticles && |r| < maxArticles ==> r == unique;
    MedicalCollection(g.requests, g.articles, r)
  }

  /** The articles the live collection hands on, stated against the pages it fetched. */
  function CollectMedicalArticles(api: SearchApi, maxArticles: int): (r: seq<Candidate>)
    ensures maxArticles >= 0 ==> |r| <= maxArticles
    ensures DistinctUrls(r)
    ensures var fetched := CollectMedical(api, maxArticles).fetched;
      && KeepsLast(fetched, r) && FirstOrdered(fetched, r) && PrefixClosed(fetched, r)
      && (0 <= maxArticles && |r| < maxArticles ==> UrlSet(r) == UrlSet(fetched))
  {
    CollectMedical(api, maxArticles).articles
  }
}
