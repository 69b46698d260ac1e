/** The manual live collection route: collect, classify, then save with an exists-by-URL check. */
module LiveRun {
  import opened Wrappers
  import opened Seqs
  import opened Articles
  import opened Settings
  import opened Classifier
  import opened Collector
  import opened Store

  /** The route's JSON body on success, with the store it leaves and the requests it issued. */
  datatype LiveSummary = LiveSummary(
    requests: seq<Request>,
    collected: nat,
    medical: nat,
    saved: seq<Record>,
    skipped: nat,
    store: set<string>)

  /** The medical articles of one live collection, in collection order. */
  function LiveMedical(api: SearchApi, keywords: seq<string>, maxArticles: int): seq<Classified> {
    BatchClassify(keywords, CollectMedicalArticles(api, maxArticles))
  }

  /** `POST /api/scheduler/collect`. */
  function CollectNow(creds: Credentials, api: SearchApi, keywords: seq<string>, maxArticles: int, store: set<string>)
    : (r: Result<LiveSummary, RunError>)
    ensures r.Failure? <==> !HasCredentials(creds)
    ensures r.Success? ==> r.value.requests == CollectMedical(api, maxArticles).requests
    ensures r.Success? ==> r.value.collected == |CollectMedicalArticles(api, maxArticles)|
    ensures r.Success? ==> r.value.medical == |LiveMedical(api, keywords, maxArticles)| <= r.value.collected
    ensures r.Success? ==> RecordUrls(r.value.saved) == UrlsOf(LiveMedical(api, keywords, maxArticles)) - store
    ensures r.Success? ==> |r.value.saved| + r.value.skipped == r.value.medical
    ensures r.Success? ==> r.value.store == store + UrlsOf(LiveMedical(api, keywords, maxArticles))
    ensures r.Success? ==> forall rec :: rec in r.value.saved ==> rec.url !in store && rec.isMedical
    ensures r.Success? ==> IsSubseq(r.value.saved, Records(FullRecord, LiveMedical(api, keywords, maxArticles)))
  {
    if !HasCredentials(creds) then Failure(MissingApiKeys)
    else
      var run := CollectMedical(api, maxArticles);
      var articles := run.articles;
      var medical := BatchClassify(keywords, articles);
      var s := SaveAll(FullRecord, store, medical);
      SaveAllStore(FullRecord, store, medical);
      SaveAllFresh(FullRecord, store, medical);
      SavedRowsAreMedical(store, medical);
      Success(LiveSummary(run.requests, |articles|, |medical|, s.saved, s.skipped, s.store))
  }

  /** Running the live collection again over the same pages saves nothing and skips every medical article. */
  lemma LiveRerunSavesNothing(creds: Credentials, api: SearchApi, keywords: seq<string>, maxArticles: int, store: set<string>)
    requires HasCredentials(creds)
    ensures var first := CollectNow(creds, api, keywords, maxArticles, store).value;
      var again := CollectNow(creds, api, keywords, maxArticles, first.store).value;
      again.saved == [] && again.skipped == again.medical && again.store == first.store
  {
    var medical := LiveMedical(api, keywords, maxArticles);
    var first := CollectNow(creds, api, keywords, maxArticles, store).value;
    SaveAllAllKnown(FullRecord, first.store, medical);
  }

  /**
    With the configured daily budget of 100, each query asks for 16 items,
    and the route reports at most 100 collected articles.
   */
  lemma ConfiguredBudget(creds: Credentials, api: SearchApi, keywords: seq<string>, store: set<string>)
    requires HasCredentials(creds)
    ensures var r := CollectNow(creds, api, keywords, MaxArticlesPerDay, store).value;
      && (forall i :: 0 <= i < |r.requests| ==> r.requests[i].display == 16)
      && r.collected <= 100
  {
    assert PerQueryDisplay(MaxArticlesPerDay) == 16;
  }
}
