/**
  The `collect_historical` script: ten queries, each paginated from the
  first offset until an empty page or the offset ceiling, with no date
  filter. Every page is classified whole and saved in its own transaction;
  an exception while fetching skips the page, an exception while saving
  rolls the page back, and either way pagination goes on.
*/
module Historical {
  import opened Wrappers
  import opened Seqs
  import opened Articles
  import opened Settings
  import opened Classifier
  import opened Collector
  import opened Store
  import opened Backfill

  /** The script's own query list, longer than the collector's. */
  const SearchQueries: seq<string> := ["의료", "병원", "건강", "질병", "치료", "신약", "백신", "암", "당뇨", "의사"]

  /**
    Where an exception interrupts a page, if anywhere: while the page is
    fetched (nothing of it is counted) or while its rows are saved (its
    article count is kept, its rows and counters are rolled back).
   */
  datatype Fault = NoFault | FetchFault | SaveFault

  /** The environment's choice of fault for each request. */
  type Faults = Request -> Fault

  /** One request of the loop, its fault, and the articles it yielded (none after a fetch fault). */
  datatype Attempt = Attempt(request: Request, fault: Fault, articles: seq<Candidate>)

  /** The attempt made for each request. */
  function Attempter(fetch: Fetch, faults: Faults): Request -> Attempt {
    req => if faults(req) == FetchFault then Attempt(req, FetchFault, []) else Attempt(req, faults(req), fetch(req))
  }

  /** The attempt ends the query: the page was fetched and turned out empty. */
  predicate EndsQuery(a: Attempt) {
    a.fault != FetchFault && a.articles == []
  }

  /** Paginates one query from page `k`: only an empty fetched page or the ceiling stops it. */
  function Attempts(fetch: Fetch, faults: Faults, query: string, k: nat): (r: seq<Attempt>)
    requires k <= MaxPages
    ensures |r| <= MaxPages - k
    ensures forall i :: 0 <= i < |r| ==> r[i] == Attempter(fetch, faults)(PageRequest(query, k + i))
    decreases MaxPages - k
  {
    if k == MaxPages then []
    else
      var a := Attempter(fetch, faults)(PageRequest(query, k));
      if EndsQuery(a) then [a]
      else
        var rest := Attempts(fetch, faults, query, k + 1);
        assert forall i :: 1 <= i < |[a] + rest| ==> ([a] + rest)[i] == rest[i - 1];
        [a] + rest
  }

  /** An attempt that does not end the query is followed by the attempts from the next offset. */
  lemma AttemptsStep(fetch: Fetch, faults: Faults, query: string, k: nat)
    requires k < MaxPages && !EndsQuery(Attempter(fetch, faults)(PageRequest(query, k)))
    ensures Attempts(fetch, faults, query, k) == [Attempter(fetch, faults)(PageRequest(query, k))] + Attempts(fetch, faults, query, k + 1)
  {
  }

  /** Only the last attempt can end the query. */
  lemma {:induction false} AttemptsOnlyLastEnds(fetch: Fetch, faults: Faults, query: string, k: nat)
    requires k <= MaxPages
    ensures var r := Attempts(fetch, faults, query, k);
      forall i :: 0 <= i < |r| - 1 ==> !EndsQuery(r[i])
    decreases MaxPages - k
  {
    if k < MaxPages && !EndsQuery(Attempter(fetch, faults)(PageRequest(query, k))) {
      AttemptsStep(fetch, faults, query, k);
      AttemptsOnlyLastEnds(fetch, faults, query, k + 1);
      var r := Attempts(fetch, faults, query, k);
      var rest := Attempts(fetch, faults, query, k + 1);
      forall i | 1 <= i < |r| - 1 ensures !EndsQuery(r[i]) {
        assert r[i] == rest[i - 1];
      }
    }
  }

  /** A query stops before the offset ceiling only because its last attempt ended it. */
  lemma {:induction false} AttemptsStopEarly(fetch: Fetch, faults: Faults, query: string, k: nat)
    requires k <= MaxPages
    ensures var r := Attempts(fetch, faults, query, k);
      |r| < MaxPages - k ==> r != [] && EndsQuery(r[|r| - 1])
    decreases MaxPages - k
  {
    var r := Attempts(fetch, faults, query, k);
    if k < MaxPages && !EndsQuery(Attempter(fetch, faults)(PageRequest(query, k))) {
      AttemptsStep(fetch, faults, query, k);
      AttemptsStopEarly(fetch, faults, query, k + 1);
      var rest := Attempts(fetch, faults, query, k + 1);
      if |r| < MaxPages - k {
        assert |rest| < MaxPages - (k + 1);
        assert r[|r| - 1] == rest[|rest| - 1];
      }
    }
  }

  /** The attempts of each query in turn. */
  function QueryAttempts(fetch: Fetch, faults: Faults, queries: seq<string>): seq<Attempt>
    decreases |queries|
  {
    if queries == [] then [] else Attempts(fetch, faults, queries[0], 0) + QueryAttempts(fetch, faults, queries[1..])
  }

  /** The `total_collected` counter: every fetched article, including those of pages whose save failed. */
  function Fetched(attempts: seq<Attempt>): nat
    decreases |attempts|
  {
    if attempts == [] then 0 else |attempts[0].articles| + Fetched(attempts[1..])
  }

  /** The medical articles of an attempt whose rows are committed. */
  function CommittedBatch(keywords: seq<string>, a: Attempt): seq<Classified> {
    if a.fault == NoFault && a.articles != [] then BatchClassify(keywords, a.articles) else []
  }

  /** The medical articles of all committed attempts, in order. */
  function Committed(keywords: seq<string>, attempts: seq<Attempt>): seq<Classified>
    decreases |attempts|
  {
    if attempts == [] then [] else CommittedBatch(keywords, attempts[0]) + Committed(keywords, attempts[1..])
  }

  /**
    Saving attempt by attempt: a non-empty fetched page is classified and
    saved; a save fault rolls the store back to what it was before the page
    and drops the page's counters.
   */
  function SaveAttempts(keywords: seq<string>, store: set<string>, attempts: seq<Attempt>): (r: Saved)
    decreases |attempts|
  {
    if attempts == [] then Saved(store, [], 0)
    else
      var a := attempts[0];
      if a.fault != NoFault || a.articles == [] then SaveAttempts(keywords, store, attempts[1..])
      else
        var s := SaveAll(FullRecord, store, BatchClassify(keywords, a.articles));
        var rest := SaveAttempts(keywords, s.store, attempts[1..]);
        Saved(rest.store, s.saved + rest.saved, s.skipped + rest.skipped)
  }

  /** Saving attempt by attempt amounts to one saving loop over the committed pages' medical articles. */
  lemma {:induction false} SaveAttemptsFlat(keywords: seq<string>, store: set<string>, attempts: seq<Attempt>)
    ensures SaveAttempts(keywords, store, attempts) == SaveAll(FullRecord, store, Committed(keywords, attempts))
    decreases |attempts|
  {
    if attempts != [] {
      var batch := CommittedBatch(keywords, attempts[0]);
      var s := SaveAll(FullRecord, store, batch);
      SaveAttemptsFlat(keywords, s.store, attempts[1..]);
      SaveAllConcat(FullRecord, store, batch, Committed(keywords, attempts[1..]));
    }
  }

  /** Committed medical articles are medical, and never outnumber the fetched articles. */
  lemma {:induction false} CommittedBounds(keywords: seq<string>, attempts: seq<Attempt>)
    ensures |Committed(keywords, attempts)| <= Fetched(attempts)
    ensures forall c :: c in Committed(keywords, attempts) ==> c.result.isMedical
    decreases |attempts|
  {
    if attempts != [] {
      CommittedBounds(keywords, attempts[1..]);
    }
  }

  /** The script's logged totals, with the attempts it made and the store it leaves. */
  datatype HistoricalReport = HistoricalReport(
    attempts: seq<Attempt>,
    collected: nat,
    saved: seq<Record>,
    skipped: nat,
    store: set<string>)

  /** `collect_historical_articles`: gives up at once without credentials, otherwise runs every query. */
  function CollectHistorical(creds: Credentials, fetch: Fetch, faults: Faults, keywords: seq<string>, store: set<string>)
    : (r: Result<HistoricalReport, RunError>)
    ensures r.Failure? <==> !HasCredentials(creds)
    ensures r.Success? ==> r.value.attempts == QueryAttempts(fetch, faults, SearchQueries)
    ensures r.Success? ==> r.value.collected == Fetched(r.value.attempts)
    ensures r.Success? ==> |r.value.saved| + r.value.skipped == |Committed(keywords, r.value.attempts)| <= r.value.collected
    ensures r.Success? ==> r.value.store == store + UrlsOf(Committed(keywords, r.value.attempts))
    ensures r.Success? ==> forall rec :: rec in r.value.saved ==> rec.url !in store && rec.isMedical
    ensures r.Success? ==> IsSubseq(r.value.saved, Records(FullRecord, Committed(keywords, r.value.attempts)))
  {
    if !HasCredentials(creds) then Failure(MissingApiKeys)
    else
      var attempts := QueryAttempts(fetch, faults, SearchQueries);
      var committed := Committed(keywords, attempts);
      var s := SaveAttempts(keywords, store, attempts);
      SaveAttemptsFlat(keywords, store, attempts);
      CommittedBounds(keywords, attempts);
      SaveAllStore(FullRecord, store, committed);
      SaveAllFresh(FullRecord, store, committed);
      SavedRowsAreMedical(store, committed);
      Success(HistoricalReport(attempts, Fetched(attempts), s.saved, s.skipped, s.store))
  }

  /** A save fault on every request commits nothing: the store is unchanged though articles are counted. */
  lemma {:induction false} AllSavesFailed(keywords: seq<string>, store: set<string>, attempts: seq<Attempt>)
    requires forall i :: 0 <= i < |attempts| ==> attempts[i].fault == SaveFault
    ensures Committed(keywords, attempts) == []
    ensures SaveAttempts(keywords, store, attempts) == Saved(store, [], 0)
    decreases |attempts|
  {
    if attempts != [] {
      AllSavesFailed(keywords, store, attempts[1..]);
    }
  }

  /** Every attempt of the run is the attempt its request gets: the fault the environment chose and, unless fetching failed, the fetched page. */
  lemma {:induction false} QueryAttemptsMade(fetch: Fetch, faults: Faults, queries: seq<string>)
    ensures forall a :: a in QueryAttempts(fetch, faults, queries) ==> a == Attempter(fetch, faults)(a.request)
    decreases |queries|
  {
    if queries != [] {
      QueryAttemptsMade(fetch, faults, queries[1..]);
      var head := Attempts(fetch, faults, queries[0], 0);
      forall a | a in head ensures a == Attempter(fetch, faults)(a.request) {
        var i :| 0 <= i < |head| && head[i] == a;
      }
    }
  }

  /**
    When every save raises, the run stores nothing and reports no saved or
    skipped article, while `collected` still counts every fetched page.
   */
  lemma AllSavesFailedRun(creds: Credentials, fetch: Fetch, faults: Faults, keywords: seq<string>, store: set<string>)
    requires HasCredentials(creds)
    requires forall req :: faults(req) == SaveFault
    ensures var r := CollectHistorical(creds, fetch, faults, keywords, store).value;
      && r.saved == [] && r.skipped == 0 && r.store == store
      && r.collected == Fetched(r.attempts)
      && forall i :: 0 <= i < |r.attempts| ==> r.attempts[i].articles == fetch(r.attempts[i].request)
  {
    var attempts := QueryAttempts(fetch, faults, SearchQueries);
    QueryAttemptsMade(fetch, faults, SearchQueries);
    forall i | 0 <= i < |attempts| ensures attempts[i].fault == SaveFault && attempts[i].articles == fetch(attempts[i].request) {
      assert attempts[i] in attempts;
    }
    AllSavesFailed(keywords, store, attempts);
  }
}
