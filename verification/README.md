# Medical article aggregator: collection, classification and backfill in Dafny

This project models the back end of a Korean medical-news aggregator. It
covers how articles are fetched from the Naver news search, classified as
medical by keywords, deduplicated by URL, and saved. It models three parts:

- **The keyword classifier** (`ArticleClassifier`), in `classifier.dfy`, on the
  helpers in `text.dfy`:
  - finding keywords as case-folded substrings
  - scoring a title hit at 2 and a description hit at 1
  - normalised confidence with a floor correction
  - the medical decision
  - the first-maximum category from an ordered table with a fallback
  - the order-preserving batch filter
- **The news collector** (`NewsCollector`), in `collector.dfy` and `html.dfy`:
  - one request through an abstract search-API oracle; a failure yields no articles
  - the `<.*?>` tag stripper
  - the budgeted collection over six fixed queries, which stops early,
    deduplicates through a URL-keyed dictionary and truncates
- **The orchestration loops**, in `store.dfy`, `live.dfy`, `backfill.dfy` and
  `historical.dfy`:
  - the live collection route: collect, classify, then save each article unless its URL is stored
  - the seven-day backfill route and the `collect_historical_data` script. Both
    page through offsets 1, 101, …, 901 per query and stop on an empty page,
    on the first article older than the window, or at the offset ceiling.
    They save page by page against the store.
  - the `collect_historical` script: no date filter, and a page that raises
    is rolled back while pagination goes on

How the environment is represented:

- The network is a function from request to response (`SearchApi`). Where only
  the normalised page matters, it is a function from request to page (`Fetch`).
- Dates are integer timestamps.
- The database is the set of stored URLs. An insert is visible at once,
  because the session autoflushes before each query.
- The exceptions of the `collect_historical` script come from a second oracle
  (`Faults`), which picks per request whether fetching or saving fails.
- Configuration is data: the credentials (`Settings.Credentials`), the keyword
  list and the daily budget are parameters of the runs. The configured values
  (`Settings.MedicalKeywords`, `Settings.MaxArticlesPerDay`) appear in the
  lemmas about the configured confidence and the configured budget.

The modules, in dependency order:

- `wrappers`: `Option` and `Result`
- `seqs`: subsequences, filter, flat map
- `text`: ASCII lower-casing, substring test, join and split
- `settings`
- `articles`: the article and classification records
- `html`
- `classifier`
- `collector`
- `store`
- `live`
- `backfill`
- `historical`

Pagination is modelled apart from classifying and saving. Fetching never reads
the store, so the pages a query goes through are fixed by the fetch oracle and
the window alone. A saving fold over those pages is then proved equal to the
loop that interleaves the two.

## Model

| member | source | states |
|---|---|---|
| Text.Lower | backend/app/services/article_classifier.py:39 | Lower-casing maps each character independently, keeps the length, and leaves no upper-case ASCII letter. |
| Text.UpperNeverInLower | backend/app/services/article_classifier.py:76 | A pattern that holds an upper-case letter never occurs in lower-cased text. |
| Text.Split | backend/collect_historical_data.py:120 | A reference inverse of the comma join at :120, which nothing in the program calls: splitting on a separator gives at least one piece, and no piece contains the separator. |
| Text.SplitJoin | backend/collect_historical_data.py:120 | Splitting the text that `Join` builds gives back the parts, provided there is at least one part and none contains the separator. |
| Html.CloseAt | backend/app/services/news_collector.py:91 | The first `>` reachable without crossing a newline. If there is none, every `>` has a newline before it. |
| Html.CleanHtml | backend/app/services/news_collector.py:88-92 | The output is an in-order subsequence of the input and never longer than it. Text with no `<` is unchanged. The lemmas below pin down which characters go. |
| Html.CleanTagFree | backend/app/services/news_collector.py:88-92 | Text in which no `<` can open a tag is left unchanged. |
| Html.CleanHtmlTagFree | backend/app/services/news_collector.py:88-92 | The cleaned text holds no `<` that still starts a tag. |
| Html.CleanHtmlIdempotent | backend/app/services/news_collector.py:88-92 | Cleaning twice gives the same text as cleaning once. |
| Html.CloseAtSpan | backend/app/services/news_collector.py:91 | When the text after a `<` is a span free of `>` and newlines followed by `>`, the match closes at that `>`. |
| Html.CleanTagSpan | backend/app/services/news_collector.py:88-92 | A complete tag `<t>` in front of the text is deleted, and the rest is cleaned as if the tag were absent. |
| Html.CleanUnclosed | backend/app/services/news_collector.py:88-92 | A `<` that no `>` closes before a newline is kept, and cleaning continues right after it. |
| Html.CleanKeeps | backend/app/services/news_collector.py:88-92 | A character other than `<` is kept, and cleaning continues right after it. |
| Html.CleanPlainPrefix | backend/app/services/news_collector.py:88-92 | Text before the first `<` is kept unchanged in front of the cleaned rest. |
| Classifier.Found | backend/app/services/article_classifier.py:39-46 | The found keywords are a subsequence of the configured list, in configuration order. A keyword is found iff its lower-cased form occurs in the lower-cased `title + " " + description`. |
| Classifier.FoundIsFilter | backend/app/services/article_classifier.py:44-46 | The found keywords are exactly the configured keywords whose lower-cased form occurs in the text, filtered in order with every repeated entry kept. |
| Classifier.ScoreSplit | backend/app/services/article_classifier.py:44-51 | The score is the number of found keywords plus the number of found keywords that also occur in the lower-cased title, so a title hit counts 2 and a description-only hit 1. |
| Classifier.ScoreBounds | backend/app/services/article_classifier.py:47-51 | Each found keyword adds 1 or 2, so the score lies between n and 2n for n found keywords. |
| Classifier.Confidence | backend/app/services/article_classifier.py:54-59 | The confidence lies in [0, 1] and is never below the clamped normalised score. It is 0 when nothing was found and the score is 0, and at least `min(0.5 + 0.1n, 1)` when n ≥ 1 keywords were found. With at least 10 keywords and at most 2 points per found keyword it equals `min(0.5 + 0.1n, 1)`. |
| Classifier.Classify | backend/app/services/article_classifier.py:39-69 | Gives the found keywords and a confidence in [0, 1]. It is 0 when nothing was found, never below the normalised `Score`, and, with at least 10 configured keywords, exactly `min(0.5 + 0.1n, 1)` for n found. The article is medical iff something was found, since the floor always clears 0.04. The category is None iff not medical, and otherwise the table category of the match text. |
| Classifier.FloorConfidence | backend/app/services/article_classifier.py:53-62 | With at least 10 configured keywords a medical article has confidence exactly `min(0.5 + 0.1n, 1)`: 0.6 for one keyword, 1.0 from five on. |
| Classifier.ConfiguredConfidence | backend/config.py:21-26 | With the configured 27-keyword list, one found keyword gives confidence 0.6, five or more give 1.0, and every medical article sits exactly at the floor correction. |
| Classifier.CountHits | backend/app/services/article_classifier.py:76 | A category count is at most the number of the category's keywords, and it is 0 iff none of them occurs verbatim in the text. |
| Classifier.FirstMax | backend/app/services/article_classifier.py:80 | Returns the first position holding the maximum count, as `max` with a key does when it scans left to right. |
| Classifier.CategoryOf | backend/app/services/article_classifier.py:14-22 | Either every category count is 0 and the result is the fallback `기타`, or the result is the name at the first maximal position, whose count is positive. |
| Classifier.CovidNeverCounts | backend/app/services/article_classifier.py:19 | The upper-case `COVID` in the disease row never occurs in the lower-cased match text, so the disease count equals the count without it. |
| Classifier.Annotate | backend/app/services/article_classifier.py:99-108 | Every input article, kept or dropped, is paired with its classification, position by position. Every annotated article is one of the input articles. |
| Classifier.BatchClassify | backend/app/services/article_classifier.py:87-114 | The result is the in-order subsequence of the annotated articles that are medical, with both directions of membership. Each medical annotated article is kept as many times as it occurs, so duplicates are not merged. It is never longer than the input. |
| Collector.Normalize | backend/app/services/news_collector.py:47-53 | A normalised item keeps the item's link as its URL and its date. Its title and description are the cleaned item title and description, so they hold no tags. It carries the source label `네이버뉴스`. |
| Collector.CollectArticles | backend/app/services/news_collector.py:16-61 | A failed request yields no articles. Otherwise article i has item i's link and date, and its cleaned title and description. Every article is tag-free and labelled `네이버뉴스`. |
| Collector.FailureLooksEmpty | backend/app/services/news_collector.py:59-61 | A failed request and an empty result page give the same empty list. |
| Collector.Put | backend/app/services/news_collector.py:85 | A dictionary store overwrites the entry of an existing URL in place and appends a new URL at the end. |
| Collector.DictValues | backend/app/services/news_collector.py:85 | The dictionary's values have distinct URLs and exactly the fetched URLs. Each URL sits where it first occurred and holds the last article fetched with it. |
| Collector.TakePrefix | backend/app/services/news_collector.py:86 | `s[:n]` is a prefix whose length is n, capped at the length of `s`. A negative n drops that many items from the end. |
| Collector.PrefixKeepsDedup | backend/app/services/news_collector.py:86 | Truncating the deduplicated list keeps it distinct, last-wins and first-ordered, and its entries were all fetched. |
| Collector.Gather | backend/app/services/news_collector.py:77-82 | Issues one request per query in order, with the given display and start 1, appending each page. It stops right after the request that brings the count before deduplication to the budget. |
| Collector.PerQueryDisplay | backend/app/services/news_collector.py:75-78 | The page size is `max // 6` under floor division, capped at 100. Below the cap, d·6 ≤ max < (d+1)·6. At the cap, max ≥ 600. |
| Collector.PrefixClosedTake | backend/app/services/news_collector.py:85-86 | A prefix of the deduplicated list is closed: every URL fetched before the first occurrence of a kept URL is kept too. |
| Collector.CollectMedical | backend/app/services/news_collector.py:63-86 | Issues 1 to 6 requests, each with display `min(max // 6, 100)` and start 1, and stops as soon as the count before deduplication reaches the budget. For a non-negative budget the result has at most `max` items. It always has distinct URLs, all from fetched pages, last fetched wins, in first-occurrence order. It is prefix-closed under first occurrence, and when it is shorter than a non-negative budget it holds every fetched URL. |
| Collector.CollectMedicalArticles | backend/app/services/news_collector.py:85-86 | For a non-negative budget the returned list has at most `max_articles` items, with pairwise distinct URLs. Against the fetched pages it is last-wins, first-ordered and prefix-closed, and when shorter than the budget it covers every fetched URL. |
| Store.ToRecord | backend/collect_historical_data.py:112-121 | Both row styles copy the URL, title, description, source and date, the category and the confidence. A full row also copies `is_medical` and the keyword list. The script's row leaves `is_medical` at its column default False and stores the keywords comma-joined. |
| Store.ScriptKeywordsRoundTrip | backend/collect_historical_data.py:120 | The comma-joined keyword column splits back into the keyword list when no keyword holds a comma. |
| Store.SaveAll | backend/app/routes/scheduler.py:45-66 | Each item is either saved or skipped: `saved + skipped` equals the number of items. |
| Store.SaveAllStore | backend/app/routes/scheduler.py:45-67 | After the loop the store holds exactly the old URLs plus the items' URLs. |
| Store.SaveAllFresh | backend/app/routes/scheduler.py:46-50 | The saved rows have exactly the items' URLs that were not stored before, pairwise distinct, as an in-order subsequence of the items' rows. |
| Store.SaveAllAllKnown | backend/app/routes/scheduler.py:47-50 | When every URL is already stored, nothing is saved and every item is skipped. |
| Store.SaveAllConcat | backend/app/routes/scheduler.py:45-66 | Saving `a + b` is saving `a`, then saving `b` against the store `a` left, with the counters added. |
| Store.SaveAllTwice | backend/app/routes/scheduler.py:47-50 | Saving the same items again against the resulting store inserts nothing and skips every item. |
| LiveRun.CollectNow | backend/app/routes/scheduler.py:13-77 | Fails iff a credential is missing. Otherwise it reports the collector's requests, `collected` as the collector's output size and `medical` as the number of its medical articles, with `medical <= collected` and `saved + skipped == medical`. The saved rows have exactly the medical URLs that were new. The store gains exactly the medical URLs, and every saved row is new and marked medical. The saved rows are, in order, a subsequence of the full rows built from the collector's medical articles. |
| Store.SavedRowsAreMedical | backend/app/routes/scheduler.py:52-62 | Rows saved from medical articles have new URLs and carry `is_medical = true`. |
| LiveRun.LiveRerunSavesNothing | backend/app/routes/scheduler.py:45-50 | A second live run over the same pages against the first run's store saves nothing and skips every medical article. |
| LiveRun.ConfiguredBudget | backend/app/routes/scheduler.py:17-31 | With the configured daily budget of 100, every request asks for 16 items, and at most 100 articles are reported collected. |
| Backfill.WindowEndingAt | backend/collect_historical_data.py:43-44 | The window ends at `now` and spans `days · 86400` seconds. |
| Backfill.DaysArgument | backend/collect_historical_data.py:153 | `days` is the argument when one is given, and 7 otherwise. |
| Backfill.ScanPage | backend/app/routes/scheduler.py:144-156 | The scan stops iff some article is older than the window start. Kept articles lie in the window, as an in-order subsequence of the page. |
| Backfill.StopAt | backend/app/routes/scheduler.py:147-153 | The position of the first article older than the window start, or the page length when there is none: every article before it is new enough. |
| Backfill.ScanKeptIsFilter | backend/app/routes/scheduler.py:147-156 | The kept articles are exactly the in-window articles before the first too-old one, in page order, each occurrence kept. |
| Backfill.ScanIgnoresAfterStop | backend/app/routes/scheduler.py:147-153 | Articles after the first too-old one never change the scan's result. |
| Backfill.ScanKeepsEarlyInWindow | backend/app/routes/scheduler.py:147-156 | An in-window article that comes before every too-old one is kept. |
| Backfill.Paginate | backend/app/routes/scheduler.py:133-141 | A query issues at most 10 requests. Page i is the request with display 100 and start `1 + 100·(k+i)`, paired with its in-window articles. |
| Backfill.PaginateStep | backend/app/routes/scheduler.py:133-190 | A non-empty page that did not cross the window start is followed by the pages from the next offset. |
| Backfill.PaginateEnd | backend/app/routes/scheduler.py:140-190 | A page that is empty, or that crossed the window start, is the last page and keeps its in-window articles. The stop reason says which case occurred. |
| Backfill.PaginateContinues | backend/app/routes/scheduler.py:140-190 | Every page but the last is non-empty and did not cross the window start. |
| Backfill.PaginateEndsEarly | backend/app/routes/scheduler.py:140-190 | A query that stops before the ceiling stops at its last page, for the reason that page gives. |
| Backfill.PaginateCeiling | backend/app/routes/scheduler.py:133 | The offset ceiling ends a query iff all 10 requests were issued and the last page did not stop it. |
| Backfill.PaginateStops | backend/app/routes/scheduler.py:133-190 | Ceiling iff every request was issued and none stopped the query. Exhausted implies the last page was empty. WindowExceeded implies the last page was non-empty and crossed the window start. |
| Backfill.PaginateInWindow | backend/app/routes/scheduler.py:155-156 | Every article a query's pages keep lies in the window. |
| Backfill.QueryPagesInWindow | backend/app/routes/scheduler.py:129-156 | Across all queries, every kept article lies in the window. |
| Backfill.PageBatchMembers | backend/app/routes/scheduler.py:158-162 | A page's medical articles are its own in-window articles, classified medical. |
| Backfill.PageBatch | backend/app/routes/scheduler.py:158-162 | A page's batch holds exactly the annotated in-window articles of the page that are medical; a page with no in-window article yields none. |
| Backfill.MedicalInWindow | backend/app/routes/scheduler.py:155-162 | Every article classified in a backfill is medical and lies in the window. |
| Backfill.MedicalAtMostKept | backend/app/routes/scheduler.py:158-162 | There are never more medical articles than in-window articles. |
| Backfill.SavePagesFlat | backend/app/routes/scheduler.py:160-187 | Saving page by page (`SavePages`) equals one saving loop over all the pages' medical articles. |
| Backfill.SavePagesConcat | backend/app/routes/scheduler.py:129-187 | Saving the pages `a + b` is saving `a`, then `b` against the store `a` left. |
| Backfill.SavedRows | backend/app/routes/scheduler.py:165-185 | Rows saved from medical in-window articles are new and dated in the window. Full rows are marked medical. Script rows are not. Each saved row is the row built from one of the saved articles, so its keyword text is that article's matched keywords joined with commas. |
| Backfill.Backfill | backend/app/routes/scheduler.py:122-202 | The pages are the query-by-query pagination, and they keep only in-window articles. `collected` is the number of in-window articles over those pages (`KeptCount`). `saved + skipped` equals the medical count, which is at most `collected`. The store gains exactly the medical URLs. The saved rows are distinct, new and dated in the window. They are, in order, a subsequence of the rows built from the medical in-window articles, and each one is the row of such an article. |
| Backfill.PageSaved | backend/app/routes/scheduler.py:160-190 | Every page's medical articles end up stored, including the page that set the stop signal. |
| Backfill.BackfillRerunSavesNothing | backend/app/routes/scheduler.py:167-170 | A second backfill over the same pages against the first run's store saves nothing and skips every medical article. |
| Backfill.CollectHistoricalRoute | backend/app/routes/scheduler.py:94-202 | Fails iff a credential is missing. Otherwise it is the full-row backfill over the seven days ending now, and every saved row is new, medical and dated in that window. |
| Backfill.KeptCountConcat | backend/app/routes/scheduler.py:158 | The `collected` counter (`KeptCount`) over `a + b` is the sum of the counters over `a` and `b`. |
| Backfill.MedicalConcat | backend/app/routes/scheduler.py:160-162 | The medical articles of `a + b` are those of `a` followed by those of `b`. |
| Backfill.ScriptLoopSums | backend/collect_historical_data.py:55-133 | The script's query loop (`ScriptLoop`), which adds each query's `query_collected` and `query_saved` to the totals and counts skips directly, gives the backfill loop's totals over all queries' pages. |
| Backfill.CollectHistoricalData | backend/collect_historical_data.py:25-149 | The script's totals are those of the script-row backfill over the window `[now − days, now]`. Every saved row is new, not marked medical, and dated in the window. The saved rows are, in order, a subsequence of the script rows built from that backfill's medical in-window articles. |
| Historical.Attempts | backend/collect_historical.py:56-69 | A query issues at most 10 requests, and attempt i is the request with display 100 and start `1 + 100·(k+i)`. |
| Historical.AttemptsStep | backend/collect_historical.py:56-69 | An attempt that does not end the query, because it raised or was non-empty, is followed by the attempts from the next offset. |
| Historical.AttemptsOnlyLastEnds | backend/collect_historical.py:67-69 | Only the last attempt of a query can be an empty fetched page. |
| Historical.AttemptsStopEarly | backend/collect_historical.py:56-69 | A query stops before start 901 only because its last attempt fetched an empty page. |
| Historical.SaveAttemptsFlat | backend/collect_historical.py:74-115 | Saving page by page with rollback on a save fault (`SaveAttempts`) equals one saving loop over the committed pages' medical articles (`Committed`). |
| Historical.CommittedBounds | backend/collect_historical.py:71-74 | Committed articles are medical, and never outnumber the raw fetched count (`Fetched`). |
| Historical.CollectHistorical | backend/collect_historical.py:18-115 | Fails iff a credential is missing. The attempts are the ten queries' paginations, with no date window involved. `collected` is the sum of the raw fetched page sizes, rolled-back pages included. `saved + skipped` equals the committed medical count, which is at most `collected`. The store gains exactly the committed URLs, and every saved row is new and medical. The saved rows are, in order, a subsequence of the full rows built from the committed medical articles. |
| Historical.AllSavesFailed | backend/collect_historical.py:112-115 | When every page's save raises, nothing is committed, nothing is saved or skipped, and the store is unchanged. |
| Historical.QueryAttemptsMade | backend/collect_historical.py:56-74 | Every attempt of the run is the one its request gets (`Attempter`): the chosen fault and, unless fetching failed, the fetched page. |
| Historical.AllSavesFailedRun | backend/collect_historical.py:71-115 | When every save raises, the run stores nothing and reports no saved or skipped article, while `collected` is still the sum of the fetched page sizes, each page being what its request fetched. |

## Left out

- HTTP transport, headers, JSON decoding and the Flask request/response layer. The search API is an oracle from request to response, and the route responses are records.
- RFC 822 date parsing and its fallback to the current time. `pubDate` arrives as an integer timestamp.
- The comparison of parsed, zone-aware dates with a naive `datetime.now()`, in the backfill route (`backend/app/routes/scheduler.py:115`, `:150`) and in the `collect_historical_data` script (`backend/collect_historical_data.py:43`, `:85`). In Python this raises a type error: the route catches it and answers with an error, and the script, which does not catch it, aborts. The model compares plain timestamps, so it describes the runs as they would go if the two dates were comparable.
- Unicode case folding. `Lower` folds the ASCII letters only. Hangul has no case, and every configured keyword is Hangul or ASCII.
- Floating point. Confidence is a Dafny `real`, so `0.5 + 0.1n` is exact here, while Python's float is not. The bounds and the 0.04 threshold are not affected.
- SQLAlchemy sessions. Commit, autoflush, the unique constraint and the rollback of the two routes and of `collect_historical_data` on an unexpected exception are outside the model. The store is a URL set with inserts visible at once.
- Backfill.CollectHistoricalRoute: the `period` text of the response is not modelled.
- Historical.CollectHistorical: the `months` argument is not a parameter, because it is never read. The function's plain `None` return is modelled as the success report, and a missing credential as `Failure`.
- Historical.CollectHistorical: the exceptions come from the `Faults` oracle at two points per page, fetching or saving. An exception raised partway through the saving loop is modelled as a save fault of the whole page, which is what the rollback makes it.
- Backfill.DaysArgument: parsing the command-line argument with `int()`, and its failure on non-numeric text. The argument arrives already parsed.
- Logging, `time.sleep`, the `/status` route, and the interactive prompt and `--auto` flag of `collect_historical.py`.
- The read-side routes (`backend/app/routes/articles.py`, `backend/app/routes/sources.py`), the scheduler wiring in `backend/run.py`, `backend/add_sample_data.py`, `backend/reclassify_articles.py` and the frontend.
