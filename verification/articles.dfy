/** The records that flow from the fetcher through the classifier to the store. */
module Articles {
  import opened Wrappers

  /** A normalised search result; `published` is a timestamp in seconds. */
  datatype Candidate = Candidate(
    title: string,
    description: string,
    url: string,
    source: string,
    published: int)

  /** The classifier's verdict on one article. */
  datatype Classification = Classification(
    isMedical: bool,
    category: Option<string>,
    confidence: real,
    keywords: seq<string>)

  /** An article together with its classification (the annotated article dictionary). */
  datatype Classified = Classified(article: Candidate, result: Classification)

  /** The URLs of a list of candidates. */
  function UrlSet(xs: seq<Candidate>): set<string> {
    set x | x in xs :: x.url
  }

  /** The URLs of a list of classified articles. */
  function UrlsOf(xs: seq<Classified>): set<string> {
    set x | x in xs :: x.article.url
  }

  /** No URL occurs twice. */
  predicate DistinctUrls(xs: seq<Candidate>) {
    forall i, j :: 0 <= i < j < |xs| ==> xs[i].url != xs[j].url
  }

  lemma UrlSetAppend(xs: seq<Candidate>, a: Candidate)
    ensures UrlSet(xs + [a]) == UrlSet(xs) + {a.url}
  {
    assert forall x :: x in xs + [a] <==> x in xs || x == a;
  }

  lemma UrlSetCons(a: Candidate, xs: seq<Candidate>)
    ensures UrlSet([a] + xs) == {a.url} + UrlSet(xs)
  {
    assert forall x :: x in [a] + xs <==> x == a || x in xs;
  }

  lemma UrlsOfCons(a: Classified, xs: seq<Classified>)
    ensures UrlsOf([a] + xs) == {a.article.url} + UrlsOf(xs)
  {
    assert forall x :: x in [a] + xs <==> x == a || x in xs;
  }
}
