/**
  The keyword classifier: finds the configured medical keywords in an
  article, scores them, decides whether the article is medical, and picks
  its category from an ordered table.
 */
module Classifier {
  import opened Wrappers
  import opened Seqs
  import opened Text
  import opened Articles
  import opened Settings

  /** One row of the category table: a name and the keywords that vote for it. */
  datatype Category = Category(name: string, keywords: seq<string>)

  const DiseaseHead: seq<string> := ["질병", "암", "당뇨", "고혈압", "코로나"]
  const DiseaseTail: seq<string> := ["감염", "바이러스", "독감"]
  /** The disease row, whose upper-case "COVID" entry is compared with lower-cased text. */
  const DiseaseKeywords: seq<string> := DiseaseHead + ["COVID"] + DiseaseTail

  /** The fallback category when no category keyword occurs. */
  const Fallback: string := "기타"

  /** The category table in its declaration order, which breaks ties. */
  const CategoryTable: seq<Category> := [
    Category("의정갈등", ["의정갈등", "의사파업", "의료파업", "전공의", "레지던트", "의대증원", "의료계", "의협", "대한의사협회", "집단휴진", "수련병원"]),
    Category("병원", ["병원", "의원", "요양", "진료", "의사", "간호사", "응급실", "입원"]),
    Category("제약", ["제약", "신약", "약", "의약품", "바이오", "임상", "임상시험"]),
    Category("정책", ["보건복지부", "의료정책", "건강보험", "의료법", "의료개혁", "복지부"]),
    Category("질병", DiseaseKeywords),
    Category("연구", ["연구", "논문", "학회", "의학", "의료기술", "진단", "치료법"]),
    Category(Fallback, [])
  ]

  /** The text keywords are searched in: title, a space, description, lower-cased. */
  function MatchText(title: string, description: string): string {
    Lower(title + " " + description)
  }

  /** The configured keywords whose lower-cased form occurs in `text`, in configuration order. */
  function Found(keywords: seq<string>, text: string): (r: seq<string>)
    ensures IsSubseq(r, keywords)
    ensures forall k :: k in r <==> k in keywords && Contains(text, Lower(k))
    decreases |keywords|
  {
    if keywords == [] then []
    else
      var rest := Found(keywords[1..], text);
      assert keywords == [keywords[0]] + keywords[1..];
      if Contains(text, Lower(keywords[0])) then
        assert ([keywords[0]] + rest)[1..] == rest;
        [keywords[0]] + rest
      else
        SubseqCons(keywords[0], rest, keywords[1..]);
        rest
  }

  /** The found keywords are the configured ones that occur, each occurrence in the list kept. */
  lemma {:induction false} FoundIsFilter(keywords: seq<string>, text: string)
    ensures Found(keywords, text) == Filter((k: string) => Contains(text, Lower(k)), keywords)
    decreases |keywords|
  {
    if keywords != [] {
      FoundIsFilter(keywords[1..], text);
    }
  }

  /** The weight of a found keyword: 2 when it also occurs in the lower-cased title, else 1. */
  function Weight(keyword: string, title: string): nat {
    if Contains(Lower(title), Lower(keyword)) then 2 else 1
  }

  /** The raw score: the sum of the weights of the keywords that occur in `text`. */
  function Score(keywords: seq<string>, title: string, text: string): nat
    decreases |keywords|
  {
    if keywords == [] then 0
    else
      (if Contains(text, Lower(keywords[0])) then Weight(keywords[0], title) else 0)
      + Score(keywords[1..], title, text)
  }

  /** A found keyword scores one point, and a second one when it also occurs in the title. */
  lemma {:induction false} ScoreSplit(keywords: seq<string>, title: string, text: string)
    ensures var found := Found(keywords, text);
      Score(keywords, title, text) == |found| + |Found(found, Lower(title))|
    decreases |keywords|
  {
    if keywords != [] {
      ScoreSplit(keywords[1..], title, text);
      var k := keywords[0];
      var rest := Found(keywords[1..], text);
      if Contains(text, Lower(k)) {
        assert ([k] + rest)[1..] == rest;
      }
    }
  }

  /** Each found keyword adds one or two points, so the score lies between |found| and 2|found|. */
  lemma {:induction false} ScoreBounds(keywords: seq<string>, title: string, text: string)
    ensures |Found(keywords, text)| <= Score(keywords, title, text) <= 2 * |Found(keywords, text)|
    decreases |keywords|
  {
    if keywords != [] {
      ScoreBounds(keywords[1..], title, text);
    }
  }

  function Min(a: real, b: real): real {
    if a <= b then a else b
  }

  function Max(a: real, b: real): real {
    if a >= b then a else b
  }

  /** The floor correction `min(0.5 + 0.1 n, 1.0)` for `n` found keywords. */
  function FloorFor(n: nat): real {
    Min(0.5 + (n as real) * 0.1, 1.0)
  }

  /** With ten or more keywords, a score of at most 2 per found keyword normalises to no more than the floor correction. */
  lemma NormalisedBelowFloor(score: nat, found: nat, keywordCount: nat)
    ensures found >= 1 && keywordCount >= 10 && score <= 2 * found ==>
      Min(score as real / (keywordCount as real * 2.0), 1.0) <= FloorFor(found)
  {
    if found >= 1 && keywordCount >= 10 && score <= 2 * found {
      var maxPossible := keywordCount as real * 2.0;
      assert maxPossible >= 20.0;
      assert score as real / maxPossible <= (found as real) * 2.0 / maxPossible;
      assert (found as real) * 2.0 / maxPossible <= (found as real) * 0.1;
    }
  }

  /** The normalised score, clamped to 1.0, then raised to the floor correction when something was found. */
  function Confidence(score: nat, found: nat, keywordCount: nat): (c: real)
    ensures 0.0 <= c <= 1.0
    ensures keywordCount == 0 && found == 0 ==> c == 0.0
    ensures found == 0 && score == 0 ==> c == 0.0
    ensures found >= 1 ==> c >= FloorFor(found)
    ensures keywordCount > 0 ==> c >= Min(score as real / (keywordCount as real * 2.0), 1.0)
    ensures found >= 1 && keywordCount >= 10 && score <= 2 * found ==> c == FloorFor(found)
  {
    var maxPossible := (keywordCount as real) * 2.0;
    var raw := if maxPossible > 0.0 then Min(score as real / maxPossible, 1.0) else 0.0;
    assert maxPossible > 0.0 ==> score as real / maxPossible >= 0.0;
    NormalisedBelowFloor(score, found, keywordCount);
    if found >= 1 then Max(raw, FloorFor(found)) else raw
  }

  /** Below this confidence an article is never medical. */
  const Threshold: real := 0.04

  /** Classifies one article against the configured keywords. */
  function Classify(keywords: seq<string>, title: string, description: string): (r: Classification)
    ensures r.keywords == Found(keywords, MatchText(title, description))
    ensures 0.0 <= r.confidence <= 1.0
    ensures r.keywords == [] ==> r.confidence == 0.0
    ensures r.isMedical <==> r.keywords != []
    ensures r.keywords != [] ==> r.confidence >= FloorFor(|r.keywords|)
    ensures |keywords| > 0 ==>
      r.confidence >= Min(Score(keywords, title, MatchText(title, description)) as real / (|keywords| as real * 2.0), 1.0)
    ensures |keywords| >= 10 && r.keywords != [] ==> r.confidence == FloorFor(|r.keywords|)
    ensures r.category.None? <==> !r.isMedical
    ensures r.isMedical ==> r.category == Some(CategoryOf(MatchText(title, description)))
  {
    var text := MatchText(title, description);
    var found := Found(keywords, text);
    SubseqMembers(found, keywords);
    ScoreBounds(keywords, title, text);
    var confidence := Confidence(Score(keywords, title, text), |found|, |keywords|);
    var isMedical := confidence >= Threshold && |found| >= 1;
    Classification(isMedical, if isMedical then Some(CategoryOf(text)) else None, confidence, found)
  }

  /** How many of `keywords` occur verbatim in `text` (the keywords are not lower-cased). */
  function CountHits(keywords: seq<string>, text: string): (n: nat)
    ensures n <= |keywords|
    ensures n == 0 <==> forall i :: 0 <= i < |keywords| ==> !Contains(text, keywords[i])
    decreases |keywords|
  {
    if keywords == [] then 0
    else
      var rest := CountHits(keywords[1..], text);
      assert forall i :: 1 <= i < |keywords| ==> keywords[i] == keywords[1..][i - 1];
      (if Contains(text, keywords[0]) then 1 else 0) + rest
  }

  lemma {:induction false} CountHitsConcat(a: seq<string>, b: seq<string>, text: string)
    ensures CountHits(a + b, text) == CountHits(a, text) + CountHits(b, text)
    decreases |a|
  {
    if a == [] {
      assert a + b == b;
    } else {
      assert (a + b)[1..] == a[1..] + b;
      CountHitsConcat(a[1..], b, text);
    }
  }

  /** The per-category hit counts, in table order. */
  function Counts(table: seq<Category>, text: string): (r: seq<nat>)
    ensures |r| == |table|
    ensures forall i :: 0 <= i < |table| ==> r[i] == CountHits(table[i].keywords, text)
  {
    seq(|table|, i requires 0 <= i < |table| => CountHits(table[i].keywords, text))
  }

  /** `i` is the first position holding the maximum of `counts`. */
  predicate IsFirstMax(counts: seq<nat>, i: int) {
    && 0 <= i < |counts|
    && (forall j :: 0 <= j < |counts| ==> counts[j] <= counts[i])
    && (forall j :: 0 <= j < i ==> counts[j] < counts[i])
  }

  /** Python's `max(..., key=...)`: scans left to right and moves only on a strictly larger count. */
  function FirstMax(counts: seq<nat>): (i: nat)
    requires |counts| > 0
    ensures IsFirstMax(counts, i)
    decreases |counts|
  {
    if |counts| == 1 then 0
    else
      var front := counts[..|counts| - 1];
      var i := FirstMax(front);
      assert forall j :: 0 <= j < |front| ==> counts[j] == front[j];
      if counts[|counts| - 1] > counts[i] then |counts| - 1 else i
  }

  /** The category for lower-cased article text: the first maximal category if its count is positive, else the fallback. */
  function CategoryOf(text: string): (r: string)
    ensures var counts := Counts(CategoryTable, text);
      || (r == Fallback && forall j :: 0 <= j < |counts| ==> counts[j] == 0)
      || (exists i :: IsFirstMax(counts, i) && counts[i] > 0 && r == CategoryTable[i].name && r != Fallback)
  {
    var counts := Counts(CategoryTable, text);
    var i := FirstMax(counts);
    if counts[i] > 0 then
      assert counts[6] == 0;
      CategoryTable[i].name
    else Fallback
  }

  /** Upper-case "COVID" never occurs in the lower-cased match text, so it never votes for the disease row. */
  lemma CovidNeverCounts(title: string, description: string)
    ensures !Contains(MatchText(title, description), "COVID")
    ensures CountHits(DiseaseKeywords, MatchText(title, description))
         == CountHits(DiseaseHead + DiseaseTail, MatchText(title, description))
  {
    var text := MatchText(title, description);
    UpperNeverInLower(title + " " + description, "COVID", 0);
    CountHitsConcat(DiseaseHead + ["COVID"], DiseaseTail, text);
    CountHitsConcat(DiseaseHead, ["COVID"], text);
    CountHitsConcat(DiseaseHead, DiseaseTail, text);
  }

  /** Every article, dropped or kept, annotated with its classification. */
  function Annotate(keywords: seq<string>, articles: seq<Candidate>): (r: seq<Classified>)
    ensures |r| == |articles|
    ensures forall i :: 0 <= i < |articles| ==>
      r[i] == Classified(articles[i], Classify(keywords, articles[i].title, articles[i].description))
    ensures forall c :: c in r ==> c.article in articles
  {
    seq(|articles|, i requires 0 <= i < |articles| =>
      Classified(articles[i], Classify(keywords, articles[i].title, articles[i].description)))
  }

  predicate IsMedical(c: Classified) {
    c.result.isMedical
  }

  /** The annotated articles that are medical, in input order. */
  function BatchClassify(keywords: seq<string>, articles: seq<Candidate>): (r: seq<Classified>)
    ensures IsSubseq(r, Annotate(keywords, articles))
    ensures forall x :: x in r <==> x in Annotate(keywords, articles) && x.result.isMedical
    ensures |r| <= |articles|
    ensures forall x :: multiset(r)[x] == if x.result.isMedical then multiset(Annotate(keywords, articles))[x] else 0
  {
    var r := Filter(IsMedical, Annotate(keywords, articles));
    SubseqMembers(r, Annotate(keywords, articles));
    r
  }

  /**
    With ten or more configured keywords the normalised score never beats
    the floor correction, so the confidence of a medical article is exactly
    `min(0.5 + 0.1n, 1.0)`: 0.6 for one keyword, 1.0 from five on. The
    configured list has 27 entries.
   */
  lemma FloorConfidence(keywords: seq<string>, title: string, description: string)
    requires |keywords| >= 10
    ensures var r := Classify(keywords, title, description);
      && (r.isMedical ==> r.confidence == FloorFor(|r.keywords|))
      && (|r.keywords| == 1 ==> r.confidence == 0.6)
      && (|r.keywords| >= 5 ==> r.confidence == 1.0)
  {
    var r := Classify(keywords, title, description);
    if r.isMedical {
      var n := |r.keywords|;
      assert n == 1 ==> FloorFor(n) == 0.6;
      assert n >= 5 ==> FloorFor(n) == 1.0;
    }
  }

  /** The configured list is long enough: one configured keyword gives 0.6, five or more give 1.0. */
  lemma ConfiguredConfidence(title: string, description: string)
    ensures var r := Classify(MedicalKeywords, title, description);
      && (r.isMedical ==> r.confidence == FloorFor(|r.keywords|))
      && (|r.keywords| == 1 ==> r.confidence == 0.6)
      && (|r.keywords| >= 5 ==> r.confidence == 1.0)
  {
    assert |MedicalKeywords| == 27;
    FloorConfidence(MedicalKeywords, title, description);
  }
}
