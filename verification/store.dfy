/**
  The article store seen through its two operations, exists-by-URL and
  insert, as a set of stored URLs in which an insert is visible at once.
 */
module Store {
  import opened Wrappers
  import opened Seqs
  import opened Text
  import opened Articles

  /** The keyword column: a list, or the comma-joined text the backfill script writes. */
  datatype Keywords = KeywordList(items: seq<string>) | KeywordText(text: string)

  /** One stored row. */
  datatype Record = Record(
    url: string,
    title: string,
    description: string,
    source: string,
    published: int,
    isMedical: bool,
    category: Option<string>,
    confidence: real,
    keywords: Keywords)

  /** How a saving loop builds its rows: all fields, or the backfill script's reduced form. */
  datatype RecordStyle = FullRecord | ScriptRecord

  /** The `is_medical` column default, used when a row is built without it. */
  const IsMedicalDefault: bool := false

  /** Builds the row for a classified article. */
  function ToRecord(style: RecordStyle, c: Classified): (r: Record)
    ensures r.url == c.article.url && r.published == c.article.published
    ensures r.title == c.article.title && r.description == c.article.description && r.source == c.article.source
    ensures r.category == c.result.category && r.confidence == c.result.confidence
    ensures style == FullRecord ==> r.isMedical == c.result.isMedical && r.keywords == KeywordList(c.result.keywords)
    ensures style == ScriptRecord ==> !r.isMedical && r.keywords == KeywordText(Join(c.result.keywords, ','))
  {
    var a := c.article;
    match style
    case FullRecord =>
      Record(a.url, a.title, a.description, a.source, a.published,
             c.result.isMedical, c.result.category, c.result.confidence, KeywordList(c.result.keywords))
    case ScriptRecord =>
      Record(a.url, a.title, a.description, a.source, a.published,
             IsMedicalDefault, c.result.category, c.result.confidence, KeywordText(Join(c.result.keywords, ',')))
  }

  /** The comma-joined keyword text splits back into the keywords when none holds a comma. */
  lemma ScriptKeywordsRoundTrip(c: Classified)
    requires c.result.keywords != []
    requires forall i :: 0 <= i < |c.result.keywords| ==> ',' !in c.result.keywords[i]
    ensures Split(ToRecord(ScriptRecord, c).keywords.text, ',') == c.result.keywords
  {
    SplitJoin(c.result.keywords, ',');
  }

  /** The rows a saving loop would build for `items`, in order. */
  function Records(style: RecordStyle, items: seq<Classified>): (r: seq<Record>)
    ensures |r| == |items|
    ensures forall i :: 0 <= i < |items| ==> r[i] == ToRecord(style, items[i])
    decreases |items|
  {
    if items == [] then [] else [ToRecord(style, items[0])] + Records(style, items[1..])
  }

  function RecordUrls(rs: seq<Record>): set<string> {
    set r | r in rs :: r.url
  }

  /** The store after a saving loop, the rows it inserted, and how many it skipped. */
  datatype Saved = Saved(store: set<string>, saved: seq<Record>, skipped: nat)

  /**
    The saving loop: for each item in order, skip it when its URL is
    already stored, otherwise insert its row.
   */
  function SaveAll(style: RecordStyle, store: set<string>, items: seq<Classified>): (r: Saved)
    ensures |r.saved| + r.skipped == |items|
    decreases |items|
  {
    if items == [] then Saved(store, [], 0)
    else
      var url := items[0].article.url;
      if url in store then
        var rest := SaveAll(style, store, items[1..]);
        Saved(rest.store, rest.saved, rest.skipped + 1)
      else
        var rest := SaveAll(style, store + {url}, items[1..]);
        Saved(rest.store, [ToRecord(style, items[0])] + rest.saved, rest.skipped)
  }

  /** The store ends up holding exactly the old URLs and the items' URLs. */
  lemma {:induction false} SaveAllStore(style: RecordStyle, store: set<string>, items: seq<Classified>)
    ensures SaveAll(style, store, items).store == store + UrlsOf(items)
    decreases |items|
  {
    if items != [] {
      var url := items[0].article.url;
      assert items == [items[0]] + items[1..];
      UrlsOfCons(items[0], items[1..]);
      if url in store {
        SaveAllStore(style, store, items[1..]);
      } else {
        SaveAllStore(style, store + {url}, items[1..]);
      }
    }
  }

  /** The inserted rows are, in order, rows of the items, with pairwise distinct URLs that were not stored before. */
  lemma {:induction false} SaveAllFresh(style: RecordStyle, store: set<string>, items: seq<Classified>)
    ensures var r := SaveAll(style, store, items);
      && RecordUrls(r.saved) == UrlsOf(items) - store
      && (forall i, j :: 0 <= i < j < |r.saved| ==> r.saved[i].url != r.saved[j].url)
      && IsSubseq(r.saved, Records(style, items))
    decreases |items|
  {
    if items != [] {
      var x := items[0];
      var url := x.article.url;
      var rec := ToRecord(style, x);
      assert items == [x] + items[1..];
      UrlsOfCons(x, items[1..]);
      assert Records(style, items) == [rec] + Records(style, items[1..]);
      if url in store {
        SaveAllFresh(style, store, items[1..]);
        var rest := SaveAll(style, store, items[1..]);
        SubseqCons(rec, rest.saved, Records(style, items[1..]));
      } else {
        SaveAllFresh(style, store + {url}, items[1..]);
        var rest := SaveAll(style, store + {url}, items[1..]);
        InsertStep(rec, rest.saved, Records(style, items[1..]));
      }
    }
  }

  /** Rows saved from medical articles carry `is_medical = true` and a URL that was new. */
  lemma SavedRowsAreMedical(store: set<string>, medical: seq<Classified>)
    requires forall x :: x in medical ==> x.result.isMedical
    ensures forall rec :: rec in SaveAll(FullRecord, store, medical).saved ==> rec.url !in store && rec.isMedical
  {
    var r := SaveAll(FullRecord, store, medical);
    SaveAllFresh(FullRecord, store, medical);
    SubseqMembers(r.saved, Records(FullRecord, medical));
    forall rec | rec in r.saved ensures rec.url !in store && rec.isMedical {
      assert rec.url in RecordUrls(r.saved);
      var i :| 0 <= i < |medical| && Records(FullRecord, medical)[i] == rec;
      assert medical[i] in medical;
    }
  }

  /** When every item's URL is already stored, nothing is inserted and everything is skipped. */
  lemma {:induction false} SaveAllAllKnown(style: RecordStyle, store: set<string>, items: seq<Classified>)
    requires UrlsOf(items) <= store
    ensures SaveAll(style, store, items) == Saved(store, [], |items|)
    decreases |items|
  {
    if items != [] {
      assert items == [items[0]] + items[1..];
      UrlsOfCons(items[0], items[1..]);
      SaveAllAllKnown(style, store, items[1..]);
    }
  }

  /** Facts about putting a fresh row in front of the rows saved after it. */
  lemma InsertStep(rec: Record, saved: seq<Record>, recs: seq<Record>)
    requires IsSubseq(saved, recs)
    requires rec.url !in RecordUrls(saved)
    requires forall i, j :: 0 <= i < j < |saved| ==> saved[i].url != saved[j].url
    ensures IsSubseq([rec] + saved, [rec] + recs)
    ensures RecordUrls([rec] + saved) == {rec.url} + RecordUrls(saved)
    ensures forall i, j :: 0 <= i < j < |[rec] + saved| ==> ([rec] + saved)[i].url != ([rec] + saved)[j].url
  {
    var s := [rec] + saved;
    assert s[1..] == saved;
    assert ([rec] + recs)[1..] == recs;
    assert forall r :: r in s <==> r == rec || r in saved;
    forall j | 1 <= j < |s| ensures s[j].url != rec.url {
      assert s[j] == saved[j - 1];
      assert saved[j - 1] in saved;
    }
  }

  /** Saving a non-empty run is handling its first item, then saving the rest against the store that leaves. */
  lemma SaveAllCons(style: RecordStyle, store: set<string>, items: seq<Classified>)
    requires items != []
    ensures var url := items[0].article.url;
            var rest := SaveAll(style, store + {url}, items[1..]);
            SaveAll(style, store, items) ==
              if url in store then Saved(rest.store, rest.saved, rest.skipped + 1)
              else Saved(rest.store, [ToRecord(style, items[0])] + rest.saved, rest.skipped)
  {
    var url := items[0].article.url;
    if url in store {
      assert store + {url} == store;
    }
  }

  /** Saving `a + b` is saving `a`, then saving `b` against the store `a` left. */
  lemma {:induction false} SaveAllConcat(style: RecordStyle, store: set<string>, a: seq<Classified>, b: seq<Classified>)
    ensures var ra := SaveAll(style, store, a);
            var rb := SaveAll(style, ra.store, b);
            SaveAll(style, store, a + b) == Saved(rb.store, ra.saved + rb.saved, ra.skipped + rb.skipped)
    decreases |a|
  {
    if a == [] {
      assert a + b == b;
    } else {
      var next := store + {a[0].article.url};
      assert (a + b)[0] == a[0];
      assert (a + b)[1..] == a[1..] + b;
      SaveAllCons(style, store, a);
      SaveAllCons(style, store, a + b);
      SaveAllConcat(style, next, a[1..], b);
      var ra := SaveAll(style, store, a);
      var tail := SaveAll(style, next, a[1..]);
      assert ra.store == tail.store && ra.skipped == tail.skipped + (if a[0].article.url in store then 1 else 0);
    }
  }

  /** Saving the same items again against the resulting store inserts nothing and skips them all. */
  lemma SaveAllTwice(style: RecordStyle, store: set<string>, items: seq<Classified>)
    ensures var first := SaveAll(style, store, items);
      SaveAll(style, first.store, items) == Saved(first.store, [], |items|)
  {
    SaveAllStore(style, store, items);
    SaveAllAllKnown(style, SaveAll(style, store, items).store, items);
  }
}
