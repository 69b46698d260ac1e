/**
  Tag stripping as done by `re.sub('<.*?>', '', text)`: every `<` that is
  followed, before any newline, by a `>` starts a tag that runs to the first
  such `>`; tags are deleted and the scan resumes after them.
 */
module Html {
  import opened Wrappers
  import opened Seqs

  /** The position of the first `>` in `t` when no newline comes before it (`.` does not match a newline). */
  function CloseAt(t: string): (r: Option<nat>)
    ensures r.Some? ==> r.value < |t| && t[r.value] == '>'
    ensures r.Some? ==> forall j :: 0 <= j < r.value ==> t[j] != '>' && t[j] != '\n'
    ensures r.None? ==> forall j :: 0 <= j < |t| && t[j] == '>' ==> '\n' in t[..j]
    decreases |t|
  {
    if t == [] then None
    else if t[0] == '>' then Some(0)
    else if t[0] == '\n' then None
    else
      match CloseAt(t[1..])
      case None =>
        assert forall j :: 1 <= j < |t| ==> t[1..][..j - 1] == t[1..j];
        None
      case Some(k) => Some(k + 1)
  }

  /** Deletes every non-greedy `<...>` span, keeping every other character in order. */
  function CleanHtml(s: string): (r: string)
    ensures |r| <= |s|
    ensures IsSubseq(r, s)
    ensures '<' !in s ==> r == s
    decreases |s|
  {
    if s == [] then []
    else if s[0] == '<' && CloseAt(s[1..]).Some? then
      var k := CloseAt(s[1..]).value + 2;
      var r := CleanHtml(s[k..]);
      SubseqOfSuffix(r, s, k);
      r
    else
      var rest := CleanHtml(s[1..]);
      assert ([s[0]] + rest)[1..] == rest;
      [s[0]] + rest
  }

  /** No `<` in `s` can open a tag. */
  predicate TagFree(s: string) {
    forall i :: 0 <= i < |s| && s[i] == '<' ==> CloseAt(s[i + 1..]).None?
  }

  /** Tag-free text is left alone. */
  lemma {:induction false} CleanTagFree(s: string)
    requires TagFree(s)
    ensures CleanHtml(s) == s
    decreases |s|
  {
    if s != [] {
      assert forall i :: 0 <= i < |s[1..]| ==> s[1..][i] == s[i + 1] && s[1..][i + 1..] == s[i + 2..];
      CleanTagFree(s[1..]);
      assert [s[0]] + s[1..] == s;
    }
  }

  /** A `<` that cannot close before a newline still cannot once the rest of the text is cleaned. */
  lemma {:induction false} NoCloseSurvives(t: string)
    requires CloseAt(t).None?
    ensures CloseAt(CleanHtml(t)).None?
    decreases |t|
  {
    if t != [] && t[0] != '\n' {
      assert CloseAt(t[1..]).None?;
      NoCloseSurvives(t[1..]);
      var r := CleanHtml(t);
      assert r == [t[0]] + CleanHtml(t[1..]);
      assert r[1..] == CleanHtml(t[1..]);
    }
  }

  /** Putting a character in front of tag-free text keeps it tag-free when that character cannot open a tag. */
  lemma PrependTagFree(c: char, t: string)
    requires TagFree(t)
    requires c == '<' ==> CloseAt(t).None?
    ensures TagFree([c] + t)
  {
    var s := [c] + t;
    assert s[1..] == t;
    forall i | 0 <= i < |s| && s[i] == '<'
      ensures CloseAt(s[i + 1..]).None?
    {
      if i > 0 {
        assert s[i] == t[i - 1];
        assert s[i + 1..] == t[i..];
      }
    }
  }

  /** The output of the cleaner holds no tag. */
  lemma {:induction false} CleanHtmlTagFree(s: string)
    ensures TagFree(CleanHtml(s))
    decreases |s|
  {
    if s == [] {
    } else if s[0] == '<' && CloseAt(s[1..]).Some? {
      CleanHtmlTagFree(s[CloseAt(s[1..]).value + 2..]);
    } else {
      CleanHtmlTagFree(s[1..]);
      if s[0] == '<' {
        NoCloseSurvives(s[1..]);
      }
      PrependTagFree(s[0], CleanHtml(s[1..]));
    }
  }

  /** Cleaning twice is cleaning once. */
  lemma CleanHtmlIdempotent(s: string)
    ensures CleanHtml(CleanHtml(s)) == CleanHtml(s)
  {
    CleanHtmlTagFree(s);
    CleanTagFree(CleanHtml(s));
  }

  /** A span free of `>` and newlines, then `>`: the first close is right after the span. */
  lemma {:induction false} CloseAtSpan(t: string, q: string)
    requires '>' !in t && '\n' !in t
    ensures CloseAt(t + ['>'] + q) == Some(|t|)
    decreases |t|
  {
    if t != [] {
      assert (t + ['>'] + q)[0] == t[0];
      assert (t + ['>'] + q)[1..] == t[1..] + ['>'] + q;
      CloseAtSpan(t[1..], q);
    }
  }

  /** A complete tag `<t>` in front of the text is deleted, and only it. */
  lemma CleanTagSpan(t: string, q: string)
    requires '>' !in t && '\n' !in t
    ensures CleanHtml(['<'] + t + ['>'] + q) == CleanHtml(q)
  {
    var s := ['<'] + t + ['>'] + q;
    assert s[1..] == t + ['>'] + q;
    CloseAtSpan(t, q);
    assert s[|t| + 2..] == q;
  }

  /** A `<` that no `>` closes before a newline is kept, and cleaning goes on after it. */
  lemma CleanUnclosed(q: string)
    requires CloseAt(q).None?
    ensures CleanHtml(['<'] + q) == ['<'] + CleanHtml(q)
  {
    assert (['<'] + q)[1..] == q;
  }

  /** A character other than `<` is kept, and cleaning goes on after it. */
  lemma CleanKeeps(c: char, t: string)
    requires c != '<'
    ensures CleanHtml([c] + t) == [c] + CleanHtml(t)
  {
    assert ([c] + t)[1..] == t;
  }

  /** Text before the first `<` is kept as it is. */
  lemma {:induction false} CleanPlainPrefix(p: string, q: string)
    requires forall i :: 0 <= i < |p| ==> p[i] != '<'
    ensures CleanHtml(p + q) == p + CleanHtml(q)
    decreases |p|
  {
    if p == [] {
      assert p + q == q;
    } else {
      var t := p[1..];
      assert forall i :: 0 <= i < |t| ==> t[i] == p[i + 1];
      CleanPlainPrefix(t, q);
      PlainStep(p[0], t, q);
      assert [p[0]] + t == p;
    }
  }

  lemma PlainStep(c: char, t: string, q: string)
    requires c != '<' && CleanHtml(t + q) == t + CleanHtml(q)
    ensures CleanHtml([c] + t + q) == [c] + t + CleanHtml(q)
  {
    assert [c] + t + q == [c] + (t + q);
    CleanKeeps(c, t + q);
  }
}
