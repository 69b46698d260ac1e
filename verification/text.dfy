/** String primitives the classifier and the backfill script rely on: case folding, substring tests, joining and splitting. */
module Text {

  predicate IsUpper(c: char) {
    'A' <= c <= 'Z'
  }

  /** Python's `str.lower()` on one character, for the ASCII letters (Hangul has no case). */
  function LowerChar(c: char): (r: char)
    ensures !IsUpper(r)
    ensures !IsUpper(c) ==> r == c
  {
    if IsUpper(c) then (c as int + 32) as char else c
  }

  /** Python's `str.lower()`: a character-wise map, so it keeps length and positions. */
  function Lower(s: string): (r: string)
    ensures |r| == |s|
    ensures forall i :: 0 <= i < |s| ==> r[i] == LowerChar(s[i])
  {
    seq(|s|, i requires 0 <= i < |s| => LowerChar(s[i]))
  }

  /** Python's `pat in text`: `pat` occurs as a contiguous block of `text` (the empty string always does). */
  predicate Contains(text: string, pat: string) {
    exists i :: 0 <= i <= |text| - |pat| && OccursAt(text, pat, i)
  }

  /** `pat` occurs in `text` starting at position `i`. */
  predicate OccursAt(text: string, pat: string, i: int) {
    0 <= i <= |text| - |pat| && text[i..i + |pat|] == pat
  }

  /** Every character of an occurring pattern is a character of the text. */
  lemma ContainsChars(text: string, pat: string, j: nat)
    requires j < |pat|
    ensures Contains(text, pat) ==> pat[j] in text
  {
    if Contains(text, pat) {
      var i :| 0 <= i <= |text| - |pat| && OccursAt(text, pat, i);
      assert text[i + j] == text[i..i + |pat|][j];
    }
  }

  /** A pattern holding an upper-case letter never occurs in lower-cased text. */
  lemma {:induction false} UpperNeverInLower(s: string, pat: string, j: nat)
    requires j < |pat| && IsUpper(pat[j])
    ensures !Contains(Lower(s), pat)
  {
    ContainsChars(Lower(s), pat, j);
    assert forall k :: 0 <= k < |Lower(s)| ==> !IsUpper(Lower(s)[k]);
    assert pat[j] !in Lower(s);
  }

  /** Python's `sep.join(parts)`. */
  function Join(parts: seq<string>, sep: char): string
    decreases |parts|
  {
    if |parts| == 0 then ""
    else if |parts| == 1 then parts[0]
    else parts[0] + [sep] + Join(parts[1..], sep)
  }

  /** Python's `s.split(sep)`: always at least one piece, the pieces are free of `sep`. */
  function Split(s: string, sep: char): (r: seq<string>)
    ensures |r| >= 1
    ensures forall i :: 0 <= i < |r| ==> sep !in r[i]
    decreases |s|
  {
    if s == [] then [""]
    else
      var rest := Split(s[1..], sep);
      if s[0] == sep then [""] + rest
      else [[s[0]] + rest[0]] + rest[1..]
  }

  /** A piece without the separator splits to itself. */
  lemma {:induction false} SplitPlain(k: string, sep: char)
    requires sep !in k
    ensures Split(k, sep) == [k]
    decreases |k|
  {
    if k != [] {
      SplitPlain(k[1..], sep);
      assert [k[0]] + k[1..] == k;
    }
  }

  /** Splitting stops at the first separator. */
  lemma {:induction false} SplitAfter(k: string, t: string, sep: char)
    requires sep !in k
    ensures Split(k + [sep] + t, sep) == [k] + Split(t, sep)
    decreases |k|
  {
    var s := k + [sep] + t;
    if k == [] {
      assert s[1..] == t;
    } else {
      assert s[1..] == k[1..] + [sep] + t;
      SplitAfter(k[1..], t, sep);
      assert [k[0]] + k[1..] == k;
    }
  }

  /** `split` undoes `join` when no part holds the separator and there is at least one part. */
  lemma {:induction false} SplitJoin(parts: seq<string>, sep: char)
    requires |parts| >= 1
    requires forall i :: 0 <= i < |parts| ==> sep !in parts[i]
    ensures Split(Join(parts, sep), sep) == parts
    decreases |parts|
  {
    if |parts| == 1 {
      SplitPlain(parts[0], sep);
    } else {
      SplitAfter(parts[0], Join(parts[1..], sep), sep);
      SplitJoin(parts[1..], sep);
      assert [parts[0]] + parts[1..] == parts;
    }
  }
}
