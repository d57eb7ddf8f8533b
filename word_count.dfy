/**
  `_count_words` of llm.py: how many words a TL;DR has.
 */
module WordCount {
  import opened PyStr

  /** The non-empty pieces, in order: `[w for w in pieces if w]`. */
  function NonEmptyPieces(pieces: seq<string>): (r: seq<string>)
    ensures |r| <= |pieces|
    ensures forall i :: 0 <= i < |r| ==> r[i] != ""
  {
    if pieces == [] then []
    else if pieces[0] == "" then NonEmptyPieces(pieces[1..])
    else [pieces[0]] + NonEmptyPieces(pieces[1..])
  }

  /** `_count_words`: collapse whitespace runs, strip, split on single spaces
      and count the non-empty pieces. */
  function CountWords(text: string): (r: nat)
    ensures r == Words(text)
  {
    PiecesCountWords(text);
    |NonEmptyPieces(SplitOnSpace(CollapseSpaces(Strip(text))))|
  }

  /** Reference definition: the number of places where a run of non-space
      characters starts, `afterSpace` telling whether what came before `s`
      was whitespace (or nothing). */
  function WordStarts(s: string, afterSpace: bool): nat {
    if s == [] then 0
    else (if afterSpace && !IsSpace(s[0]) then 1 else 0) + WordStarts(s[1..], IsSpace(s[0]))
  }

  /** The number of maximal runs of non-whitespace characters of `s`. */
  function Words(s: string): nat {
    WordStarts(s, true)
  }

  /** A string of whitespace has no words, and a string without words is all
      whitespace. */
  lemma {:induction false} WordStartsZero(s: string, afterSpace: bool)
    ensures afterSpace ==> (WordStarts(s, afterSpace) == 0 <==> AllSpace(s))
    ensures AllSpace(s) ==> WordStarts(s, afterSpace) == 0
  {
    if s != [] {
      WordStartsZero(s[1..], IsSpace(s[0]));
      WordStartsZero(s[1..], true);
      if IsSpace(s[0]) {
        assert AllSpace(s) <==> AllSpace(s[1..]) by {
          if AllSpace(s[1..]) {
            forall i | 0 <= i < |s| ensures IsSpace(s[i]) {
              if i > 0 { assert s[i] == s[1..][i - 1]; }
            }
          }
        }
      }
    }
  }

  /** Whitespace after the text adds no words. */
  lemma {:induction false} WordStartsPadded(s: string, b: string, afterSpace: bool)
    requires AllSpace(b)
    ensures WordStarts(s + b, afterSpace) == WordStarts(s, afterSpace)
  {
    if s == [] {
      assert s + b == b;
      WordStartsZero(b, afterSpace);
    } else {
      assert (s + b)[0] == s[0];
      assert (s + b)[1..] == s[1..] + b;
      WordStartsPadded(s[1..], b, IsSpace(s[0]));
    }
  }

  /** Leading whitespace adds no words. */
  lemma {:induction false} WordStartsTrimLeft(s: string)
    ensures WordStarts(TrimLeft(s), true) == WordStarts(s, true)
  {
    if s != [] && IsSpace(s[0]) {
      WordStartsTrimLeft(s[1..]);
    }
  }

  /** Stripping keeps every word. */
  lemma WordsStrip(s: string)
    ensures Words(Strip(s)) == Words(s)
  {
    var t := TrimLeft(s);
    var u := TrimRight(t);
    TrimRightPrefix(t);
    assert t == u + t[|u|..];
    WordStartsPadded(u, t[|u|..], true);
    WordStartsTrimLeft(s);
  }

  /** Collapsing whitespace runs keeps every word. */
  lemma {:induction false} WordStartsCollapse(s: string, afterSpace: bool)
    ensures WordStarts(CollapseSpaces(s), afterSpace) == WordStarts(s, afterSpace)
    decreases |s|
  {
    if s != [] {
      var c := CollapseSpaces(s);
      if IsSpace(s[0]) {
        var t := TrimLeft(s[1..]);
        assert c[1..] == CollapseSpaces(t);
        WordStartsCollapse(t, true);
        WordStartsTrimLeft(s[1..]);
      } else {
        assert c[1..] == CollapseSpaces(s[1..]);
        WordStartsCollapse(s[1..], false);
      }
    }
  }

  /** Counting the non-empty pieces of `t.split(" ")` counts the words of `t`,
      as long as the only whitespace `t` holds is the plain space. */
  lemma {:induction false} SplitCountsWords(t: string)
    requires forall i :: 0 <= i < |t| && IsSpace(t[i]) ==> t[i] == ' '
    ensures |NonEmptyPieces(SplitOnSpace(t))| == WordStarts(t, true)
    ensures |NonEmptyPieces(SplitOnSpace(t)[1..])| == WordStarts(t, false)
  {
    if t != [] {
      var rest := SplitOnSpace(t[1..]);
      SplitCountsWords(t[1..]);
      if t[0] == ' ' {
        assert SplitOnSpace(t) == [""] + rest;
        assert SplitOnSpace(t)[1..] == rest;
      } else {
        var r := SplitOnSpace(t);
        assert r[0] != "";
        assert r[1..] == rest[1..];
      }
    }
  }

  /** Collapsing, stripping, splitting and dropping the empty pieces leaves
      one piece per maximal run of non-whitespace characters of `s`. */
  lemma PiecesCountWords(s: string)
    ensures |NonEmptyPieces(SplitOnSpace(CollapseSpaces(Strip(s))))| == Words(s)
  {
    var t := CollapseSpaces(Strip(s));
    SplitCountsWords(t);
    WordStartsCollapse(Strip(s), true);
    WordsStrip(s);
  }

  /** The count is 0 exactly for the empty and the whitespace-only strings. */
  lemma CountWordsZero(s: string)
    ensures CountWords(s) == 0 <==> AllSpace(s)
  {
    WordStartsZero(s, true);
  }

  /** The count is unchanged by collapsing whitespace runs, by stripping, and
      by padding with whitespace. */
  lemma CountWordsWhitespaceInsensitive(a: string, s: string, b: string)
    requires AllSpace(a) && AllSpace(b)
    ensures CountWords(CollapseSpaces(s)) == CountWords(s)
    ensures CountWords(Strip(s)) == CountWords(s)
    ensures CountWords(a + s + b) == CountWords(s)
  {
    WordStartsCollapse(s, true);
    WordsStrip(s);
    WordsStrip(a + s + b);
    StripPadded(a, s, b);
  }
}
