/**
  `_normalize_sentiment` of llm.py: the model's sentiment word mapped onto the
  three labels.
 */
module SentimentLabel {
  import opened PyStr

  datatype Sentiment = Pos | Neg | Mixed {
    /** The label the summary carries. */
    function Label(): (r: string)
      ensures r in {"pos", "neg", "mixed"}
    {
      match this
      case Pos => "pos"
      case Neg => "neg"
      case Mixed => "mixed"
    }
  }

  /** Thumbs up (U+1F44D) and thumbs down (U+1F44E). */
  const ThumbsUp: string := "\U{1F44D}"
  const ThumbsDown: string := "\U{1F44E}"

  /** The two emoji entries as the source text spells them: their UTF-8 bytes
      read as Windows-1252, which turns them into three and four characters,
      the second of which is the capital Y with diaeresis (U+0178). */
  const ThumbsUpAsWritten: string := "\U{F0}\U{178}\U{2018}"
  const ThumbsDownAsWritten: string := "\U{F0}\U{178}\U{2018}\U{17D}"

  const PositiveWords: set<string> := {"pos", "positive", ThumbsUp, "good"}
  const NegativeWords: set<string> := {"neg", "negative", ThumbsDown, "bad"}
  const PositiveWordsAsWritten: set<string> := {"pos", "positive", ThumbsUpAsWritten, "good"}
  const NegativeWordsAsWritten: set<string> := {"neg", "negative", ThumbsDownAsWritten, "bad"}

  /** `_normalize_sentiment` on a string, with the token sets exactly as the
      source spells them. */
  function NormalizeSentimentAsWritten(s: string): (r: Sentiment)
    // The emoji entries can never match, so only the words count.
    ensures r == Pos <==> Lower(Strip(s)) in {"pos", "positive", "good"}
    ensures r == Neg <==> Lower(Strip(s)) in {"neg", "negative", "bad"}
  {
    EmojiAsWrittenUnreachable(s);
    var t := Lower(Strip(s));
    if t in PositiveWordsAsWritten then Pos
    else if t in NegativeWordsAsWritten then Neg
    else Mixed
  }

  /** `_normalize_sentiment` with the emoji entries the source intends. This is
      the one the summariser uses. */
  function NormalizeSentiment(s: string): (r: Sentiment)
    ensures r == Pos <==> Lower(Strip(s)) in PositiveWords
    ensures r == Neg <==> Lower(Strip(s)) in NegativeWords
  {
    var t := Lower(Strip(s));
    if t in PositiveWords then Pos
    else if t in NegativeWords then Neg
    else Mixed
  }

  /** The recognised words neither start nor end with whitespace, are in
      lower case, and no word is both positive and negative. */
  lemma RecognisedWords(t: string)
    requires t in PositiveWords + NegativeWords
    ensures Strip(t) == t
    ensures t in PositiveWords ==> t !in NegativeWords
  {
    StripTrimmed(t);
    assert "pos"[0] != "neg"[0] && "positive"[0] != "negative"[0];
  }

  lemma {:induction false} LowerIdempotent(s: string)
    ensures Lower(Lower(s)) == Lower(s)
  {
    forall i | 0 <= i < |s| ensures Lower(Lower(s))[i] == Lower(s)[i] {
      LowerCharIdempotent(s[i]);
    }
  }

  /** Surrounding whitespace and letter case do not matter: two strings that
      agree once lowered get the same label, and so do `s` and `s` padded
      with whitespace. */
  lemma NormalizeSentimentInsensitive(s: string, t: string, a: string, b: string)
    requires Lower(s) == Lower(t)
    requires AllSpace(a) && AllSpace(b)
    ensures NormalizeSentiment(s) == NormalizeSentiment(t)
    ensures NormalizeSentiment(a + s + b) == NormalizeSentiment(s)
  {
    LowerStrip(s);
    LowerStrip(t);
    StripPadded(a, s, b);
  }

  /** A string whose lower-case form is a recognised word gets that word's
      label, whatever its letter case and whatever whitespace pads it, so
      " Positive " is positive and "BAD" is negative; anything else is mixed. */
  lemma NormalizeSentimentVariants(a: string, w: string, b: string)
    requires AllSpace(a) && AllSpace(b)
    ensures Lower(w) in PositiveWords ==> NormalizeSentiment(a + w + b) == Pos
    ensures Lower(w) in NegativeWords ==> NormalizeSentiment(a + w + b) == Neg
    ensures Lower(Strip(w)) !in PositiveWords + NegativeWords ==> NormalizeSentiment(a + w + b) == Mixed
  {
    NormalizeSentimentInsensitive(w, w, a, b);
    LowerStrip(w);
    if Lower(w) in PositiveWords + NegativeWords {
      RecognisedWords(Lower(w));
    }
  }

  /** A missing (empty) word is mixed, and so is any word that does not
      strip and lower to a recognised one, such as "meh". */
  lemma NormalizeSentimentUnknownMixed(w: string)
    ensures Lower(Strip(w)) !in PositiveWords + NegativeWords ==> NormalizeSentiment(w) == Mixed
    ensures NormalizeSentiment("") == Mixed
    ensures NormalizeSentiment("meh") == Mixed
  {
    StripTrimmed("meh");
    assert Lower("meh") == [LowerChar('m'), LowerChar('e'), LowerChar('h')];
  }

  /** No string lowers to a string holding U+0178, so the two emoji entries
      as written can never match. */
  lemma {:induction false} EmojiAsWrittenUnreachable(s: string)
    ensures Lower(Strip(s)) != ThumbsUpAsWritten
    ensures Lower(Strip(s)) != ThumbsDownAsWritten
  {
    var t := Lower(Strip(s));
    if |t| >= 2 {
      LowerCharNeverCapitalYDiaeresis(Strip(s)[1]);
      assert t[1] != '\U{178}';
    }
  }

  /** The two versions agree on every string except the thumbs emoji. */
  lemma NormalizeSentimentAsWrittenAgrees(s: string)
    ensures Lower(Strip(s)) != ThumbsUp && Lower(Strip(s)) != ThumbsDown ==>
              NormalizeSentimentAsWritten(s) == NormalizeSentiment(s)
  {
    EmojiAsWrittenUnreachable(s);
  }

  /** The source text classifies thumbs up as mixed; the intended label is positive. */
  lemma ThumbsUpAsWrittenMixed()
    ensures NormalizeSentimentAsWritten(ThumbsUp) == Mixed
    ensures NormalizeSentiment(ThumbsUp) == Pos
  {
    EmojiAsWrittenUnreachable(ThumbsUp);
    StripTrimmed(ThumbsUp);
    assert Lower(ThumbsUp) == [LowerChar('\U{1F44D}')];
  }

  /** The source text classifies thumbs down as mixed; the intended label is negative. */
  lemma ThumbsDownAsWrittenMixed()
    ensures NormalizeSentimentAsWritten(ThumbsDown) == Mixed
    ensures NormalizeSentiment(ThumbsDown) == Neg
  {
    EmojiAsWrittenUnreachable(ThumbsDown);
    StripTrimmed(ThumbsDown);
    assert Lower(ThumbsDown) == [LowerChar('\U{1F44E}')];
  }
}
