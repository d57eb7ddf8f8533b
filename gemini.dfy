/**
  `_ask_gemini` of llm.py and the JSON values the summariser reads out of its
  answer. The language model and `json.loads` are outside the model: the
  model is an oracle `ask` that, for the n-th call of the run and the prompt
  it is given, either raises or returns a reply text, and `json.loads` is a
  parameter `decode` that either fails or gives a decoded document.
 */
module Gemini {
  import opened Wrappers
  import opened PyStr
  import opened CodeFence
  import opened SentimentLabel

  /** A JSON value as `json.loads` gives it, as far as the summariser looks at
      it: numbers, arrays and objects are known by the text `str()` renders
      them as and by whether Python counts them as true. */
  datatype Value =
    | VNull
    | VBool(b: bool)
    | VString(s: string)
    | VOther(text: string, truthy: bool)

  /** Python's `bool(v)`. */
  predicate Truthy(v: Value) {
    match v
    case VNull => false
    case VBool(b) => b
    case VString(s) => s != []
    case VOther(_, t) => t
  }

  /** Python's `str(v)`. */
  function PyStrOf(v: Value): (r: string)
    ensures v.VString? ==> r == v.s
    ensures v.VNull? ==> r == "None"
  {
    match v
    case VNull => "None"
    case VBool(b) => if b then "True" else "False"
    case VString(s) => s
    case VOther(text, _) => text
  }

  /** What `json.loads` gives: an object (a `dict`), or any other JSON value,
      which has no `get` method. */
  datatype Decoded = DObject(fields: map<string, Value>) | DOther

  /** `d.get(key, default)`. */
  function Get(fields: map<string, Value>, key: string, default: Value): (r: Value)
    ensures key in fields ==> r == fields[key]
    ensures key !in fields ==> r == default
  {
    if key in fields then fields[key] else default
  }

  /** The two prompts the summariser sends: the plain one, and the re-ask
      whose extra instruction names the acceptable word range. */
  datatype Request =
    | Primary(review: string)
    | Repair(review: string, acceptMin: int, acceptMax: int)

  /** What one call of the model does: raise, or return `resp.text` (a
      missing text is the empty string). */
  datatype Reply = Raised(message: string) | Returned(text: string)

  /** The exceptions the summariser can see. */
  datatype Error =
    | CallFailed(message: string)  // the model call raised
    | ParseFailed                  // `json.loads` raised
    | NotAnObject                  // the JSON was not an object: `.get` raised
    | SentimentNotText             // a true non-string sentiment: `.strip()` raised
    | NoneRaised                   // `raise None`, when no attempt was made
    | SleepRejected                // `time.sleep` of a negative duration raised

  /** The model, as the oracle the summariser calls: the answer to the n-th
      call of the run, given its prompt. */
  type Oracle = (nat, Request) -> Reply

  /** `json.loads`, as a parameter. */
  type Decoder = string -> Option<Decoded>

  /** `_ask_gemini`, as the n-th call: the reply is stripped, its JSON text
      cut out by `_strip_code_fence` and decoded. */
  function AskGemini(ask: Oracle, decode: Decoder, req: Request, n: nat): (r: Result<Decoded, Error>)
    ensures ask(n, req).Raised? ==> r == Err(CallFailed(ask(n, req).message))
    ensures ask(n, req).Returned? && decode(StripCodeFence(Strip(ask(n, req).text))).Some? ==>
              r == Ok(decode(StripCodeFence(Strip(ask(n, req).text))).value)
    ensures ask(n, req).Returned? && decode(StripCodeFence(Strip(ask(n, req).text))).None? ==>
              r == Err(ParseFailed)
    ensures r.Err? ==> r.error.CallFailed? || r.error == ParseFailed
  {
    match ask(n, req)
    case Raised(msg) => Err(CallFailed(msg))
    case Returned(text) =>
      match decode(StripCodeFence(Strip(text)))
      case None => Err(ParseFailed)
      case Some(d) => Ok(d)
  }

  /** Whitespace around the model's reply makes no difference: two replies
      that differ only by it are decoded alike. */
  lemma AskGeminiIgnoresPadding(ask: Oracle, ask': Oracle, decode: Decoder, req: Request, n: nat,
                                a: string, b: string)
    requires AllSpace(a) && AllSpace(b)
    requires ask(n, req).Returned?
    requires ask'(n, req) == Returned(a + ask(n, req).text + b)
    ensures AskGemini(ask', decode, req, n) == AskGemini(ask, decode, req, n)
  {
    StripPadded(a, ask(n, req).text, b);
  }

  /** `str(data.get("tldr", "")).strip()`. */
  function TldrOf(fields: map<string, Value>): (r: string)
    ensures r == [] || (!IsSpace(r[0]) && !IsSpace(r[|r| - 1]))
    ensures "tldr" !in fields ==> r == []
    ensures "tldr" in fields && fields["tldr"].VString? ==> r == Strip(fields["tldr"].s)
    ensures "tldr" in fields && fields["tldr"].VNull? ==> r == "None"
  {
    var none := "None";
    StripTrimmed(none);
    StripTrimmed([]);
    Strip(PyStrOf(Get(fields, "tldr", VString(""))))
  }

  /** `_normalize_sentiment(data.get("sentiment"))`: a false value (missing,
      null, empty) becomes the empty string and so mixed; a string is
      normalised; any other true value has no `strip()` and raises. */
  function SentimentOf(v: Value): (r: Result<Sentiment, Error>)
    ensures !Truthy(v) ==> r == Ok(Mixed)
    ensures v.VString? ==> r == Ok(NormalizeSentiment(v.s))
    ensures r.Err? <==> Truthy(v) && !v.VString?
    ensures r.Err? ==> r.error == SentimentNotText
    // The emoji entries are the corrected ones; on every other string the
    // result is that of the code as written.
    ensures v.VString? && Lower(Strip(v.s)) != ThumbsUp && Lower(Strip(v.s)) != ThumbsDown ==>
              r == Ok(NormalizeSentimentAsWritten(v.s))
  {
    NormalizeSentimentUnknownMixed("");
    NormalizeSentimentAsWrittenAgrees(if v.VString? then v.s else "");
    if !Truthy(v) then Ok(NormalizeSentiment(""))
    else if v.VString? then Ok(NormalizeSentiment(v.s))
    else Err(SentimentNotText)
  }
}
