/**
  `summarise` of llm.py: up to `retries + 1` attempts with exponential
  backoff between failures; within an attempt one primary call, and one
  re-ask when the TL;DR's word count is far from the target.
 */
module Summariser {
  import opened Wrappers
  import opened WordCount
  import opened SentimentLabel
  import opened Gemini

  /** The keyword arguments of `summarise`. */
  datatype Config = Config(
    retries: int,
    backoff: real,
    acceptMin: int,
    acceptMax: int,
    extremeMin: int,
    extremeMax: int)

  /** The defaults: two retries, 0.8 s backoff, accept 8 to 12 words, re-ask
      below 6 or above 16. */
  const Defaults: Config := Config(2, 0.8, 8, 12, 6, 16)

  /** The dict `summarise` returns. */
  datatype Summary = Summary(sentiment: Sentiment, tldr: string)

  /** What one pass of the `for attempt` body gives, and how many model calls
      it made. */
  datatype Trial = Trial(result: Result<Summary, Error>, calls: nat)

  function Abs(x: int): nat {
    if x < 0 then -x else x
  }

  /** The number of words the TL;DR is steered towards. */
  const Target: int := 10

  /** The primary call (the n-th of the run) and what is read from it: the
      stripped TL;DR and the normalised sentiment. */
  function PrimaryOf(ask: Oracle, decode: Decoder, review: string, n: nat): (r: Result<(string, Sentiment), Error>)
    ensures AskGemini(ask, decode, Primary(review), n).Err? ==> r == Err(AskGemini(ask, decode, Primary(review), n).error)
    ensures AskGemini(ask, decode, Primary(review), n) == Ok(DOther) ==> r == Err(NotAnObject)
    ensures AskGemini(ask, decode, Primary(review), n).Ok? && AskGemini(ask, decode, Primary(review), n).value.DObject? ==>
              var fields := AskGemini(ask, decode, Primary(review), n).value.fields;
              var v := Get(fields, "sentiment", VNull);
              && (Truthy(v) && !v.VString? ==> r == Err(SentimentNotText))
              && (!(Truthy(v) && !v.VString?) ==> r == Ok((TldrOf(fields), SentimentOf(v).value)))
  {
    match AskGemini(ask, decode, Primary(review), n)
    case Err(e) => Err(e)
    case Ok(DOther) => Err(NotAnObject)
    case Ok(DObject(fields)) =>
      var tldr := TldrOf(fields);
      match SentimentOf(Get(fields, "sentiment", VNull))
      case Err(e) => Err(e)
      case Ok(sentiment) => Ok((tldr, sentiment))
  }

  /** A TL;DR whose word count is outside `[extremeMin, extremeMax]` is re-asked. */
  predicate FarOff(cfg: Config, wc: int) {
    wc < cfg.extremeMin || wc > cfg.extremeMax
  }

  /** The inner `try` around the re-ask (the n-th call): the repaired TL;DR
      replaces `tldr` only when its word count is strictly closer to the
      target; a re-ask that raises, does not parse or is not an object leaves
      `tldr` as it is. */
  function Repaired(ask: Oracle, decode: Decoder, review: string, cfg: Config, n: nat, tldr: string): (r: string)
    ensures var a := AskGemini(ask, decode, Repair(review, cfg.acceptMin, cfg.acceptMax), n);
            || r == tldr
            || (&& a.Ok? && a.value.DObject? && r == TldrOf(a.value.fields)
                && Abs(CountWords(r) - Target) < Abs(CountWords(tldr) - Target))
    ensures var a := AskGemini(ask, decode, Repair(review, cfg.acceptMin, cfg.acceptMax), n);
            !(a.Ok? && a.value.DObject?) ==> r == tldr
    ensures var a := AskGemini(ask, decode, Repair(review, cfg.acceptMin, cfg.acceptMax), n);
            a.Ok? && a.value.DObject? && Abs(CountWords(TldrOf(a.value.fields)) - Target) < Abs(CountWords(tldr) - Target)
            ==> r == TldrOf(a.value.fields)
  {
    match AskGemini(ask, decode, Repair(review, cfg.acceptMin, cfg.acceptMax), n)
    case Ok(DObject(fields)) =>
      var tldr2 := TldrOf(fields);
      if Abs(CountWords(tldr2) - Target) < Abs(CountWords(tldr) - Target) then tldr2 else tldr
    case _ => tldr
  }

  /** One attempt, starting at the n-th call. Every error is raised before
      the re-ask, so a failed attempt made exactly one call; the re-ask adds
      a second call and never fails the attempt. */
  function Attempt(ask: Oracle, decode: Decoder, review: string, cfg: Config, n: nat): (t: Trial)
    ensures 1 <= t.calls <= 2
    ensures t.result.Err? <==> PrimaryOf(ask, decode, review, n).Err?
    ensures t.result.Err? ==> t.calls == 1 && t.result.error == PrimaryOf(ask, decode, review, n).error
  {
    match PrimaryOf(ask, decode, review, n)
    case Err(e) => Trial(Err(e), 1)
    case Ok((tldr, sentiment)) =>
      if FarOff(cfg, CountWords(tldr)) then
        Trial(Ok(Summary(sentiment, Repaired(ask, decode, review, cfg, n + 1, tldr))), 2)
      else
        Trial(Ok(Summary(sentiment, tldr)), 1)
  }

  function Pow2(k: nat): (r: nat)
    ensures r >= 1
  {
    if k == 0 then 1 else 2 * Pow2(k - 1)
  }

  /** The sleep after failed attempt `k`: `backoff * (2 ** k)` seconds. It
      is negative exactly when `backoff` is. */
  function Pause(backoff: real, k: nat): (r: real)
    ensures r < 0.0 <==> backoff < 0.0
  {
    ScaleSign(backoff, Pow2(k) as real);
    backoff * Pow2(k) as real
  }

  /** Scaling by a factor of at least one keeps the sign. */
  lemma ScaleSign(x: real, p: real)
    requires p >= 1.0
    ensures x * p < 0.0 <==> x < 0.0
  {
    if x < 0.0 {
      assert x * p <= x * 1.0;
    } else {
      assert x * p >= 0.0;
    }
  }

  /** What `summarise` ends with: its result, how many model calls it made,
      how many attempts it started and the `time.sleep` durations, in order. */
  datatype Outcome = Outcome(result: Result<Summary, Error>, calls: nat, attempts: nat, sleeps: seq<real>)

  /** The attempts from `attempt` on, the first of them starting at the n-th
      call, where `attemptAt(k)` is the attempt that starts at the k-th call:
      a success is returned at once; a failure before the last attempt
      sleeps `backoff * 2^attempt` and tries again; a failure on the last one
      is raised. `time.sleep` of a negative duration raises instead, and
      that error leaves `summarise`. */
  function Retrying(attemptAt: nat -> Trial, retries: int, backoff: real, n: nat, attempt: nat): (o: Outcome)
    requires attempt <= retries
    ensures 1 <= o.attempts <= retries + 1 - attempt
    ensures |o.sleeps| < o.attempts
    decreases retries - attempt
  {
    var t := attemptAt(n);
    if t.result.Ok? || attempt == retries then
      Outcome(t.result, t.calls, 1, [])
    else if Pause(backoff, attempt) < 0.0 then
      Outcome(Err(SleepRejected), t.calls, 1, [])
    else
      var rest := Retrying(attemptAt, retries, backoff, n + t.calls, attempt + 1);
      Outcome(rest.result, t.calls + rest.calls, 1 + rest.attempts,
              [Pause(backoff, attempt)] + rest.sleeps)
  }

  /** The attempt of `summarise(review)` that starts at each call: each
      makes one or two calls, and a failed one makes exactly one. */
  function AttemptsOf(ask: Oracle, decode: Decoder, review: string, cfg: Config): (r: nat -> Trial)
    ensures forall k :: 1 <= r(k).calls <= 2
    ensures forall k :: r(k).result.Err? ==> r(k).calls == 1
  {
    (k: nat) => Attempt(ask, decode, review, cfg, k)
  }

  /** The `for attempt in range(retries + 1)` loop, from the n-th call on.
      With a negative `retries` it runs zero times and `raise last_err`
      raises `None`. */
  function Retries(attemptAt: nat -> Trial, retries: int, backoff: real, n: nat): (o: Outcome)
    ensures retries < 0 ==> o == Outcome(Err(NoneRaised), 0, 0, [])
    ensures retries >= 0 ==> 1 <= o.attempts <= retries + 1
  {
    if retries < 0 then Outcome(Err(NoneRaised), 0, 0, [])
    else Retrying(attemptAt, retries, backoff, n, 0)
  }

  /** `summarise` starting at the n-th call. */
  function SummariseSpec(ask: Oracle, decode: Decoder, review: string, cfg: Config, n: nat): Outcome {
    Retries(AttemptsOf(ask, decode, review, cfg), cfg.retries, cfg.backoff, n)
  }

  /** The `for attempt` loop of `summarise`, from the n-th call on, with the
      attempt that starts at each call given as `attemptAt`: it returns the
      summary or the error it raises, the number of calls made and the sleeps
      taken. */
  method RetryLoop(attemptAt: nat -> Trial, retries: int, backoff: real, n: nat)
    returns (result: Result<Summary, Error>, calls: nat, sleeps: seq<real>)
    ensures var o := Retries(attemptAt, retries, backoff, n);
            result == o.result && calls == o.calls && sleeps == o.sleeps
  {
    calls, sleeps := 0, [];
    var attempt: nat := 0;
    while attempt < retries + 1
      invariant retries < 0 ==> attempt == 0 && calls == 0 && sleeps == []
      invariant retries >= 0 ==> attempt <= retries
      invariant retries >= 0 ==>
                  var o := Retries(attemptAt, retries, backoff, n);
                  var rest := Retrying(attemptAt, retries, backoff, n + calls, attempt);
                  o.result == rest.result && o.calls == calls + rest.calls && o.sleeps == sleeps + rest.sleeps
      decreases retries + 1 - attempt
    {
      var t := attemptAt(n + calls);
      calls := calls + t.calls;
      if t.result.Ok? {
        return t.result, calls, sleeps;
      }
      if attempt < retries {
        var pause := Pause(backoff, attempt);
        if pause < 0.0 {
          return Err(SleepRejected), calls, sleeps;
        }
        ghost var rest := Retrying(attemptAt, retries, backoff, n + calls, attempt + 1);
        assert sleeps + ([pause] + rest.sleeps) == (sleeps + [pause]) + rest.sleeps;
        sleeps := sleeps + [pause];
      } else {
        return t.result, calls, sleeps;
      }
      attempt := attempt + 1;
    }
    // The loop ran zero times, so `last_err` is still `None`.
    result := Err(NoneRaised);
  }

  /** `summarise(review_text, ...)`, starting at the n-th model call of the
      run: the loop, with `Attempt` as its body. */
  method Summarise(ask: Oracle, decode: Decoder, review: string, cfg: Config, n: nat)
    returns (result: Result<Summary, Error>, calls: nat, sleeps: seq<real>)
    ensures var o := SummariseSpec(ask, decode, review, cfg, n);
            result == o.result && calls == o.calls && sleeps == o.sleeps
  {
    result, calls, sleeps := RetryLoop(AttemptsOf(ask, decode, review, cfg), cfg.retries, cfg.backoff, n);
  }

  /** The retry schedule from attempt `a` on, starting at call `n`, when a
      failed attempt makes one call: attempt `a + k` starts at call `n + k`,
      there are at most `retries + 1 - a` attempts, every attempt but the last
      failed, the result and the error raised are those of the last attempt,
      and a failure is raised only after the last allowed attempt. */
  lemma {:induction false} RetryingSchedule(attemptAt: nat -> Trial, retries: int, backoff: real, n: nat, a: nat)
    requires a <= retries && backoff >= 0.0
    requires forall k :: attemptAt(k).result.Err? ==> attemptAt(k).calls == 1
    ensures var o := Retrying(attemptAt, retries, backoff, n, a);
            1 <= o.attempts <= retries + 1 - a
    ensures var o := Retrying(attemptAt, retries, backoff, n, a);
            forall k :: n <= k < n + o.attempts - 1 ==> attemptAt(k).result.Err?
    ensures var o := Retrying(attemptAt, retries, backoff, n, a);
            var last := attemptAt(n + o.attempts - 1);
            o.result == last.result && o.calls == o.attempts - 1 + last.calls
    ensures var o := Retrying(attemptAt, retries, backoff, n, a);
            o.result.Err? ==> o.attempts == retries + 1 - a
    decreases retries - a
  {
    var t := attemptAt(n);
    if !(t.result.Ok? || a == retries) {
      assert t.calls == 1;
      RetryingSchedule(attemptAt, retries, backoff, n + 1, a + 1);
    }
  }

  /** One sleep follows each failed attempt but the last, and the k-th sleep
      from attempt `a` on is `backoff * 2^(a + k)`. */
  lemma {:induction false} RetryingSleeps(attemptAt: nat -> Trial, retries: int, backoff: real, n: nat, a: nat)
    requires a <= retries
    ensures var o := Retrying(attemptAt, retries, backoff, n, a);
            |o.sleeps| == o.attempts - 1
    ensures var o := Retrying(attemptAt, retries, backoff, n, a);
            forall k :: 0 <= k < |o.sleeps| ==> o.sleeps[k] == Pause(backoff, a + k)
    decreases retries - a
  {
    var t := attemptAt(n);
    if !(t.result.Ok? || a == retries) {
      RetryingSleeps(attemptAt, retries, backoff, n + t.calls, a + 1);
      var o := Retrying(attemptAt, retries, backoff, n, a);
      var rest := Retrying(attemptAt, retries, backoff, n + t.calls, a + 1);
      forall k | 0 <= k < |o.sleeps|
        ensures o.sleeps[k] == Pause(backoff, a + k)
      {
        if k > 0 {
          assert o.sleeps[k] == rest.sleeps[k - 1];
        }
      }
    }
  }

  /** With a negative `backoff`, the first failed attempt that is not the
      last one ends `summarise`: its `time.sleep` raises, so no further
      attempt is made and nothing is slept. */
  lemma RetryingNegativeBackoff(attemptAt: nat -> Trial, retries: int, backoff: real, n: nat, a: nat)
    requires a < retries && backoff < 0.0
    requires attemptAt(n).result.Err?
    ensures Retrying(attemptAt, retries, backoff, n, a)
            == Outcome(Err(SleepRejected), attemptAt(n).calls, 1, [])
  {
  }

  /** With a negative `retries`, no call is made and `None` is raised. */
  lemma SummariseNoAttempts(ask: Oracle, decode: Decoder, review: string, cfg: Config, n: nat)
    requires cfg.retries < 0
    ensures SummariseSpec(ask, decode, review, cfg, n) == Outcome(Err(NoneRaised), 0, 0, [])
  {
  }

  /** Two failures and then a success, with the default two retries and
      0.8 s backoff: the third attempt's result, after sleeping 0.8 s and
      1.6 s. */
  lemma RetryingFailTwiceThenSucceed(attemptAt: nat -> Trial, n: nat)
    requires attemptAt(n).result.Err? && attemptAt(n).calls == 1
    requires attemptAt(n + 1).result.Err? && attemptAt(n + 1).calls == 1
    requires attemptAt(n + 2).result.Ok?
    ensures var o := Retrying(attemptAt, 2, 0.8, n, 0);
            && o.result == attemptAt(n + 2).result
            && o.sleeps == [0.8, 1.6] && o.attempts == 3
            && o.calls == 2 + attemptAt(n + 2).calls
  {
    var o := Retrying(attemptAt, 2, 0.8, n, 0);
    var o1 := Retrying(attemptAt, 2, 0.8, n + 1, 1);
    var o2 := Retrying(attemptAt, 2, 0.8, n + 2, 2);
    assert o2.sleeps == [];
    assert o1.sleeps == [0.8 * 2.0] + o2.sleeps;
    assert o.sleeps == [0.8 * 1.0] + o1.sleeps;
  }

  /** Three failures with the default two retries and 0.8 s backoff: the
      third error is raised, after sleeping 0.8 s and 1.6 s, and not a
      partial result. */
  lemma RetryingFailThrice(attemptAt: nat -> Trial, n: nat)
    requires attemptAt(n).result.Err? && attemptAt(n).calls == 1
    requires attemptAt(n + 1).result.Err? && attemptAt(n + 1).calls == 1
    requires attemptAt(n + 2).result.Err? && attemptAt(n + 2).calls == 1
    ensures var o := Retrying(attemptAt, 2, 0.8, n, 0);
            && o.result == attemptAt(n + 2).result
            && o.sleeps == [0.8, 1.6] && o.calls == 3 && o.attempts == 3
  {
    var o := Retrying(attemptAt, 2, 0.8, n, 0);
    var o1 := Retrying(attemptAt, 2, 0.8, n + 1, 1);
    var o2 := Retrying(attemptAt, 2, 0.8, n + 2, 2);
    assert o2.sleeps == [];
    assert o1.sleeps == [0.8 * 2.0] + o2.sleeps;
    assert o.sleeps == [0.8 * 1.0] + o1.sleeps;
  }

  /** A primary TL;DR whose word count is within `[extremeMin, extremeMax]`
      is returned unchanged after a single call, even outside
      `[acceptMin, acceptMax]`; the accept bounds, which only reach the
      re-ask prompt, make no difference. */
  lemma AttemptInBand(ask: Oracle, decode: Decoder, review: string, cfg: Config, n: nat, acceptMin: int, acceptMax: int)
    requires PrimaryOf(ask, decode, review, n).Ok?
    requires !FarOff(cfg, CountWords(PrimaryOf(ask, decode, review, n).value.0))
    ensures var t := Attempt(ask, decode, review, cfg, n);
            var p := PrimaryOf(ask, decode, review, n).value;
            t.calls == 1 && t.result == Ok(Summary(p.1, p.0))
    ensures Attempt(ask, decode, review, cfg.(acceptMin := acceptMin, acceptMax := acceptMax), n)
         == Attempt(ask, decode, review, cfg, n)
  {
  }

  /** A primary TL;DR whose word count is far off leads to exactly one
      re-ask, the next call; the repaired TL;DR is kept if and only if its
      word count is strictly closer to 10. */
  lemma AttemptRepairChoice(ask: Oracle, decode: Decoder, review: string, cfg: Config, n: nat, fields: map<string, Value>)
    requires PrimaryOf(ask, decode, review, n).Ok?
    requires FarOff(cfg, CountWords(PrimaryOf(ask, decode, review, n).value.0))
    requires AskGemini(ask, decode, Repair(review, cfg.acceptMin, cfg.acceptMax), n + 1) == Ok(DObject(fields))
    ensures var t := Attempt(ask, decode, review, cfg, n);
            var tldr := PrimaryOf(ask, decode, review, n).value.0;
            && t.calls == 2 && t.result.Ok?
            && (t.result.value.tldr == TldrOf(fields) <==>
                  (Abs(CountWords(TldrOf(fields)) - 10) < Abs(CountWords(tldr) - 10) || TldrOf(fields) == tldr))
            && (Abs(CountWords(TldrOf(fields)) - 10) >= Abs(CountWords(tldr) - 10) ==> t.result.value.tldr == tldr)
  {
  }

  /** A re-ask that raises, does not parse or does not give an object is
      swallowed: the attempt still succeeds, with the primary TL;DR, after two
      calls, so it triggers no outer retry. */
  lemma AttemptRepairFailureSwallowed(ask: Oracle, decode: Decoder, review: string, cfg: Config, n: nat)
    requires PrimaryOf(ask, decode, review, n).Ok?
    requires FarOff(cfg, CountWords(PrimaryOf(ask, decode, review, n).value.0))
    requires !AskGemini(ask, decode, Repair(review, cfg.acceptMin, cfg.acceptMax), n + 1).Ok?
             || AskGemini(ask, decode, Repair(review, cfg.acceptMin, cfg.acceptMax), n + 1).value.DOther?
    ensures var t := Attempt(ask, decode, review, cfg, n);
            var p := PrimaryOf(ask, decode, review, n).value;
            t.calls == 2 && t.result == Ok(Summary(p.1, p.0))
  {
  }

  /** The sentiment always comes from the primary call: two oracles that
      agree on the primary call give attempts that succeed or fail alike and
      carry the same sentiment, whatever the re-ask answers. */
  lemma AttemptSentimentFromPrimary(ask: Oracle, ask': Oracle, decode: Decoder, review: string, cfg: Config, n: nat)
    requires ask(n, Primary(review)) == ask'(n, Primary(review))
    ensures var t := Attempt(ask, decode, review, cfg, n);
            var t' := Attempt(ask', decode, review, cfg, n);
            && t.result.Ok? == t'.result.Ok?
            && (t.result.Ok? ==> t.result.value.sentiment == t'.result.value.sentiment)
            && (t.result.Err? ==> t.result == t'.result)
  {
    assert AskGemini(ask, decode, Primary(review), n) == AskGemini(ask', decode, Primary(review), n);
    assert PrimaryOf(ask, decode, review, n) == PrimaryOf(ask', decode, review, n);
  }
}
