# SteamReview summariser core, in Dafny

SteamReview fetches the reviews of a Steam game and asks Google's Gemini
model to turn each one into a summary: a sentiment label (`pos`, `neg` or
`mixed`) and a TL;DR sentence of about ten words. Summaries are cached under
the SHA-1 of the review text. This project models the two parts of the
program that make decisions.

- `llm.py`:
  - `_strip_code_fence` cuts the JSON object out of the model's reply. It
    takes the first fenced block if there is one, and otherwise the span from
    the first `{` to the last `}`.
  - `_normalize_sentiment` maps the model's sentiment word onto the three
    labels.
  - `_count_words` counts the words of a TL;DR.
  - `_ask_gemini` makes one model call and decodes the answer.
  - `summarise` runs up to `retries + 1` attempts with exponential backoff
    between failures. An attempt makes one call, plus one re-ask when the
    TL;DR's word count is far off. The re-asked TL;DR is kept only if its
    count is strictly closer to 10.
- `main.py`, the review loop of `run`:
  - For each review, the summary comes from the cache when the text's hash
    is already there. Otherwise `summarise` makes it and it is cached.
  - The summary dict then gets the review's `author` and `recommended`, in
    place, and is appended to the snapshots.
  - A failure becomes an `{"error", "author"}` entry and the loop goes on.
  - The cached dict and the snapshot are one Python object. A later review
    with the same text therefore rewrites the reviewer fields of the earlier
    snapshot, and those of the cache entry that gets saved.

The model is in modules that follow the source:

| file | module | what it holds |
|---|---|---|
| `pystr.dfy` | `PyStr` | `isspace`, `strip`, `lower`, `split(" ")` and `re.sub(r"\s+", " ", …)` |
| `word_count.dfy` | `WordCount` | `_count_words` |
| `sentiment.dfy` | `SentimentLabel` | `_normalize_sentiment` |
| `code_fence.dfy` | `CodeFence` | `_strip_code_fence`, with both regular expressions written out as searches |
| `gemini.dfy` | `Gemini` | `_ask_gemini`, the JSON values, `data.get`, `str(...)` |
| `summarise.dfy` | `Summariser` | one attempt as a function; the retry loop as a method with a loop, proved against a recursive function |
| `review_loop.dfy` | `ReviewLoop` | the `run` loop as a class over heap-allocated summary dicts |

The outside world is passed in as parameters:

- The model is an oracle `ask` that, for the n-th call of the run and the
  prompt it is given, either raises or returns a reply text.
- `json.loads` is a parameter `decode`.
- `_hash_text` is a parameter `hash`.
- `time.sleep` is recorded as the list of durations slept.

Where the code and its own description disagree, the model follows the
code. The one exception is the two thumbs emoji of `_normalize_sentiment`: their
entries as written can never match, and the summariser uses the corrected
entries (see "## Findings"). Otherwise:

- `_normalize_sentiment` is not total. A sentiment value that is true but not
  a string (a number, `true`, a list) has no `.strip()` and raises. The
  attempt then fails and is retried (`Gemini.SentimentOf`).
- The docstring of `summarise` says a TL;DR is accepted when its word count
  is within `[accept_min, accept_max]`. The code uses those bounds only in
  the re-ask prompt, and a count between the extreme bounds is always kept
  (`Summariser.AttemptInBand`).
- A `null` TL;DR becomes the text `"None"` (`Gemini.TldrOf`).
- With a negative `retries` no attempt runs and `raise last_err` raises
  `None`, a `TypeError` (`Summariser.SummariseNoAttempts`).
- With a negative `backoff`, `time.sleep` raises after the first failed
  attempt that is not the last one, and that error leaves `summarise`
  (`Summariser.RetryingNegativeBackoff`).
- The cache does not hold a bare summary. It holds the very dict that gains
  `author` and `recommended`, so the saved cache carries the reviewer of the
  last review with that text (`ReviewLoop.ReviewRun.Reuse`,
  `ReviewLoop.ReviewRun.IdenticalTextShared`).

## Model

| member | source | states |
|---|---|---|
| PyStr.Strip | llm.py:46 | `strip()` leaves no whitespace at either end |
| PyStr.StripTrimmed | llm.py:44 | a string with no whitespace at either end is its own strip |
| PyStr.StripPadded | llm.py:78 | whitespace added on either side of a reply is removed again: `strip(a + s + b) == strip(s)` |
| PyStr.Lower | llm.py:50 | `lower()` keeps the length and lowers each character on its own |
| PyStr.LowerStrip | llm.py:50 | `strip()` and `lower()` commute |
| PyStr.LowerCharNeverCapitalYDiaeresis | llm.py:50 | no character lowers to U+0178 |
| PyStr.LowerCharIdempotent | llm.py:50 | lowering a lowered character changes nothing |
| PyStr.SplitOnSpace | llm.py:59 | `split(" ")` gives at least one piece and no piece holds a space |
| PyStr.SplitJoin | llm.py:59 | joining the pieces of `split(" ")` with single spaces gives the string back |
| PyStr.CollapseSpaces | llm.py:59 | after `re.sub(r"\s+", " ", s)` the only whitespace is single spaces, never two in a row, and the first character is kept or made a space |
| WordCount.NonEmptyPieces | llm.py:59 | the filter `if w` keeps no empty piece |
| WordCount.CountWords | llm.py:58-59 | `_count_words` equals the number of maximal runs of non-whitespace characters (an independent definition) |
| WordCount.CountWordsZero | llm.py:58-59 | the count is 0 if and only if the text is empty or all whitespace |
| WordCount.CountWordsWhitespaceInsensitive | llm.py:58-59 | the count is unchanged by collapsing whitespace, by stripping and by padding with whitespace |
| SentimentLabel.Sentiment.Label | llm.py:52-55 | every label is one of `pos`, `neg`, `mixed` |
| SentimentLabel.NormalizeSentimentAsWritten | llm.py:49-55 | as written, the label is `pos` exactly when the stripped, lowered word is `pos`, `positive` or `good`, and `neg` exactly when it is `neg`, `negative` or `bad` |
| SentimentLabel.NormalizeSentiment | llm.py:49-55 | corrected, the label is `pos` exactly when the stripped, lowered word is a positive word or 👍, and `neg` exactly when it is a negative word or 👎 |
| SentimentLabel.RecognisedWords | llm.py:51-53 | the recognised words are already stripped, and no word is both positive and negative |
| SentimentLabel.LowerIdempotent | llm.py:50 | lowering twice is lowering once |
| SentimentLabel.NormalizeSentimentInsensitive | llm.py:50 | letter case and surrounding whitespace do not change the label |
| SentimentLabel.NormalizeSentimentVariants | llm.py:49-55 | a padded word in any letter case is `pos` when it lowers to a positive word and `neg` when it lowers to a negative word; anything else is `mixed` |
| SentimentLabel.NormalizeSentimentUnknownMixed | llm.py:50-55 | every word that does not strip and lower to a recognised one is `mixed`, and so are the missing (empty) word and `meh` |
| SentimentLabel.EmojiAsWrittenUnreachable | llm.py:51-53 | no input lowers to the emoji entries as the source spells them |
| SentimentLabel.NormalizeSentimentAsWrittenAgrees | llm.py:49-55 | the code as written and the corrected one agree on every input except the two thumbs emoji |
| SentimentLabel.ThumbsUpAsWrittenMixed | llm.py:51 | as written, 👍 is `mixed`; corrected, it is `pos` |
| SentimentLabel.ThumbsDownAsWrittenMixed | llm.py:53 | as written, 👎 is `mixed`; corrected, it is `neg` |
| CodeFence.SkipSpaces | llm.py:35 | `\s*` stops at the first non-whitespace character, or at the end |
| CodeFence.OpenAt | llm.py:35 | an opening it finds really matches ```` ```(?:json)?\s*\{ ```` |
| CodeFence.OpenAtUnique | llm.py:35 | every opening match at a position is the one it finds |
| CodeFence.FirstClose | llm.py:35 | the closing `\}\s*```` it finds is a real match |
| CodeFence.FirstCloseIsFirst | llm.py:35 | the lazy `.*?` stops at the first closing match: none comes before it |
| CodeFence.SearchFence | llm.py:42 | a match it finds starts at or after the search position and matches the whole pattern |
| CodeFence.SearchFenceAt | llm.py:42 | where the pattern matches at the search position, the search stops there with the shortest group |
| CodeFence.SearchFenceStep | llm.py:42 | the search either stops at the current position or goes on from the next one |
| CodeFence.SearchFenceLeftmost | llm.py:42 | whenever the pattern matches at or after the search position, the search finds a match no later, with the shortest group |
| CodeFence.SearchFenceFinds | llm.py:42 | the search from the start returns exactly the leftmost match with the shortest group |
| CodeFence.FirstIndexOf | llm.py:45 | the first `{`, or the end when there is none |
| CodeFence.LastIndexOf | llm.py:45 | the last `}`, or -1 when there is none |
| CodeFence.SearchBraces | llm.py:45 | `re.search(r"\{.*\}", s, re.S)` gives the widest `{`…`}` span, and none when no span exists |
| CodeFence.BracedStripped | llm.py:44-46 | a `{`…`}` span has nothing to strip |
| CodeFence.JsonSpan | llm.py:40-45 | the part that gets stripped is group 1 of the fenced match, failing that the brace span, failing that the whole input; anything but the whole input is a `{`…`}` span of it |
| CodeFence.StripCodeFence | llm.py:39-46 | the result is the stripped input or a text that starts with `{` and ends with `}` |
| CodeFence.StripCodeFenceFenced | llm.py:42-44 | with a fenced block, the result is group 1 of the leftmost match, with its shortest group |
| CodeFence.StripCodeFenceBraces | llm.py:45-46 | with no fenced block, the result is the span from the first `{` to the last `}` |
| CodeFence.StripCodeFenceStripped | llm.py:46 | with neither a fenced block nor a brace span, the result is the stripped input |
| Gemini.PyStrOf | llm.py:108 | `str()` of a string is the string itself, and of `null` it is `"None"` |
| Gemini.Get | llm.py:108-109 | `d.get(key, default)` gives the value under the key, or the default |
| Gemini.AskGemini | llm.py:62-79 | a call that raises is an error carrying its message; a returned reply gives the document its stripped, de-fenced text decodes to, and `ParseFailed` when it does not decode; no other error arises |
| Gemini.AskGeminiIgnoresPadding | llm.py:78 | replies that differ only by surrounding whitespace decode alike |
| Gemini.TldrOf | llm.py:108 | a string TL;DR gives its strip; a missing one is empty; a `null` one is `"None"`; the result never starts or ends with whitespace |
| Gemini.SentimentOf | llm.py:109 | a false value is `mixed`; a string is normalised, with the same label as the code as written except on the two thumbs emoji; it raises `SentimentNotText` exactly for a true value that is not a string |
| Summariser.PrimaryOf | llm.py:107-109 | a failing call or decode is raised as is; a decoded value that is not an object raises; a true sentiment that is not a string raises `SentimentNotText`; otherwise the value is the object's TL;DR and normalised sentiment |
| Summariser.Repaired | llm.py:113-127 | the re-ask's TL;DR replaces the TL;DR when its word count is strictly closer to 10, and otherwise the TL;DR is kept; a re-ask that raises, does not parse or is not an object keeps it |
| Summariser.Attempt | llm.py:106-129 | an attempt makes one or two calls; it fails exactly when the primary call or what is read from it fails, and then it made one call and raises that error |
| Summariser.Pause | llm.py:134 | the sleep `backoff * 2 ** attempt` is negative exactly when `backoff` is |
| Summariser.ScaleSign | llm.py:134 | scaling by a factor of at least 1 keeps the sign |
| Summariser.Retrying | llm.py:105-136 | from a given attempt on, at least one and at most the remaining attempts run, with fewer sleeps than attempts |
| Summariser.Retries | llm.py:103-138 | with a negative `retries`, no attempt and `None` raised; otherwise between 1 and `retries + 1` attempts |
| Summariser.RetryLoop | llm.py:103-138 | the `for attempt` loop returns the result, the call count and the sleeps of the retry schedule `Retries` |
| Summariser.Summarise | llm.py:83-138 | `summarise` returns the result, the call count and the sleeps of the schedule over its own attempts |
| Summariser.RetryingSchedule | llm.py:105-136 | with a non-negative `backoff`, there are between 1 and `retries + 1` attempts, each starting one call after a failed one; every attempt but the last failed; the result is the last attempt's; a failure is raised only after the last allowed attempt |
| Summariser.RetryingSleeps | llm.py:133-134 | one sleep follows each failed attempt but the last, and the k-th sleep is `backoff * 2^k` |
| Summariser.RetryingNegativeBackoff | llm.py:131-136 | with a negative `backoff`, a failed attempt that is not the last ends `summarise` with the error `time.sleep` raises, after no sleep |
| Summariser.SummariseNoAttempts | llm.py:103-138 | with a negative `retries`, no call is made and `None` is raised |
| Summariser.RetryingFailTwiceThenSucceed | llm.py:131-134 | two failures then a success, with the defaults: the success is returned after sleeping 0.8 s and 1.6 s |
| Summariser.RetryingFailThrice | llm.py:133-136 | three failures, with the defaults: the third error is raised after sleeping 0.8 s and 1.6 s |
| Summariser.AttemptInBand | llm.py:112-129 | a TL;DR within the extreme bounds is returned unchanged after one call, even outside the accept bounds, and the accept bounds make no difference |
| Summariser.AttemptRepairChoice | llm.py:112-125 | a TL;DR that is far off leads to exactly one re-ask; the repaired TL;DR is kept if and only if its count is strictly closer to 10 (or it is the same text) |
| Summariser.AttemptRepairFailureSwallowed | llm.py:113-127 | a re-ask that raises, does not parse or is not an object is swallowed: the primary TL;DR is returned after two calls |
| Summariser.AttemptSentimentFromPrimary | llm.py:109-129 | the sentiment comes from the primary call alone, whatever the re-ask answers |
| ReviewLoop.SummaryFields | llm.py:129 | the returned dict has exactly `sentiment` and `tldr`, holding the label and the TL;DR |
| ReviewLoop.WithReviewer | main.py:119-120 | the dict gains `author` and `recommended` with the review's values and keeps every other field |
| ReviewLoop.ContentWithReviewer | main.py:119-120 | adding the reviewer leaves everything but `author` and `recommended` as it was |
| ReviewLoop.SummaryContent | llm.py:129 | a fresh summary dict holds no reviewer fields |
| ReviewLoop.ChainedAppend | main.py:99-109 | each `summarise` starting at the call after the ones before it stays so when a review is added, and the run's call count grows by the new review's calls |
| ReviewLoop.FaithfulAppend | main.py:106 | every `summarise` outcome stays the outcome of its review's text from its first call when a review is added |
| ReviewLoop.ExplainedAppend | main.py:103-123 | every snapshot stays explained by its origin (cached dict, error entry of the error raised, dict holding the summary) when one is added |
| ReviewLoop.TracedStep | main.py:106-109 | every dict of the run stays a loaded one or the fresh dict of an earlier summary when a review is added |
| ReviewLoop.SnapshotOutcomes | main.py:99-123 | after the loop, each review's snapshot is the error entry of the error `summarise` raised for its text, or a dict holding the summary it returned, or, for a hit, a cached dict whose content is unchanged |
| ReviewLoop.CacheKeysAppend | main.py:103-109 | appending a snapshot keeps every cache key loaded or produced by a summarised review, and keeps the cache injective |
| ReviewLoop.ErrorAuthorsAppend | main.py:122-123 | appending keeps every error entry naming its review's author |
| ReviewLoop.CachedEntriesAppend | main.py:103-109 | appending keeps every summary dict, with the cache on, the cached one for its key |
| ReviewLoop.SameDictSameKeyAppend | main.py:103-109 | appending keeps a shared dict confined to reviews with one key, and unshared with the cache off |
| ReviewLoop.SameKeySameDictAppend | main.py:103-109 | appending keeps reviews with the same key, with the cache on, sharing the earlier dict |
| ReviewLoop.ConsistentHit | main.py:103-121 | a hit that appends the cached dict keeps the loop invariant |
| ReviewLoop.ConsistentFailed | main.py:122-123 | an error entry keeps the loop invariant |
| ReviewLoop.ConsistentFresh | main.py:106-121 | a new dict, cached unless the cache is off, keeps the loop invariant |
| ReviewLoop.ReviewRun.constructor | main.py:89-90 | the cache starts empty with `no_cache` and as loaded otherwise; there are no snapshots; the run's attempts are those of `summarise`; the run records the fields each loaded dict came with |
| ReviewLoop.ReviewRun.Process | main.py:99-125 | one review, one snapshot: the origin is a hit exactly when the key is cached, with no model call; otherwise `summarise` of the text from the current call, whose calls are added to the count; the snapshot is the error entry of the error raised or a dict holding the summary, and a hit's dict keeps its content; the cache gains the review's key exactly when a miss's summary came back with the cache on, and otherwise keeps its keys; only a hit's dict is modified; the only new dict is the fresh one; the invariant is kept, including that a loaded dict no snapshot shows has the fields it came with |
| ReviewLoop.ReviewRun.Miss | main.py:106-125 | a miss runs `summarise` from the current call and makes its calls; a failure appends the error entry of the error raised and leaves the cache alone; a success appends a fresh dict with the summary and the reviewer, cached under the review's key unless the cache is off |
| ReviewLoop.ReviewRun.Reuse | main.py:103-121 | a hit appends the cached dict itself, which gains the reviewer; the cache and every other cached dict are unchanged |
| ReviewLoop.ReviewRun.Fail | main.py:122-123 | a failed summary appends `{"error", "author"}` and leaves the cache alone |
| ReviewLoop.ReviewRun.Insert | main.py:106-121 | a new summary is a fresh dict with the summary and the reviewer, cached under the review's key unless the cache is off, and appended |
| ReviewLoop.ReviewRun.Record | main.py:119-121 | setting the reviewer and appending keeps every dict showing the reviewer of the last review that took it, and every loaded dict that no snapshot shows holding the fields it came with |
| ReviewLoop.ReviewRun.ProcessAll | main.py:99-125 | every review is processed in order, one snapshot each; each `summarise` starts where the previous review's calls stopped and the returned count is all of them; every snapshot is explained by its origin; every dict is a loaded one or the fresh dict of a summary; the cache stays empty with `no_cache`; a review is a hit exactly when, with the cache on, its key was loaded or came back from `summarise` for an earlier review; a loaded dict no snapshot shows keeps the fields it came with |
| ReviewLoop.ReviewRun.Settled | main.py:99-125 | after the loop, a loaded dict that no snapshot shows has the fields it came with, and every dict of the run keeps the content recorded for it |
| ReviewLoop.HitsStep | main.py:103-109 | processing a review keeps the hits exactly those reviews whose key was loaded or came back for an earlier review, and the cache keys exactly the loaded ones and those that came back, none with `no_cache` |
| ReviewLoop.SummarisedBeforeAppend | main.py:106-109 | a key has come back from `summarise` before a review exactly when it did before the review was appended, or the appended review's summary came back with that key |
| ReviewLoop.HitsListed | main.py:103-105 | a review is a hit exactly when, with the cache on, its key was loaded or came back from `summarise` for an earlier review; a hit's snapshot is the cache's dict for its key |
| ReviewLoop.ReviewRun.NoCacheNoSharing | main.py:103-109 | with `no_cache`, no two snapshots share a dict |
| ReviewLoop.ReviewRun.IdenticalTextShared | main.py:103-121 | with the cache on, two reviews with the same text share one dict, which shows the later reviewer when no review after it has that text |
| ReviewLoop.Loop | main.py:89-125 | one snapshot per review, in order; each `summarise` starts after the earlier ones and the calls are counted; a summarised review's snapshot is the error entry of the error raised for its text, or a dict holding its summary; a hit's dict keeps its content; the hits are exact; every loaded dict keeps its content and, when no snapshot shows it, its fields |
| ReviewLoop.Run | main.py:89-128 | one snapshot per review; the model calls made are counted, each `summarise` starting after the earlier ones; a summarised review's snapshot is the error entry of the error `summarise` raised for its text, or a dict holding its sentiment and TL;DR; a hit's snapshot is a dict that was loaded with that content or holds an earlier summary; error entries name their authors; nothing is saved with `no_cache`, and otherwise the final cache, which still holds every loaded entry; a review is a hit exactly when, with the cache on, its key was loaded or came back from `summarise` for an earlier review, and its snapshot is then the cache's dict for that key; every loaded dict keeps its content, and one that no snapshot shows keeps all its fields |

## Left out

- The Gemini SDK, the API key and the prompt text. A prompt is modelled by
  the review text and, for the re-ask, the accept bounds; the generation
  settings are not modelled.
- `json.loads` is a parameter. Numbers, arrays and objects inside the
  answer are known only by the text `str()` gives them and by their truth
  value.
- `str.lower()` beyond Latin Extended-A, and U+0130, which lowers to two
  characters. Both are modelled as unchanged characters.
- `time.sleep`: the durations are recorded, not slept. The `ValueError` a
  negative duration raises is the error `SleepRejected`. The `OverflowError`
  that `backoff * 2 ** attempt` raises from attempt 1024 on, or that
  `time.sleep` raises for a duration too large for the platform (around
  attempt 35 with a backoff of 0.8), is not modelled: the exact real
  product is recorded as the sleep. `run` calls `summarise` with the
  default two retries, which never come near either bound. `backoff * 2 **
  attempt` is computed on exact reals, without floating-point rounding.
- `_hash_text` (SHA-1) is a parameter, so two texts share a key exactly
  when the hash says so.
- `_load_cache` and `_save_cache`: file reading and writing, and the
  fallback to `{}` on a corrupt file. The model starts from the loaded map
  and ends with the map that is saved.
- Loaded cache values are assumed to be distinct dict objects, as
  `json.loads` makes them. A cache file holding values that are not objects
  is not modelled.
- An exception's text `str(e)` is modelled by the `Error` value itself.
- `rev.get("recommended")`: every review has a boolean `recommended`, as
  `fetch_reviews` builds it; `steam.py` is not part of this model.
- `resp.text` being `None` is modelled as the empty reply. The `or ""`
  guards in `_strip_code_fence` and `_count_words` never see `None` from
  their callers.
- The CLI, `fetch_reviews`, the debug printing, the progress bar and the
  table or JSON output.
- Exceptions other than `Exception`, such as `KeyboardInterrupt`.
- ReviewLoop.ReviewRun.Process: it states the snapshot's origin, the call
  count, what the snapshot holds and the cache's keys, but not which dict
  object a hit appends or which dict each cache key maps to;
  `ReviewLoop.ReviewRun.Reuse` and `ReviewLoop.ReviewRun.Miss`, which it
  calls, state those.
- Gemini.SentimentOf: it uses the corrected emoji entries of
  `_normalize_sentiment`, so 👍 is `pos` and 👎 is `neg` where the code as
  written gives `mixed`; on every other string it gives the code's label.
- ReviewLoop.ReviewRun.Miss: it runs the retry loop over the run's
  `attemptsFor` rather than calling `Summariser.Summarise`. The constructor
  states that these attempts are those of `summarise`, so the outcome is the
  same.

## Findings

| source | as written | input that shows it | evidently intended | confidence | as-written member | corrected member |
|---|---|---|---|---|---|---|
| llm.py:51-53 | the emoji entries are the UTF-8 bytes of 👍 and 👎 read as Windows-1252 (`ðŸ‘`, `ðŸ‘Ž`); their U+0178 can never survive `lower()`, so they never match | the sentiment `"👍"` gives `mixed`, and `"👎"` gives `mixed` | `"👍"` gives `pos` and `"👎"` gives `neg` | high; not executed | SentimentLabel.NormalizeSentimentAsWritten (shown by SentimentLabel.ThumbsUpAsWrittenMixed, SentimentLabel.ThumbsDownAsWrittenMixed, SentimentLabel.EmojiAsWrittenUnreachable) | SentimentLabel.NormalizeSentiment |
