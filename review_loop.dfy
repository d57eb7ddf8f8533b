/**
  The review loop of `run` in main.py: for each review, in order, the summary
  is taken from the cache when its text's hash is there, and otherwise made by
  `summarise` and cached; the summary dict then gains the review's `author`
  and `recommended` in place and is appended to the snapshots. A failure
  becomes an error entry and the loop goes on.

  Summary dicts are heap objects, as in Python: the dict in the cache and the
  dict in the snapshots are one object, so a later review with the same text
  rewrites the reviewer fields of the earlier snapshot too.
 */
module ReviewLoop {
  import opened Wrappers
  import opened SentimentLabel
  import opened Gemini
  import opened Summariser

  /** A review as the review source hands it over. */
  datatype Review = Review(author: string, text: string, recommended: bool)

  /** A Python dict object holding a summary. */
  class Dict {
    var fields: map<string, Value>

    constructor (fields: map<string, Value>)
      ensures this.fields == fields
    {
      this.fields := fields;
    }
  }

  /** The fields of the dict `summarise` returns. */
  function SummaryFields(s: Summary): (r: map<string, Value>)
    ensures r.Keys == {"sentiment", "tldr"}
    ensures r["sentiment"] == VString(s.sentiment.Label()) && r["tldr"] == VString(s.tldr)
  {
    map["sentiment" := VString(s.sentiment.Label()), "tldr" := VString(s.tldr)]
  }

  /** `fields` after `s["author"] = ...` and `s["recommended"] = ...`. */
  function WithReviewer(fields: map<string, Value>, rev: Review): (r: map<string, Value>)
    ensures r.Keys == fields.Keys + {"author", "recommended"}
    ensures r["author"] == VString(rev.author) && r["recommended"] == VBool(rev.recommended)
    ensures forall k :: k in fields && k != "author" && k != "recommended" ==> r[k] == fields[k]
  {
    fields["author" := VString(rev.author)]["recommended" := VBool(rev.recommended)]
  }

  /** The dict shows `rev` as its reviewer. */
  ghost predicate ShowsReviewer(d: Dict, rev: Review)
    reads d
  {
    && "author" in d.fields && d.fields["author"] == VString(rev.author)
    && "recommended" in d.fields && d.fields["recommended"] == VBool(rev.recommended)
  }

  /** An entry of `snapshots`: a summary dict (shared with the cache), or the
      `{"error": ..., "author": ...}` entry of a review whose summary failed. */
  datatype Snapshot = Entry(obj: Dict) | Failed(error: Error, author: string)

  /** No two keys of the map hold the same dict. */
  ghost predicate Injective(m: map<string, Dict>) {
    forall k1, k2 :: k1 in m && k2 in m && m[k1] == m[k2] ==> k1 == k2
  }

  /** The cache holds the loaded entries (it is empty with `no_cache`), and
      every other key is that of a review summarised in this run; no two
      keys share a dict. */
  ghost predicate CacheKeys(noCache: bool, hash: string -> string, loaded: map<string, Dict>,
                            cache: map<string, Dict>, snaps: seq<Snapshot>, revs: seq<Review>)
    requires |revs| == |snaps|
  {
    && (noCache ==> cache == map[])
    && (!noCache ==> forall key :: key in loaded ==> key in cache && cache[key] == loaded[key])
    && (forall key :: key in cache ==>
          key in loaded || exists i :: 0 <= i < |snaps| && snaps[i].Entry? && hash(revs[i].text) == key)
    && Injective(cache)
  }

  /** An error entry names the review's author. */
  ghost predicate ErrorAuthors(snaps: seq<Snapshot>, revs: seq<Review>)
    requires |revs| == |snaps|
  {
    forall i :: 0 <= i < |snaps| && snaps[i].Failed? ==> snaps[i].author == revs[i].author
  }

  /** With the cache on, every summary dict is the cached one for its key. */
  ghost predicate CachedEntries(noCache: bool, hash: string -> string, cache: map<string, Dict>,
                                snaps: seq<Snapshot>, revs: seq<Review>)
    requires |revs| == |snaps|
  {
    !noCache ==> forall i :: 0 <= i < |snaps| && snaps[i].Entry? ==>
      hash(revs[i].text) in cache && cache[hash(revs[i].text)] == snaps[i].obj
  }

  /** Snapshots `i` and `j` hold the same summary dict. */
  ghost predicate Shared(snaps: seq<Snapshot>, i: int, j: int) {
    0 <= i < |snaps| && 0 <= j < |snaps| && snaps[i].Entry? && snaps[j] == snaps[i]
  }

  /** A dict shows up again only for a review with the same key, and never
      with the cache off. */
  ghost predicate SameDictSameKey(noCache: bool, hash: string -> string, snaps: seq<Snapshot>, revs: seq<Review>)
    requires |revs| == |snaps|
  {
    forall i, j {:trigger Shared(snaps, i, j)} :: Shared(snaps, i, j) ==>
      hash(revs[i].text) == hash(revs[j].text) && (noCache ==> i == j)
  }

  /** With the cache on, a later review with the same key shares the dict. */
  ghost predicate SameKeySameDict(noCache: bool, hash: string -> string, snaps: seq<Snapshot>, revs: seq<Review>)
    requires |revs| == |snaps|
  {
    !noCache ==> forall i, j :: 0 <= i < j < |snaps| && snaps[i].Entry? && hash(revs[i].text) == hash(revs[j].text) ==>
      snaps[j] == snaps[i]
  }

  /** What the loop keeps true of the cache, the snapshots so far and the
      reviews they came from. */
  ghost predicate Consistent(noCache: bool, hash: string -> string, loaded: map<string, Dict>,
                             cache: map<string, Dict>, snaps: seq<Snapshot>, revs: seq<Review>)
  {
    && |revs| == |snaps|
    && CacheKeys(noCache, hash, loaded, cache, snaps, revs)
    && ErrorAuthors(snaps, revs)
    && CachedEntries(noCache, hash, cache, snaps, revs)
    && SameDictSameKey(noCache, hash, snaps, revs)
    && SameKeySameDict(noCache, hash, snaps, revs)
  }

  lemma CacheKeysAppend(noCache: bool, hash: string -> string, loaded: map<string, Dict>,
                        cache: map<string, Dict>, cache': map<string, Dict>,
                        snaps: seq<Snapshot>, revs: seq<Review>, x: Snapshot, rev: Review)
    requires |revs| == |snaps| && CacheKeys(noCache, hash, loaded, cache, snaps, revs)
    requires || cache' == cache
             || (&& !noCache && hash(rev.text) !in cache && x.Entry? && x.obj !in cache.Values
                 && cache' == cache[hash(rev.text) := x.obj])
    ensures CacheKeys(noCache, hash, loaded, cache', snaps + [x], revs + [rev])
  {
    var snaps', revs' := snaps + [x], revs + [rev];
    forall key | key in cache'
      ensures key in loaded || exists i :: 0 <= i < |snaps'| && snaps'[i].Entry? && hash(revs'[i].text) == key
    {
      if key !in cache {
        assert snaps'[|snaps|] == x && revs'[|snaps|] == rev;
      } else if key !in loaded {
        var i :| 0 <= i < |snaps| && snaps[i].Entry? && hash(revs[i].text) == key;
        assert snaps'[i] == snaps[i] && revs'[i] == revs[i];
      }
    }
  }

  lemma ErrorAuthorsAppend(snaps: seq<Snapshot>, revs: seq<Review>, x: Snapshot, rev: Review)
    requires |revs| == |snaps| && ErrorAuthors(snaps, revs)
    requires x.Failed? ==> x.author == rev.author
    ensures ErrorAuthors(snaps + [x], revs + [rev])
  {
  }

  lemma CachedEntriesAppend(noCache: bool, hash: string -> string, cache: map<string, Dict>, cache': map<string, Dict>,
                            snaps: seq<Snapshot>, revs: seq<Review>, x: Snapshot, rev: Review)
    requires |revs| == |snaps| && CachedEntries(noCache, hash, cache, snaps, revs)
    requires forall key :: key in cache ==> key in cache' && cache'[key] == cache[key]
    requires !noCache && x.Entry? ==> hash(rev.text) in cache' && cache'[hash(rev.text)] == x.obj
    ensures CachedEntries(noCache, hash, cache', snaps + [x], revs + [rev])
  {
  }

  lemma SameDictSameKeyAppend(noCache: bool, hash: string -> string, snaps: seq<Snapshot>, revs: seq<Review>,
                              x: Snapshot, rev: Review)
    requires |revs| == |snaps| && SameDictSameKey(noCache, hash, snaps, revs)
    requires x.Entry? ==> forall i :: 0 <= i < |snaps| && snaps[i] == x ==> hash(revs[i].text) == hash(rev.text) && !noCache
    ensures SameDictSameKey(noCache, hash, snaps + [x], revs + [rev])
  {
    var snaps', revs' := snaps + [x], revs + [rev];
    forall i, j | Shared(snaps', i, j)
      ensures hash(revs'[i].text) == hash(revs'[j].text) && (noCache ==> i == j)
    {
      if i < |snaps| && j < |snaps| {
        assert snaps'[i] == snaps[i] && snaps'[j] == snaps[j];
        assert Shared(snaps, i, j);
      }
    }
  }

  lemma SameKeySameDictAppend(noCache: bool, hash: string -> string, snaps: seq<Snapshot>, revs: seq<Review>,
                              x: Snapshot, rev: Review)
    requires |revs| == |snaps| && SameKeySameDict(noCache, hash, snaps, revs)
    requires !noCache ==> forall i :: 0 <= i < |snaps| && snaps[i].Entry? && hash(revs[i].text) == hash(rev.text) ==> x == snaps[i]
    ensures SameKeySameDict(noCache, hash, snaps + [x], revs + [rev])
  {
    var snaps', revs' := snaps + [x], revs + [rev];
    if !noCache {
      forall i, j | 0 <= i < j < |snaps'| && snaps'[i].Entry? && hash(revs'[i].text) == hash(revs'[j].text)
        ensures snaps'[j] == snaps'[i]
      {
        assert snaps'[i] == snaps[i] && revs'[i] == revs[i];
        if j < |snaps| {
          assert snaps'[j] == snaps[j] && revs'[j] == revs[j];
        }
      }
    }
  }

  /** A hit appends the cached dict. */
  lemma ConsistentHit(noCache: bool, hash: string -> string, loaded: map<string, Dict>,
                      cache: map<string, Dict>, snaps: seq<Snapshot>, revs: seq<Review>, rev: Review)
    requires Consistent(noCache, hash, loaded, cache, snaps, revs)
    requires !noCache && hash(rev.text) in cache
    ensures Consistent(noCache, hash, loaded, cache, snaps + [Entry(cache[hash(rev.text)])], revs + [rev])
  {
    var x := Entry(cache[hash(rev.text)]);
    CacheKeysAppend(noCache, hash, loaded, cache, cache, snaps, revs, x, rev);
    ErrorAuthorsAppend(snaps, revs, x, rev);
    CachedEntriesAppend(noCache, hash, cache, cache, snaps, revs, x, rev);
    forall i | 0 <= i < |snaps| && snaps[i] == x
      ensures hash(revs[i].text) == hash(rev.text)
    {
      var k := hash(revs[i].text);
      assert k in cache && cache[k] == snaps[i].obj;
      assert cache[k] == cache[hash(rev.text)];
    }
    SameDictSameKeyAppend(noCache, hash, snaps, revs, x, rev);
    SameKeySameDictAppend(noCache, hash, snaps, revs, x, rev);
  }

  /** A failed summary appends an error entry and leaves the cache alone. */
  lemma ConsistentFailed(noCache: bool, hash: string -> string, loaded: map<string, Dict>,
                         cache: map<string, Dict>, snaps: seq<Snapshot>, revs: seq<Review>, rev: Review, e: Error)
    requires Consistent(noCache, hash, loaded, cache, snaps, revs)
    requires noCache || hash(rev.text) !in cache
    ensures Consistent(noCache, hash, loaded, cache, snaps + [Failed(e, rev.author)], revs + [rev])
  {
    var x := Failed(e, rev.author);
    CacheKeysAppend(noCache, hash, loaded, cache, cache, snaps, revs, x, rev);
    ErrorAuthorsAppend(snaps, revs, x, rev);
    CachedEntriesAppend(noCache, hash, cache, cache, snaps, revs, x, rev);
    SameDictSameKeyAppend(noCache, hash, snaps, revs, x, rev);
    SameKeySameDictAppend(noCache, hash, snaps, revs, x, rev);
  }

  /** A miss appends a new dict, which the cache takes unless it is off. */
  lemma ConsistentFresh(noCache: bool, hash: string -> string, loaded: map<string, Dict>,
                        cache: map<string, Dict>, snaps: seq<Snapshot>, revs: seq<Review>, rev: Review, d: Dict)
    requires Consistent(noCache, hash, loaded, cache, snaps, revs)
    requires noCache || hash(rev.text) !in cache
    requires d !in cache.Values && forall i :: 0 <= i < |snaps| && snaps[i].Entry? ==> snaps[i].obj != d
    ensures Consistent(noCache, hash, loaded, if noCache then cache else cache[hash(rev.text) := d],
                       snaps + [Entry(d)], revs + [rev])
  {
    var x := Entry(d);
    var cache' := if noCache then cache else cache[hash(rev.text) := d];
    CacheKeysAppend(noCache, hash, loaded, cache, cache', snaps, revs, x, rev);
    ErrorAuthorsAppend(snaps, revs, x, rev);
    CachedEntriesAppend(noCache, hash, cache, cache', snaps, revs, x, rev);
    SameDictSameKeyAppend(noCache, hash, snaps, revs, x, rev);
    SameKeySameDictAppend(noCache, hash, snaps, revs, x, rev);
  }

  /** A summary dict without the reviewer fields: what `summarise` put in it,
      or what the cache file held. Only the reviewer fields are ever rewritten. */
  function Content(fields: map<string, Value>): map<string, Value> {
    fields - {"author", "recommended"}
  }

  /** Adding the reviewer leaves the content alone. */
  lemma ContentWithReviewer(fields: map<string, Value>, rev: Review)
    ensures Content(WithReviewer(fields, rev)) == Content(fields)
  {
  }

  /** A fresh summary dict is all content. */
  lemma SummaryContent(s: Summary)
    ensures Content(SummaryFields(s)) == SummaryFields(s)
  {
  }

  /** How a review's snapshot came about: from the cache, with no model call,
      or from `summarise` started at model call `start`, with that outcome. */
  datatype Origin = Cached | Summarised(start: nat, outcome: Outcome) {
    function Calls(): nat {
      if Summarised? then outcome.calls else 0
    }
  }

  /** The model calls made for all of `origins`. */
  ghost function CallsOf(origins: seq<Origin>): nat {
    if origins == [] then 0 else CallsOf(origins[..|origins| - 1]) + origins[|origins| - 1].Calls()
  }

  /** Each `summarise` starts at the call after the last one the reviews
      before it made. */
  ghost predicate Chained(origins: seq<Origin>) {
    forall i :: 0 <= i < |origins| && origins[i].Summarised? ==> origins[i].start == CallsOf(origins[..i])
  }

  lemma {:induction false} ChainedAppend(origins: seq<Origin>, o: Origin)
    requires Chained(origins)
    requires o.Summarised? ==> o.start == CallsOf(origins)
    ensures Chained(origins + [o]) && CallsOf(origins + [o]) == CallsOf(origins) + o.Calls()
  {
    var s := origins + [o];
    assert s[..|origins|] == origins;
    forall i | 0 <= i < |s| && s[i].Summarised?
      ensures s[i].start == CallsOf(s[..i])
    {
      if i < |origins| {
        assert s[..i] == origins[..i];
      }
    }
  }

  /** Each `summarise` had the outcome the attempts of its review's text give
      from its first call on. */
  ghost predicate Faithful(attemptsFor: string -> nat -> Trial, cfg: Config, revs: seq<Review>, origins: seq<Origin>)
    requires |origins| <= |revs|
  {
    forall i :: 0 <= i < |origins| && origins[i].Summarised? ==>
      origins[i].outcome == Retries(attemptsFor(revs[i].text), cfg.retries, cfg.backoff, origins[i].start)
  }

  lemma FaithfulAppend(attemptsFor: string -> nat -> Trial, cfg: Config, revs: seq<Review>, origins: seq<Origin>,
                       rev: Review, o: Origin)
    requires |origins| == |revs| && Faithful(attemptsFor, cfg, revs, origins)
    requires o.Summarised? ==> o.outcome == Retries(attemptsFor(rev.text), cfg.retries, cfg.backoff, o.start)
    ensures Faithful(attemptsFor, cfg, revs + [rev], origins + [o])
  {
    var revs', origins' := revs + [rev], origins + [o];
    forall i | 0 <= i < |origins'| && origins'[i].Summarised?
      ensures origins'[i].outcome == Retries(attemptsFor(revs'[i].text), cfg.retries, cfg.backoff, origins'[i].start)
    {
      if i < |origins| {
        assert origins'[i] == origins[i] && revs'[i] == revs[i];
      }
    }
  }

  /** Snapshot `x` of review `rev` is what `origin` says: a cache hit shows a
      dict the run knows the content of; a `summarise` that failed gives the
      error entry of its error; one that came back gives a dict whose content
      is that summary. */
  ghost predicate Explains(noCache: bool, contentOf: map<Dict, map<string, Value>>, rev: Review, origin: Origin, x: Snapshot)
  {
    match origin
    case Cached => !noCache && x.Entry? && x.obj in contentOf
    case Summarised(_, o) =>
      && (o.result.Err? ==> x == Failed(o.result.error, rev.author))
      && (o.result.Ok? ==> x.Entry? && x.obj in contentOf && contentOf[x.obj] == SummaryFields(o.result.value))
  }

  ghost predicate AllExplained(noCache: bool, contentOf: map<Dict, map<string, Value>>,
                               revs: seq<Review>, origins: seq<Origin>, snaps: seq<Snapshot>)
  {
    && |revs| == |snaps| && |origins| == |snaps|
    && forall i :: 0 <= i < |snaps| ==> Explains(noCache, contentOf, revs[i], origins[i], snaps[i])
  }

  lemma ExplainedAppend(noCache: bool,
                        contentOf: map<Dict, map<string, Value>>, contentOf': map<Dict, map<string, Value>>,
                        revs: seq<Review>, origins: seq<Origin>, snaps: seq<Snapshot>,
                        rev: Review, origin: Origin, x: Snapshot)
    requires AllExplained(noCache, contentOf, revs, origins, snaps)
    requires forall d :: d in contentOf ==> d in contentOf' && contentOf'[d] == contentOf[d]
    requires Explains(noCache, contentOf', rev, origin, x)
    ensures AllExplained(noCache, contentOf', revs + [rev], origins + [origin], snaps + [x])
  {
    var revs', origins', snaps' := revs + [rev], origins + [origin], snaps + [x];
    forall i | 0 <= i < |snaps'|
      ensures Explains(noCache, contentOf', revs'[i], origins'[i], snaps'[i])
    {
      if i < |snaps| {
        assert revs'[i] == revs[i] && origins'[i] == origins[i] && snaps'[i] == snaps[i];
        assert Explains(noCache, contentOf, revs[i], origins[i], snaps[i]);
      }
    }
  }

  /** No dict's content has changed since it came in. */
  ghost predicate ContentKept(contentOf: map<Dict, map<string, Value>>)
    reads contentOf.Keys
  {
    forall d :: d in contentOf ==> Content(d.fields) == contentOf[d]
  }

  /** The dicts that the snapshots show. */
  ghost function Shown(snaps: seq<Snapshot>): set<Dict> {
    set i | 0 <= i < |snaps| && snaps[i].Entry? :: snaps[i].obj
  }

  lemma ShownAppend(snaps: seq<Snapshot>, x: Snapshot)
    ensures Shown(snaps + [x]) == Shown(snaps) + if x.Entry? then {x.obj} else {}
  {
    var s' := snaps + [x];
    forall d | d in Shown(snaps) ensures d in Shown(s') {
      var i :| 0 <= i < |snaps| && snaps[i].Entry? && snaps[i].obj == d;
      assert s'[i] == snaps[i];
    }
    if x.Entry? {
      assert s'[|snaps|] == x;
    }
  }

  /** Every dict of `fieldsOf` still holds the fields recorded for it. */
  ghost predicate FieldsKept(fieldsOf: map<Dict, map<string, Value>>)
    reads fieldsOf.Keys
  {
    forall d :: d in fieldsOf ==> d.fields == fieldsOf[d]
  }

  /** Every snapshot is explained by its origin, and every cached dict is one
      whose content the run knows and keeps. */
  ghost predicate Accounted(noCache: bool, cache: map<string, Dict>, contentOf: map<Dict, map<string, Value>>,
                            revs: seq<Review>, origins: seq<Origin>, snaps: seq<Snapshot>)
    reads contentOf.Keys
  {
    && AllExplained(noCache, contentOf, revs, origins, snaps)
    && cache.Values <= contentOf.Keys
    && ContentKept(contentOf)
  }

  /** `contentOf'` knows every dict `contentOf` knows, with the same content. */
  ghost predicate Extends(contentOf: map<Dict, map<string, Value>>, contentOf': map<Dict, map<string, Value>>) {
    forall d :: d in contentOf ==> d in contentOf' && contentOf'[d] == contentOf[d]
  }

  /** Every dict `contentOf` knows beyond `base` is the fresh dict of a
      `summarise` that came back. */
  ghost predicate Traced(base: map<Dict, map<string, Value>>, contentOf: map<Dict, map<string, Value>>,
                         origins: seq<Origin>, snaps: seq<Snapshot>)
  {
    forall d :: d in contentOf ==>
      d in base || exists j :: 0 <= j < |origins| && j < |snaps| && origins[j].Summarised? && snaps[j] == Entry(d)
  }

  lemma TracedStep(base: map<Dict, map<string, Value>>, contentOf: map<Dict, map<string, Value>>,
                   contentOf': map<Dict, map<string, Value>>, origins: seq<Origin>, snaps: seq<Snapshot>,
                   snaps': seq<Snapshot>, origin: Origin)
    requires Traced(base, contentOf, origins, snaps) && |origins| == |snaps|
    requires |snaps'| == |snaps| + 1 && snaps'[..|snaps|] == snaps
    requires forall d :: d in contentOf' ==> d in contentOf || (origin.Summarised? && snaps'[|snaps|] == Entry(d))
    ensures Traced(base, contentOf', origins + [origin], snaps')
  {
    var origins' := origins + [origin];
    forall d | d in contentOf'
      ensures d in base || exists j :: 0 <= j < |origins'| && j < |snaps'| && origins'[j].Summarised? && snaps'[j] == Entry(d)
    {
      if d !in contentOf {
        assert origins'[|snaps|] == origin;
      } else if d !in base {
        var j :| 0 <= j < |origins| && j < |snaps| && origins[j].Summarised? && snaps[j] == Entry(d);
        assert origins'[j] == origins[j] && snaps'[j] == snaps[j];
      }
    }
  }

  /** What the bookkeeping of a finished run says about each snapshot. */
  lemma SnapshotOutcomes(noCache: bool, attemptsFor: string -> nat -> Trial, ask: Oracle, decode: Decoder, cfg: Config,
                         contentOf: map<Dict, map<string, Value>>,
                         revs: seq<Review>, origins: seq<Origin>, snaps: seq<Snapshot>)
    requires AllExplained(noCache, contentOf, revs, origins, snaps) && ContentKept(contentOf)
    requires Faithful(attemptsFor, cfg, revs, origins)
    requires forall text, n :: Retries(attemptsFor(text), cfg.retries, cfg.backoff, n)
                               == SummariseSpec(ask, decode, text, cfg, n)
    ensures forall i :: 0 <= i < |revs| && origins[i].Summarised? ==>
              var o := SummariseSpec(ask, decode, revs[i].text, cfg, origins[i].start);
              && origins[i].outcome == o
              && (o.result.Err? ==> snaps[i] == Failed(o.result.error, revs[i].author))
              && (o.result.Ok? ==> snaps[i].Entry? && Content(snaps[i].obj.fields) == SummaryFields(o.result.value))
    ensures forall i :: 0 <= i < |revs| && origins[i].Cached? ==>
              && !noCache && snaps[i].Entry? && snaps[i].obj in contentOf
              && Content(snaps[i].obj.fields) == contentOf[snaps[i].obj]
  {
    forall i | 0 <= i < |revs|
      ensures origins[i].Summarised? ==>
                var o := SummariseSpec(ask, decode, revs[i].text, cfg, origins[i].start);
                && origins[i].outcome == o
                && (o.result.Err? ==> snaps[i] == Failed(o.result.error, revs[i].author))
                && (o.result.Ok? ==> snaps[i].Entry? && Content(snaps[i].obj.fields) == SummaryFields(o.result.value))
      ensures origins[i].Cached? ==>
                && !noCache && snaps[i].Entry? && snaps[i].obj in contentOf
                && Content(snaps[i].obj.fields) == contentOf[snaps[i].obj]
    {
      assert Explains(noCache, contentOf, revs[i], origins[i], snaps[i]);
    }
  }
  /** The hits spelled out: a review is answered from the cache exactly when
      its key came from the cache file or from an earlier summary that came
      back, and it then shows the cache's dict. */
  lemma HitsListed(noCache: bool, hash: string -> string, loaded: map<string, Dict>, cache: map<string, Dict>,
                   contentOf: map<Dict, map<string, Value>>, revs: seq<Review>, origins: seq<Origin>, snaps: seq<Snapshot>)
    requires AllExplained(noCache, contentOf, revs, origins, snaps)
    requires HitsExact(noCache, hash, loaded, revs, origins) && CachedEntries(noCache, hash, cache, snaps, revs)
    ensures forall i :: 0 <= i < |revs| ==>
              (origins[i].Cached? <==>
                 !noCache && (hash(revs[i].text) in loaded ||
                              exists j :: 0 <= j < i && origins[j].Summarised? && origins[j].outcome.result.Ok?
                                          && hash(revs[j].text) == hash(revs[i].text)))
    ensures forall i :: 0 <= i < |revs| && origins[i].Cached? ==>
              hash(revs[i].text) in cache && snaps[i] == Entry(cache[hash(revs[i].text)])
  {
    forall i | 0 <= i < |revs| && origins[i].Cached?
      ensures hash(revs[i].text) in cache && snaps[i] == Entry(cache[hash(revs[i].text)])
    {
      assert Explains(noCache, contentOf, revs[i], origins[i], snaps[i]);
    }
  }


  /** Some review before the i-th came back from `summarise` with the given key. */
  ghost predicate SummarisedBefore(hash: string -> string, revs: seq<Review>, origins: seq<Origin>, i: int, key: string)
    requires i <= |origins| <= |revs|
  {
    exists j :: 0 <= j < i && origins[j].Summarised? && origins[j].outcome.result.Ok? && hash(revs[j].text) == key
  }

  /** With the cache on, a review is a hit exactly when its key was loaded or
      came back from `summarise` for an earlier review; with it off, never. */
  ghost predicate HitsExact(noCache: bool, hash: string -> string, loaded: map<string, Dict>,
                            revs: seq<Review>, origins: seq<Origin>)
    requires |origins| <= |revs|
  {
    forall i :: 0 <= i < |origins| ==>
      (origins[i].Cached? <==>
         !noCache && (hash(revs[i].text) in loaded || SummarisedBefore(hash, revs, origins, i, hash(revs[i].text))))
  }

  /** The cache keys are the loaded ones and those of the summaries that came
      back, and none with the cache off. */
  ghost predicate KeysKnown(noCache: bool, hash: string -> string, loaded: map<string, Dict>, cache: map<string, Dict>,
                            revs: seq<Review>, origins: seq<Origin>)
    requires |origins| <= |revs|
  {
    forall key :: key in cache <==> !noCache && (key in loaded || SummarisedBefore(hash, revs, origins, |origins|, key))
  }

  lemma SummarisedBeforeAppend(hash: string -> string, revs: seq<Review>, origins: seq<Origin>,
                               rev: Review, o: Origin, i: int, key: string)
    requires |origins| == |revs| && 0 <= i <= |origins|
    ensures SummarisedBefore(hash, revs + [rev], origins + [o], i, key) <==> SummarisedBefore(hash, revs, origins, i, key)
    ensures SummarisedBefore(hash, revs + [rev], origins + [o], |origins| + 1, key) <==>
              SummarisedBefore(hash, revs, origins, |origins|, key)
              || (o.Summarised? && o.outcome.result.Ok? && hash(rev.text) == key)
  {
    var revs', origins' := revs + [rev], origins + [o];
    forall j | 0 <= j < |origins|
      ensures origins'[j] == origins[j] && revs'[j] == revs[j]
    {
    }
    assert origins'[|origins|] == o && revs'[|origins|] == rev;
  }

  lemma HitsStep(noCache: bool, hash: string -> string, loaded: map<string, Dict>,
                 cache: map<string, Dict>, cache': map<string, Dict>,
                 revs: seq<Review>, origins: seq<Origin>, rev: Review, o: Origin)
    requires |origins| == |revs|
    requires HitsExact(noCache, hash, loaded, revs, origins) && KeysKnown(noCache, hash, loaded, cache, revs, origins)
    requires o.Cached? <==> !noCache && hash(rev.text) in cache
    requires cache'.Keys == if !noCache && o.Summarised? && o.outcome.result.Ok? then cache.Keys + {hash(rev.text)}
                            else cache.Keys
    ensures HitsExact(noCache, hash, loaded, revs + [rev], origins + [o])
    ensures KeysKnown(noCache, hash, loaded, cache', revs + [rev], origins + [o])
  {
    var revs', origins' := revs + [rev], origins + [o];
    forall i | 0 <= i < |origins'|
      ensures origins'[i].Cached? <==>
                !noCache && (hash(revs'[i].text) in loaded || SummarisedBefore(hash, revs', origins', i, hash(revs'[i].text)))
    {
      SummarisedBeforeAppend(hash, revs, origins, rev, o, i, hash(revs'[i].text));
      if i < |origins| {
        assert origins'[i] == origins[i] && revs'[i] == revs[i];
      } else {
        assert origins'[i] == o && revs'[i] == rev;
      }
    }
    forall key
      ensures key in cache' <==> !noCache && (key in loaded || SummarisedBefore(hash, revs', origins', |origins'|, key))
    {
      SummarisedBeforeAppend(hash, revs, origins, rev, o, 0, key);
    }
  }

  lemma PrefixStep(s: seq<Review>, k: nat)
    requires k < |s|
    ensures s[..k] + [s[k]] == s[..k + 1]
  {
  }

  /** The state of one `run`: the cache and the snapshots so far. */
  class ReviewRun {
    const noCache: bool
    const ask: Oracle
    const decode: Decoder
    /** `_hash_text`, as a parameter. */
    const hash: string -> string
    const cfg: Config
    /** The attempt `summarise` makes at each call, for each review text. */
    const attemptsFor: string -> nat -> Trial
    /** What `_load_cache` gave. */
    ghost const loaded: map<string, Dict>
    /** The fields each loaded dict came with. */
    ghost const loadedFields: map<Dict, map<string, Value>>

    var cache: map<string, Dict>
    var snapshots: seq<Snapshot>
    /** The reviews processed so far, one per snapshot. */
    ghost var processed: seq<Review>

    /** The cache key of a review. */
    function Key(rev: Review): string {
      hash(rev.text)
    }

    /** The review is answered from the cache. */
    predicate Hit(rev: Review)
      reads this`cache
    {
      !noCache && Key(rev) in cache
    }

    ghost predicate Valid()
      reads this`cache, this`snapshots, this`processed
    {
      Consistent(noCache, hash, loaded, cache, snapshots, processed)
    }

    /** The snapshot at `i` does not show up again later. */
    ghost predicate LastUse(i: nat)
      reads this`snapshots
    {
      forall l :: i < l < |snapshots| ==> snapshots[l] != snapshots[i]
    }

    ghost function Objects(): set<Dict>
      reads this`snapshots
    {
      Shown(snapshots)
    }

    /** Each summary dict shows the reviewer of the last review that took it,
        and a loaded dict that no snapshot shows has the fields it came with. */
    ghost predicate ShowsLatest()
      reads this`snapshots, this`processed, Objects(), loadedFields.Keys
    {
      && (forall i :: 0 <= i < |snapshots| && |processed| == |snapshots| && snapshots[i].Entry? && LastUse(i) ==>
            ShowsReviewer(snapshots[i].obj, processed[i]))
      && (forall d :: d in loadedFields && d !in Objects() ==> d.fields == loadedFields[d])
    }

    /** `cache = {} if no_cache else _load_cache(cache_file)`, and
        `snapshots = []`. The loaded dicts are distinct objects, as
        `json.loads` makes them. */
    constructor (loaded: map<string, Dict>, noCache: bool, ask: Oracle, decode: Decoder,
                 hash: string -> string, cfg: Config, ghost loadedFields: map<Dict, map<string, Value>>)
      requires Injective(loaded) && FieldsKept(loadedFields)
      ensures Valid() && ShowsLatest()
      ensures this.loaded == loaded && this.noCache == noCache && this.ask == ask
      ensures this.decode == decode && this.hash == hash && this.cfg == cfg
      ensures forall text :: attemptsFor(text) == AttemptsOf(ask, decode, text, cfg)
      ensures forall text, n :: Retries(attemptsFor(text), cfg.retries, cfg.backoff, n)
                                == SummariseSpec(ask, decode, text, cfg, n)
      ensures cache == (if noCache then map[] else loaded)
      ensures snapshots == [] && processed == []
      ensures this.loadedFields == loadedFields
    {
      this.loaded := loaded;
      this.loadedFields := loadedFields;
      this.noCache := noCache;
      this.ask := ask;
      this.decode := decode;
      this.hash := hash;
      this.cfg := cfg;
      this.attemptsFor := (text: string) => AttemptsOf(ask, decode, text, cfg);
      cache := if noCache then map[] else loaded;
      snapshots := [];
      processed := [];
    }

    /** One pass of the `for rev in reviews` body, with `before` model calls
        made so far in the run; `after` counts them once it is done. The ghost
        `origins` say how the earlier snapshots came about and `contentOf`
        what the dicts seen so far hold besides the reviewer. */
    method Process(rev: Review, before: nat, ghost origins: seq<Origin>, ghost contentOf: map<Dict, map<string, Value>>)
      returns (after: nat, ghost origin: Origin, ghost contentOf': map<Dict, map<string, Value>>)
      requires Valid() && ShowsLatest() && Accounted(noCache, cache, contentOf, processed, origins, snapshots)
      // Of the dicts, only the cached one of a hit changes.
      modifies this, if Hit(rev) then {cache[Key(rev)]} else {}
      ensures Valid() && ShowsLatest() && Accounted(noCache, cache, contentOf', processed, origins + [origin], snapshots)
      ensures processed == old(processed) + [rev] && Extends(contentOf, contentOf')
      ensures |snapshots| == |old(snapshots)| + 1 && snapshots[..|old(snapshots)|] == old(snapshots)
      // The only dict new to the run is the fresh one of a summary.
      ensures forall d :: d in contentOf' ==> d in contentOf || (origin.Summarised? && snapshots[|old(snapshots)|] == Entry(d))
      // The new snapshot's origin: a hit, with no call, or `summarise` from
      // call `before` on; `Accounted` says what the snapshot then holds.
      ensures after == before + origin.Calls()
      ensures origin == Cached <==> old(Hit(rev))
      ensures origin.Summarised? ==>
                origin == Summarised(before, Retries(attemptsFor(rev.text), cfg.retries, cfg.backoff, before))
      ensures cache.Keys == if !noCache && origin.Summarised? && origin.outcome.result.Ok?
                            then old(cache.Keys) + {Key(rev)} else old(cache.Keys)
      ensures forall d :: d in cache.Values ==> d in old(cache.Values) || fresh(d)
    {
      if Hit(rev) {
        Reuse(rev, origins, contentOf);
        after, origin, contentOf' := before, Cached, contentOf;
      } else {
        var n;
        n, contentOf' := Miss(rev, before, origins, contentOf);
        after, origin := before + n, Summarised(before, Retries(attemptsFor(rev.text), cfg.retries, cfg.backoff, before));
      }
    }

    /** A miss: `summarise` from call `before` on, making `n` calls, then the
        error entry or the new summary dict. */
    method Miss(rev: Review, before: nat, ghost origins: seq<Origin>, ghost contentOf: map<Dict, map<string, Value>>)
      returns (n: nat, ghost contentOf': map<Dict, map<string, Value>>)
      requires Valid() && ShowsLatest() && Accounted(noCache, cache, contentOf, processed, origins, snapshots)
      requires !Hit(rev)
      modifies this
      ensures Valid() && ShowsLatest()
      ensures Accounted(noCache, cache, contentOf', processed,
                        origins + [Summarised(before, Retries(attemptsFor(rev.text), cfg.retries, cfg.backoff, before))],
                        snapshots)
      ensures processed == old(processed) + [rev] && Extends(contentOf, contentOf')
      ensures |snapshots| == |old(snapshots)| + 1 && snapshots[..|old(snapshots)|] == old(snapshots)
      ensures forall d :: d in contentOf' ==> d in contentOf || snapshots[|old(snapshots)|] == Entry(d)
      ensures var o := Retries(attemptsFor(rev.text), cfg.retries, cfg.backoff, before);
              && n == o.calls
              && (o.result.Err? ==>
                    snapshots[|old(snapshots)|] == Failed(o.result.error, rev.author) && cache == old(cache))
              && (o.result.Ok? ==>
                    && snapshots[|old(snapshots)|].Entry?
                    && fresh(snapshots[|old(snapshots)|].obj)
                    && snapshots[|old(snapshots)|].obj.fields == WithReviewer(SummaryFields(o.result.value), rev)
                    && cache == (if noCache then old(cache) else old(cache)[Key(rev) := snapshots[|old(snapshots)|].obj]))
    {
      var result, calls, _ := RetryLoop(attemptsFor(rev.text), cfg.retries, cfg.backoff, before);
      n := calls;
      ghost var origin := Summarised(before, Retries(attemptsFor(rev.text), cfg.retries, cfg.backoff, before));
      if result.Err? {
        ExplainedAppend(noCache, contentOf, contentOf, processed, origins, snapshots,
                        rev, origin, Failed(result.error, rev.author));
        Fail(rev, result.error);
        contentOf' := contentOf;
      } else {
        var d := Insert(rev, result.value);
        SummaryContent(result.value);
        ContentWithReviewer(SummaryFields(result.value), rev);
        contentOf' := contentOf[d := SummaryFields(result.value)];
        ExplainedAppend(noCache, contentOf, contentOf', old(processed), origins, old(snapshots),
                        rev, origin, Entry(d));
      }
    }

    /** A cache hit: the cached dict gains the reviewer and is appended. */
    method Reuse(rev: Review, ghost origins: seq<Origin>, ghost contentOf: map<Dict, map<string, Value>>)
      requires Valid() && ShowsLatest() && Hit(rev)
      requires Accounted(noCache, cache, contentOf, processed, origins, snapshots)
      modifies this`cache, this`snapshots, this`processed, cache[Key(rev)]
      ensures Valid() && ShowsLatest()
      ensures processed == old(processed) + [rev]
      ensures snapshots == old(snapshots) + [Entry(old(cache[Key(rev)]))]
      ensures Accounted(noCache, cache, contentOf, processed, origins + [Cached], snapshots)
      ensures cache == old(cache)
      ensures cache[Key(rev)].fields == WithReviewer(old(cache[Key(rev)].fields), rev)
      ensures forall key :: key in cache && key != Key(rev) ==> cache[key].fields == old(cache[key].fields)
    {
      var s := cache[Key(rev)];
      assert s in cache.Values;
      ExplainedAppend(noCache, contentOf, contentOf, processed, origins, snapshots, rev, Cached, Entry(s));
      ContentWithReviewer(s.fields, rev);
      ConsistentHit(noCache, hash, loaded, cache, snapshots, processed, rev);
      Record(s, rev);
      forall key | key in cache && key != Key(rev)
        ensures cache[key].fields == old(cache[key].fields)
      {
        assert cache[key] != s;
      }
    }

    /** A miss whose summary failed: `snapshots.append({"error": ...,
        "author": ...})`, and the cache is left alone. */
    method Fail(rev: Review, e: Error)
      requires Valid() && ShowsLatest() && !Hit(rev)
      modifies this`snapshots, this`processed
      ensures Valid() && ShowsLatest()
      ensures snapshots == old(snapshots) + [Failed(e, rev.author)] && processed == old(processed) + [rev]
      ensures cache == old(cache)
    {
      ConsistentFailed(noCache, hash, loaded, cache, snapshots, processed, rev, e);
      ShownAppend(snapshots, Failed(e, rev.author));
      snapshots := snapshots + [Failed(e, rev.author)];
      processed := processed + [rev];
      forall i | 0 <= i < |snapshots| && |processed| == |snapshots| && snapshots[i].Entry? && LastUse(i)
        ensures ShowsReviewer(snapshots[i].obj, processed[i])
      {
        var n := |old(snapshots)|;
        assert snapshots[n].Failed?;
        assert snapshots[i] == old(snapshots)[i] && processed[i] == old(processed)[i];
        assert old(LastUse(i)) by {
          forall l | i < l < n
            ensures old(snapshots)[l] != old(snapshots)[i]
          {
            assert snapshots[l] == old(snapshots)[l];
          }
        }
      }
    }

    /** A miss whose summary came back: a new dict, cached under the review's
        key unless the cache is off, that gains the reviewer and is appended. */
    method Insert(rev: Review, summary: Summary) returns (d: Dict)
      requires Valid() && ShowsLatest() && !Hit(rev)
      modifies this`cache, this`snapshots, this`processed
      ensures Valid() && ShowsLatest()
      ensures fresh(d) && d.fields == WithReviewer(SummaryFields(summary), rev)
      ensures snapshots == old(snapshots) + [Entry(d)] && processed == old(processed) + [rev]
      ensures cache == if noCache then old(cache) else old(cache)[Key(rev) := d]
    {
      d := new Dict(SummaryFields(summary));
      ConsistentFresh(noCache, hash, loaded, cache, snapshots, processed, rev, d);
      if !noCache {
        cache := cache[Key(rev) := d];
      }
      Record(d, rev);
    }

    /** The end of the `try` body: `s["author"] = ...`,
        `s["recommended"] = ...` and `snapshots.append(s)`. */
    method Record(s: Dict, rev: Review)
      requires Consistent(noCache, hash, loaded, cache, snapshots + [Entry(s)], processed + [rev])
      requires ShowsLatest()
      modifies this`snapshots, this`processed, s
      ensures Valid() && ShowsLatest()
      ensures snapshots == old(snapshots) + [Entry(s)] && processed == old(processed) + [rev]
      ensures s.fields == WithReviewer(old(s.fields), rev)
      ensures cache == old(cache)
    {
      ShownAppend(snapshots, Entry(s));
      s.fields := WithReviewer(s.fields, rev);
      snapshots := snapshots + [Entry(s)];
      processed := processed + [rev];
      forall d | d in loadedFields && d !in Objects()
        ensures d.fields == loadedFields[d]
      {
        assert d != s && d !in old(Objects());
      }
      forall i | 0 <= i < |snapshots| && |processed| == |snapshots| && snapshots[i].Entry? && LastUse(i)
        ensures ShowsReviewer(snapshots[i].obj, processed[i])
      {
        var n := |old(snapshots)|;
        if i < n {
          var o := snapshots[i].obj;
          assert snapshots[i] == old(snapshots)[i] && processed[i] == old(processed)[i];
          assert snapshots[n] == Entry(s);
          assert o != s;
          assert old(LastUse(i)) by {
            forall l | i < l < n
              ensures old(snapshots)[l] != old(snapshots)[i]
            {
              assert snapshots[l] == old(snapshots)[l];
            }
          }
          assert old(ShowsReviewer(o, processed[i]));
          assert o.fields == old(o.fields);
        }
      }
    }

    /** The cached dicts that some review of `reviews` is keyed to. */
    ghost function Keyed(reviews: seq<Review>): set<Dict>
      reads this`cache
    {
      set i | 0 <= i < |reviews| && Key(reviews[i]) in cache :: cache[Key(reviews[i])]
    }

    /** The whole loop over the reviews, from the dicts the cache file gave,
        whose content is `contentOf`. */
    method ProcessAll(reviews: seq<Review>, ghost contentOf: map<Dict, map<string, Value>>)
      returns (calls: nat, ghost origins: seq<Origin>, ghost contentOf': map<Dict, map<string, Value>>)
      requires Valid() && ShowsLatest() && snapshots == []
      requires Accounted(noCache, cache, contentOf, processed, [], snapshots)
      // Of the dicts the cache file gave, only those a review is keyed to change.
      modifies this, cache.Values
      ensures Valid() && ShowsLatest() && Accounted(noCache, cache, contentOf', processed, origins, snapshots)
      ensures processed == reviews && |snapshots| == |reviews| && Extends(contentOf, contentOf')
      ensures noCache ==> cache == map[]
      // The model calls: each `summarise` starts where the last one stopped.
      ensures Chained(origins) && calls == CallsOf(origins) && Faithful(attemptsFor, cfg, processed, origins)
      ensures Traced(contentOf, contentOf', origins, snapshots)
      ensures HitsExact(noCache, hash, loaded, processed, origins)
    {
      calls, origins, contentOf' := 0, [], contentOf;
      for k := 0 to |reviews|
        invariant Valid() && ShowsLatest() && Accounted(noCache, cache, contentOf', processed, origins, snapshots)
        invariant processed == reviews[..k] && Extends(contentOf, contentOf')
        invariant forall d :: d in cache.Values ==> d in old(cache.Values) || fresh(d)
        invariant Chained(origins) && calls == CallsOf(origins) && Faithful(attemptsFor, cfg, processed, origins)
        invariant Traced(contentOf, contentOf', origins, snapshots)
        invariant HitsExact(noCache, hash, loaded, processed, origins)
        invariant KeysKnown(noCache, hash, loaded, cache, processed, origins)
      {
        ghost var done, snaps, before := processed, snapshots, cache;
        PrefixStep(reviews, k);
        var next;
        ghost var origin, content;
        next, origin, content := Process(reviews[k], calls, origins, contentOf');
        ChainedAppend(origins, origin);
        FaithfulAppend(attemptsFor, cfg, done, origins, reviews[k], origin);
        TracedStep(contentOf, contentOf', content, origins, snaps, snapshots, origin);
        HitsStep(noCache, hash, loaded, before, cache, done, origins, reviews[k], origin);
        calls, origins, contentOf' := next, origins + [origin], content;
      }
    }

    /** After the loop: a loaded dict that no snapshot shows has the fields
        it came with, and every loaded dict the content it came with. */
    lemma Settled(contentOf: map<Dict, map<string, Value>>, origins: seq<Origin>)
      requires Valid() && ShowsLatest() && Accounted(noCache, cache, contentOf, processed, origins, snapshots)
      ensures forall d :: d in loadedFields && d !in Shown(snapshots) ==> d.fields == loadedFields[d]
      ensures forall d :: d in contentOf ==> Content(d.fields) == contentOf[d]
    {
    }

    /** With `no_cache`, no two snapshots share a dict. */
    lemma NoCacheNoSharing(i: nat, j: nat)
      requires Valid() && noCache
      requires i < |snapshots| && j < |snapshots| && i != j && snapshots[i].Entry?
      ensures snapshots[j] != snapshots[i]
    {
      if snapshots[j] == snapshots[i] {
        assert Shared(snapshots, i, j);
      }
    }

    /** With the cache on, two reviews with the same text share one dict,
        which shows the reviewer of the later one when no review after it has
        that text. */
    lemma IdenticalTextShared(i: nat, j: nat)
      requires Valid() && ShowsLatest() && !noCache
      requires i < j < |snapshots| && snapshots[i].Entry? && Key(processed[i]) == Key(processed[j])
      requires forall l :: j < l < |snapshots| ==> Key(processed[l]) != Key(processed[j])
      ensures snapshots[j] == snapshots[i]
      ensures ShowsReviewer(snapshots[i].obj, processed[j])
    {
      assert LastUse(j);
    }
  }

  /** `run` up to the save: the cache from the loaded one (none with
      `no_cache`) and one snapshot per review, in order, with the model calls
      the loop made. */
  method Loop(reviews: seq<Review>, loaded: map<string, Dict>, noCache: bool, ask: Oracle, decode: Decoder,
              hash: string -> string, cfg: Config, ghost fields: map<Dict, map<string, Value>>)
    returns (snapshots: seq<Snapshot>, cache: map<string, Dict>, calls: nat,
             ghost run: ReviewRun, ghost origins: seq<Origin>, ghost contentOf: map<Dict, map<string, Value>>)
    requires Injective(loaded) && FieldsKept(fields)
    modifies loaded.Values
    ensures run.Valid() && run.ShowsLatest() && run.processed == reviews && run.snapshots == snapshots
    ensures run.noCache == noCache && run.hash == hash && run.loaded == loaded && run.cache == cache
    ensures |snapshots| == |reviews|
    ensures forall i :: 0 <= i < |snapshots| && snapshots[i].Failed? ==> snapshots[i].author == reviews[i].author
    ensures noCache ==> run.cache == map[]
    ensures !noCache ==> forall key :: key in loaded ==> key in run.cache && run.cache[key] == loaded[key]
    // Where each snapshot came from, and how many model calls the loop made.
    ensures |origins| == |reviews| && Chained(origins) && calls == CallsOf(origins)
    ensures forall i :: 0 <= i < |reviews| && origins[i].Summarised? ==>
              var o := SummariseSpec(ask, decode, reviews[i].text, cfg, origins[i].start);
              && origins[i].outcome == o
              && (o.result.Err? ==> snapshots[i] == Failed(o.result.error, reviews[i].author))
              && (o.result.Ok? ==> snapshots[i].Entry? && Content(snapshots[i].obj.fields) == SummaryFields(o.result.value))
    ensures forall i :: 0 <= i < |reviews| && origins[i].Cached? ==>
              && !noCache && snapshots[i].Entry? && snapshots[i].obj in contentOf
              && Content(snapshots[i].obj.fields) == contentOf[snapshots[i].obj]
    ensures Accounted(run.noCache, run.cache, contentOf, run.processed, origins, run.snapshots)
    ensures HitsExact(run.noCache, run.hash, run.loaded, run.processed, origins) && run.loadedFields == fields
    // The loaded dicts keep the content the cache file gave them; every other
    // dict of the run is the fresh one of an earlier summary.
    ensures forall d :: d in loaded.Values ==> d in contentOf && contentOf[d] == old(Content(d.fields))
    ensures forall d :: d in contentOf ==>
              d in loaded.Values || exists j :: 0 <= j < |reviews| && origins[j].Summarised? && snapshots[j] == Entry(d)
  {
    var r := new ReviewRun(loaded, noCache, ask, decode, hash, cfg, fields);
    ghost var content := map d | d in loaded.Values :: Content(d.fields);
    calls, origins, contentOf := r.ProcessAll(reviews, content);
    SnapshotOutcomes(noCache, r.attemptsFor, ask, decode, cfg, contentOf, reviews, origins, r.snapshots);
    snapshots, cache := r.snapshots, r.cache;
    run := r;
  }

  /** `run` from the loaded cache to the saved one (none with `no_cache`). */
  method Run(reviews: seq<Review>, loaded: map<string, Dict>, noCache: bool, ask: Oracle, decode: Decoder,
             hash: string -> string, cfg: Config)
    returns (snapshots: seq<Snapshot>, saved: Option<map<string, Dict>>, calls: nat,
             ghost run: ReviewRun, ghost origins: seq<Origin>, ghost contentOf: map<Dict, map<string, Value>>)
    requires Injective(loaded)
    modifies loaded.Values
    ensures run.Valid() && run.ShowsLatest() && run.processed == reviews && run.snapshots == snapshots
    ensures |snapshots| == |reviews|
    ensures forall i :: 0 <= i < |snapshots| && snapshots[i].Failed? ==> snapshots[i].author == reviews[i].author
    ensures noCache ==> saved == None
    ensures !noCache ==> saved == Some(run.cache)
    ensures !noCache ==> forall key :: key in loaded ==> key in saved.value && saved.value[key] == loaded[key]
    // Where each snapshot came from, and how many model calls the run made.
    ensures |origins| == |reviews| && Chained(origins) && calls == CallsOf(origins)
    ensures forall i :: 0 <= i < |reviews| && origins[i].Summarised? ==>
              var o := SummariseSpec(ask, decode, reviews[i].text, cfg, origins[i].start);
              && origins[i].outcome == o
              && (o.result.Err? ==> snapshots[i] == Failed(o.result.error, reviews[i].author))
              && (o.result.Ok? ==> snapshots[i].Entry? && Content(snapshots[i].obj.fields) == SummaryFields(o.result.value))
    ensures forall i :: 0 <= i < |reviews| && origins[i].Cached? ==>
              && !noCache && snapshots[i].Entry? && snapshots[i].obj in contentOf
              && Content(snapshots[i].obj.fields) == contentOf[snapshots[i].obj]
    // The hits are exactly the reviews whose key the cache file gave, or an
    // earlier summary that came back put in; a hit shows the cache's dict.
    ensures forall i :: 0 <= i < |reviews| ==>
              (origins[i].Cached? <==>
                 !noCache && (hash(reviews[i].text) in loaded ||
                              exists j :: 0 <= j < i && origins[j].Summarised? && origins[j].outcome.result.Ok?
                                          && hash(reviews[j].text) == hash(reviews[i].text)))
    ensures forall i :: 0 <= i < |reviews| && origins[i].Cached? ==>
              hash(reviews[i].text) in run.cache && snapshots[i] == Entry(run.cache[hash(reviews[i].text)])
    // The loaded dicts keep the content the cache file gave them, and one that
    // no snapshot shows keeps all its fields; every other dict of the run is
    // the fresh one of an earlier summary.
    ensures forall d :: d in loaded.Values ==> d in contentOf && contentOf[d] == old(Content(d.fields))
    ensures forall d :: d in loaded.Values ==> Content(d.fields) == old(Content(d.fields))
    ensures forall d :: d in loaded.Values && d !in Shown(snapshots) ==> d.fields == old(d.fields)
    ensures forall d :: d in contentOf ==>
              d in loaded.Values || exists j :: 0 <= j < |reviews| && origins[j].Summarised? && snapshots[j] == Entry(d)
  {
    var cache;
    ghost var fields := map d | d in loaded.Values :: d.fields;
    snapshots, cache, calls, run, origins, contentOf := Loop(reviews, loaded, noCache, ask, decode, hash, cfg, fields);
    HitsListed(noCache, hash, loaded, run.cache, contentOf, reviews, origins, snapshots);
    run.Settled(contentOf, origins);
    saved := if noCache then None else Some(cache);
  }
}
