/**
  `_strip_code_fence` of llm.py: the JSON text pulled out of a raw model reply,
  with the two regular-expression searches it makes written out.
 */
module CodeFence {
  import opened Wrappers
  import opened PyStr

  /** Three backticks start at `i`. */
  predicate TicksAt(s: string, i: nat) {
    i + 3 <= |s| && s[i] == '`' && s[i + 1] == '`' && s[i + 2] == '`'
  }

  /** `c` matches the pattern letter `lower` under `re.IGNORECASE`; the long s
      (U+017F) also matches `s`. */
  predicate MatchesIgnoringCase(c: char, lower: char)
    requires 'a' <= lower <= 'z'
  {
    c == lower || c as int == lower as int - 32 || (lower == 's' && c == '\U{17F}')
  }

  /** The optional `json` tag of the fence starts at `i`. */
  predicate JsonTagAt(s: string, i: nat) {
    i + 4 <= |s|
    && MatchesIgnoringCase(s[i], 'j') && MatchesIgnoringCase(s[i + 1], 's')
    && MatchesIgnoringCase(s[i + 2], 'o') && MatchesIgnoringCase(s[i + 3], 'n')
  }

  /** The first index from `k` on that is not whitespace (`|s|` if none): the
      end of what a greedy `\s*` consumes from `k`. */
  function SkipSpaces(s: string, k: nat): (r: nat)
    requires k <= |s|
    ensures k <= r <= |s|
    ensures forall j :: k <= j < r ==> IsSpace(s[j])
    ensures r < |s| ==> !IsSpace(s[r])
    decreases |s| - k
  {
    if k < |s| && IsSpace(s[k]) then SkipSpaces(s, k + 1) else k
  }

  /** The opening part of `_CODE_FENCE_RE`, ```` ```(?:json)?\s*\{ ````,
      matches from `i` with its brace at `p`. */
  ghost predicate OpensAt(s: string, i: nat, p: nat) {
    && TicksAt(s, i) && p < |s| && s[p] == '{'
    && (|| (i + 3 <= p && forall k :: i + 3 <= k < p ==> IsSpace(s[k]))
        || (JsonTagAt(s, i + 3) && i + 7 <= p && forall k :: i + 7 <= k < p ==> IsSpace(s[k])))
  }

  /** The closing part, ```` \}\s*``` ````, matches with its brace at `q`. */
  predicate ClosesAt(s: string, q: nat) {
    q < |s| && s[q] == '}' && TicksAt(s, SkipSpaces(s, q + 1))
  }

  /** `_CODE_FENCE_RE` matches from `i`, with group 1 running from the brace
      at `p` to the brace at `q`. */
  ghost predicate FenceMatch(s: string, i: nat, p: nat, q: nat) {
    OpensAt(s, i, p) && p < q && ClosesAt(s, q)
  }

  /** Where the opening part puts its brace when the fence starts at `i`, if
      it matches there at all (`OpenAtUnique`). */
  function OpenAt(s: string, i: nat): (r: Option<nat>)
    requires i <= |s|
    ensures r.Some? ==> OpensAt(s, i, r.value)
  {
    if !TicksAt(s, i) then None
    else
      var p := SkipSpaces(s, if JsonTagAt(s, i + 3) then i + 7 else i + 3);
      if p < |s| && s[p] == '{' then Some(p) else None
  }

  /** The opening is deterministic: the tag is taken when present, and the
      whitespace run must end right at the brace. */
  lemma OpenAtUnique(s: string, i: nat, p: nat)
    requires i <= |s| && OpensAt(s, i, p)
    ensures OpenAt(s, i) == Some(p)
  {
  }

  /** The first closing brace from `k` on: what the lazy `.*?` settles on
      (`FirstCloseIsFirst`). */
  function FirstClose(s: string, k: nat): (r: Option<nat>)
    requires k <= |s|
    ensures r.Some? ==> k <= r.value && ClosesAt(s, r.value)
    decreases |s| - k
  {
    if k == |s| then None
    else if ClosesAt(s, k) then Some(k)
    else FirstClose(s, k + 1)
  }

  /** No closing brace from `k` on comes before the one `FirstClose` picks. */
  lemma {:induction false} FirstCloseIsFirst(s: string, k: nat, q: nat)
    requires k <= q && ClosesAt(s, q)
    ensures FirstClose(s, k).Some? && FirstClose(s, k).value <= q
    decreases q - k
  {
    if k < q && !ClosesAt(s, k) {
      FirstCloseIsFirst(s, k + 1, q);
    }
  }

  /** A match of `_CODE_FENCE_RE`: where it starts, and the two braces of
      group 1. */
  datatype Fence = Fence(start: nat, open: nat, close: nat)

  /** `_CODE_FENCE_RE.search(s)` started from position `i`: a match at or
      after `i`, the leftmost one with its shortest group
      (`SearchFenceLeftmost`). */
  function SearchFence(s: string, i: nat): (r: Option<Fence>)
    requires i <= |s|
    ensures r.Some? ==> i <= r.value.start && FenceMatch(s, r.value.start, r.value.open, r.value.close)
    decreases |s| - i
  {
    var open := OpenAt(s, i);
    var close := if open.Some? && open.value < |s| then FirstClose(s, open.value + 1) else None;
    if open.Some? && close.Some? then
      Some(Fence(i, open.value, close.value))
    else if i == |s| then
      None
    else
      SearchFence(s, i + 1)
  }

  /** Whenever the pattern matches from `j` on or after `i`, the search finds
      a match that starts no later than `j`; when it starts at `j` it has the
      same opening brace and a closing brace no later. So the search finds
      the leftmost match and its shortest group, and finds nothing only when
      there is no match. */
  lemma {:induction false} SearchFenceLeftmost(s: string, i: nat, j: nat, p: nat, q: nat)
    requires i <= j && FenceMatch(s, j, p, q)
    ensures SearchFence(s, i).Some?
    ensures SearchFence(s, i).value.start <= j
    ensures SearchFence(s, i).value.start == j ==>
              SearchFence(s, i).value.open == p && SearchFence(s, i).value.close <= q
    decreases j - i
  {
    if i == j {
      SearchFenceAt(s, i, p, q);
    } else {
      SearchFenceStep(s, i);
      if SearchFence(s, i) == SearchFence(s, i + 1) {
        SearchFenceLeftmost(s, i + 1, j, p, q);
      }
    }
  }

  /** Where the pattern matches from `i`, the search from `i` stops there. */
  lemma SearchFenceAt(s: string, i: nat, p: nat, q: nat)
    requires FenceMatch(s, i, p, q)
    ensures SearchFence(s, i).Some? && SearchFence(s, i).value.start == i
    ensures SearchFence(s, i).value.open == p && SearchFence(s, i).value.close <= q
  {
    OpenAtUnique(s, i, p);
    FirstCloseIsFirst(s, p + 1, q);
  }

  /** The search either stops at `i` or carries on from `i + 1`. */
  lemma SearchFenceStep(s: string, i: nat)
    requires i < |s|
    ensures || (SearchFence(s, i).Some? && SearchFence(s, i).value.start == i)
            || SearchFence(s, i) == SearchFence(s, i + 1)
  {
  }

  /** `\{` then `.*` then `\}` matches from `i` to `j` (inclusive). */
  ghost predicate BraceSpan(s: string, i: nat, j: nat) {
    i < j < |s| && s[i] == '{' && s[j] == '}'
  }

  /** The first index of `c` in `s`, or `|s|`. */
  function FirstIndexOf(s: string, c: char): (r: nat)
    ensures r <= |s|
    ensures forall k :: 0 <= k < r ==> s[k] != c
    ensures r < |s| ==> s[r] == c
  {
    if s == [] then 0
    else if s[0] == c then 0
    else 1 + FirstIndexOf(s[1..], c)
  }

  /** The last index of `c` in `s`, or -1. */
  function LastIndexOf(s: string, c: char): (r: int)
    ensures -1 <= r < |s|
    ensures forall k :: r < k < |s| ==> s[k] != c
    ensures r >= 0 ==> s[r] == c
  {
    if s == [] then -1
    else if s[|s| - 1] == c then |s| - 1
    else LastIndexOf(s[..|s| - 1], c)
  }

  /** `re.search(r"\{.*\}", s, re.S)`: the leftmost `{` that has a `}`
      after it, and from there the longest span, which reaches the last `}`. */
  function SearchBraces(s: string): (r: Option<(nat, nat)>)
    ensures r.Some? ==> BraceSpan(s, r.value.0, r.value.1)
    ensures r.Some? ==> forall i: nat, j: nat :: BraceSpan(s, i, j) ==> r.value.0 <= i && j <= r.value.1
    ensures r.None? ==> forall i, j :: !BraceSpan(s, i, j)
  {
    var i := FirstIndexOf(s, '{');
    var j := LastIndexOf(s, '}');
    if i < j then Some((i, j)) else None
  }

  /** A span from a `{` to a `}` has no whitespace to strip. */
  lemma BracedStripped(x: string)
    requires |x| >= 2 && x[0] == '{' && x[|x| - 1] == '}'
    ensures Strip(x) == x
  {
    StripTrimmed(x);
  }

  /** `_strip_code_fence`: the JSON text inside the first fenced block; failing
      that, the span from the first `{` to the last `}`; failing that, the
      whole input stripped. What comes back is either a brace-delimited span
      of the input or the whole input stripped; it never fails. */
  function StripCodeFence(s: string): (r: string)
    ensures r == Strip(s) || (|r| >= 2 && r[0] == '{' && r[|r| - 1] == '}')
  {
    var span := JsonSpan(s);
    var x := s[span.0..span.1];
    if span == (0, |s|) then
      assert x == s;
      Strip(x)
    else
      BracedStripped(x);
      Strip(x)
  }

  /** The part of `s` that `_strip_code_fence` strips and returns, as a
      range `[lo, hi)`: group 1 of the fenced match, failing that the brace
      span, failing that all of `s`. Anything but the whole input is a
      `{` ... `}` span. */
  function JsonSpan(s: string): (r: (nat, nat))
    ensures r.0 <= r.1 <= |s|
    ensures r == (0, |s|) || (r.1 - r.0 >= 2 && s[r.0] == '{' && s[r.1 - 1] == '}')
  {
    match SearchFence(s, 0)
    case Some(f) =>
      assert OpensAt(s, f.start, f.open) && ClosesAt(s, f.close);
      (f.open, f.close + 1)
    case None =>
      match SearchBraces(s)
      case Some((i, j)) => (i, j + 1)
      case None => (0, |s|)
  }

  /** When the fenced pattern matches, the result is group 1 of the leftmost
      match, with the shortest group there. */
  lemma StripCodeFenceFenced(s: string, i: nat, p: nat, q: nat)
    requires FenceMatch(s, i, p, q)
    requires forall j: nat, p': nat, q': nat :: j < i ==> !FenceMatch(s, j, p', q')
    requires forall q': nat :: q' < q ==> !FenceMatch(s, i, p, q')
    ensures StripCodeFence(s) == s[p..q + 1]
  {
    SearchFenceFinds(s, i, p, q);
    assert JsonSpan(s) == (p, q + 1);
    BracedStripped(s[p..q + 1]);
  }

  /** The search from the start finds the leftmost match, with its
      shortest group. */
  lemma SearchFenceFinds(s: string, i: nat, p: nat, q: nat)
    requires FenceMatch(s, i, p, q)
    requires forall j: nat, p': nat, q': nat :: j < i ==> !FenceMatch(s, j, p', q')
    requires forall q': nat :: q' < q ==> !FenceMatch(s, i, p, q')
    ensures SearchFence(s, 0) == Some(Fence(i, p, q))
  {
    SearchFenceLeftmost(s, 0, i, p, q);
    var f := SearchFence(s, 0).value;
    assert FenceMatch(s, f.start, f.open, f.close);
  }

  /** Without a fenced block, the result is the span from the first `{` to
      the last `}` after it, when there is one. */
  lemma StripCodeFenceBraces(s: string, i: nat, j: nat)
    requires forall k: nat, p: nat, q: nat :: !FenceMatch(s, k, p, q)
    requires BraceSpan(s, i, j)
    requires forall i': nat, j': nat :: BraceSpan(s, i', j') ==> i <= i' && j' <= j
    ensures StripCodeFence(s) == s[i..j + 1]
  {
    assert SearchFence(s, 0).None?;
    var r := SearchBraces(s);
    assert BraceSpan(s, r.value.0, r.value.1);
    assert JsonSpan(s) == (i, j + 1);
    BracedStripped(s[i..j + 1]);
  }

  /** Without a fenced block and without any `{` ... `}` pair, the input
      comes back stripped. */
  lemma StripCodeFenceStripped(s: string)
    requires forall k: nat, p: nat, q: nat :: !FenceMatch(s, k, p, q)
    requires forall i: nat, j: nat :: !BraceSpan(s, i, j)
    ensures StripCodeFence(s) == Strip(s)
  {
    assert SearchFence(s, 0).None?;
    assert JsonSpan(s) == (0, |s|);
    assert s[0..|s|] == s;
  }
}
