/**
  The pieces of Python's string library that the summariser relies on:
  `str.isspace` (which is also what the `\s` class of `re` matches on `str`
  patterns), `str.strip()`, `str.lower()`, `str.split(" ")` and
  `re.sub(r"\s+", " ", ...)`.
 */
module PyStr {

  /** The characters for which Python's `str.isspace()` holds. */
  predicate IsSpace(c: char) {
    || c == ' ' || c == '\t' || c == '\n' || c == '\r'
    || c == '\U{0B}' || c == '\U{0C}'
    || ('\U{1C}' <= c <= '\U{1F}')
    || c == '\U{85}' || c == '\U{A0}' || c == '\U{1680}'
    || ('\U{2000}' <= c <= '\U{200A}')
    || c == '\U{2028}' || c == '\U{2029}' || c == '\U{202F}'
    || c == '\U{205F}' || c == '\U{3000}'
  }

  ghost predicate AllSpace(s: string) {
    forall i :: 0 <= i < |s| ==> IsSpace(s[i])
  }

  /** `s.lstrip()`: drops the leading whitespace. */
  function TrimLeft(s: string): (r: string)
    ensures |r| <= |s|
    ensures r == [] || !IsSpace(r[0])
    ensures forall i :: 0 <= i < |s| - |r| ==> IsSpace(s[i])
  {
    if s != [] && IsSpace(s[0]) then TrimLeft(s[1..]) else s
  }

  /** What `lstrip()` keeps is a suffix of its input. */
  lemma {:induction false} TrimLeftSuffix(s: string)
    ensures TrimLeft(s) == s[|s| - |TrimLeft(s)|..]
  {
    if s != [] && IsSpace(s[0]) {
      TrimLeftSuffix(s[1..]);
    }
  }

  /** `s.rstrip()`: drops the trailing whitespace. */
  function TrimRight(s: string): (r: string)
    ensures |r| <= |s|
    ensures r == [] || !IsSpace(r[|r| - 1])
    ensures forall i :: |r| <= i < |s| ==> IsSpace(s[i])
  {
    if s != [] && IsSpace(s[|s| - 1]) then TrimRight(s[..|s| - 1]) else s
  }

  /** What `rstrip()` keeps is a prefix of its input. */
  lemma {:induction false} TrimRightPrefix(s: string)
    ensures TrimRight(s) == s[..|TrimRight(s)|]
  {
    if s != [] && IsSpace(s[|s| - 1]) {
      TrimRightPrefix(s[..|s| - 1]);
    }
  }

  /** `s.strip()`. */
  function Strip(s: string): (r: string)
    ensures r == [] || (!IsSpace(r[0]) && !IsSpace(r[|r| - 1]))
  {
    TrimRightPrefix(TrimLeft(s));
    TrimRight(TrimLeft(s))
  }

  /** A string that neither starts nor ends with whitespace is its own strip. */
  lemma StripTrimmed(s: string)
    requires s == [] || (!IsSpace(s[0]) && !IsSpace(s[|s| - 1]))
    ensures Strip(s) == s
  {
  }

  /** Whitespace added on either side is removed again by `strip()`. */
  lemma {:induction false} StripPadded(a: string, s: string, b: string)
    requires AllSpace(a) && AllSpace(b)
    ensures Strip(a + s + b) == Strip(s)
  {
    assert a + s + b == a + (s + b);
    TrimLeftPadded(a, s + b);
    var t := TrimLeft(s);
    if t != [] {
      TrimLeftAppend(s, b);
      TrimRightPadded(t, b);
    } else {
      TrimLeftPadded(s, b);
      TrimLeftSuffix(b);
      TrimRightPadded([], TrimLeft(b));
      assert [] + TrimLeft(b) == TrimLeft(b);
    }
  }

  lemma {:induction false} TrimLeftPadded(a: string, s: string)
    requires AllSpace(a)
    ensures TrimLeft(a + s) == TrimLeft(s)
  {
    if a != [] {
      var xs := a + s;
      assert xs[0] == a[0] && IsSpace(a[0]);
      assert TrimLeft(xs) == TrimLeft(xs[1..]);
      assert xs[1..] == a[1..] + s;
      TrimLeftPadded(a[1..], s);
    } else {
      assert a + s == s;
    }
  }

  /** Once `s` holds a non-space character, what follows it survives `lstrip()`. */
  lemma {:induction false} TrimLeftAppend(s: string, b: string)
    requires TrimLeft(s) != []
    ensures TrimLeft(s + b) == TrimLeft(s) + b
  {
    var sb := s + b;
    assert sb[0] == s[0];
    if IsSpace(s[0]) {
      assert sb[1..] == s[1..] + b;
      TrimLeftAppend(s[1..], b);
    }
  }

  lemma {:induction false} TrimRightPadded(s: string, b: string)
    requires AllSpace(b)
    ensures TrimRight(s + b) == TrimRight(s)
  {
    if b != [] {
      var sb := s + b;
      assert sb[|sb| - 1] == b[|b| - 1] && IsSpace(b[|b| - 1]);
      assert TrimRight(sb) == TrimRight(sb[..|sb| - 1]);
      assert sb[..|sb| - 1] == s + b[..|b| - 1];
      TrimRightPadded(s, b[..|b| - 1]);
    } else {
      assert s + b == s;
    }
  }

  /** `str.lower()` on one character: the capitals of Basic Latin, of the
      Latin-1 Supplement and of Latin Extended-A map to their small letters;
      every other character is kept. */
  function LowerChar(c: char): (r: char)
    ensures IsSpace(r) <==> IsSpace(c)
  {
    if c < 'A' then c
    else if c <= 'Z' then (c as int + 32) as char
    else if c < '\U{C0}' then c
    else if c <= '\U{DE}' then (if c == '\U{D7}' then c else (c as int + 32) as char)
    else if c < '\U{100}' then c
    else if c <= '\U{17F}' then LowerLatinExtendedA(c)
    else c
  }

  /** Latin Extended-A pairs a capital with the small letter after it, with
      the capital on the even code points up to U+0137 and from U+014A to
      U+0177, and on the odd ones from U+0139 to U+0148 and from U+0179 to
      U+017E; U+0178 lowers to U+00FF. */
  function LowerLatinExtendedA(c: char): (r: char)
    requires '\U{100}' <= c <= '\U{17F}'
    ensures r == c || r == '\U{FF}' || r as int == c as int + 1
  {
    if c == '\U{178}' then '\U{FF}'
    else if (c <= '\U{137}' || '\U{14A}' <= c <= '\U{177}') && c != '\U{130}' && c != '\U{131}' then
      (if c as int % 2 == 0 then (c as int + 1) as char else c)
    else if ('\U{139}' <= c <= '\U{148}' || '\U{179}' <= c <= '\U{17E}') then
      (if c as int % 2 == 1 then (c as int + 1) as char else c)
    else c
  }

  /** `s.lower()`, character by character. */
  function Lower(s: string): (r: string)
    ensures |r| == |s|
    ensures forall i :: 0 <= i < |s| ==> r[i] == LowerChar(s[i])
  {
    if s == [] then [] else [LowerChar(s[0])] + Lower(s[1..])
  }

  /** No character lowers to the capital Y with diaeresis (U+0178). */
  lemma LowerCharNeverCapitalYDiaeresis(c: char)
    ensures LowerChar(c) != '\U{178}'
  {
  }

  /** Lowering a lowered character changes nothing. */
  lemma LowerCharIdempotent(c: char)
    ensures LowerChar(LowerChar(c)) == LowerChar(c)
  {
  }

  lemma {:induction false} LowerTrimLeft(s: string)
    ensures TrimLeft(Lower(s)) == Lower(TrimLeft(s))
  {
    if s != [] {
      assert Lower(s)[1..] == Lower(s[1..]);
      LowerTrimLeft(s[1..]);
    }
  }

  lemma {:induction false} LowerTrimRight(s: string)
    ensures TrimRight(Lower(s)) == Lower(TrimRight(s))
  {
    if s != [] {
      assert Lower(s)[..|s| - 1] == Lower(s[..|s| - 1]);
      LowerTrimRight(s[..|s| - 1]);
    }
  }

  /** `strip()` and `lower()` commute: `lower()` never turns a space into a
      non-space or back. */
  lemma LowerStrip(s: string)
    ensures Strip(Lower(s)) == Lower(Strip(s))
  {
    LowerTrimLeft(s);
    LowerTrimRight(TrimLeft(s));
  }

  /** `s.split(" ")`: the pieces between single spaces, empty ones included,
      so there is always at least one. */
  function SplitOnSpace(s: string): (r: seq<string>)
    ensures |r| >= 1
    ensures forall i :: 0 <= i < |r| ==> ' ' !in r[i]
  {
    if s == [] then [""]
    else
      var rest := SplitOnSpace(s[1..]);
      if s[0] == ' ' then [""] + rest
      else [[s[0]] + rest[0]] + rest[1..]
  }

  /** Joining the pieces of `s.split(" ")` with single spaces gives `s` back. */
  function JoinOnSpace(pieces: seq<string>): string
    requires |pieces| >= 1
  {
    if |pieces| == 1 then pieces[0] else pieces[0] + " " + JoinOnSpace(pieces[1..])
  }

  lemma {:induction false} SplitJoin(s: string)
    ensures JoinOnSpace(SplitOnSpace(s)) == s
  {
    if s != [] {
      var rest := SplitOnSpace(s[1..]);
      SplitJoin(s[1..]);
      if s[0] == ' ' {
        assert SplitOnSpace(s)[1..] == rest;
        if |rest| == 1 {
          assert s == " " + rest[0];
        } else {
          assert s == "" + " " + JoinOnSpace(rest);
        }
      } else {
        var r := SplitOnSpace(s);
        assert r[0] == [s[0]] + rest[0];
        if |rest| == 1 {
          assert s == [s[0]] + s[1..];
        } else {
          assert r[1..] == rest[1..];
          assert s == [s[0]] + s[1..];
        }
      }
    }
  }

  /** `re.sub(r"\s+", " ", s)`: every maximal run of whitespace becomes one space. */
  function CollapseSpaces(s: string): (r: string)
    ensures |r| <= |s|
    ensures forall i :: 0 <= i < |r| && IsSpace(r[i]) ==> r[i] == ' '
    ensures forall i :: 0 <= i < |r| - 1 ==> !(IsSpace(r[i]) && IsSpace(r[i + 1]))
    ensures s != [] ==> r != [] && r[0] == (if IsSpace(s[0]) then ' ' else s[0])
    decreases |s|
  {
    if s == [] then []
    else if IsSpace(s[0]) then
      var rest := CollapseSpaces(TrimLeft(s[1..]));
      [' '] + rest
    else
      var rest := CollapseSpaces(s[1..]);
      [s[0]] + rest
  }

}
