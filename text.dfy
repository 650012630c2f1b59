/** The string primitives that the server (Python) and the browser script
    (JavaScript) build their rules on: whitespace trimming in both languages'
    flavours, case mapping, splitting on a separator and finding its last
    occurrence. */
module Text {
  import opened Wrappers

  /** Characters that Python's `str.strip()` removes (`str.isspace`). */
  predicate IsPySpace(c: char) {
    ('\t' <= c <= '\r') || ('\U{1C}' <= c <= '\U{1F}') || c == ' ' || c == '\U{85}' || c == '\U{A0}'
    || c == '\U{1680}' || ('\U{2000}' <= c <= '\U{200A}') || c == '\U{2028}' || c == '\U{2029}'
    || c == '\U{202F}' || c == '\U{205F}' || c == '\U{3000}'
  }

  /** Characters that JavaScript's `String.prototype.trim` removes
      (WhiteSpace and LineTerminator of ECMAScript). */
  predicate IsJsSpace(c: char) {
    ('\t' <= c <= '\r') || c == ' ' || c == '\U{A0}' || c == '\U{FEFF}'
    || c == '\U{1680}' || ('\U{2000}' <= c <= '\U{200A}') || c == '\U{2028}' || c == '\U{2029}'
    || c == '\U{202F}' || c == '\U{205F}' || c == '\U{3000}'
  }

  /** `s` without its leading characters satisfying `ws`. */
  function TrimStart(s: string, ws: char -> bool): (r: string)
    ensures |r| <= |s| && r == s[|s| - |r|..]
    ensures forall i :: 0 <= i < |s| - |r| ==> ws(s[i])
    ensures r != [] ==> !ws(r[0])
    decreases |s|
  {
    if |s| > 0 && ws(s[0]) then TrimStart(s[1..], ws) else s
  }

  /** `s` without its trailing characters satisfying `ws`. */
  function TrimEnd(s: string, ws: char -> bool): (r: string)
    ensures |r| <= |s| && r == s[..|r|]
    ensures forall i :: |r| <= i < |s| ==> ws(s[i])
    ensures r != [] ==> !ws(r[|r| - 1])
    decreases |s|
  {
    if |s| > 0 && ws(s[|s| - 1]) then TrimEnd(s[..|s| - 1], ws) else s
  }

  /** `s` without leading and trailing characters satisfying `ws`: a prefix
      of a suffix of `s` that neither starts nor ends with a `ws` character,
      and is empty exactly when every character of `s` is `ws`. */
  function TrimWith(s: string, ws: char -> bool): (r: string)
    ensures |r| <= |s|
    ensures r != [] ==> !ws(r[0]) && !ws(r[|r| - 1])
    ensures r == [] <==> forall i :: 0 <= i < |s| ==> ws(s[i])
  {
    var t := TrimStart(s, ws);
    var r := TrimEnd(t, ws);
    BlankAfterTrim(s, ws, t, r);
    r
  }

  lemma {:induction false} BlankAfterTrim(s: string, ws: char -> bool, t: string, r: string)
    requires t == TrimStart(s, ws) && r == TrimEnd(t, ws)
    ensures r != [] ==> !ws(r[0])
    ensures r == [] <==> forall i :: 0 <= i < |s| ==> ws(s[i])
  {
    var a := |s| - |t|;
    if r == [] {
      // TrimEnd removed every character of t, but TrimStart left none
      // that is `ws` at its head: so t is empty.
      if |t| > 0 {
        assert false;
      }
    } else {
      assert r[0] == t[0];
      assert !ws(s[a]) by { assert t[0] == s[a]; }
    }
  }

  /** Every character of `s` is one that `ws` names (vacuously so for ""). */
  predicate AllWith(s: string, ws: char -> bool) {
    forall i :: 0 <= i < |s| ==> ws(s[i])
  }

  /** Python's `str.strip()` with no argument. */
  function Strip(s: string): string {
    TrimWith(s, IsPySpace)
  }

  /** JavaScript's `String.prototype.trim()`. */
  function Trim(s: string): string {
    TrimWith(s, IsJsSpace)
  }

  /** `str.strip()` gives "" exactly for the strings made only of Python
      whitespace; what it keeps neither starts nor ends with any. */
  lemma {:induction false} StripBlankIff(s: string)
    ensures Strip(s) == "" <==> AllWith(s, IsPySpace)
    ensures Strip(s) != "" ==> !IsPySpace(Strip(s)[0]) && !IsPySpace(Strip(s)[|Strip(s)| - 1])
  {
  }

  /** `trim()` gives "" exactly for the strings made only of JavaScript
      whitespace; what it keeps neither starts nor ends with any. */
  lemma {:induction false} TrimBlankIff(s: string)
    ensures Trim(s) == "" <==> AllWith(s, IsJsSpace)
    ensures Trim(s) != "" ==> !IsJsSpace(Trim(s)[0]) && !IsJsSpace(Trim(s)[|Trim(s)| - 1])
  {
  }

  predicate IsAsciiUpper(c: char) { 'A' <= c <= 'Z' }
  predicate IsAsciiLower(c: char) { 'a' <= c <= 'z' }

  function LowerChar(c: char): char {
    if IsAsciiUpper(c) then (c as int + 32) as char else c
  }

  function UpperChar(c: char): char {
    if IsAsciiLower(c) then (c as int - 32) as char else c
  }

  /** `str.lower()` / `String.prototype.toLowerCase()` on the ASCII range. */
  function Lower(s: string): (r: string)
    ensures |r| == |s|
    ensures forall i :: 0 <= i < |r| ==> !IsAsciiUpper(r[i])
  {
    seq(|s|, i requires 0 <= i < |s| => LowerChar(s[i]))
  }

  /** `String.prototype.toUpperCase()` on the ASCII range. */
  function Upper(s: string): (r: string)
    ensures |r| == |s|
    ensures forall i :: 0 <= i < |r| ==> !IsAsciiLower(r[i])
  {
    seq(|s|, i requires 0 <= i < |s| => UpperChar(s[i]))
  }

  /** Case is forgotten by either mapping: lowering after uppering is
      lowering, and the other way round. */
  lemma {:induction false} LowerUpper(s: string)
    ensures Lower(Upper(s)) == Lower(s)
    ensures Lower(Lower(s)) == Lower(s)
    ensures Upper(Lower(s)) == Upper(s)
  {
  }

  /** A string with no ASCII capital is its own lowercase. */
  lemma {:induction false} LowerOfLowerCase(s: string)
    requires forall i :: 0 <= i < |s| ==> !IsAsciiUpper(s[i])
    ensures Lower(s) == s
  {
  }

  /** Case mapping works character by character, so it distributes over
      concatenation. */
  lemma {:induction false} LowerConcat(a: string, b: string)
    ensures Lower(a + b) == Lower(a) + Lower(b)
  {
  }

  lemma {:induction false} UpperConcat(a: string, b: string)
    ensures Upper(a + b) == Upper(a) + Upper(b)
  {
  }

  /** Case mapping leaves every character that is not an ASCII letter where
      it was; in particular a separator stays at the same positions. */
  lemma {:induction false} LowerKeeps(s: string, c: char)
    requires !IsAsciiUpper(c) && !IsAsciiLower(c)
    ensures forall i :: 0 <= i < |s| ==> (Lower(s)[i] == c <==> s[i] == c)
    ensures forall i :: 0 <= i < |s| ==> (Upper(s)[i] == c <==> s[i] == c)
  {
  }

  /** The position of the last `sep` in `s`, if there is one. */
  function LastIndexOf(s: string, sep: char): (r: Option<nat>)
    ensures r.None? <==> sep !in s
    ensures r.Some? ==> r.value < |s| && s[r.value] == sep && sep !in s[r.value + 1..]
    decreases |s|
  {
    if |s| == 0 then None
    else
      match LastIndexOf(s[1..], sep)
      case Some(j) =>
        assert s[j + 2..] == s[1..][j + 1..];
        Some(j + 1)
      case None =>
        if s[0] == sep then Some(0) else None
  }

  /** The text after the last `sep`, or all of `s` when it has none: the last
      piece of `s.split(sep)` in both languages. */
  function AfterLast(s: string, sep: char): (r: string)
    ensures sep !in r
    ensures sep in s ==> |r| < |s| && s == s[..|s| - |r| - 1] + [sep] + r
    ensures sep !in s ==> r == s
  {
    match LastIndexOf(s, sep)
    case None => s
    case Some(i) => s[i + 1..]
  }

  /** Python's `s.rsplit(sep, 1)`: two pieces around the last `sep`, or `[s]`. */
  function RSplitOnce(s: string, sep: char): (r: seq<string>)
    ensures sep in s ==> |r| == 2 && r[0] + [sep] + r[1] == s && sep !in r[1]
    ensures sep !in s ==> r == [s]
  {
    match LastIndexOf(s, sep)
    case None => [s]
    case Some(i) =>
      assert s[..i] + [sep] + s[i + 1..] == s;
      [s[..i], s[i + 1..]]
  }

  /** `s.split(sep)` with a one-character separator, in Python and in
      JavaScript alike: every piece, empty ones included. */
  function Split(s: string, sep: char): (r: seq<string>)
    ensures |r| >= 1
    ensures |r| == 1 <==> sep !in s
    ensures forall k :: 0 <= k < |r| ==> sep !in r[k]
    decreases |s|
  {
    if s == [] then [[]]
    else
      var rest := Split(s[1..], sep);
      if s[0] == sep then [[]] + rest else [[s[0]] + rest[0]] + rest[1..]
  }

  /** `sep.join(parts)`. */
  function Join(parts: seq<string>, sep: char): string
    requires |parts| >= 1
    decreases |parts|
  {
    if |parts| == 1 then parts[0] else parts[0] + [sep] + Join(parts[1..], sep)
  }

  function Last<T>(xs: seq<T>): T
    requires |xs| >= 1
  {
    xs[|xs| - 1]
  }

  /** Splitting loses nothing: joining the pieces gives the string back. */
  lemma {:induction false} JoinSplit(s: string, sep: char)
    ensures Join(Split(s, sep), sep) == s
    decreases |s|
  {
    if s != [] {
      var rest := Split(s[1..], sep);
      JoinSplit(s[1..], sep);
      if s[0] == sep {
        assert Split(s, sep)[1..] == rest;
      } else {
        var r := Split(s, sep);
        if |rest| == 1 {
          assert r == [[s[0]] + rest[0]];
        } else {
          assert r[1..] == rest[1..];
          assert Join(rest, sep) == rest[0] + [sep] + Join(rest[1..], sep);
        }
      }
    }
  }

  /** A string without the separator splits into itself alone. */
  lemma {:induction false} SplitWithout(s: string, sep: char)
    requires sep !in s
    ensures Split(s, sep) == [s]
    decreases |s|
  {
    if s != [] {
      SplitWithout(s[1..], sep);
      assert [s[0]] + s[1..] == s;
    }
  }

  /** A string has one suffix that is free of `sep` and preceded by `sep`:
      whatever precedes the separator, the text after it is the same. */
  lemma {:induction false} SuffixAfterSepUnique(p: string, e: string, p': string, e': string, sep: char)
    requires p + [sep] + e == p' + [sep] + e'
    requires sep !in e && sep !in e'
    ensures e == e' && p == p'
  {
    var s := p + [sep] + e;
    if |e| < |e'| {
      SepInLongerSuffix(p, e, p', e', sep);
      assert false;
    } else if |e'| < |e| {
      SepInLongerSuffix(p', e', p, e, sep);
      assert false;
    }
    assert e == s[|s| - |e|..] && e' == s[|s| - |e'|..];
    assert p == s[..|p|] && p' == s[..|p'|];
  }

  /** The second piece of `rsplit(sep, 1)` is the text after the last `sep`. */
  lemma {:induction false} RSplitOnceAfterLast(s: string, sep: char)
    requires sep in s
    ensures RSplitOnce(s, sep)[1] == AfterLast(s, sep)
  {
    var parts := RSplitOnce(s, sep);
    var r := AfterLast(s, sep);
    SuffixAfterSepUnique(parts[0], parts[1], s[..|s| - |r| - 1], r, sep);
  }

  /** Of two suffixes that each follow a `sep`, the longer one holds the
      separator that precedes the shorter. */
  lemma {:induction false} SepInLongerSuffix(p: string, e: string, p': string, e': string, sep: char)
    requires p + [sep] + e == p' + [sep] + e' && |e| < |e'|
    ensures sep in e'
  {
    var s := p + [sep] + e;
    assert e'[|e'| - |e| - 1] == s[|s| - |e| - 1];
  }

  /** The last piece of a split is the text after the last separator. */
  lemma {:induction false} LastOfSplit(s: string, sep: char)
    ensures Last(Split(s, sep)) == AfterLast(s, sep)
    decreases |s|
  {
    if s != [] {
      if sep !in s {
        SplitWithout(s, sep);
      } else if sep in s[1..] {
        LastOfSplit(s[1..], sep);
        SplitTail(s, sep);
        AfterLastTail(s, sep);
      } else {
        SplitWithout(s[1..], sep);
        assert Split(s, sep) == [[], s[1..]];
      }
    }
  }

  lemma {:induction false} SplitTail(s: string, sep: char)
    requires s != [] && sep in s[1..]
    ensures Last(Split(s, sep)) == Last(Split(s[1..], sep))
  {
    var rest := Split(s[1..], sep);
    assert |rest| >= 2;
    if s[0] == sep {
      SplitAtSep(s, sep);
    } else {
      SplitAtOther(s, sep);
    }
  }

  lemma {:induction false} SplitAtSep(s: string, sep: char)
    requires s != [] && s[0] == sep
    ensures Split(s, sep) == [[]] + Split(s[1..], sep)
  {
  }

  lemma {:induction false} SplitAtOther(s: string, sep: char)
    requires s != [] && s[0] != sep && |Split(s[1..], sep)| >= 2
    ensures Last(Split(s, sep)) == Last(Split(s[1..], sep))
  {
    var rest := Split(s[1..], sep);
    var r := Split(s, sep);
    assert r == [[s[0]] + rest[0]] + rest[1..];
    assert r[|r| - 1] == rest[1..][|rest| - 2];
  }

  lemma {:induction false} AfterLastTail(s: string, sep: char)
    requires s != [] && sep in s[1..]
    ensures AfterLast(s, sep) == AfterLast(s[1..], sep)
  {
    var j := LastIndexOf(s[1..], sep).value;
    assert LastIndexOf(s, sep) == Some(j + 1);
    assert s[j + 2..] == s[1..][j + 1..];
  }
}
