/**
 * The parts of Python's `str` API that the updater relies on: `strip()`,
 * `split(sep)`, `sep.join(parts)`, `startswith`/`endswith`, `lower()` and
 * `upper()`. Strings are sequences of Unicode scalar values.
 */
module Strings {

  /** Python's `str.isspace()` for one character (the Unicode whitespace set). */
  predicate IsSpace(c: char) {
    ('\t' <= c <= '\r') || ('\U{1C}' <= c <= '\U{1F}') || c == ' '
    || c == '\U{85}' || c == '\U{A0}' || c == '\U{1680}'
    || ('\U{2000}' <= c <= '\U{200A}') || c == '\U{2028}' || c == '\U{2029}'
    || c == '\U{202F}' || c == '\U{205F}' || c == '\U{3000}'
  }

  /** Neither the first nor the last character is whitespace. */
  predicate IsStripped(s: string) {
    s == [] || (!IsSpace(s[0]) && !IsSpace(s[|s| - 1]))
  }

  predicate AllSpace(s: string) {
    forall k :: 0 <= k < |s| ==> IsSpace(s[k])
  }

  /** The first index from `i` on that does not hold whitespace. */
  function SkipSpaces(s: string, i: nat): (j: nat)
    requires i <= |s|
    ensures i <= j <= |s|
    ensures forall k :: i <= k < j ==> IsSpace(s[k])
    ensures j < |s| ==> !IsSpace(s[j])
    decreases |s| - i
  {
    if i < |s| && IsSpace(s[i]) then SkipSpaces(s, i + 1) else i
  }

  /** The end of `s[lo..j]` once its trailing whitespace is dropped. */
  function SkipSpacesBack(s: string, lo: nat, j: nat): (e: nat)
    requires lo <= j <= |s|
    ensures lo <= e <= j
    ensures forall k :: e <= k < j ==> IsSpace(s[k])
    ensures e > lo ==> !IsSpace(s[e - 1])
  {
    if j > lo && IsSpace(s[j - 1]) then SkipSpacesBack(s, lo, j - 1) else j
  }

  /** `s.strip()`: `s` without its leading and trailing whitespace. */
  function Strip(s: string): (r: string)
    ensures IsStripped(r)
  {
    var i := SkipSpaces(s, 0);
    var e := SkipSpacesBack(s, i, |s|);
    assert i < e ==> !IsSpace(s[i]);
    s[i..e]
  }

  /**
   * `strip()` removes exactly the leading and the trailing whitespace: the
   * result sits between an all-whitespace prefix and an all-whitespace
   * suffix of `s`, and neither starts nor ends with whitespace.
   */
  lemma StripExactly(s: string)
    ensures IsStripped(Strip(s))
    ensures exists i, j :: 0 <= i <= j <= |s| && s == s[..i] + Strip(s) + s[j..] && AllSpace(s[..i]) && AllSpace(s[j..])
  {
    var i, j := StripBounds(s);
  }

  /** Where the stripped text starts and ends in `s`. */
  lemma StripBounds(s: string) returns (i: nat, j: nat)
    ensures i <= j <= |s| && s == s[..i] + Strip(s) + s[j..]
    ensures AllSpace(s[..i]) && AllSpace(s[j..])
  {
    i := SkipSpaces(s, 0);
    j := SkipSpacesBack(s, i, |s|);
    ThreeParts(s, i, j);
    SpacesBetween(s, 0, i);
    SpacesBetween(s, j, |s|);
  }

  lemma ThreeParts(s: string, i: nat, j: nat)
    requires i <= j <= |s|
    ensures s == s[..i] + s[i..j] + s[j..]
  {
  }

  lemma SpacesBetween(s: string, lo: nat, hi: nat)
    requires lo <= hi <= |s|
    requires forall k :: lo <= k < hi ==> IsSpace(s[k])
    ensures AllSpace(s[lo..hi])
  {
    forall k | 0 <= k < hi - lo ensures IsSpace(s[lo..hi][k]) {
      assert s[lo..hi][k] == s[lo + k];
    }
  }

  /** Stripping only removes characters. */
  lemma StripChars(s: string)
    ensures forall c :: c in Strip(s) ==> c in s
  {
    var i := SkipSpaces(s, 0);
    var e := SkipSpacesBack(s, i, |s|);
    var r := s[i..e];
    forall c | c in r ensures c in s {
      var k :| 0 <= k < |r| && r[k] == c;
      assert s[i + k] == c;
    }
  }

  /** Stripping leaves nothing exactly when the string is all whitespace. */
  lemma StripEmpty(s: string)
    ensures Strip(s) == [] <==> AllSpace(s)
  {
    var i := SkipSpaces(s, 0);
    assert i < |s| ==> SkipSpacesBack(s, i, |s|) > i;
  }

  /** A string without surrounding whitespace is its own `strip()`. */
  lemma StripIdem(s: string)
    requires IsStripped(s)
    ensures Strip(s) == s
  {
    if s != [] {
      assert SkipSpaces(s, 0) == 0;
      assert SkipSpacesBack(s, 0, |s|) == |s|;
    }
  }

  /** A string that starts with a non-space character keeps that character first. */
  lemma StripKeepsFirst(s: string)
    requires s != [] && !IsSpace(s[0])
    ensures Strip(s) != [] && Strip(s)[0] == s[0]
  {
    assert SkipSpaces(s, 0) == 0;
    assert SkipSpacesBack(s, 0, |s|) > 0;
  }

  function Lower(c: char): char {
    if 'A' <= c <= 'Z' then (c as int - 'A' as int + 'a' as int) as char else c
  }

  function Upper(c: char): char {
    if 'a' <= c <= 'z' then (c as int - 'a' as int + 'A' as int) as char else c
  }

  /** `s.lower()` on the ASCII letters. */
  function LowerCase(s: string): (r: string)
    ensures |r| == |s| && forall k :: 0 <= k < |s| ==> r[k] == Lower(s[k])
  {
    seq(|s|, k requires 0 <= k < |s| => Lower(s[k]))
  }

  /**
   * Lower-casing leaves no ASCII capital, changes no other character, keeps
   * the length and is idempotent.
   */
  lemma LowerCaseFacts(s: string)
    ensures |LowerCase(s)| == |s|
    ensures forall k :: 0 <= k < |s| ==> !('A' <= LowerCase(s)[k] <= 'Z')
    ensures forall k :: 0 <= k < |s| && !('A' <= s[k] <= 'Z') ==> LowerCase(s)[k] == s[k]
    ensures forall k :: 0 <= k < |s| && 'A' <= s[k] <= 'Z' ==> LowerCase(s)[k] as int == s[k] as int + 32
    ensures LowerCase(LowerCase(s)) == LowerCase(s)
  {
  }

  /** `s.upper()` on the ASCII letters. */
  function UpperCase(s: string): (r: string)
    ensures |r| == |s| && forall k :: 0 <= k < |s| ==> r[k] == Upper(s[k])
  {
    seq(|s|, k requires 0 <= k < |s| => Upper(s[k]))
  }

  predicate StartsWith(s: string, prefix: string) {
    |prefix| <= |s| && s[..|prefix|] == prefix
  }

  predicate EndsWith(s: string, suffix: string) {
    |suffix| <= |s| && s[|s| - |suffix|..] == suffix
  }

  /** A non-empty sequence is its front followed by its last element. */
  lemma LastSplit<T>(s: seq<T>)
    requires s != []
    ensures s == s[..|s| - 1] + [s[|s| - 1]]
  {
  }

  /** Concatenation regroups freely; stated once so that proofs need not rediscover it. */
  lemma ConcatAssociative<T>(a: seq<T>, b: seq<T>, c: seq<T>)
    ensures (a + b) + c == a + (b + c)
  {
  }

  /** `sep.join(parts)` for a one-character separator. */
  function Join(parts: seq<string>, sep: char): string
  {
    if |parts| == 0 then ""
    else if |parts| == 1 then parts[0]
    else parts[0] + [sep] + Join(parts[1..], sep)
  }

  /** The joined text begins with the first part. */
  lemma JoinStartsWith(parts: seq<string>, sep: char)
    requires parts != []
    ensures |Join(parts, sep)| >= |parts[0]| && Join(parts, sep)[..|parts[0]|] == parts[0]
  {
    if |parts| > 1 {
      assert (parts[0] + [sep] + Join(parts[1..], sep))[..|parts[0]|] == parts[0];
    }
  }

  /** Two or more parts are joined with at least one separator. */
  lemma JoinHasSeparator(parts: seq<string>, sep: char)
    ensures |parts| >= 2 ==> sep in Join(parts, sep)
  {
    if |parts| >= 2 {
      assert Join(parts, sep)[|parts[0]|] == sep;
    }
  }

  /** Index of the first `c` in `s`, or `|s|` when there is none. */
  function Find(s: string, c: char): (i: nat)
    ensures i <= |s|
    ensures forall k :: 0 <= k < i ==> s[k] != c
    ensures i < |s| ==> s[i] == c
  {
    if s == [] || s[0] == c then 0 else 1 + Find(s[1..], c)
  }

  /**
   * `s.split(sep)` for a one-character separator: the piece before the first
   * separator, then the pieces of what follows it, so there is always at
   * least one piece.
   */
  function Split(s: string, sep: char): (parts: seq<string>)
    ensures |parts| >= 1
    decreases |s|
  {
    var i := Find(s, sep);
    if i == |s| then [s] else [s[..i]] + Split(s[i + 1..], sep)
  }

  lemma FindAfterPrefix(a: string, rest: string, sep: char)
    requires sep !in a
    ensures Find(a + [sep] + rest, sep) == |a|
  {
    var x := a + [sep] + rest;
    assert forall k :: 0 <= k < |a| ==> x[k] == a[k];
    assert x[|a|] == sep;
  }

  /** The piece before the first separator comes first, then the pieces of the rest. */
  lemma SplitPrefix(a: string, rest: string, sep: char)
    requires sep !in a
    ensures Split(a + [sep] + rest, sep) == [a] + Split(rest, sep)
  {
    var x := a + [sep] + rest;
    FindAfterPrefix(a, rest, sep);
    assert x[..|a|] == a && x[|a| + 1..] == rest;
  }

  /** The pieces joined back with the separator give the string. */
  lemma {:induction false} SplitJoinsBack(s: string, sep: char)
    ensures Join(Split(s, sep), sep) == s
    decreases |s|
  {
    var i := Find(s, sep);
    if i < |s| {
      var rest := s[i + 1..];
      var parts := Split(s, sep);
      SplitJoinsBack(rest, sep);
      assert parts[0] == s[..i] && parts[1..] == Split(rest, sep);
      assert s == s[..i] + [sep] + rest;
    }
  }

  /** No piece holds the separator. */
  lemma {:induction false} SplitPiecesClean(s: string, sep: char)
    ensures forall j :: 0 <= j < |Split(s, sep)| ==> sep !in Split(s, sep)[j]
    decreases |s|
  {
    var i := Find(s, sep);
    if i < |s| {
      SplitPiecesClean(s[i + 1..], sep);
      assert sep !in s[..i];
    }
  }

  /** A character absent from the string is absent from every piece. */
  lemma {:induction false} SplitPiecesWithout(s: string, sep: char, x: char)
    requires x !in s
    ensures forall j :: 0 <= j < |Split(s, sep)| ==> x !in Split(s, sep)[j]
    decreases |s|
  {
    var i := Find(s, sep);
    if i < |s| {
      assert forall c :: c in s[i + 1..] ==> c in s;
      SplitPiecesWithout(s[i + 1..], sep, x);
      assert forall c :: c in s[..i] ==> c in s;
    }
  }

  /** A separator in the string always yields at least two pieces. */
  lemma SplitAtLeastTwo(s: string, sep: char)
    ensures |Split(s, sep)| >= 2 <==> sep in s
  {
  }

  /** A string without the separator is a single piece. */
  lemma SplitWithoutSeparator(s: string, sep: char)
    requires sep !in s
    ensures Split(s, sep) == [s]
  {
  }

  /** Splitting at one more separator concatenates the pieces of both sides. */
  lemma {:induction false} SplitConcat(a: string, b: string, sep: char)
    ensures Split(a + [sep] + b, sep) == Split(a, sep) + Split(b, sep)
    decreases |a|
  {
    var i := Find(a, sep);
    if i == |a| {
      SplitPrefix(a, b, sep);
    } else {
      SplitBeforeFirst(a, b, sep);
      SplitConcat(a[i + 1..], b, sep);
      var p, q := Split(a[i + 1..], sep), Split(b, sep);
      assert [a[..i]] + (p + q) == ([a[..i]] + p) + q;
    }
  }

  /** The first piece is cut at the first separator of `a` when `a` has one. */
  lemma SplitBeforeFirst(a: string, b: string, sep: char)
    requires sep in a
    ensures Find(a, sep) < |a|
    ensures Split(a + [sep] + b, sep) == [a[..Find(a, sep)]] + Split(a[Find(a, sep) + 1..] + [sep] + b, sep)
  {
    var i := Find(a, sep);
    assert sep !in a[..i];
    CutAt(a, i, b, sep);
    SplitPrefix(a[..i], a[i + 1..] + [sep] + b, sep);
  }

  /** Cutting `a` at a separator at `i` regroups the concatenation. */
  lemma CutAt(a: string, i: nat, b: string, sep: char)
    requires i < |a| && a[i] == sep
    ensures a + [sep] + b == a[..i] + [sep] + (a[i + 1..] + [sep] + b)
  {
    assert a == a[..i] + [sep] + a[i + 1..];
  }

  /** `sep.join` then `split(sep)` gives back the pieces when none holds `sep`. */
  lemma {:induction false} SplitJoin(parts: seq<string>, sep: char)
    requires |parts| >= 1
    requires forall j :: 0 <= j < |parts| ==> sep !in parts[j]
    ensures Split(Join(parts, sep), sep) == parts
    decreases |parts|
  {
    if |parts| == 1 {
      SplitWithoutSeparator(parts[0], sep);
    } else {
      SplitJoin(parts[1..], sep);
      SplitPrefix(parts[0], Join(parts[1..], sep), sep);
      assert [parts[0]] + parts[1..] == parts;
    }
  }

  /**
   * The first two pieces of a string that begins `a + sep + b` are `a` and
   * `b`, whatever follows `b` from the next separator on.
   */
  lemma FirstTwoPieces(a: string, b: string, tail: string, sep: char)
    requires sep !in a && sep !in b
    requires tail == [] || tail[0] == sep
    ensures |Split(a + [sep] + b + tail, sep)| >= 2
    ensures Split(a + [sep] + b + tail, sep)[0] == a
    ensures Split(a + [sep] + b + tail, sep)[1] == b
  {
    assert a + [sep] + b + tail == a + [sep] + (b + tail);
    SplitPrefix(a, b + tail, sep);
    if tail == [] {
      assert b + tail == b;
    } else {
      assert b + tail == b + [sep] + tail[1..];
      SplitPrefix(b, tail[1..], sep);
    }
  }
}
