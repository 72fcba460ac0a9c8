/** String operations the modelled code takes from JavaScript: `includes`,
    `split` with a string separator, `join`, `endsWith` and `toLowerCase`. */
module Strings {

  /** `d` occurs in `s` starting at index `i`. */
  predicate OccursAt(s: string, d: string, i: nat) {
    i + |d| <= |s| && s[i..i + |d|] == d
  }

  /** JavaScript `s.includes(d)`; the empty string is included everywhere. */
  predicate Contains(s: string, d: string) {
    exists i: nat | i <= |s| :: OccursAt(s, d, i)
  }

  /** JavaScript `s.indexOf(d, k)`: the first occurrence at or after `k`, or -1. */
  function FindFrom(s: string, d: string, k: nat): (r: int)
    decreases |s| - k
    ensures r == -1 || (k <= r && OccursAt(s, d, r))
    ensures r == -1 ==> forall j: nat :: k <= j ==> !OccursAt(s, d, j)
    ensures r != -1 ==> forall j: nat :: k <= j < r ==> !OccursAt(s, d, j)
  {
    if k + |d| > |s| then -1
    else if s[k..k + |d|] == d then k
    else FindFrom(s, d, k + 1)
  }

  function Find(s: string, d: string): (r: int)
    ensures r == -1 <==> !Contains(s, d)
    ensures r != -1 ==> 0 <= r && OccursAt(s, d, r) && forall j: nat :: j < r ==> !OccursAt(s, d, j)
  {
    var r := FindFrom(s, d, 0);
    assert r != -1 ==> OccursAt(s, d, r);
    r
  }

  /** JavaScript `s.split(d)` for a non-empty separator: the pieces between
      successive leftmost non-overlapping occurrences of `d`. */
  function SplitOn(s: string, d: string): (parts: seq<string>)
    requires |d| > 0
    ensures |parts| >= 1
    decreases |s|
  {
    var i := Find(s, d);
    if i == -1 then [s] else [s[..i]] + SplitOn(s[i + |d|..], d)
  }

  /** JavaScript `parts.join(sep)`; joining no parts gives the empty string. */
  function Join(parts: seq<string>, sep: string): string {
    if |parts| == 0 then ""
    else if |parts| == 1 then parts[0]
    else parts[0] + sep + Join(parts[1..], sep)
  }

  /** Splitting and joining again with the same separator gives back the string. */
  lemma {:induction false} JoinSplit(s: string, d: string)
    requires |d| > 0
    ensures Join(SplitOn(s, d), d) == s
    decreases |s|
  {
    var i := Find(s, d);
    if i != -1 {
      var rest := s[i + |d|..];
      JoinSplit(rest, d);
      var tail := SplitOn(rest, d);
      assert SplitOn(s, d) == [s[..i]] + tail;
      assert Join(SplitOn(s, d), d) == s[..i] + d + Join(tail, d);
      assert s == s[..i] + s[i..i + |d|] + rest;
    }
  }

  /** No piece produced by `split` contains the separator. */
  lemma {:induction false} SplitPiecesFree(s: string, d: string)
    requires |d| > 0
    ensures forall k :: 0 <= k < |SplitOn(s, d)| ==> !Contains(SplitOn(s, d)[k], d)
    decreases |s|
  {
    var i := Find(s, d);
    if i == -1 {
    } else {
      var rest := s[i + |d|..];
      SplitPiecesFree(rest, d);
      var head := s[..i];
      forall j: nat | OccursAt(head, d, j) ensures false {
        assert s[j..j + |d|] == head[j..j + |d|];
        assert OccursAt(s, d, j) && j < i;
      }
    }
  }

  /** With a one-character separator, joining pieces that do not contain it and
      splitting again gives the pieces back. */
  lemma {:induction false} SplitJoin(parts: seq<string>, d: string)
    requires |d| == 1 && |parts| >= 1
    requires forall k :: 0 <= k < |parts| ==> !Contains(parts[k], d)
    ensures SplitOn(Join(parts, d), d) == parts
    decreases |parts|
  {
    if |parts| == 1 {
      SplitFirstPiece(parts[0], d);
    } else {
      var rest := Join(parts[1..], d);
      SplitJoin(parts[1..], d);
      SeparatorAfterFree(parts[0], d, rest);
      SplitAt(parts[0], d, rest);
    }
  }

  /** A one-character separator placed after a text free of it is its first occurrence. */
  lemma SeparatorAfterFree(before: string, d: string, after: string)
    requires |d| == 1 && !Contains(before, d)
    ensures Find(before + d + after, d) == |before|
  {
    var s := before + d + after;
    assert OccursAt(s, d, |before|) by {
      assert s[|before|..|before| + 1] == d;
    }
    forall j: nat | j < |before| ensures !OccursAt(s, d, j) {
      assert s[j..j + 1] == before[j..j + 1];
      assert !OccursAt(before, d, j);
    }
  }

  /** The first piece is everything before the first occurrence, or the whole string. */
  lemma SplitFirstPiece(s: string, d: string)
    requires |d| > 0
    ensures Find(s, d) == -1 ==> SplitOn(s, d) == [s]
    ensures Find(s, d) != -1 ==> SplitOn(s, d) == [s[..Find(s, d)]] + SplitOn(s[Find(s, d) + |d|..], d)
  {
  }

  /** The first piece of a split is the whole string, or a prefix followed by the separator. */
  lemma SplitHeadShape(s: string, d: string)
    requires |d| > 0
    ensures s == SplitOn(s, d)[0] || StartsWith(s, SplitOn(s, d)[0] + d)
  {
    SplitFirstPiece(s, d);
    var i := Find(s, d);
    if i != -1 {
      assert SplitOn(s, d)[0] == s[..i];
      assert s[..i + |d|] == s[..i] + s[i..i + |d|];
    }
  }

  /** When the separator occurs, `split` yields at least two pieces: the text
      before the first occurrence and the text up to the next one (or the end). */
  lemma SplitTwoPieces(s: string, d: string)
    requires |d| > 0 && Contains(s, d)
    ensures |SplitOn(s, d)| >= 2
    ensures var parts := SplitOn(s, d);
            s == parts[0] + d + parts[1] || StartsWith(s, parts[0] + d + parts[1] + d)
  {
    var p0, rest := FirstOccurrence(s, d);
    SplitHeadShape(rest, d);
    PrefixShape(s, p0, d, rest, SplitOn(rest, d)[0]);
  }

  /** Where the first occurrence is known, `split` cuts there. */
  lemma SplitAt(before: string, d: string, after: string)
    requires |d| > 0 && Find(before + d + after, d) == |before|
    ensures SplitOn(before + d + after, d) == [before] + SplitOn(after, d)
  {
    var s := before + d + after;
    SplitFirstPiece(s, d);
    assert s[..|before|] == before;
    assert s[|before| + |d|..] == after;
  }

  /** Splitting at the first occurrence of the separator. */
  lemma FirstOccurrence(s: string, d: string) returns (before: string, after: string)
    requires |d| > 0 && Contains(s, d)
    ensures s == before + d + after
    ensures SplitOn(s, d) == [before] + SplitOn(after, d)
  {
    var i := Find(s, d);
    SplitFirstPiece(s, d);
    before, after := s[..i], s[i + |d|..];
    assert s == before + d + after by {
      assert s[i..i + |d|] == d;
    }
  }

  lemma PrefixShape(s: string, p0: string, d: string, rest: string, p1: string)
    requires s == p0 + d + rest
    requires rest == p1 || StartsWith(rest, p1 + d)
    ensures s == p0 + d + p1 || StartsWith(s, p0 + d + p1 + d)
  {
    if rest != p1 {
      var w := p0 + d + p1 + d;
      assert rest == (p1 + d) + rest[|p1 + d|..];
      assert s == w + rest[|p1 + d|..];
      assert s[..|w|] == w;
    }
  }

  function LowerChar(c: char): char {
    if 'A' <= c <= 'Z' then (c as int + 32) as char else c
  }

  /** `toLowerCase`, restricted to the ASCII letters. */
  function ToLower(s: string): (r: string)
    ensures |r| == |s|
    ensures forall k :: 0 <= k < |s| ==> r[k] == LowerChar(s[k])
  {
    if |s| == 0 then "" else [LowerChar(s[0])] + ToLower(s[1..])
  }

  /** Lower-casing works character by character, so it distributes over concatenation. */
  lemma ToLowerConcat(a: string, b: string)
    ensures ToLower(a + b) == ToLower(a) + ToLower(b)
  {
    assert forall k :: 0 <= k < |a + b| ==> ToLower(a + b)[k] == (ToLower(a) + ToLower(b))[k];
  }

  predicate EndsWith(s: string, suffix: string) {
    |suffix| <= |s| && s[|s| - |suffix|..] == suffix
  }

  predicate StartsWith(s: string, prefix: string) {
    |prefix| <= |s| && s[..|prefix|] == prefix
  }
}
