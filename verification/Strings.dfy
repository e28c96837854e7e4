/** Go's strings package, as far as the models need it. A string is a string of
    bytes, as in Go, where its length or its encoding matters. */
module Strings {

  /** r stands at position i of s. */
  predicate At(s: string, i: nat, r: string) {
    i + |r| <= |s| && s[i..i + |r|] == r
  }

  lemma AtSplit(s: string, i: nat, a: string, b: string)
    ensures At(s, i, a + b) <==> At(s, i, a) && At(s, i + |a|, b)
  {
    if i + |a| + |b| <= |s| {
      var w := s[i..i + |a| + |b|];
      assert w[..|a|] == s[i..i + |a|] && w[|a|..] == s[i + |a|..i + |a| + |b|];
      assert (a + b)[..|a|] == a && (a + b)[|a|..] == b;
      assert w == w[..|a|] + w[|a|..];
    }
  }

  lemma AtChar(s: string, i: nat, r: string, k: nat)
    ensures At(s, i, r) && k < |r| ==> s[i + k] == r[k]
  {
    if At(s, i, r) && k < |r| {
      assert s[i..i + |r|][k] == s[i + k];
    }
  }

  /** strings.Contains. */
  ghost predicate Contains(s: string, sub: string) {
    exists i :: 0 <= i <= |s| && At(s, i, sub)
  }

  /** strings.Index from a position on: the first place sub stands at, or -1. */
  function Index(s: string, sub: string, from: nat): (i: int)
    requires from <= |s|
    ensures i == -1 || (from <= i && At(s, i, sub))
    ensures forall k :: from <= k < (if i < 0 then |s| + 1 else i) ==> !At(s, k, sub)
    decreases |s| - from
  {
    if At(s, from, sub) then from else if from == |s| then -1 else Index(s, sub, from + 1)
  }

  /** strings.Contains, computed. */
  predicate Has(s: string, sub: string) {
    Index(s, sub, 0) >= 0
  }

  lemma IndexIs(s: string, sub: string, j: nat)
    requires j <= |s| && At(s, j, sub)
    requires forall k :: 0 <= k < j ==> !At(s, k, sub)
    ensures Index(s, sub, 0) == j
  {}

  lemma ConcatAssociates<T>(a: seq<T>, b: seq<T>, c: seq<T>)
    ensures a + (b + c) == (a + b) + c
  {}

  /** strings.TrimRight(s, "\n"). */
  function TrimNewlines(s: string): (r: string)
    ensures r <= s && (r != "" ==> r[|r| - 1] != '\n')
    ensures forall k :: |r| <= k < |s| ==> s[k] == '\n'
  {
    if s == "" || s[|s| - 1] != '\n' then s else TrimNewlines(s[..|s| - 1])
  }

  /** One character of white space, in UTF-8. */
  predicate IsSpace(b: string) {
    if |b| == 1 then b[0] == ' ' || '\t' <= b[0] <= '\r'
    else if |b| == 2 then b[0] == '\U{C2}' && (b[1] == '\U{85}' || b[1] == '\U{A0}')
    else |b| == 3 && IsWideSpace(b[0], b[1], b[2])
  }

  /** U+1680, U+2000 to U+200A, U+2028, U+2029, U+202F, U+205F and U+3000. */
  predicate IsWideSpace(x: char, y: char, z: char) {
    || (x == '\U{E1}' && y == '\U{9A}' && z == '\U{80}')
    || (x == '\U{E2}' && y == '\U{80}' && ('\U{80}' <= z <= '\U{8A}' || z in "\U{A8}\U{A9}\U{AF}"))
    || (x == '\U{E2}' && y == '\U{81}' && z == '\U{9F}')
    || (x == '\U{E3}' && y == '\U{80}' && z == '\U{80}')
  }

  /** How many bytes the white space takes that s starts or ends with, or 0. */
  function SpaceAtStart(s: string): (n: nat)
    ensures n <= |s|
  {
    if s != "" && IsSpace(s[..1]) then 1
    else if |s| >= 2 && IsSpace(s[..2]) then 2
    else if |s| >= 3 && IsSpace(s[..3]) then 3
    else 0
  }

  function SpaceAtEnd(s: string): (n: nat)
    ensures n <= |s|
  {
    if s != "" && IsSpace(s[|s| - 1..]) then 1
    else if |s| >= 2 && IsSpace(s[|s| - 2..]) then 2
    else if |s| >= 3 && IsSpace(s[|s| - 3..]) then 3
    else 0
  }

  /** strings.TrimSpace. */
  function TrimSpace(s: string): string
    decreases |s|
  {
    if SpaceAtStart(s) > 0 then TrimSpace(s[SpaceAtStart(s)..])
    else if SpaceAtEnd(s) > 0 then TrimSpace(s[..|s| - SpaceAtEnd(s)])
    else s
  }

  lemma NoSpaceAtStart(s: string)
    requires s != "" && !IsSpace(s[..1]) && s[0] < '\U{80}'
    ensures SpaceAtStart(s) == 0
  {}

  lemma NoSpaceAtEnd(s: string)
    requires s != "" && !IsSpace(s[|s| - 1..]) && s[|s| - 1] < '\U{80}'
    ensures SpaceAtEnd(s) == 0
  {}
}
