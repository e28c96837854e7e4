/** Bounding one command's output without breaking its UTF-8: exec.go's
    capExecOutput, safeCut and safeCutFront.

    Validity is the grammar of section 4 of RFC 3629. DecodeRune and
    DecodeLastRune are Go's unicode/utf8 functions, read for the two things the
    cuts ask of them: is this an encoding error, and how many bytes is it. */
module Clip {

  type Byte = b: int | 0 <= b < 256

  const EXEC_INLINE_MAX: nat := 20000
  const EXEC_HEAD_SHARE: nat := 3
  const NEWLINE: Byte := 10

  // ---- RFC 3629, section 4 ----

  predicate IsTail(b: Byte) { 0x80 <= b <= 0xBF }

  /** How many bytes a character with this first byte has; 0 if none starts so. */
  function SizeOf(b: Byte): (n: nat)
    ensures n <= 4
  {
    if b <= 0x7F then 1
    else if 0xC2 <= b <= 0xDF then 2
    else if 0xE0 <= b <= 0xEF then 3
    else if 0xF0 <= b <= 0xF4 then 4
    else 0
  }

  predicate SecondFits(first: Byte, second: Byte) {
    IsTail(second) &&
    match first
    case 0xE0 => 0xA0 <= second
    case 0xED => second <= 0x9F
    case 0xF0 => 0x90 <= second
    case 0xF4 => second <= 0x8F
    case _ => true
  }

  /** One UTF8-char of the grammar. */
  predicate IsRune(r: seq<Byte>) {
    && |r| > 0
    && |r| == SizeOf(r[0])
    && (|r| > 1 ==> SecondFits(r[0], r[1]))
    && (|r| > 2 ==> IsTail(r[2]))
    && (|r| > 3 ==> IsTail(r[3]))
  }

  /** UTF8-octets: a run of characters. */
  predicate Valid(s: seq<Byte>) {
    s == [] ||
    (var n := SizeOf(s[0]); 0 < n <= |s| && IsRune(s[..n]) && Valid(s[n..]))
  }

  /** What a cut leaves of a character: some of it, from the front or the back. */
  ghost predicate PartialHead(p: seq<Byte>) {
    p == [] || exists r :: IsRune(r) && |p| < |r| && p == r[..|p|]
  }

  ghost predicate PartialTail(p: seq<Byte>) {
    p == [] || exists r :: IsRune(r) && |p| < |r| && p == r[|r| - |p|..]
  }

  // ---- unicode/utf8 ----

  datatype Decoded = Rune(size: nat) | RuneError

  function DecodeRune(s: seq<Byte>): Decoded
    requires s != []
  {
    var n := SizeOf(s[0]);
    if 0 < n <= |s| && IsRune(s[..n]) then Rune(n) else RuneError
  }

  /** DecodeLastRune's walk back to a byte that can start a character. */
  function StartBefore(s: seq<Byte>, start: int, lim: int): (i: int)
    requires 0 <= lim <= start + 1 <= |s|
    ensures lim - 1 <= i <= start
    decreases start
  {
    if start < lim || !IsTail(s[start]) then start else StartBefore(s, start - 1, lim)
  }

  function DecodeLastRune(s: seq<Byte>): Decoded
    requires s != []
  {
    var end := |s|;
    if s[end - 1] < 0x80 then Rune(1)
    else
      var lim := if end < 4 then 0 else end - 4;
      var at := StartBefore(s, end - 2, if lim <= end - 1 then lim else 0);
      var start := if at < 0 then 0 else at;
      match DecodeRune(s[start..])
      case Rune(n) => if start + n == end then Rune(n) else RuneError
      case RuneError => RuneError
  }

  // ---- Facts about valid text ----

  lemma {:induction false} ValidAppend(a: seq<Byte>, b: seq<Byte>)
    requires Valid(a)
    ensures Valid(a + b) <==> Valid(b)
  {
    if a == [] {
      assert a + b == b;
    } else {
      var n := SizeOf(a[0]);
      assert (a + b)[..n] == a[..n] && (a + b)[n..] == a[n..] + b;
      ValidAppend(a[n..], b);
    }
  }

  lemma RuneIsValid(r: seq<Byte>)
    requires IsRune(r)
    ensures Valid(r)
  {
    assert r[..|r|] == r && r[|r|..] == [];
  }

  lemma RuneBytes(r: seq<Byte>, k: nat)
    requires IsRune(r) && |r| > 1 && k < |r|
    ensures r[k] >= 0x80
  {}

  lemma ValidAfterRune(s: seq<Byte>, k: nat, b: nat)
    requires k <= b <= |s| && IsRune(s[..k]) && Valid(s[k..b])
    ensures Valid(s[..b])
  {
    assert s[..b] == s[..k] + s[k..b];
    RuneIsValid(s[..k]);
    ValidAppend(s[..k], s[k..b]);
  }

  lemma SliceOfTail<T>(s: seq<T>, k: nat, b: nat, e: nat)
    requires b <= e && k + e <= |s|
    ensures s[k..][b..e] == s[k + b..k + e]
  {}

  lemma TailOfTail<T>(s: seq<T>, k: nat, e: nat)
    requires k + e <= |s|
    ensures s[k..][e..] == s[k + e..]
  {}

  /** A cut at n: whole characters before b, whole ones from e on, and the one that n
      falls in between. */
  ghost predicate IsCut(s: seq<Byte>, n: nat, b: nat, e: nat) {
    && b <= n <= e <= |s| && (b == n <==> e == n)
    && Valid(s[..b]) && Valid(s[e..]) && (b < n ==> IsRune(s[b..e]))
  }

  lemma CutLater(s: seq<Byte>, k: nat, n: nat, b: nat, e: nat)
    requires k <= n <= |s| && IsRune(s[..k]) && IsCut(s[k..], n - k, b, e)
    ensures IsCut(s, n, k + b, k + e)
  {
    SliceOfTail(s, k, 0, b);
    SliceOfTail(s, k, b, e);
    TailOfTail(s, k, e);
    assert s[k..][0..b] == s[k..][..b];
    ValidAfterRune(s, k, k + b);
  }

  lemma CutInFirst(s: seq<Byte>, k: nat, n: nat)
    requires 0 < n < k <= |s| && IsRune(s[..k]) && Valid(s[k..])
    ensures IsCut(s, n, 0, k)
  {
    assert s[0..k] == s[..k];
  }

  lemma CutNone(s: seq<Byte>)
    requires Valid(s)
    ensures IsCut(s, 0, 0, 0)
  {
    assert s[0..] == s;
  }

  lemma FirstRune(s: seq<Byte>) returns (k: nat)
    requires Valid(s) && s != []
    ensures 0 < k <= |s| && IsRune(s[..k]) && Valid(s[k..])
  {
    k := SizeOf(s[0]);
  }

  /** Valid text has a cut anywhere. */
  lemma {:induction false} CutAt(s: seq<Byte>, n: nat) returns (b: nat, e: nat)
    requires Valid(s) && n <= |s|
    ensures IsCut(s, n, b, e)
    decreases |s|
  {
    if n == 0 {
      b, e := 0, 0;
      CutNone(s);
    } else {
      var k := FirstRune(s);
      if n < k {
        CutInFirst(s, k, n);
        b, e := 0, k;
      } else {
        b, e := CutAt(s[k..], n - k);
        CutLater(s, k, n, b, e);
        b, e := k + b, k + e;
      }
    }
  }

  /** Valid text can be split after any ASCII byte. */
  lemma SplitAfterAscii(s: seq<Byte>, i: nat)
    requires Valid(s) && i < |s| && s[i] < 0x80
    ensures Valid(s[..i + 1]) && Valid(s[i + 1..])
  {
    var b, e := CutAt(s, i + 1);
    if b < i + 1 {
      RuneBytes(s[b..e], i - b);
    }
  }

  lemma {:induction false} LastRune(s: seq<Byte>) returns (k: nat)
    requires Valid(s) && s != []
    ensures k < |s| && Valid(s[..k]) && IsRune(s[k..])
    decreases |s|
  {
    var n := SizeOf(s[0]);
    if n == |s| {
      assert s[..n] == s == s[0..];
      return 0;
    }
    var j := LastRune(s[n..]);
    k := n + j;
    SliceOfTail(s, n, 0, j);
    TailOfTail(s, n, j);
    assert s[n..][0..j] == s[n..][..j];
    ValidAfterRune(s, n, k);
  }

  // ---- Decoding at a cut ----

  lemma {:induction false} StartFound(s: seq<Byte>, at: nat, start: nat, lim: nat)
    requires lim <= at <= start < |s| && !IsTail(s[at])
    requires forall k :: at < k <= start ==> IsTail(s[k])
    ensures StartBefore(s, start, lim) == at
    decreases start
  {
    if at < start { StartFound(s, at, start - 1, lim); }
  }

  lemma RuneHead(r: seq<Byte>)
    requires IsRune(r)
    ensures |r| <= 4 && !IsTail(r[0]) && forall k :: 0 < k < |r| ==> IsTail(r[k])
  {}

  /** The last character of valid text decodes. */
  lemma LastOfValid(s: seq<Byte>)
    requires Valid(s) && s != []
    ensures DecodeLastRune(s).Rune?
  {
    var k := LastRune(s);
    if |s| - k > 1 {
      LastOfLong(s, k);
    } else {
      assert s[k..][0] == s[|s| - 1];
    }
  }

  lemma LastOfLong(s: seq<Byte>, k: nat)
    requires k + 1 < |s| && IsRune(s[k..])
    ensures DecodeLastRune(s).Rune?
  {
    var r := s[k..];
    RuneBytes(r, |r| - 1);
    RuneHead(r);
    assert s[k] == r[0] && r[|r| - 1] == s[|s| - 1];
    forall j | k < j <= |s| - 2 ensures IsTail(s[j]) { assert r[j - k] == s[j]; }
    StartFound(s, k, |s| - 2, if |s| < 4 then 0 else |s| - 4);
    assert r[..|r|] == r;
  }

  lemma CutByte(p: seq<Byte>) returns (r: seq<Byte>)
    requires p != [] && PartialHead(p)
    ensures IsRune(r) && |p| < |r| && p == r[..|p|] && p[|p| - 1] >= 0x80 && |r| > 1
  {
    r :| IsRune(r) && |p| < |r| && p == r[..|p|];
    RuneBytes(r, |p| - 1);
    assert p[|p| - 1] == r[|p| - 1];
  }

  lemma LastOfShortCut(v: seq<Byte>, b: Byte, r: seq<Byte>)
    requires Valid(v) && b >= 0x80 && IsRune(r) && 1 < |r| && [b] == r[..1]
    ensures DecodeLastRune(v + [b]) == RuneError
  {
    if v != [] {
      LastRuneStart(v, b);
    } else {
      assert v + [b] == [b] && [b][0..] == [b];
      assert r[..1][0] == r[0];
    }
  }

  /** The last byte of a cut character does not decode. */
  lemma LastOfCut(v: seq<Byte>, p: seq<Byte>)
    requires Valid(v) && p != [] && PartialHead(p)
    ensures (v + p)[|v| + |p| - 1] >= 0x80 && DecodeLastRune(v + p) == RuneError
  {
    var r := CutByte(p);
    LastOfCutRune(v, p, r);
  }

  lemma LastOfCutRune(v: seq<Byte>, p: seq<Byte>, r: seq<Byte>)
    requires Valid(v) && IsRune(r) && 0 < |p| < |r| && p == r[..|p|] && p[|p| - 1] >= 0x80
    ensures DecodeLastRune(v + p) == RuneError
  {
    if |p| > 1 {
      LastOfLongCut(v, p, r);
    } else {
      LastOfShortCut(v, p[0], r);
      assert p == [p[0]];
    }
  }

  lemma LastOfLongCut(v: seq<Byte>, p: seq<Byte>, r: seq<Byte>)
    requires IsRune(r) && 1 < |p| < |r| && p == r[..|p|]
    ensures DecodeLastRune(v + p) == RuneError
  {
    var s := v + p;
    RuneHead(r);
    RuneBytes(r, |p| - 1);
    CutStart(s, v, p, r);
    StartFound(s, |v|, |s| - 2, if |s| < 4 then 0 else |s| - 4);
    assert s[|v|..] == p;
  }

  lemma CutStart(s: seq<Byte>, v: seq<Byte>, p: seq<Byte>, r: seq<Byte>)
    requires s == v + p && IsRune(r) && 1 < |p| < |r| && p == r[..|p|]
    ensures !IsTail(s[|v|]) && forall j :: |v| < j < |s| ==> IsTail(s[j])
  {
    RuneHead(r);
    forall j | |v| < j < |s| ensures IsTail(s[j]) { assert s[j] == r[j - |v|]; }
  }

  /** Walking back over one stray byte finds the character before it, which does
      not reach the end. */
  lemma LastRuneStart(v: seq<Byte>, b: Byte)
    requires Valid(v) && v != [] && b >= 0x80
    ensures DecodeLastRune(v + [b]) == RuneError
  {
    var k := LastRune(v);
    WalkBack(v, b, k);
    RuneThenByte(v[k..], b);
    assert (v + [b])[k..] == v[k..] + [b];
  }

  /** A character with one more byte after it is decoded without that byte. */
  lemma RuneThenByte(r: seq<Byte>, b: Byte)
    requires IsRune(r)
    ensures SizeOf(r[0]) == |r| && DecodeRune(r + [b]) != Rune(|r| + 1)
  {
    assert (r + [b])[..|r|] == r && (r + [b])[0] == r[0];
  }

  lemma WalkBack(v: seq<Byte>, b: Byte, k: nat)
    requires k < |v| && IsRune(v[k..])
    ensures var s := v + [b];
            var lim := if |s| < 4 then 0 else |s| - 4;
            StartBefore(s, |s| - 2, lim) == if lim <= k then k else lim - 1
  {
    var s := v + [b];
    TailsAfter(s, v, k);
    var lim := if |s| < 4 then 0 else |s| - 4;
    if lim <= k {
      StartFound(s, k, |s| - 2, lim);
    } else {
      StartMissed(s, |s| - 2, lim);
    }
  }

  lemma TailsAfter(s: seq<Byte>, v: seq<Byte>, k: nat)
    requires v <= s && k < |v| && IsRune(v[k..])
    ensures !IsTail(s[k]) && forall j :: k < j < |v| ==> IsTail(s[j])
  {
    var r := v[k..];
    RuneHead(r);
    assert s[k] == r[0];
    forall j | k < j < |v| ensures IsTail(s[j]) { assert r[j - k] == s[j]; }
  }

  lemma {:induction false} StartMissed(s: seq<Byte>, start: int, lim: nat)
    requires lim <= start + 1 <= |s|
    requires forall k :: lim <= k <= start ==> IsTail(s[k])
    ensures StartBefore(s, start, lim) == lim - 1
    decreases start
  {
    if start >= lim { StartMissed(s, start - 1, lim); }
  }

  // ---- The cuts ----

  function DropBack(s: seq<Byte>): (r: seq<Byte>)
    ensures r <= s
  {
    if s == [] || s[|s| - 1] < 0x80 || DecodeLastRune(s).Rune? then s else DropBack(s[..|s| - 1])
  }

  function DropFront(s: seq<Byte>): seq<Byte> {
    if s == [] || DecodeRune(s).Rune? then s else DropFront(s[1..])
  }

  lemma {:induction false} DropFrontIsEnd(s: seq<Byte>)
    ensures IsEnd(s, DropFront(s))
  {
    if s != [] && DecodeRune(s).RuneError? { DropFrontIsEnd(s[1..]); }
  }

  lemma ShorterHead(p: seq<Byte>)
    requires p != [] && PartialHead(p)
    ensures PartialHead(p[..|p| - 1])
  {
    var r :| IsRune(r) && |p| < |r| && p == r[..|p|];
    assert p[..|p| - 1] == r[..|p| - 1];
  }

  lemma ShorterTail(p: seq<Byte>)
    requires p != [] && PartialTail(p)
    ensures IsTail(p[0]) && PartialTail(p[1..])
  {
    var r :| IsRune(r) && |p| < |r| && p == r[|r| - |p|..];
    RuneHead(r);
    assert p[0] == r[|r| - |p|];
    assert p[1..] == r[|r| - |p| + 1..];
  }

  /** safeCut drops exactly the part of a character at the cut, nothing else. */
  lemma {:induction false} DropBackExact(v: seq<Byte>, p: seq<Byte>)
    requires Valid(v) && PartialHead(p)
    ensures DropBack(v + p) == v
    decreases |p|
  {
    var s := v + p;
    if p == [] {
      assert s == v;
      if v != [] { LastOfValid(v); }
    } else {
      LastOfCut(v, p);
      ShorterHead(p);
      assert s[..|s| - 1] == v + p[..|p| - 1];
      DropBackExact(v, p[..|p| - 1]);
    }
  }

  /** safeCutFront likewise, at the front. */
  lemma {:induction false} DropFrontExact(p: seq<Byte>, v: seq<Byte>)
    requires Valid(v) && PartialTail(p)
    ensures DropFront(p + v) == v
    decreases |p|
  {
    if p == [] {
      assert p + v == v;
    } else {
      ShorterTail(p);
      assert (p + v)[0] == p[0] && (p + v)[1..] == p[1..] + v;
      assert SizeOf(p[0]) == 0;
      DropFrontExact(p[1..], v);
    }
  }

  /** exec.go: safeCut. */
  method SafeCut(s: seq<Byte>) returns (r: seq<Byte>)
    ensures r == DropBack(s)
  {
    r := s;
    while |r| > 0 && r[|r| - 1] >= 0x80
      invariant DropBack(r) == DropBack(s)
      decreases |r|
    {
      if DecodeLastRune(r).Rune? {
        break;
      }
      r := r[..|r| - 1];
    }
  }

  /** exec.go: safeCutFront. */
  method SafeCutFront(s: seq<Byte>) returns (r: seq<Byte>)
    ensures r == DropFront(s)
    ensures IsEnd(s, r)
  {
    DropFrontIsEnd(s);
    r := s;
    while |r| > 0
      invariant DropFront(r) == DropFront(s)
      decreases |r|
    {
      if DecodeRune(r).Rune? {
        break;
      }
      r := r[1..];
    }
  }

  // ---- capExecOutput ----

  /** strings.LastIndexByte and strings.IndexByte. */
  function LastIndexByte(s: seq<Byte>, c: Byte): (i: int)
    ensures -1 <= i < |s|
    ensures i >= 0 ==> s[i] == c
    ensures forall k :: i < k < |s| ==> s[k] != c
  {
    if s == [] then -1 else if s[|s| - 1] == c then |s| - 1 else LastIndexByte(s[..|s| - 1], c)
  }

  function IndexByte(s: seq<Byte>, c: Byte): (i: int)
    ensures -1 <= i < |s|
    ensures i >= 0 ==> s[i] == c
    ensures forall k :: 0 <= k < (if i < 0 then |s| else i) ==> s[k] != c
  {
    if s == [] then -1 else if s[0] == c then 0 else var i := IndexByte(s[1..], c); if i < 0 then -1 else i + 1
  }

  /** What the model reads: everything, or both ends and how much is missing. */
  datatype Capped = Whole(text: seq<Byte>) | Clipped(head: seq<Byte>, elided: int, tail: seq<Byte>)

  const HEAD: nat := EXEC_INLINE_MAX / EXEC_HEAD_SHARE
  const TAIL: nat := EXEC_INLINE_MAX - HEAD

  function UpToLastBreak(s: seq<Byte>): seq<Byte> {
    var i := LastIndexByte(s, NEWLINE);
    if i > 0 then s[..i + 1] else s
  }

  function AfterFirstBreak(s: seq<Byte>): seq<Byte> {
    s[IndexByte(s, NEWLINE) + 1..]
  }

  function Ends(out: seq<Byte>, m: nat, n: nat): Capped
    requires m <= |out| && n <= |out|
  {
    var h, t := UpToLastBreak(DropBack(out[..m])), AfterFirstBreak(DropFront(out[n..]));
    Clipped(h, |out| - |h| - |t|, t)
  }

  function Cap(out: seq<Byte>): Capped {
    if |out| <= EXEC_INLINE_MAX then Whole(out) else Ends(out, HEAD, |out| - TAIL)
  }

  predicate IsEnd(s: seq<Byte>, t: seq<Byte>) {
    |t| <= |s| && t == s[|s| - |t|..]
  }

  lemma EndOfEnd(s: seq<Byte>, t: seq<Byte>, u: seq<Byte>)
    requires IsEnd(s, t) && IsEnd(t, u)
    ensures IsEnd(s, u)
  {
    assert s[|s| - |u|..] == s[|s| - |t|..][|t| - |u|..];
  }

  lemma PartsOfRune(s: seq<Byte>, b: nat, n: nat, e: nat)
    requires b <= n <= e <= |s| && (b == n <==> e == n) && (b < n ==> IsRune(s[b..e]))
    ensures PartialHead(s[b..n]) && PartialTail(s[n..e]) && e - b <= 4
  {
    if b < n {
      var r := s[b..e];
      RuneHead(r);
      assert s[b..n] == r[..n - b] && s[n..e] == r[|r| - (e - n)..];
    }
  }

  /** Of valid text cut at n, safeCut keeps all but part of one character. */
  lemma CutHead(s: seq<Byte>, n: nat)
    requires Valid(s) && n <= |s|
    ensures Valid(DropBack(s[..n])) && n - 4 < |DropBack(s[..n])| <= n
  {
    var b, e := CutAt(s, n);
    PartsOfRune(s, b, n, e);
    AroundCut(s, b, n, e);
    DropBackExact(s[..b], s[b..n]);
  }

  lemma CutTail(s: seq<Byte>, n: nat)
    requires Valid(s) && n <= |s|
    ensures Valid(DropFront(s[n..])) && |s| - n - 4 < |DropFront(s[n..])| <= |s| - n
  {
    var b, e := CutAt(s, n);
    PartsOfRune(s, b, n, e);
    AroundCut(s, b, n, e);
    DropFrontExact(s[n..e], s[e..]);
  }

  lemma AroundCut(s: seq<Byte>, b: nat, n: nat, e: nat)
    requires b <= n <= e <= |s|
    ensures s[..n] == s[..b] + s[b..n] && s[n..] == s[n..e] + s[e..]
  {}

  lemma UpToLastBreakKeeps(s: seq<Byte>)
    ensures var h := UpToLastBreak(s); h <= s && NEWLINE !in s[|h|..]
    ensures var h := UpToLastBreak(s); h == s || (h != [] && h[|h| - 1] == NEWLINE)
    ensures Valid(s) ==> Valid(UpToLastBreak(s))
  {
    var i := LastIndexByte(s, NEWLINE);
    if i > 0 && Valid(s) { SplitAfterAscii(s, i); }
  }

  lemma AfterFirstBreakKeeps(s: seq<Byte>)
    ensures var t := AfterFirstBreak(s); IsEnd(s, t)
    ensures var lost := s[..|s| - |AfterFirstBreak(s)|];
            lost == [] || (lost[|lost| - 1] == NEWLINE && NEWLINE !in lost[..|lost| - 1])
    ensures NEWLINE in s ==> |AfterFirstBreak(s)| < |s|
    ensures Valid(s) ==> Valid(AfterFirstBreak(s))
  {
    var j := IndexByte(s, NEWLINE);
    if j >= 0 && Valid(s) { SplitAfterAscii(s, j); }
  }

  lemma HeadKept(out: seq<Byte>, m: nat)
    requires m <= |out|
    ensures UpToLastBreak(DropBack(out[..m])) <= out && |UpToLastBreak(DropBack(out[..m]))| <= m
  {
    var front := DropBack(out[..m]);
    assert front <= out[..m] <= out;
    var h := UpToLastBreak(front);
    assert h == front[..|h|] == out[..|h|];
  }

  lemma TailKept(out: seq<Byte>, n: nat)
    requires n <= |out|
    ensures IsEnd(out, AfterFirstBreak(DropFront(out[n..]))) && |AfterFirstBreak(DropFront(out[n..]))| <= |out| - n
  {
    var back := DropFront(out[n..]);
    var t := AfterFirstBreak(back);
    DropFrontIsEnd(out[n..]);
    assert IsEnd(back, t) && |t| <= |back|;
    EndOfEnd(out[n..], back, t);
    EndOfEnd(out, out[n..], t);
  }

  /** Any two cuts: the kept ends are ends of the text, and the stated count is
      what is missing. */
  lemma EndsKept(out: seq<Byte>, m: nat, n: nat)
    requires m <= |out| && n <= |out|
    ensures var c := Ends(out, m, n);
            && c.head <= out && |c.head| <= m && IsEnd(out, c.tail) && |c.tail| <= |out| - n
            && |c.head| + c.elided + |c.tail| == |out|
  {
    HeadKept(out, m);
    TailKept(out, n);
  }

  lemma EndsValid(out: seq<Byte>, m: nat, n: nat)
    requires m <= |out| && n <= |out| && Valid(out)
    ensures Valid(Ends(out, m, n).head) && Valid(Ends(out, m, n).tail)
  {
    CutHead(out, m);
    CutTail(out, n);
    UpToLastBreakKeeps(DropBack(out[..m]));
    AfterFirstBreakKeeps(DropFront(out[n..]));
  }

  /** What is kept of out: a beginning and an end, with the count of what is not. */
  ghost predicate KeepsEnds(out: seq<Byte>, c: Capped) {
    && c.Clipped? && c.head <= out && IsEnd(out, c.tail)
    && |c.head| + |c.tail| <= EXEC_INLINE_MAX
    && c.elided == |out| - |c.head| - |c.tail| > 0
    && (Valid(out) ==> Valid(c.head) && Valid(c.tail))
  }

  lemma EndsSound(out: seq<Byte>, m: nat, n: nat)
    requires m <= |out| && n <= |out| && m + (|out| - n) <= EXEC_INLINE_MAX < |out|
    ensures KeepsEnds(out, Ends(out, m, n))
  {
    EndsKept(out, m, n);
    if Valid(out) { EndsValid(out, m, n); }
  }

  /** The result accounts for every byte, keeps within the budget, and is valid
      UTF-8 whenever the output was. */
  lemma CapSound(out: seq<Byte>)
    requires |out| > EXEC_INLINE_MAX
    ensures KeepsEnds(out, Cap(out))
  {
    EndsSound(out, HEAD, |out| - TAIL);
  }

  // ---- What is kept, at the least ----

  lemma {:induction false} DropBackStops(s: seq<Byte>, i: nat)
    requires i < |s| && s[i] < 0x80
    ensures i < |DropBack(s)|
  {
    if s[|s| - 1] >= 0x80 && DecodeLastRune(s).RuneError? { DropBackStops(s[..|s| - 1], i); }
  }

  lemma {:induction false} DropFrontStops(s: seq<Byte>, i: nat)
    requires i < |s| && s[i] < 0x80
    ensures |s| - i <= |DropFront(s)|
  {
    if DecodeRune(s).RuneError? && i > 0 { DropFrontStops(s[1..], i - 1); }
  }

  /** Every line that ends in the first m bytes is kept, and nothing of the next; without
      a line break, all of them but part of one character. */
  ghost predicate HoldsHead(out: seq<Byte>, m: nat, h: seq<Byte>)
    requires m <= |out|
  {
    && h <= out && |h| <= m
    && (forall i :: 0 <= i < m && out[i] == 10 ==> i < |h|)
    && (forall i :: 0 < i < m && out[i] == 10 ==> h[|h| - 1] == 10)
    && (Valid(out) && (forall i :: 0 < i < m ==> out[i] != 10) ==> m - 4 < |h|)
  }

  /** Every line that begins after a line break in the bytes from n on is kept, and
      nothing of the one before; without a line break, all but part of a character. */
  ghost predicate HoldsTail(out: seq<Byte>, n: nat, t: seq<Byte>)
    requires n <= |out|
  {
    && IsEnd(out, t) && |t| <= |out| - n
    && (forall i :: n <= i < |out| && out[i] == 10 ==> |out| - i - 1 <= |t|)
    && (forall i :: n <= i < |out| && out[i] == 10 ==> |t| < |out| && out[|out| - |t| - 1] == 10)
    && (Valid(out) && (forall i :: n <= i < |out| ==> out[i] != 10) ==> |out| - n - 4 < |t|)
  }

  lemma HeadKeeps(out: seq<Byte>, m: nat)
    requires m <= |out|
    ensures HoldsHead(out, m, UpToLastBreak(DropBack(out[..m])))
  {
    var s := out[..m];
    forall i | 0 <= i < m && out[i] == NEWLINE ensures i < |DropBack(s)| { DropBackStops(s, i); }
    assert forall i :: 0 <= i < |DropBack(s)| ==> DropBack(s)[i] == s[i] == out[i];
    if Valid(out) { CutHead(out, m); }
    HeadKept(out, m);
  }

  lemma BreaksStay(out: seq<Byte>, n: nat)
    requires n <= |out|
    ensures var d := DropFront(out[n..]);
            && IsEnd(out, d) && |d| <= |out| - n
            && forall i :: n <= i < |out| && out[i] == NEWLINE ==> |out| - i <= |d|
  {
    var s := out[n..];
    DropFrontIsEnd(s);
    EndOfEnd(out, s, DropFront(s));
    forall i | n <= i < |out| && out[i] == NEWLINE ensures |out| - i <= |DropFront(s)| { DropFrontStops(s, i - n); }
  }

  lemma TailKeeps(out: seq<Byte>, n: nat)
    requires n <= |out|
    ensures HoldsTail(out, n, AfterFirstBreak(DropFront(out[n..])))
  {
    BreaksStay(out, n);
    BreakInEnd(out, n, DropFront(out[n..]));
    TailKept(out, n);
    if Valid(out) { CutTail(out, n); }
  }

  /** The first line break of an end is the first of the bytes it has. */
  lemma BreakInEnd(out: seq<Byte>, n: nat, d: seq<Byte>)
    requires n <= |out| && IsEnd(out, d) && |d| <= |out| - n
    requires forall i :: n <= i < |out| && out[i] == NEWLINE ==> |out| - i <= |d|
    ensures var t := AfterFirstBreak(d);
            && (forall i :: n <= i < |out| && out[i] == 10 ==> |out| - i - 1 <= |t|)
            && (forall i :: n <= i < |out| && out[i] == 10 ==> |t| < |out| && out[|out| - |t| - 1] == 10)
            && ((forall i :: n <= i < |out| ==> out[i] != 10) ==> t == d)
  {
    var j, b := IndexByte(d, NEWLINE), |out| - |d|;
    assert d == out[b..];
    if j < 0 {
      assert d[0..] == d;
      forall i | n <= i < |out| ensures out[i] != 10 { assert i < b || out[i] == d[i - b]; }
    } else {
      assert out[b + j] == d[j] == 10;
      forall i | n <= i < |out| && out[i] == 10 ensures b + j <= i { assert d[i - b] == out[i]; }
    }
  }

  /** Up to 20000 bytes are kept whole; of more, a beginning of at most 6666 bytes and
      an end of at most 13334, with every whole line that either can hold. */
  lemma CapKeeps(out: seq<Byte>)
    ensures |out| <= 20000 ==> Cap(out) == Whole(out)
    ensures |out| > 20000 ==>
            var c := Cap(out);
            c.Clipped? && HoldsHead(out, 6666, c.head) && HoldsTail(out, |out| - 13334, c.tail)
  {
    if |out| > 20000 {
      HeadKeeps(out, 6666);
      TailKeeps(out, |out| - 13334);
    }
  }

  /** capExecOutput's head: whole characters, up to the last line break. */
  method KeepHead(s: seq<Byte>) returns (h: seq<Byte>)
    ensures h == UpToLastBreak(DropBack(s))
  {
    h := SafeCut(s);
    var i := LastIndexByte(h, NEWLINE);
    if i > 0 {
      h := h[..i + 1];
    }
  }

  method KeepTail(s: seq<Byte>) returns (t: seq<Byte>)
    ensures t == AfterFirstBreak(DropFront(s))
  {
    t := SafeCutFront(s);
    var j := IndexByte(t, NEWLINE);
    if j >= 0 {
      t := t[j + 1..];
    }
  }

  /** exec.go: capExecOutput, without the wording around the ends. */
  method CapExecOutput(out: seq<Byte>) returns (c: Capped)
    ensures c == Cap(out)
  {
    if |out| <= EXEC_INLINE_MAX {
      return Whole(out);
    }
    var h := KeepHead(out[..HEAD]);
    var t := KeepTail(out[|out| - TAIL..]);
    return Clipped(h, |out| - |h| - |t|, t);
  }
}
