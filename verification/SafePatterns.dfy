/** Patterns, segment by segment, and the directories with certain names that they
    read something beneath: which patterns open every one, and which stray. */
module SafePatterns {
  import opened Glob
  import opened GlobRules
  import opened Junk

  // ---- The text ----

  predicate Wildless(q: string) { FirstSpecial(q) == |q| }

  /** The segment reads what a file can be called. */
  predicate Possible(q: string) { '\0' !in q && (Wildless(q) ==> FileName(q)) }

  /** The pattern reads a path that a file can have, or with dir a directory that the
      walk could enter. */
  predicate PossiblePath(qs: seq<string>, dir: bool) {
    forall i :: 0 <= i < |qs| ==> Possible(qs[i]) && (i < |qs| - 1 || dir ==> qs[i] != ".git")
  }

  predicate ReadsAll(q: string, names: set<string>) { forall x :: x in names ==> SegMatches(q, x) }

  predicate ReadsNone(q: string, names: set<string>) { forall x :: x in names ==> !SegMatches(q, x) }

  /** Star pairs, then a segment that every one of the names is read by. */
  predicate StarsRead(qs: seq<string>, names: set<string>) {
    qs != [] &&
    if |qs| == 1 then qs[0] == "**" || ReadsAll(qs[0], names)
    else qs[0] == "**" && StarsRead(qs[1..], names)
  }

  /** Before the last segment, none reads a name except on the literal start; and a
      star pair has only star pairs after it, and a segment that reads every name. */
  predicate Safe(qs: seq<string>, lit: bool, names: set<string>) {
    |qs| <= 1 ||
    if qs[0] == "**" then StarsRead(qs[1..], names)
    else
      && ((lit && Wildless(qs[0])) || ReadsNone(qs[0], names))
      && Safe(qs[1..], lit && Wildless(qs[0]), names)
  }

  /** The pattern reads something beneath the path. */
  predicate Below(qs: seq<string>, ys: seq<string>)
    decreases |ys|
  {
    ys == [] ||
    (qs != [] && (qs[0] == "**" || (SegMatches(qs[0], ys[0]) && |qs| > 1 && Below(qs[1..], ys[1..]))))
  }

  /** Then it begins with the path, or reads it or a directory above it. */
  predicate Passes(qs: seq<string>, ys: seq<string>) {
    Below(qs, ys) ==> ys < qs || exists m :: 0 < m <= |ys| && Reading(qs, ys[..m])
  }

  // ---- A safe pattern opens what it passes ----

  /** The path, or a directory above it. */
  predicate Cut(y: string, m: nat) { m == |y| || AncestorEnd(y, m) }

  ghost predicate Opened(qs: seq<string>, y: string) {
    exists m: nat :: Cut(y, m) && Matches(PathAtoms(qs), y[..m])
  }

  predicate Named(p: string, y: string) { y + "/" <= p && Wildless(y) }

  /** The first segment ends at k. */
  predicate HeadAt(qs: seq<string>, s: string, k: nat) {
    qs != [] && FirstSlash(s, k) && SegMatches(qs[0], s[..k]) && Matches(PathAtoms(qs[1..]), s[k + 1..])
  }

  lemma HeadMatches(qs: seq<string>, s: string, k: nat)
    requires |qs| > 1 && NoSlash(qs[0]) && qs[0] != "**" && HeadAt(qs, s, k)
    ensures Matches(PathAtoms(qs), s)
  {
    var tail := [Lit('/')] + PathAtoms(qs[1..]);
    SegThen(qs[0], tail, s);
    assert tail[1..] == PathAtoms(qs[1..]) && s[k..][1..] == s[k + 1..];
    assert SplitsAt(qs[0], tail, s) && Fits(qs[0], tail, s, k);
  }

  lemma MatchesHead(qs: seq<string>, s: string) returns (k: nat)
    requires |qs| > 1 && NoSlash(qs[0]) && qs[0] != "**" && Matches(PathAtoms(qs), s)
    ensures HeadAt(qs, s, k)
  {
    var tail := [Lit('/')] + PathAtoms(qs[1..]);
    SegThen(qs[0], tail, s);
    assert SplitsAt(qs[0], tail, s);
    k :| Fits(qs[0], tail, s, k);
    assert tail[1..] == PathAtoms(qs[1..]) && s[k..][1..] == s[k + 1..] && s[k..][0] == s[k];
  }

  lemma LastHasNoSlash(q: string, s: string, i: nat)
    requires NoSlash(q) && q != "**" && AncestorEnd(s, i)
    ensures !Matches(PathAtoms([q]), s)
  {
    LastAtoms(q);
    SegAtomsSplit(q, s);
    assert s[i] in s;
  }

  lemma RestMatches(s: string)
    ensures Matches(PathAtoms(["**"]), s) <==> '\n' !in s
  {
    if '\n' !in s { assert s[..|s|] == s && s[|s|..] == "" && Matches([Rest][1..], s[|s|..]); }
    if Matches([Rest], s) {
      var k :| 0 <= k <= |s| && '\n' !in s[..k] && Matches([Rest][1..], s[k..]);
      assert s[..k] == s;
    }
  }

  predicate StarPairs(qs: seq<string>) { forall i :: 0 <= i < |qs| - 1 ==> qs[i] == "**" }

  lemma DirsTake(re: seq<Atom>, s: string) returns (k: nat)
    requires Matches([Dirs] + re, s)
    ensures k <= |s| && '\n' !in s[..k] && Matches(re, s[k..]) && (k > 0 ==> s[k - 1] == '/')
  {
    assert ([Dirs] + re)[1..] == re && s[0..] == s;
    k := 0;
    if !Matches(re, s) {
      var i :| 0 <= i < |s| && s[i] == '/' && '\n' !in s[..i] && Matches(re, s[i + 1..]);
      k := i + 1;
      NoNewlineMore(s, i);
    }
  }

  lemma NoNewlineMore(s: string, i: nat)
    requires AncestorEnd(s, i) && '\n' !in s[..i]
    ensures '\n' !in s[..i + 1]
  {
    assert s[..i + 1] == s[..i] + [s[i]];
  }

  lemma NoNewlineUpTo(s: string, y: string, k: nat)
    requires y <= s && k <= |s| && '\n' !in s[..k] && (k <= |y| ==> '\n' !in y[k..])
    ensures '\n' !in y
  {
    if k <= |y| {
      assert y == s[..k] + y[k..];
    } else {
      assert y == s[..k][..|y|];
    }
  }

  /** What star pairs skip has no newline in it. */
  lemma {:induction false} StarsSkip(qs: seq<string>, y: string, z: string)
    requires qs != [] && Segments(qs) && StarPairs(qs) && Matches(PathAtoms(qs), y + "/" + z)
    ensures '\n' !in y
    decreases |qs|
  {
    var s := y + "/" + z;
    assert AncestorEnd(s, |y|) && s[..|y|] == y;
    if |qs| == 1 {
      assert qs == [qs[0]];
      if qs[0] == "**" { RestMatches(s); } else { LastHasNoSlash(qs[0], s, |y|); }
    } else {
      var k := DirsTake(PathAtoms(qs[1..]), s);
      if k <= |y| {
        assert s[k..] == y[k..] + "/" + z;
        StarsSkip(qs[1..], y[k..], z);
      }
      NoNewlineUpTo(s, y, k);
    }
  }

  lemma {:induction false} StarsReadName(qs: seq<string>, names: set<string>, x: string)
    requires Segments(qs) && StarsRead(qs, names) && x in names && NoSlash(x) && '\n' !in x
    ensures Matches(PathAtoms(qs), x)
    ensures StarPairs(qs)
  {
    if |qs| == 1 {
      assert qs == [qs[0]];
      if qs[0] == "**" {
        RestMatches(x);
      } else {
        LastAtoms(qs[0]);
        SegAtomsSplit(qs[0], x);
      }
    } else {
      StarsReadName(qs[1..], names, x);
      assert PathAtoms(qs)[1..] == PathAtoms(qs[1..]);
    }
  }

  /** The base of a path is what follows its last slash. */
  lemma BaseIs(y: string) returns (k: nat)
    ensures k <= |y| && y[k..] == Base(y) && (k > 0 ==> y[k - 1] == '/') && NoSlash(Base(y))
  {
    var ps := Split(y);
    JoinSplit(y);
    var init, x := ps[..|ps| - 1], ps[|ps| - 1];
    assert ps == init + [x];
    if init == [] {
      k := 0;
    } else {
      JoinSnoc(init, x);
      k := |Join(init)| + 1;
    }
  }

  lemma BaseBelow(a: string, b: string)
    ensures Base(a + "/" + b) == Base(b)
  {
    SplitBoth(a, b);
  }

  lemma StarsOpen(qs: seq<string>, names: set<string>, y: string, z: string)
    requires |qs| > 1 && qs[0] == "**" && Segments(qs) && StarsRead(qs[1..], names)
    requires Base(y) in names && '\n' !in Base(y) && Matches(PathAtoms(qs), y + "/" + z)
    ensures Opened(qs, y)
  {
    var k := BaseIs(y);
    StarsReadName(qs[1..], names, Base(y));
    StarsSkip(qs, y, z);
    var re := PathAtoms(qs);
    assert re[1..] == PathAtoms(qs[1..]) && y[..|y|] == y;
    if k == 0 {
      assert y == Base(y);
    } else {
      assert y[k - 1] == '/' && '\n' !in y[..k - 1] && Matches(re[1..], y[k - 1 + 1..]);
    }
    assert Matches(re, y) && Cut(y, |y|);
  }

  predicate PlainName(x: string) { FileName(x) && '\n' !in x && Wildless(x) && x != ".git" }

  predicate PlainNames(names: set<string>) { forall x :: x in names ==> PlainName(x) }

  lemma {:induction false} WildlessReads(q: string, x: string)
    requires Wildless(q)
    ensures SegMatches(q, x) <==> x == q
  {
    if q != "" {
      assert !Special(q[0]);
      assert Wildless(q[1..]);
      if x != "" {
        WildlessReads(q[1..], x[1..]);
        assert q == [q[0]] + q[1..] && x == [x[0]] + x[1..];
      }
    }
  }

  lemma {:induction false} SafeOpens(qs: seq<string>, lit: bool, names: set<string>, y: string, z: string)
    requires qs != [] && Segments(qs) && Safe(qs, lit, names) && PlainNames(names) && Base(y) in names
    requires Matches(PathAtoms(qs), y + "/" + z)
    ensures Opened(qs, y) || (lit && Named(Join(qs), y))
    decreases |qs|
  {
    var s := y + "/" + z;
    assert AncestorEnd(s, |y|) && s[..|y|] == y;
    if |qs| == 1 {
      assert qs == [qs[0]];
      if qs[0] == "**" {
        RestMatches(s);
        RestMatches(y);
        assert y[..|y|] == y && Cut(y, |y|);
      } else {
        LastHasNoSlash(qs[0], s, |y|);
      }
    } else if qs[0] == "**" {
      StarsOpen(qs, names, y, z);
    } else {
      var k := MatchesHead(qs, s);
      if k < |y| {
        SafeOpensBelow(qs, lit, names, y, z, k);
      } else {
        OneSegment(y);
        assert lit && Wildless(qs[0]);
        WildlessReads(qs[0], y);
      }
    }
  }

  lemma {:induction false} SafeOpensBelow(qs: seq<string>, lit: bool, names: set<string>, y: string, z: string, k: nat)
    requires |qs| > 1 && qs[0] != "**" && Segments(qs) && Safe(qs, lit, names)
    requires PlainNames(names) && Base(y) in names
    requires k < |y| && HeadAt(qs, y + "/" + z, k)
    ensures Opened(qs, y) || (lit && Named(Join(qs), y))
    decreases |qs|, 0
  {
    var s, a, b := y + "/" + z, y[..k], y[k + 1..];
    assert s[..k] == a && s[k] == y[k] == '/' && s[k + 1..] == b + "/" + z;
    assert y == a + "/" + b;
    BaseBelow(a, b);
    SafeOpens(qs[1..], lit && Wildless(qs[0]), names, b, z);
    if Opened(qs[1..], b) {
      var m: nat :| Cut(b, m) && Matches(PathAtoms(qs[1..]), b[..m]);
      OpenedAfter(qs, y, k, m);
    } else {
      WildlessReads(qs[0], a);
      WildlessJoin(a, b);
    }
  }

  lemma OpenedAfter(qs: seq<string>, y: string, k: nat, m: nat)
    requires |qs| > 1 && qs[0] != "**" && NoSlash(qs[0]) && FirstSlash(y, k) && SegMatches(qs[0], y[..k])
    requires Cut(y[k + 1..], m) && Matches(PathAtoms(qs[1..]), y[k + 1..][..m])
    ensures Opened(qs, y)
  {
    var t := y[..k + 1 + m];
    assert t[..k] == y[..k] && t[k] == '/' && t[k + 1..] == y[k + 1..][..m];
    HeadMatches(qs, t, k);
    assert Cut(y, k + 1 + m);
  }

  lemma WildlessJoin(a: string, b: string)
    requires Wildless(a) && Wildless(b)
    ensures Wildless(a + "/" + b)
  {
    var s := a + "/" + b;
    forall i | 0 <= i < |s| ensures !Special(s[i]) {
      if i < |a| { assert s[i] == a[i]; } else if i > |a| { assert s[i] == b[i - |a| - 1]; }
    }
  }

  // ---- The copies of a workspace ----

  lemma {:induction false} JoinBoth(ps: seq<string>, qs: seq<string>)
    requires ps != [] && qs != []
    ensures Join(ps + qs) == Join(ps) + "/" + Join(qs)
  {
    assert (ps + qs)[1..] == ps[1..] + qs;
    if |ps| > 1 { JoinBoth(ps[1..], qs); }
  }

  lemma {:induction false} MatchBelow(qs: seq<string>, ys: seq<string>, z: string)
    requires qs != [] && Segments(qs) && ys != [] && Segments(ys) && Matches(PathAtoms(qs), Join(ys) + "/" + z)
    ensures Below(qs, ys)
    decreases |ys|
  {
    var s := Join(ys) + "/" + z;
    if qs[0] != "**" {
      assert AncestorEnd(s, |Join(ys)|);
      if |qs| == 1 {
        assert qs == [qs[0]];
        LastHasNoSlash(qs[0], s, |Join(ys)|);
      } else {
        var k := MatchesHead(qs, s);
        HeadOfJoin(ys, z, k);
        if |ys| > 1 { MatchBelow(qs[1..], ys[1..], z); }
      }
    }
  }

  lemma HeadIsFirst(a: string, x: string, k: nat)
    requires NoSlash(a) && FirstSlash(a + "/" + x, k)
    ensures var s := a + "/" + x; s[..k] == a && s[k + 1..] == x
  {
    var s := a + "/" + x;
    assert s == a + ("/" + x) && s[|a|] == '/' && s[..|a|] == a;
  }

  lemma Regroup(a: string, b: string, c: string)
    ensures a + "/" + b + "/" + c == a + "/" + (b + "/" + c)
  {}

  lemma HeadOfJoin(ys: seq<string>, z: string, k: nat)
    requires ys != [] && Segments(ys) && FirstSlash(Join(ys) + "/" + z, k)
    ensures var s := Join(ys) + "/" + z;
            s[..k] == ys[0] && s[k + 1..] == if |ys| == 1 then z else Join(ys[1..]) + "/" + z
  {
    if |ys| == 1 {
      HeadIsFirst(ys[0], z, k);
    } else {
      Regroup(ys[0], Join(ys[1..]), z);
      HeadIsFirst(ys[0], Join(ys[1..]) + "/" + z, k);
    }
  }

  lemma CutOfJoin(ys: seq<string>, m: nat)
    requires 0 < m <= |ys|
    ensures Cut(Join(ys), |Join(ys[..m])|) && Join(ys)[..|Join(ys[..m])|] == Join(ys[..m])
  {
    if m == |ys| {
      assert ys[..m] == ys;
    } else {
      JoinBoth(ys[..m], ys[m..]);
      assert ys == ys[..m] + ys[m..];
    }
  }

  lemma PassesOpens(qs: seq<string>, ys: seq<string>, z: string)
    requires qs != [] && Segments(qs) && ys != [] && IsPath(ys) && Wildless(Join(ys)) && Passes(qs, ys)
    requires Matches(PathAtoms(qs), Join(ys) + "/" + z)
    ensures Opened(qs, Join(ys)) || Named(Join(qs), Join(ys))
  {
    MatchBelow(qs, ys, z);
    if ys < qs {
      JoinBoth(ys, qs[|ys|..]);
      assert qs == ys + qs[|ys|..];
    } else {
      var m :| 0 < m <= |ys| && Reading(qs, ys[..m]);
      PathMeaning(qs, ys[..m]);
      CutOfJoin(ys, m);
    }
  }

  // ---- A pattern that no file's path is read by ----

  predicate FileSegments(ps: seq<string>, inside: bool) {
    FilePath(ps) && (inside && ps != [] ==> ps[|ps| - 1] != ".git")
  }

  lemma ReadsPossible(q: string, x: string)
    requires SegMatches(q, x) && FileName(x)
    ensures Possible(q) && (x != ".git" ==> q != ".git")
  {
    if '\0' in q { CharNeeded(q, '\0', x); }
    if Wildless(q) { WildlessReads(q, x); }
  }

  lemma FileSuffix(s: string, k: nat, inside: bool)
    requires k <= |s| && (k > 0 ==> s[k - 1] == '/') && FileSegments(Split(s), inside)
    ensures FileSegments(Split(s[k..]), inside)
  {
    if k == 0 {
      assert s[0..] == s;
    } else {
      assert s == s[..k - 1] + "/" + s[k..];
      SplitBoth(s[..k - 1], s[k..]);
      FileSegmentsTail(Split(s[..k - 1]), Split(s[k..]), inside);
    }
  }

  lemma LastPossible(q: string, s: string, inside: bool)
    requires NoSlash(q) && q != "**" && Matches(PathAtoms([q]), s) && FileSegments(Split(s), inside)
    ensures PossiblePath([q], inside)
  {
    LastAtoms(q);
    SegAtomsSplit(q, s);
    OneSegment(s);
    assert FileName([s][0]);
    ReadsPossible(q, s);
  }

  lemma {:induction false} MatchedPossible(qs: seq<string>, s: string, inside: bool)
    requires qs != [] && Segments(qs) && Matches(PathAtoms(qs), s) && FileSegments(Split(s), inside)
    ensures PossiblePath(qs, inside)
    decreases |qs|
  {
    if |qs| == 1 {
      assert qs == [qs[0]];
      if qs[0] == "**" { StarsPossible(); } else { LastPossible(qs[0], s, inside); }
    } else if qs[0] == "**" {
      StarsPossible();
      var k := DirsTake(PathAtoms(qs[1..]), s);
      FileSuffix(s, k, inside);
      MatchedPossible(qs[1..], s[k..], inside);
      PossibleMore(qs, inside);
    } else {
      var k := MatchesHead(qs, s);
      var a, b := s[..k], s[k + 1..];
      assert s == a + "/" + b;
      SplitWhole(a, b);
      FileSegmentsTail([a], Split(b), inside);
      assert FileName(([a] + Split(b))[0]);
      ReadsPossible(qs[0], a);
      MatchedPossible(qs[1..], b, inside);
      PossibleMore(qs, inside);
    }
  }

  lemma StarsPossible()
    ensures Possible("**")
  {
    assert FirstSpecial("**") == 0;
  }

  lemma PossibleMore(qs: seq<string>, inside: bool)
    requires |qs| > 1 && Possible(qs[0]) && qs[0] != ".git" && PossiblePath(qs[1..], inside)
    ensures PossiblePath(qs, inside)
  {
    forall i | 0 < i < |qs| ensures Possible(qs[i]) && (i < |qs| - 1 || inside ==> qs[i] != ".git") {
      assert qs[i] == qs[1..][i - 1];
    }
  }

  lemma FileSegmentsTail(ps: seq<string>, qs: seq<string>, inside: bool)
    requires qs != [] && FileSegments(ps + qs, inside)
    ensures FileSegments(qs, inside)
  {
    forall i | 0 <= i < |qs| ensures FileName(qs[i]) && (i < |qs| - 1 ==> qs[i] != ".git") {
      assert qs[i] == (ps + qs)[|ps| + i];
    }
  }

  // ---- A pattern that is not safe passes junk by ----

  predicate AllWildless(ys: seq<string>) { forall i :: 0 <= i < |ys| ==> Wildless(ys[i]) }

  /** The pattern reads something beneath the path, and neither it nor a directory
      above it; nor does it begin with it, where that is asked. */
  ghost predicate Strays(qs: seq<string>, lit: bool, ys: seq<string>, zs: seq<string>) {
    && ys != [] && zs != [] && Reading(qs, ys + zs)
    && (forall m :: 0 <= m <= |ys| ==> !Reading(qs, ys[..m]))
    && (lit && AllWildless(ys) ==> !(ys < qs))
  }

  predicate Legal(qs: seq<string>) {
    forall i :: 0 <= i < |qs| ==> qs[i] != "" && NoSlash(qs[i]) && '\n' !in qs[i] && Plain(qs[i])
  }

  /** Segments that the path of a file can have. */
  ghost predicate FileLike(ps: seq<string>, inside: bool) { IsPath(ps) && FileSegments(ps, inside) }

  lemma {:induction false} SampleChars(q: string, c: char)
    ensures c in SampleSegment(q) ==> c == 'x' || c in q
  {
    if q != "" {
      SampleChars(q[1..], c);
      assert q == [q[0]] + q[1..];
    }
  }

  lemma {:induction false} SampleHas(q: string)
    requires Plain(q) && !Wildless(q)
    ensures 'x' in SampleSegment(q)
  {
    if q[0] == '*' || q[0] == '?' {
      assert SampleSegment(q)[0] == 'x';
    } else {
      assert q[0] in q && q == [q[0]] + q[1..];
      SampleHas(q[1..]);
    }
  }

  lemma SampleFileName(q: string)
    requires Possible(q) && q != "" && NoSlash(q) && Plain(q)
    ensures FileName(SampleSegment(q)) && (q != ".git" ==> SampleSegment(q) != ".git")
    ensures Wildless(q) ==> SampleSegment(q) == q
  {
    SampleSegmentMatches(q);
    SampleChars(q, '\0');
    if Wildless(q) { WildlessReads(q, SampleSegment(q)); } else { SampleHas(q); }
  }

  lemma FileLikeMore(x: string, ps: seq<string>, inside: bool)
    requires FileName(x) && '\n' !in x && x != ".git" && FileLike(ps, inside) && ps != []
    ensures FileLike([x] + ps, inside)
  {
    var all := [x] + ps;
    forall i | 0 < i < |all| ensures all[i] == ps[i - 1] {}
  }

  lemma {:induction false} SampleFile(qs: seq<string>, inside: bool)
    requires qs != [] && Legal(qs) && PossiblePath(qs, inside)
    ensures Reading(qs, Sample(qs)) && FileLike(Sample(qs), inside) && Sample(qs) != []
  {
    SampleReads(qs);
    if qs == ["**"] {
    } else if |qs| == 1 {
      SampleFileName(qs[0]);
      assert Sample(qs) == [SampleSegment(qs[0])];
    } else {
      PossibleTail(qs, inside);
      SampleFile(qs[1..], inside);
      if qs[0] != "**" {
        SampleFileName(qs[0]);
        SampleSegmentMatches(qs[0]);
        FileLikeMore(SampleSegment(qs[0]), Sample(qs[1..]), inside);
      }
    }
  }

  lemma PossibleTail(qs: seq<string>, inside: bool)
    requires |qs| > 1 && PossiblePath(qs, inside)
    ensures PossiblePath(qs[1..], inside) && Possible(qs[0]) && qs[0] != ".git"
  {}

  lemma {:induction false} StarsMiss(qs: seq<string>, names: set<string>) returns (x: string)
    requires qs != [] && !StarsRead(qs, names) && names != {}
    ensures x in names && !Reading(qs, [x])
  {
    if |qs| == 1 {
      x :| x in names && !SegMatches(qs[0], x);
      assert qs == [qs[0]] + [];
      ReadingSegment(qs[0], [], [x]);
    } else if qs[0] == "**" {
      x := StarsMiss(qs[1..], names);
      StarsReadOne(qs[1..], x);
      assert qs == ["**"] + qs[1..];
    } else {
      x :| x in names;
      ReadingNothing(qs[1..]);
      assert [x][1..] == [];
    }
  }

  lemma StarsReadOne(qs: seq<string>, x: string)
    requires qs != []
    ensures Reading(["**"] + qs, [x]) <==> Reading(qs, [x])
  {
    ReadingStars(qs, [x]);
    ReadingNothing(qs);
    assert [x][0..] == [x] && [x][1..] == [];
    if Reading(qs, [x]) { assert ReadsAt(qs, [x], 0); }
    if j: nat :| ReadsAt(qs, [x], j) { assert j == 0 || j == 1; }
  }

  /** A star pair, and a name that what comes after it does not read. */
  lemma StarsStray(qs: seq<string>, lit: bool, inside: bool, x: string)
    requires |qs| > 1 && qs[0] == "**" && Legal(qs) && PossiblePath(qs, inside)
    requires PlainName(x) && !Reading(qs[1..], [x])
    ensures Strays(qs, lit, [x], Sample(qs[1..])) && FileLike([x] + Sample(qs[1..]), inside)
  {
    var zs := Sample(qs[1..]);
    PossibleTail(qs, inside);
    SampleFile(qs[1..], inside);
    FileLikeMore(x, zs, inside);
    assert qs == ["**"] + qs[1..];
    ReadingStars(qs[1..], [x] + zs);
    assert ([x] + zs)[1..] == zs && ReadsAt(qs[1..], [x] + zs, 1);
    StarsReadOne(qs[1..], x);
    PrefixesOfOne(qs, x);
    assert FirstSpecial("**") == 0;
  }

  lemma PrefixesOfOne(qs: seq<string>, x: string)
    requires qs != [] && !Reading(qs, [x])
    ensures forall m :: 0 <= m <= |[x]| ==> !Reading(qs, [x][..m])
  {
    ReadingNothing(qs);
    forall m | 0 <= m <= |[x]| ensures !Reading(qs, [x][..m]) {
      assert [x][..m] == if m == 0 then [] else [x];
    }
  }

  /** A segment that reads a name, off the literal start. */
  lemma NameStray(qs: seq<string>, lit: bool, inside: bool, x: string)
    requires |qs| > 1 && qs[0] != "**" && Legal(qs) && PossiblePath(qs, inside)
    requires PlainName(x) && SegMatches(qs[0], x) && !(lit && Wildless(qs[0]))
    ensures Strays(qs, lit, [x], Sample(qs[1..])) && FileLike([x] + Sample(qs[1..]), inside)
  {
    var zs := Sample(qs[1..]);
    PossibleTail(qs, inside);
    SampleFile(qs[1..], inside);
    FileLikeMore(x, zs, inside);
    assert ([x] + zs)[1..] == zs && [x][1..] == [];
    ReadingNothing(qs[1..]);
    PrefixesOfOne(qs, x);
  }

  /** One that reads a segment, before a pattern that strays. */
  lemma StrayMore(qs: seq<string>, lit: bool, x: string, ys: seq<string>, zs: seq<string>)
    requires |qs| > 1 && qs[0] != "**" && SegMatches(qs[0], x) && (Wildless(qs[0]) ==> x == qs[0])
    requires Strays(qs[1..], lit && Wildless(qs[0]), ys, zs)
    ensures Strays(qs, lit, [x] + ys, zs)
  {
    var all := [x] + ys;
    assert (all + zs)[1..] == ys + zs;
    forall m | 0 <= m <= |all| ensures !Reading(qs, all[..m]) {
      if m == 0 { ReadingNothing(qs); } else { assert all[..m][1..] == ys[..m - 1]; }
    }
    if AllWildless(all) && all < qs {
      assert all[0] == x == qs[0] && all[1..] == ys < qs[1..];
      forall i | 0 <= i < |ys| ensures Wildless(ys[i]) { assert all[i + 1] == ys[i]; }
    }
  }

  lemma {:induction false} UnsafeStrays(qs: seq<string>, lit: bool, inside: bool, names: set<string>)
      returns (ys: seq<string>, zs: seq<string>)
    requires !Safe(qs, lit, names) && Legal(qs) && PossiblePath(qs, inside) && PlainNames(names) && names != {}
    ensures Strays(qs, lit, ys, zs) && FileLike(ys + zs, inside) && ys[|ys| - 1] in names
  {
    if qs[0] == "**" {
      var x := StarsMiss(qs[1..], names);
      StarsStray(qs, lit, inside, x);
      ys, zs := [x], Sample(qs[1..]);
    } else if !(lit && Wildless(qs[0])) && !ReadsNone(qs[0], names) {
      var x :| x in names && SegMatches(qs[0], x);
      NameStray(qs, lit, inside, x);
      ys, zs := [x], Sample(qs[1..]);
    } else {
      PossibleTail(qs, inside);
      var us;
      us, zs := UnsafeStrays(qs[1..], lit && Wildless(qs[0]), inside, names);
      var x := SampleSegment(qs[0]);
      SampleFileName(qs[0]);
      SampleSegmentMatches(qs[0]);
      StrayMore(qs, lit, x, us, zs);
      FileLikeMore(x, us + zs, inside);
      ys := [x] + us;
      assert ys + zs == [x] + (us + zs);
    }
  }

  lemma {:induction false} BelowReads(qs: seq<string>, ys: seq<string>, inside: bool) returns (zs: seq<string>)
    requires qs != [] && Below(qs, ys) && Legal(qs) && PossiblePath(qs, inside)
    ensures Reading(qs, ys + zs) && FileLike(zs, inside) && zs != []
    decreases |ys|
  {
    if ys == [] {
      SampleFile(qs, inside);
      zs := Sample(qs);
      assert ys + zs == zs;
    } else if qs[0] == "**" {
      if |qs| == 1 {
        zs := ["x"];
        assert qs == ["**"];
      } else {
        PossibleTail(qs, inside);
        SampleFile(qs[1..], inside);
        zs := Sample(qs[1..]);
        assert qs == ["**"] + qs[1..] && (ys + zs)[|ys|..] == zs;
        ReadingStars(qs[1..], ys + zs);
        assert ReadsAt(qs[1..], ys + zs, |ys|);
      }
    } else {
      PossibleTail(qs, inside);
      zs := BelowReads(qs[1..], ys[1..], inside);
      assert (ys + zs)[1..] == ys[1..] + zs;
    }
  }

  lemma FileLikeBoth(ys: seq<string>, zs: seq<string>, inside: bool)
    requires FileLike(ys, true) && FileLike(zs, inside) && zs != []
    ensures FileLike(ys + zs, inside)
  {
    var all := ys + zs;
    assert all[|all| - 1] == zs[|zs| - 1];
    forall i | 0 <= i < |all|
      ensures all[i] != "" && NoSlash(all[i]) && '\n' !in all[i]
      ensures FileName(all[i]) && (i < |all| - 1 ==> all[i] != ".git")
    {
      assert all[i] == if i < |ys| then ys[i] else zs[i - |ys|];
    }
  }

  lemma PassedStrays(qs: seq<string>, ys: seq<string>, inside: bool) returns (zs: seq<string>)
    requires qs != [] && Legal(qs) && PossiblePath(qs, inside) && FileLike(ys, true) && ys != [] && !Passes(qs, ys)
    ensures Strays(qs, true, ys, zs) && FileLike(ys + zs, inside)
  {
    zs := BelowReads(qs, ys, inside);
    FileLikeBoth(ys, zs, inside);
    ReadingNothing(qs);
  }
}
