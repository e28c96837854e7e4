/** Which lines reach the junk on the way to what they name: the text of a line
    against the names that directories are junk by. */
module JunkLines {
  import opened Glob
  import opened GlobRules
  import opened Junk
  import opened SafePatterns

  // ---- A line ----

  /** The names by which a directory on the way to a file can be junk. */
  function JunkNames(): set<string> { Fetched() + Built() }

  function Fetched(): set<string> {
    {"node_modules", "bower_components", "Pods", ".venv", "venv", "__pycache__", ".tox", ".mypy_cache",
     ".pytest_cache", ".cache", ".gradle", ".terraform"}
  }

  function Built(): set<string> {
    {"dist", "build", "out", ".next", ".nuxt", ".svelte-kit", "DerivedData", "coverage", ".idea", "env", "target"}
  }

  predicate Letter(c: char) { 'a' <= c <= 'z' || 'A' <= c <= 'Z' || c == '.' || c == '-' || c == '_' }

  predicate Letters(x: string) { forall i :: 0 <= i < |x| ==> Letter(x[i]) }

  lemma LettersOnly(x: string)
    requires Letters(x)
    ensures NoSlash(x) && '\n' !in x && '\0' !in x && Wildless(x)
  {}

  lemma LettersArePlain(x: string)
    requires Letters(x) && x !in {"", ".", "..", ".git"}
    ensures PlainName(x)
  {
    LettersOnly(x);
  }

  lemma FetchedLetters(x: string)
    requires x in Fetched()
    ensures Letters(x)
  {}

  lemma BuiltLetters(x: string)
    requires x in Built()
    ensures Letters(x)
  {}

  /** They are the names a directory can be junk by, less .git, which is not entered. */
  ghost predicate TheNames(names: set<string>) {
    names != {} && forall x :: x in names <==> JunkOnWay(x)
  }

  predicate JunkOnWay(x: string) { JunkBase(x) && x != ".git" }

  lemma JunkNameIs(names: set<string>, x: string)
    requires names == JunkNames()
    ensures x in names <==> JunkOnWay(x)
  {}

  lemma JunkNamePlain(names: set<string>, x: string)
    requires names == JunkNames() && x in names
    ensures PlainName(x)
  {
    if x in Fetched() { FetchedLetters(x); } else { BuiltLetters(x); }
    LettersArePlain(x);
  }

  lemma JunkNamesAre(names: set<string>)
    requires names == JunkNames()
    ensures TheNames(names)
  {
    forall x ensures x in names <==> JunkOnWay(x) { JunkNameIs(names, x); }
    assert "dist" in names;
  }

  lemma NamesArePlain(names: set<string>)
    requires TheNames(names)
    ensures PlainNames(names)
  {
    forall x | x in names ensures PlainName(x) {
      JunkNameIs(JunkNames(), x);
      JunkNamePlain(JunkNames(), x);
    }
  }

  /** The segments are safe of these names, and pass neither copy of a workspace by. */
  predicate SafeText(qs: seq<string>, names: set<string>) {
    && Safe(qs, true, names)
    && Passes(qs, [".dun", "worktrees"]) && Passes(qs, [".claude", "worktrees"])
  }

  lemma TwoSegments(a: string, b: string)
    requires Letters(a) && Letters(b) && a != "" && b != ""
    ensures Split(a + "/" + b) == [a, b] && IsPath([a, b]) && Wildless(a + "/" + b)
  {
    LettersOnly(a);
    LettersOnly(b);
    SplitWhole(a, b);
    OneSegment(b);
    WildlessJoin(a, b);
  }

  lemma Copies(d: string)
    requires WorkspaceCopy(d)
    ensures Split(d) == [".dun", "worktrees"] || Split(d) == [".claude", "worktrees"]
    ensures IsPath(Split(d)) && Wildless(d)
  {
    if d == ".dun/worktrees" {
      TwoSegments(".dun", "worktrees");
      assert d == ".dun" + "/" + "worktrees";
    } else {
      TwoSegments(".claude", "worktrees");
      assert d == ".claude" + "/" + "worktrees";
    }
  }

  /** A safe pattern opens, or names, the junk that it reads something beneath. */
  lemma JunkOpens(qs: seq<string>, names: set<string>, d: string, z: string)
    requires qs != [] && Segments(qs) && TheNames(names) && SafeText(qs, names)
    requires WorkspaceCopy(d) || JunkOnWay(Base(d))
    requires Matches(PathAtoms(qs), d + "/" + z)
    ensures Opened(qs, d) || Named(Join(qs), d)
  {
    if WorkspaceCopy(d) {
      Copies(d);
      JoinSplit(d);
      PassesOpens(qs, Split(d), z);
    } else {
      NamesArePlain(names);
      SafeOpens(qs, true, names, d, z);
    }
  }

  /** The rule of an un-negated line that is anchored: it matches what the line's
      segments do. */
  ghost predicate RuleOf(r: Rule, p: string, dir: bool) {
    && r.re == PathAtoms(Split(p)) && r.base == "" && !r.negate && r.dirOnly == dir
    && r.prefix == if FirstSpecial(p) < |p| then p[..FirstSpecial(p)] else p + "/"
  }

  lemma LineRule(p: string, lead: bool, dir: bool)
    requires Bare(p) && Ascii(p) && (lead || '/' in p)
    ensures RuleOf(RuleFor("", Body(p, lead), false, dir), p, dir)
  {
    BodyRule("", p, false, lead, dir);
    CompileStart(p);
    NamingLine(p, lead, dir);
  }

  lemma JunkOnTheWayIs(rel: string, n: nat)
    requires JunkOnTheWay(rel, n)
    ensures WorkspaceCopy(rel[..n]) || JunkOnWay(Base(rel[..n]))
  {
    assert rel == rel[..n] + "/" + rel[n + 1..];
    SplitBoth(rel[..n], rel[n + 1..]);
    var ps, k := Split(rel), |Split(rel[..n])|;
    assert ps[k - 1] == Base(rel[..n]) && k - 1 < |ps| - 1;
  }

  /** The rule of a line whose text is safe reaches the junk. */
  lemma SafeRule(p: string, dir: bool, r: Rule, names: set<string>)
    requires Ascii(p) && RuleOf(r, p, dir) && TheNames(names) && SafeText(Split(p), names)
    ensures ReachesJunk([r])
  {
    forall rel: string, n: nat | JunkOnTheWay(rel, n) ensures ReachedOnTheWay([r], rel, n) {
      JunkOnTheWayIs(rel, n);
      forall z ensures OpensFor(r, rel[..n], z) {
        if Matches(r.re, rel[..n] + "/" + z) { SafeRuleOpens(p, dir, r, names, rel[..n], z); }
      }
      if Covered(Anchored([r]), rel, false) { OpenRuleReaches(r, rel, n); }
    }
  }

  /** The rule matches what it covers, or a directory above it. */
  lemma CoveringOne(r: Rule, rel: string) returns (c: nat)
    requires !r.negate && Covered(Anchored([r]), rel, false)
    ensures Cut(rel, c) && Applies(r, rel[..c], c < |rel|)
  {
    var s;
    c, s := CoveringRule([r], rel);
  }

  ghost predicate OpensFor(r: Rule, d: string, z: string) { Matches(r.re, d + "/" + z) ==> Reaches([r], d) }

  lemma OpenRuleReaches(r: Rule, rel: string, n: nat)
    requires r.base == "" && !r.negate && AncestorEnd(rel, n) && (forall z :: OpensFor(r, rel[..n], z))
    requires Covered(Anchored([r]), rel, false)
    ensures Reaches([r], rel[..n])
  {
    var c := CoveringOne(r, rel);
    if n >= c {
      assert rel[..c] == rel[..n][..c];
      ReachedAbove([r], rel[..n], c, r);
    } else {
      assert rel[..c] == rel[..n] + "/" + rel[n + 1..c];
      assert OpensFor(r, rel[..n], rel[n + 1..c]);
    }
  }

  lemma SafeRuleOpens(p: string, dir: bool, r: Rule, names: set<string>, d: string, z: string)
    requires Ascii(p) && RuleOf(r, p, dir) && TheNames(names) && SafeText(Split(p), names)
    requires (WorkspaceCopy(d) || JunkOnWay(Base(d))) && Matches(r.re, d + "/" + z)
    ensures Reaches([r], d)
  {
    JoinSplit(p);
    JunkOpens(Split(p), names, d, z);
    if Opened(Split(p), d) {
      OpenedReaches(p, r, d);
    } else {
      NamedReaches(p, r, d);
    }
  }

  lemma OpenedReaches(p: string, r: Rule, d: string)
    requires r.re == PathAtoms(Split(p)) && r.base == "" && !r.negate && Opened(Split(p), d)
    ensures Reaches([r], d)
  {
    var m: nat :| Cut(d, m) && Matches(PathAtoms(Split(p)), d[..m]);
    ReachedAbove([r], d, m, r);
  }

  lemma NamedReaches(p: string, r: Rule, d: string)
    requires Ascii(p) && Named(p, d) && !r.negate
    requires r.prefix == if FirstSpecial(p) < |p| then p[..FirstSpecial(p)] else p + "/"
    ensures Reaches([r], d)
  {
    var n := FirstSpecial(p);
    forall i | 0 <= i < |d| + 1 ensures !Special(p[i]) { assert p[i] == (d + "/")[i]; }
    assert n >= |d| + 1 && d + "/" <= p[..n];
    NamedByStart(r, p[..n], d);
    assert [r][0] == r;
  }

  lemma AncestorSegments(rel: string, c: nat)
    requires IsFilePath(rel) && AncestorEnd(rel, c)
    ensures FileSegments(Split(rel[..c]), true)
  {
    var a, b := Split(rel[..c]), Split(rel[c + 1..]);
    assert rel == rel[..c] + "/" + rel[c + 1..];
    SplitBoth(rel[..c], rel[c + 1..]);
    forall i | 0 <= i < |a| ensures FileName(a[i]) && a[i] != ".git" { assert a[i] == (a + b)[i]; }
  }

  /** The rule of a line that no file's path is read by covers none. */
  lemma ImpossibleRule(p: string, dir: bool, r: Rule)
    requires RuleOf(r, p, dir) && !PossiblePath(Split(p), dir)
    ensures ReachesJunk([r])
  {
    forall rel: string, n: nat | JunkOnTheWay(rel, n) ensures ReachedOnTheWay([r], rel, n) {
      if Covered(Anchored([r]), rel, false) {
        var c := CoveringOne(r, rel);
        if c < |rel| { AncestorSegments(rel, c); } else { assert rel[..c] == rel; }
        JoinSplit(p);
        MatchedPossible(Split(p), rel[..c], dir);
        assert false;
      }
    }
  }

  // ---- Such a line does not reach junk on the way ----

  /** The path that strays, or one in it. */
  function Stray(ys: seq<string>, zs: seq<string>, dir: bool): string {
    if dir then Join(ys + zs) + "/" + "k" else Join(ys + zs)
  }

  lemma StrayPlace(ys: seq<string>, zs: seq<string>, dir: bool)
    requires ys != [] && zs != []
    ensures var rel, n := Stray(ys, zs, dir), |Join(ys)|; AncestorEnd(rel, n) && rel[..n] == Join(ys)
  {
    JoinBoth(ys, zs);
  }

  lemma StrayIsFile(ps: seq<string>, dir: bool)
    requires ps != [] && FileLike(ps, dir)
    ensures IsFilePath(if dir then Join(ps) + "/" + "k" else Join(ps))
  {
    SplitJoin(ps);
    if dir {
      SplitBoth(Join(ps), "k");
      OneSegment("k");
      FileThenName(ps, "k");
    }
  }

  lemma FileThenName(ps: seq<string>, x: string)
    requires FileSegments(ps, true) && FileName(x)
    ensures FilePath(ps + [x])
  {
    var all := ps + [x];
    forall i | 0 <= i < |all| ensures FileName(all[i]) && (i < |all| - 1 ==> all[i] != ".git") {
      assert all[i] == if i < |ps| then ps[i] else x;
    }
  }

  lemma MatchedIsCovered(r: Rule, f: string)
    requires r.base == "" && !r.negate && r.prefix != "" && Matches(r.re, f)
    ensures Covered(Anchored([r]), if r.dirOnly then f + "/" + "k" else f, false)
  {
    if r.dirOnly { CoveredInside(r, f, "k"); } else { OneVerdict(r, f, false); }
  }

  lemma StrayIsCovered(p: string, dir: bool, r: Rule, ys: seq<string>, zs: seq<string>)
    requires RuleOf(r, p, dir) && r.prefix != "" && ys + zs != [] && IsPath(ys + zs) && Reading(Split(p), ys + zs)
    ensures Covered(Anchored([r]), Stray(ys, zs, dir), false)
  {
    JoinSplit(p);
    PathMeaning(Split(p), ys + zs);
    MatchedIsCovered(r, Join(ys + zs));
  }

  lemma {:induction false} AncestorIsJoin(ys: seq<string>, i: nat) returns (m: nat)
    requires ys != [] && Segments(ys) && AncestorEnd(Join(ys), i)
    ensures 0 < m < |ys| && Join(ys)[..i] == Join(ys[..m])
  {
    var s := Join(ys);
    if |ys| == 1 {
      assert false;
    } else {
      var rest := Join(ys[1..]);
      assert s == ys[0] + "/" + rest;
      if i < |ys[0]| {
        assert false;
      } else if i == |ys[0]| {
        m := 1;
        assert ys[..1] == [ys[0]] && s[..i] == ys[0];
      } else {
        var k := i - |ys[0]| - 1;
        assert s[i] == rest[k] && s[..i] == ys[0] + "/" + rest[..k];
        var l := AncestorIsJoin(ys[1..], k);
        m := l + 1;
        assert ys[..m][1..] == ys[1..][..l];
      }
    }
  }

  lemma StrayNotApplies(p: string, dir: bool, r: Rule, ys: seq<string>, m: nat)
    requires RuleOf(r, p, dir) && IsPath(ys) && 0 < m <= |ys| && !Reading(Split(p), ys[..m])
    ensures !Applies(r, Join(ys[..m]), true)
  {
    JoinSplit(p);
    PathMeaning(Split(p), ys[..m]);
  }

  lemma AsciiFromBytes(s: string)
    requires Ascii(Bytes(s))
    ensures Bytes(s) == s && Ascii(s)
  {
    BytesAreHigher(s);
    NoneHigh(Bytes(s));
    AsciiBytes(s);
  }

  lemma {:induction false} NoneHigh(s: string)
    requires Ascii(s)
    ensures High(s) == 0
  {
    if s != "" { NoneHigh(s[1..]); }
  }

  lemma {:induction false} WildlessReadThemselves(ys: seq<string>)
    requires AllWildless(ys)
    ensures Reading(ys, ys)
  {
    if ys != [] {
      assert FirstSpecial("**") == 0;
      WildlessReads(ys[0], ys[0]);
      WildlessReadThemselves(ys[1..]);
    }
  }

  lemma SegmentsWildless(ys: seq<string>)
    requires ys != [] && Segments(ys) && Wildless(Join(ys))
    ensures AllWildless(ys)
  {
    SplitJoin(ys);
    forall i | 0 <= i < |ys| ensures Wildless(ys[i]) {
      SplitIn(Join(ys), i);
      forall k | 0 <= k < |ys[i]| ensures !Special(ys[i][k]) { assert ys[i][k] in Join(ys); }
    }
  }

  lemma BegunSegments(d: string, p: string)
    requires d <= p && |d| < |p| && p[|d|] == '/'
    ensures Split(d) < Split(p)
  {
    assert p == d + "/" + p[|d| + 1..];
    SplitBoth(d, p[|d| + 1..]);
  }

  /** What a rule names, its pattern begins with, or is. */
  lemma NamedIsBegun(p: string, dir: bool, r: Rule, ys: seq<string>)
    requires RuleOf(r, p, dir) && Ascii(p) && ys != [] && IsPath(ys) && Names(r, Join(ys))
    ensures AllWildless(ys) && (ys < Split(p) || Reading(Split(p), ys))
  {
    NamedStart(p, dir, r, Join(ys));
    SegmentsWildless(ys);
    SplitJoin(ys);
    if |Join(ys)| < |p| {
      BegunSegments(Join(ys), p);
    } else {
      assert Join(ys) == p;
      WildlessReadThemselves(ys);
    }
  }

  lemma NamedStart(p: string, dir: bool, r: Rule, d: string)
    requires RuleOf(r, p, dir) && Ascii(p) && Names(r, d)
    ensures d <= p && Wildless(d) && (|d| < |p| ==> p[|d|] == '/')
  {
    var b := Bytes(d);
    forall i | 0 <= i < |b| ensures b[i] < '\U{80}' { assert b[i] == (b + "/")[i] == r.prefix[i]; }
    AsciiFromBytes(d);
    var n := FirstSpecial(p);
    forall i | 0 <= i < |d| ensures i < n && d[i] == p[i] { assert d[i] == (d + "/")[i] == r.prefix[i]; }
    assert (d + "/")[|d|] == r.prefix[|d|];
  }

  lemma StrayNotReached(p: string, dir: bool, r: Rule, ys: seq<string>, zs: seq<string>)
    requires RuleOf(r, p, dir) && Ascii(p) && IsPath(ys) && Strays(Split(p), true, ys, zs)
    ensures !Reaches([r], Join(ys))
  {
    var d := Join(ys);
    forall i: nat | AncestorEnd(d, i) ensures !Applies(r, d[..i], true) {
      var m := AncestorIsJoin(ys, i);
      StrayNotApplies(p, dir, r, ys, m);
    }
    assert ys[..|ys|] == ys;
    StrayNotApplies(p, dir, r, ys, |ys|);
    OneNotCovered(r, d);
    if Names(r, d) { NamedIsBegun(p, dir, r, ys); }
  }

  lemma StrayRule(p: string, dir: bool, r: Rule, ys: seq<string>, zs: seq<string>) returns (rel: string, n: nat)
    requires RuleOf(r, p, dir) && Ascii(p) && r.prefix != "" && Strays(Split(p), true, ys, zs)
    requires FileLike(ys + zs, dir) && CanBeJunk(Join(ys))
    ensures rel == Stray(ys, zs, dir) && n == |Join(ys)|
    ensures JunkOnTheWay(rel, n) && !ReachedOnTheWay([r], rel, n)
  {
    rel, n := Stray(ys, zs, dir), |Join(ys)|;
    StrayPlace(ys, zs, dir);
    StrayIsFile(ys + zs, dir);
    StrayIsCovered(p, dir, r, ys, zs);
    forall i | 0 <= i < |ys| ensures ys[i] == (ys + zs)[i] {}
    StrayNotReached(p, dir, r, ys, zs);
    FilePathIsClean(rel);
  }

  // ---- Which lines reach the junk ----

  /** The line names no path or begins with a wildcard, no file's path is read by it,
      or its segments are safe. */
  predicate ReachingText(p: string, lead: bool, dir: bool, names: set<string>) {
    (lead || '/' in p) && FirstSpecial(p) > 0 && PossiblePath(Split(p), dir) ==> SafeText(Split(p), names)
  }

  lemma LegalSegments(p: string)
    requires Clean(p) && Plain(p) && '\n' !in p
    ensures Legal(Split(p)) && Segments(Split(p))
  {
    JoinSplit(p);
    CleanSplit(p);
    forall i | 0 <= i < |Split(p)| ensures '\n' !in Split(p)[i] && Plain(Split(p)[i]) { SplitIn(p, i); }
  }

  lemma NamedCanBeJunk(ys: seq<string>)
    requires ys != [] && Segments(ys) && JunkOnWay(ys[|ys| - 1])
    ensures CanBeJunk(Join(ys))
  {
    SplitJoin(ys);
  }

  lemma CopyCanBeJunk(name: string)
    requires name == ".dun" || name == ".claude"
    ensures FileLike([name, "worktrees"], true) && CanBeJunk(Join([name, "worktrees"]))
  {
    var ys := [name, "worktrees"];
    assert ys[1..] == ["worktrees"];
    assert Join(ys) == if name == ".dun" then ".dun/worktrees" else ".claude/worktrees";
  }

  /** Segments that are not safe stray from junk. */
  lemma UnsafeText(qs: seq<string>, dir: bool, names: set<string>) returns (ys: seq<string>, zs: seq<string>)
    requires qs != [] && Legal(qs) && PossiblePath(qs, dir) && TheNames(names) && !SafeText(qs, names)
    ensures Strays(qs, true, ys, zs) && FileLike(ys + zs, dir) && CanBeJunk(Join(ys))
  {
    if !Safe(qs, true, names) {
      NamesArePlain(names);
      ys, zs := UnsafeStrays(qs, true, dir, names);
      forall i | 0 <= i < |ys| ensures ys[i] == (ys + zs)[i] {}
      NamedCanBeJunk(ys);
    } else {
      var name := if Passes(qs, [".dun", "worktrees"]) then ".claude" else ".dun";
      ys := [name, "worktrees"];
      CopyCanBeJunk(name);
      zs := PassedStrays(qs, ys, dir);
    }
  }

  lemma UnsafeLine(p: string, lead: bool, dir: bool, names: set<string>) returns (rel: string, n: nat)
    requires Bare(p) && Ascii(p) && Clean(p) && '\n' !in p
    requires TheNames(names) && !ReachingText(p, lead, dir, names)
    ensures JunkOnTheWay(rel, n) && !ReachedOnTheWay([RuleFor("", Body(p, lead), false, dir)], rel, n)
  {
    LegalSegments(p);
    LineRule(p, lead, dir);
    var ys, zs := UnsafeText(Split(p), dir, names);
    rel, n := StrayRule(p, dir, RuleFor("", Body(p, lead), false, dir), ys, zs);
  }

  lemma ReachingLine(p: string, lead: bool, dir: bool, names: set<string>)
    requires Bare(p) && Ascii(p) && TheNames(names) && ReachingText(p, lead, dir, names)
    ensures ReachesJunk([RuleFor("", Body(p, lead), false, dir)])
  {
    var r := RuleFor("", Body(p, lead), false, dir);
    BodyRule("", p, false, lead, dir);
    if r.prefix == "" {
      NamelessReaches(r);
    } else {
      LineRule(p, lead, dir);
      if PossiblePath(Split(p), dir) {
        SafeRule(p, dir, r, names);
      } else {
        ImpossibleRule(p, dir, r);
      }
    }
  }

  lemma NamelessReaches(r: Rule)
    requires !r.negate && r.prefix == ""
    ensures ReachesJunk([r])
  {
    OneVerdict(r, "", true);
    NoRuleCovers();
  }

  lemma NoRuleCovers()
    ensures forall rel :: !Covered([], rel, false)
  {}

  /** A line by itself reaches all junk on the way to the files it names exactly when
      its text does. */
  lemma LineReachesJunkIff(p: string, lead: bool, dir: bool, names: set<string>)
    requires Bare(p) && Ascii(p) && Clean(p) && '\n' !in p && TheNames(names)
    ensures var line := Parse("", LineOf(p, false, lead, dir));
            line.Made? && (ReachesJunk([line.rule]) <==> ReachingText(p, lead, dir, names))
  {
    LineParses("", p, false, lead, dir);
    if ReachingText(p, lead, dir, names) {
      ReachingLine(p, lead, dir, names);
    } else {
      var rel, n := UnsafeLine(p, lead, dir, names);
    }
  }

  // ---- Several lines ----

  /** What covers a path for one of several un-negated rules covers it for all. */
  lemma OneCovers(rules: seq<Rule>, r: Rule, dir: string)
    requires (forall x :: x in rules ==> !x.negate) && r in rules && Covered([r], dir, true)
    ensures Covered(rules, dir, true)
  {
    forall s ensures Verdict([r], s, true) ==> Verdict(rules, s, true) {
      OneVerdict(r, s, true);
      UnnegatedVerdict(rules, s, true);
    }
    if i: nat :| AncestorEnd(dir, i) && Verdict([r], dir[..i], true) { assert Verdict(rules, dir[..i], true); }
  }

  lemma OneReaches(rules: seq<Rule>, r: Rule, dir: string)
    requires (forall x :: x in rules ==> !x.negate) && r in rules && Reaches([r], dir)
    ensures Reaches(rules, dir)
  {
    if Covered([r], dir, true) {
      OneCovers(rules, r, dir);
    } else {
      var i :| 0 <= i < |rules| && rules[i] == r;
      assert Names(rules[i], dir);
    }
  }

  lemma CoveredByOne(r: Rule, rel: string, c: nat)
    requires !r.negate && r.prefix != "" && Cut(rel, c) && Applies(r, rel[..c], c < |rel|)
    ensures Covered(Anchored([r]), rel, false)
  {
    OneVerdict(r, rel[..c], c < |rel|);
    if c == |rel| { assert rel[..c] == rel; }
  }

  /** Un-negated lines that reach the junk one by one reach it together. */
  lemma LinesReachTogether(rules: seq<Rule>)
    requires forall r :: r in rules ==> !r.negate && ReachesJunk([r])
    ensures ReachesJunk(rules)
  {
    forall rel: string, n: nat | JunkOnTheWay(rel, n) ensures ReachedOnTheWay(rules, rel, n) {
      if Covered(Anchored(rules), rel, false) {
        var c, r := CoveringRule(rules, rel);
        CoveredByOne(r, rel, c);
        FilePathIsClean(rel);
        assert ReachedOnTheWay([r], rel, n);
        OneReaches(rules, r, rel[..n]);
      }
    }
  }
}
