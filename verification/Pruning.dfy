/** What the walk loses by not entering junk: rag_ingest.go's walkEntries against its
    planIngest, over the directories that junkJudge can call junk. */
module Pruning {
  import opened Glob
  import opened GlobRules
  import opened Ingest
  import opened IngestWalk
  import opened Junk
  import opened JunkLines
  import opened SafePatterns

  /** The judge of the configuration is junkJudge, in the file system there. */
  ghost predicate Judged(c: Config, there: string -> bool) {
    forall d :: c.reason(d) == Reason(there, d)
  }

  ghost predicate Real(c: Config) {
    exists there :: Judged(c, there)
  }

  ghost predicate FileEntries(es: seq<Entry>) {
    forall e :: e in es ==> IsFilePath(e.rel)
  }

  /** When the include rules reach what can be junk, the walk loses nothing. */
  lemma RealIsLossless(c: Config, es: seq<Entry>)
    requires Real(c) && ReachesJunk(c.inc) && FileEntries(es)
    ensures Lossless(c, es)
  {
    var there :| Judged(c, there);
    forall e | e in es ensures Clean(e.rel) && ReachesOn(c, e.rel) {
      FilePathIsClean(e.rel);
      forall i: nat | AncestorEnd(e.rel, i) && c.reason(e.rel[..i]) != ""
        ensures ReachedOnTheWay(c.inc, e.rel, i)
      {
        assert Reason(there, e.rel[..i]) != "";
        assert JunkOnTheWay(e.rel, i);
      }
    }
    ReachingIsLossless(c, es);
  }

  // ---- A lost file ----

  /** The planner would keep the entry, and does not get it from the walk. */
  ghost predicate Loses(c: Config, es: seq<Entry>, e: Entry) {
    e in PlanOf(c, es).kept && e !in PlanOf(c, Visible(c, es)).kept
  }

  lemma {:induction false} SelectsIn(c: Config, es: seq<Entry>, k: Class, e: Entry)
    ensures e in Select(c, es, k) <==> e in es && ClassOf(c, e) == k
  {
    if es != [] {
      SelectsIn(c, es[..|es| - 1], k, e);
      assert es == es[..|es| - 1] + [es[|es| - 1]];
    }
  }

  lemma {:induction false} UnskippedIn(c: Config, es: seq<Entry>, dirs: set<string>, binary: bool, e: Entry)
    ensures e in Unskipped(c, es, dirs, binary) ==> e in es
  {
    if es != [] {
      UnskippedIn(c, es[..|es| - 1], dirs, binary, e);
      assert es == es[..|es| - 1] + [es[|es| - 1]];
    }
  }

  lemma {:induction false} VisibleIn(c: Config, es: seq<Entry>, e: Entry)
    ensures e in Visible(c, es) <==> e in es && !Hidden(c, e.rel)
  {
    if es != [] {
      VisibleIn(c, es[..|es| - 1], e);
      assert es == es[..|es| - 1] + [es[|es| - 1]];
    }
  }

  lemma KeptIn(c: Config, es: seq<Entry>, e: Entry)
    ensures e in PlanOf(c, es).kept ==> e in es
  {
    var cands := Select(c, es, Candidate);
    SelectsIn(c, es, Included, e);
    SelectsIn(c, es, Candidate, e);
    UnskippedIn(c, cands, SkippedDirs(c, cands), false, e);
  }

  lemma HiddenLoses(c: Config, es: seq<Entry>, e: Entry)
    requires e in es && Hidden(c, e.rel) && ClassOf(c, e) == Included
    ensures Loses(c, es, e)
  {
    SelectsIn(c, es, Included, e);
    VisibleIn(c, es, e);
    KeptIn(c, Visible(c, es), e);
  }

  /** A setting with these include rules, and the least limits there can be. */
  function Setting(inc: seq<Rule>, there: string -> bool): Config {
    Config(inc, [], 0x400, 1, 0x10_0000, d => Reason(there, d), _ => false, _ => false)
  }

  lemma SettingIsReal(inc: seq<Rule>, there: string -> bool)
    ensures Real(Setting(inc, there))
  {
    assert Judged(Setting(inc, there), there);
  }

  /** An include names a file in a directory that is junk where the marks of env and
      target exist, and does not reach that directory: the file is lost. */
  lemma UnreachedIsLost(inc: seq<Rule>, rel: string, n: nat) returns (c: Config, e: Entry)
    requires JunkOnTheWay(rel, n) && !ReachedOnTheWay(inc, rel, n)
    ensures c == Setting(inc, _ => true) && Real(c) && e == Entry(rel, 1)
    ensures Loses(c, [e], e) && !Lossless(c, [e])
  {
    c, e := Setting(inc, _ => true), Entry(rel, 1);
    SettingIsReal(inc, _ => true);
    FilePathIsClean(rel);
    HiddenIncludeIsLost(c, [e], e, n);
    HiddenLoses(c, [e], e);
  }

  /** The walk loses nothing, whatever the configuration around the include rules,
      the file system and the files, exactly when the rules reach every directory
      that can be junk on the way to a file they name. */
  lemma PruningIsLosslessIff(inc: seq<Rule>)
    ensures ReachesJunk(inc) <==>
            forall c: Config, es: seq<Entry> :: c.inc == inc && Real(c) && FileEntries(es) ==> Lossless(c, es)
  {
    if ReachesJunk(inc) {
      forall c: Config, es: seq<Entry> | c.inc == inc && Real(c) && FileEntries(es) ensures Lossless(c, es) {
        RealIsLossless(c, es);
      }
    } else {
      var rel, n: nat :| JunkOnTheWay(rel, n) && !ReachedOnTheWay(inc, rel, n);
      var c, e := UnreachedIsLost(inc, rel, n);
      assert c.inc == inc && FileEntries([e]) && !Lossless(c, [e]);
    }
  }

  // ---- The same of directory trees ----

  /** A tree of files as a file system has it: names that can be, each once. */
  predicate FileTree(kids: seq<Node>)
    decreases kids
  {
    kids == [] ||
    var k := kids[|kids| - 1];
    && FileName(k.name) && (forall i :: 0 <= i < |kids| - 1 ==> kids[i].name != k.name)
    && (k.Dir? ==> k.name != ".git" && FileTree(k.kids))
    && FileTree(kids[..|kids| - 1])
  }

  /** The path is a directory's or a file's. */
  predicate Holds(prefix: string, kids: seq<Node>, p: string) {
    p in DirsIn(prefix, kids) || exists i :: 0 <= i < |Listing(prefix, kids)| && Listing(prefix, kids)[i].rel == p
  }

  /** junkJudge looks at this tree. */
  ghost predicate JudgedBy(c: Config, kids: seq<Node>) {
    Judged(c, p => Holds("", kids, p))
  }

  predicate Enterable(prefix: string) { prefix == "" || (IsFilePath(prefix) && Base(prefix) != ".git") }

  lemma PathIsFile(prefix: string, name: string)
    requires Enterable(prefix) && FileName(name)
    ensures IsFilePath(Path(prefix, name)) && (name != ".git" ==> Enterable(Path(prefix, name)))
  {
    OneSegment(name);
    if prefix != "" {
      SplitBoth(prefix, name);
      FileThenName(Split(prefix), name);
    }
  }

  lemma {:induction false} TreeEntries(prefix: string, kids: seq<Node>)
    requires FileTree(kids) && Enterable(prefix)
    ensures FileEntries(Listing(prefix, kids))
    decreases kids
  {
    if kids != [] {
      TreeEntries(prefix, kids[..|kids| - 1]);
      var k := kids[|kids| - 1];
      PathIsFile(prefix, k.name);
      if k.Dir? { TreeEntries(Path(prefix, k.name), k.kids); }
    }
  }

  /** A tree that holds one file. */
  function Chain(ps: seq<string>): Node
    requires ps != []
  {
    if |ps| == 1 then File(ps[0], 1) else Dir(ps[0], [Chain(ps[1..])])
  }

  lemma {:induction false} ChainListing(prefix: string, ps: seq<string>)
    requires ps != [] && forall i :: 0 <= i < |ps| ==> ps[i] != "" && NoSlash(ps[i])
    ensures Listing(prefix, [Chain(ps)]) == [Entry(Path(prefix, Join(ps)), 1)]
    decreases |ps|
  {
    var k := Chain(ps);
    assert [k][..0] == [] && [k][0] == k;
    if |ps| > 1 {
      ChainListing(Path(prefix, ps[0]), ps[1..]);
      assert Path(Path(prefix, ps[0]), Join(ps[1..])) == Path(prefix, Join(ps));
    }
  }

  /** One file, and another beside the segment m of its path. */
  function TwoFiles(ps: seq<string>, m: nat, extra: string): seq<Node>
    requires m < |ps|
  {
    if m > 0 then [Dir(ps[0], TwoFiles(ps[1..], m - 1, extra))]
    else if ps[0] == extra then [Chain(ps)]
    else [Chain(ps), File(extra, 1)]
  }

  lemma OneTree(k: Node)
    ensures FileTree([k]) <==> FileName(k.name) && (k.Dir? ==> k.name != ".git" && FileTree(k.kids))
  {
    assert [k][..0] == [];
  }

  lemma {:induction false} ChainIsTree(ps: seq<string>)
    requires ps != [] && FilePath(ps)
    ensures FileTree([Chain(ps)]) && Chain(ps).name == ps[0]
    decreases |ps|
  {
    OneTree(Chain(ps));
    if |ps| > 1 { ChainIsTree(ps[1..]); }
  }

  lemma ChainHolds(prefix: string, ps: seq<string>)
    requires ps != [] && FilePath(ps)
    ensures Listing(prefix, [Chain(ps)]) == [Entry(Path(prefix, Join(ps)), 1)]
    ensures Holds(prefix, [Chain(ps)], Path(prefix, ps[0]))
  {
    ChainListing(prefix, ps);
    OneKid(prefix, Chain(ps));
    assert Listing(prefix, [Chain(ps)])[0].rel == Path(prefix, Join(ps));
  }

  /** It is a tree, with both files in it. */
  ghost predicate HasBoth(prefix: string, kids: seq<Node>, ps: seq<string>, extra: string) {
    FileTree(kids) && Entry(Path(prefix, Join(ps)), 1) in Listing(prefix, kids) && Holds(prefix, kids, extra)
  }

  lemma FilesBeside(prefix: string, ps: seq<string>, extra: string)
    requires ps != [] && FilePath(ps) && FileName(extra)
    ensures HasBoth(prefix, TwoFiles(ps, 0, extra), ps, Path(prefix, extra))
  {
    ChainIsTree(ps);
    ChainHolds(prefix, ps);
    if ps[0] != extra {
      var kids := [Chain(ps), File(extra, 1)];
      assert kids[..1] == [Chain(ps)];
      var es := Listing(prefix, kids);
      assert es == [Entry(Path(prefix, Join(ps)), 1)] + [Entry(Path(prefix, extra), 1)];
      assert es[0] in es && es[1].rel == Path(prefix, extra);
    }
  }

  lemma BothBelow(prefix: string, name: string, kids: seq<Node>, ps: seq<string>, xs: seq<string>)
    requires FileName(name) && name != ".git" && ps != [] && xs != []
    requires HasBoth(Path(prefix, name), kids, ps, Path(Path(prefix, name), Join(xs)))
    ensures HasBoth(prefix, [Dir(name, kids)], [name] + ps, Path(prefix, Join([name] + xs)))
  {
    OneKid(prefix, Dir(name, kids));
    OneTree(Dir(name, kids));
    PathJoin(prefix, name, ps);
    PathJoin(prefix, name, xs);
  }

  lemma {:induction false} TwoFilesHold(prefix: string, ps: seq<string>, m: nat, extra: string)
    requires m < |ps| && FilePath(ps) && FileName(extra)
    ensures HasBoth(prefix, TwoFiles(ps, m, extra), ps, Path(prefix, Join(ps[..m] + [extra])))
    decreases m
  {
    if m == 0 {
      FilesBeside(prefix, ps, extra);
      assert ps[..0] + [extra] == [extra];
    } else {
      var xs := ps[1..][..m - 1] + [extra];
      TwoFilesHold(Path(prefix, ps[0]), ps[1..], m - 1, extra);
      BothBelow(prefix, ps[0], TwoFiles(ps[1..], m - 1, extra), ps[1..], xs);
      assert ps[..m] + [extra] == [ps[0]] + xs && ps == [ps[0]] + ps[1..];
    }
  }

  lemma PathJoin(prefix: string, name: string, ps: seq<string>)
    requires ps != []
    ensures Path(Path(prefix, name), Join(ps)) == Path(prefix, Join([name] + ps)) || Path(prefix, name) == ""
  {
    assert ([name] + ps)[1..] == ps;
  }

  lemma FirstSegments(rel: string, n: nat)
    requires AncestorEnd(rel, n)
    ensures var ps, k := Split(rel), |Split(rel[..n])|; k < |ps| && ps[..k] == Split(rel[..n])
    ensures Join(Split(rel)) == rel && Join(Split(rel[..n])) == rel[..n]
  {
    var d, x := rel[..n], rel[n + 1..];
    assert rel == d + "/" + x;
    SplitBoth(d, x);
    JoinSplit(rel);
    JoinSplit(d);
    assert (Split(d) + Split(x))[..|Split(d)|] == Split(d);
  }

  /** What makes env junk stands in it, what makes target junk beside it. */
  lemma MarkPlaces(d: string)
    ensures Join(Split(d) + ["pyvenv.cfg"]) == d + "/pyvenv.cfg"
    ensures Beside(d, "Cargo.toml") == Join(Split(d)[..|Split(d)| - 1] + ["Cargo.toml"])
  {
    JoinSplit(d);
    JoinSnoc(Split(d), "pyvenv.cfg");
    assert d + "/" + "pyvenv.cfg" == d + "/pyvenv.cfg";
  }

  function MarkOf(d: string): string {
    if Base(d) == "env" then d + "/pyvenv.cfg" else Beside(d, "Cargo.toml")
  }

  lemma MarkedIsJunk(there: string -> bool, d: string)
    requires CanBeJunk(d) && there(MarkOf(d))
    ensures Reason(there, d) != ""
  {}

  lemma EnvTree(rel: string, n: nat) returns (kids: seq<Node>)
    requires IsFilePath(rel) && AncestorEnd(rel, n)
    ensures FileTree(kids) && Entry(rel, 1) in Listing("", kids) && Holds("", kids, rel[..n] + "/pyvenv.cfg")
  {
    FirstSegments(rel, n);
    MarkPlaces(rel[..n]);
    kids := TwoFiles(Split(rel), |Split(rel[..n])|, "pyvenv.cfg");
    TwoFilesHold("", Split(rel), |Split(rel[..n])|, "pyvenv.cfg");
  }

  lemma TargetTree(rel: string, n: nat) returns (kids: seq<Node>)
    requires IsFilePath(rel) && AncestorEnd(rel, n)
    ensures FileTree(kids) && Entry(rel, 1) in Listing("", kids) && Holds("", kids, Beside(rel[..n], "Cargo.toml"))
  {
    FirstSegments(rel, n);
    MarkPlaces(rel[..n]);
    var ps, m := Split(rel), |Split(rel[..n])| - 1;
    kids := TwoFiles(ps, m, "Cargo.toml");
    TwoFilesHold("", ps, m, "Cargo.toml");
    assert ps[..m] == Split(rel[..n])[..m];
  }

  /** A tree in which that directory is junk, if it can be in any file system. */
  lemma JunkTree(rel: string, n: nat) returns (kids: seq<Node>)
    requires JunkOnTheWay(rel, n)
    ensures FileTree(kids) && Entry(rel, 1) in Listing("", kids)
    ensures Reason(p => Holds("", kids, p), rel[..n]) != ""
  {
    if Base(rel[..n]) == "env" { kids := EnvTree(rel, n); } else { kids := TargetTree(rel, n); }
    MarkedIsJunk(p => Holds("", kids, p), rel[..n]);
  }

  /** And of directory trees, each with the judge that looks at it: exactly when the
      rules reach what can be junk. */
  lemma WalkIsLosslessIff(inc: seq<Rule>)
    ensures ReachesJunk(inc) <==>
            forall c: Config, kids: seq<Node> :: c.inc == inc && FileTree(kids) && JudgedBy(c, kids) ==>
              Lossless(c, Listing("", kids))
  {
    if ReachesJunk(inc) {
      forall c: Config, kids: seq<Node> | c.inc == inc && FileTree(kids) && JudgedBy(c, kids)
        ensures Lossless(c, Listing("", kids))
      {
        TreeEntries("", kids);
        RealIsLossless(c, Listing("", kids));
      }
    } else {
      var rel, n: nat :| JunkOnTheWay(rel, n) && !ReachedOnTheWay(inc, rel, n);
      var c, kids := UnreachedInTree(inc, rel, n);
    }
  }

  lemma UnreachedInTree(inc: seq<Rule>, rel: string, n: nat) returns (c: Config, kids: seq<Node>)
    requires JunkOnTheWay(rel, n) && !ReachedOnTheWay(inc, rel, n)
    ensures c.inc == inc && FileTree(kids) && JudgedBy(c, kids)
    ensures Loses(c, Listing("", kids), Entry(rel, 1)) && !Lossless(c, Listing("", kids))
  {
    kids := JunkTree(rel, n);
    c := Setting(inc, p => Holds("", kids, p));
    var es, e := Listing("", kids), Entry(rel, 1);
    TreeEntries("", kids);
    forall f | f in es ensures Clean(f.rel) { FilePathIsClean(f.rel); }
    HiddenIncludeIsLost(c, es, e, n);
    HiddenLoses(c, es, e);
  }

  // ---- One line ----

  /** A line by itself loses no file, whatever the files, exactly when its text reaches
      the junk. */
  lemma LineIsLosslessIff(p: string, lead: bool, dir: bool, names: set<string>)
    requires Bare(p) && Ascii(p) && Clean(p) && '\n' !in p && TheNames(names)
    ensures var line := Parse("", LineOf(p, false, lead, dir));
            line.Made? && (ReachingText(p, lead, dir, names) <==>
              forall c: Config, es: seq<Entry> ::
                c.inc == [line.rule] && Real(c) && FileEntries(es) ==> Lossless(c, es))
  {
    LineReachesJunkIff(p, lead, dir, names);
    PruningIsLosslessIff([Parse("", LineOf(p, false, lead, dir)).rule]);
  }

  /** One whose text does not loses a file. */
  lemma UnsafeIncludeIsLost(p: string, lead: bool, dir: bool, names: set<string>) returns (c: Config, e: Entry)
    requires Bare(p) && Ascii(p) && Clean(p) && '\n' !in p && TheNames(names) && !ReachingText(p, lead, dir, names)
    ensures Real(c) && |c.inc| == 1 && Parse("", LineOf(p, false, lead, dir)) == Made(c.inc[0])
    ensures IsFilePath(e.rel) && Loses(c, [e], e)
  {
    var rel, n := UnsafeLine(p, lead, dir, names);
    LineParses("", p, false, lead, dir);
    c, e := UnreachedIsLost([RuleFor("", Body(p, lead), false, dir)], rel, n);
  }

  // ---- A line that passes by what is never junk ----

  const NEAR := "foo?/bar"

  lemma NearText()
    ensures Bare(NEAR) && Ascii(NEAR) && Clean(NEAR) && '\n' !in NEAR
  {}

  lemma NearIsClosed()
    ensures !OpenText(NEAR, false)
  {
    assert NEAR[4] == '/' && NEAR[3] == '?';
    assert FirstSpecial(NEAR) == 3;
    assert NEAR[3..][1] == '/' && NEAR[..3][2] == 'o';
  }

  lemma NearLine()
    ensures LineOf(NEAR, false, false, false) == NEAR && Split(NEAR) == ["foo?", "bar"]
  {
    OneSegment("bar");
    SplitWhole("foo?", "bar");
    assert "foo?" + "/" + "bar" == NEAR;
  }

  lemma JunkNotF(x: string)
    requires JunkOnWay(x)
    ensures x != "" && x[0] != 'f'
  {}

  lemma NearIsSafe(names: set<string>, qs: seq<string>)
    requires TheNames(names) && qs == ["foo?", "bar"]
    ensures SafeText(qs, names)
  {
    forall x | x in names ensures !SegMatches(qs[0], x) { JunkNotF(x); }
    assert !SegMatches(qs[0], ".dun") && !SegMatches(qs[0], ".claude");
  }

  /** It does not reach all that it names, but loses no file: nothing is junk by a
      name that it reads. */
  lemma NearIncludeLosesNothing(names: set<string>, c: Config, es: seq<Entry>)
    requires TheNames(names)
    ensures var line := Parse("", "foo?/bar");
            && line.Made? && !ReachesAll([line.rule])
            && (c.inc == [line.rule] && Real(c) && FileEntries(es) ==> Lossless(c, es))
  {
    NearText();
    NearIsClosed();
    NearLine();
    NearIsSafe(names, Split(NEAR));
    LineReachesIff(NEAR, false, false);
    LineIsLosslessIff(NEAR, false, false, names);
  }

  // ---- One that passes junk by ----

  const WILD := "a/**/k"

  lemma WildText()
    ensures Bare(WILD) && Ascii(WILD) && '/' in WILD && LineOf(WILD, false, false, false) == WILD
  {
    assert WILD[1] == '/';
  }

  lemma ThreeJoined(a: string, b: string, c: string)
    requires NoSlash(a) && NoSlash(b) && NoSlash(c)
    ensures Split(a + "/" + (b + "/" + c)) == [a, b, c]
  {
    OneSegment(c);
    SplitWhole(b, c);
    SplitWhole(a, b + "/" + c);
  }

  lemma WildSegments()
    ensures Split(WILD) == ["a", "**", "k"]
  {
    ThreeJoined("a", "**", "k");
    assert "a" + "/" + ("**" + "/" + "k") == WILD;
  }

  /** The rule of the line "a/**/k". */
  lemma WildRule() returns (r: Rule)
    ensures Parse("", WILD) == Made(r) && RuleOf(r, WILD, false) && r.prefix != "" && Ascii(WILD)
  {
    WildText();
    r := RuleFor("", Body(WILD, false), false, false);
    LineParses("", WILD, false, false, false);
    LineRule(WILD, false, false);
    assert !Special('a');
  }

  lemma NameMissed(p: string, x: string)
    requires Wildless(p) && x != p
    ensures !Reading([p], [x])
  {
    WildlessReads(p, x);
    assert [p] == [p] + [] && FirstSpecial("**") == 0;
    ReadingSegment(p, [], [x]);
  }

  lemma NameSample(p: string)
    requires PlainName(p)
    ensures Sample([p]) == [p] && Legal([p]) && Possible(p) && p != "**"
  {
    assert FirstSpecial("**") == 0;
    SampleFileName(p);
  }

  lemma TailStrays(qs: seq<string>, p: string, x: string)
    requires PlainName(p) && PlainName(x) && x != p && qs == ["**", p]
    ensures Strays(qs, true, [x], [p]) && FileLike([x] + [p], false)
  {
    assert qs[1..] == [p];
    NameSample(p);
    NameMissed(p, x);
    StarsPossible();
    StarsStray(qs, true, false, x);
  }

  /** A name, star pairs and another name: of any third name in the first, astray. */
  lemma GapStrays(qs: seq<string>, a: string, p: string, x: string)
    requires PlainName(a) && PlainName(p) && PlainName(x) && x != p && qs == [a, "**", p]
    ensures Strays(qs, true, [a, x], [p]) && FileLike([a, x] + [p], false)
  {
    assert qs[1..] == ["**", p] && [a, x] == [a] + [x];
    NameSample(a);
    TailStrays(qs[1..], p, x);
    WildlessReads(a, a);
    StrayMore(qs, true, a, [x], [p]);
    FileLikeMore(a, [x] + [p], false);
    assert [a, x] + [p] == [a] + ([x] + [p]);
  }

  lemma WildPath(ys: seq<string>, zs: seq<string>)
    requires ys == ["a", "dist"] && zs == ["k"]
    ensures CanBeJunk(Join(ys)) && Stray(ys, zs, false) == "a/dist/k"
  {
    SplitJoin(ys);
    assert ys[1..] == ["dist"] && JunkName("dist") != "";
    JoinBoth(ys, zs);
  }

  lemma WildNames()
    ensures PlainName("a") && PlainName("k") && PlainName("dist")
  {
    assert Letters("a") && Letters("k") && Letters("dist");
    LettersArePlain("a");
    LettersArePlain("k");
    LettersArePlain("dist");
  }

  lemma WildPassesBy(ys: seq<string>, zs: seq<string>)
    requires ys == ["a", "dist"] && zs == ["k"]
    ensures Strays(Split(WILD), true, ys, zs) && FileLike(ys + zs, false) && CanBeJunk(Join(ys))
  {
    WildSegments();
    WildNames();
    GapStrays(Split(WILD), "a", "k", "dist");
    WildPath(ys, zs);
  }

  /** The walk does not enter a/dist, where the plan would keep k. */
  lemma WildcardIncludeIsLost() returns (c: Config, e: Entry)
    ensures Real(c) && |c.inc| == 1 && Parse("", "a/**/k") == Made(c.inc[0])
    ensures e.rel == "a/dist/k" && Loses(c, [e], e)
  {
    var r := WildRule();
    var ys, zs := ["a", "dist"], ["k"];
    WildPassesBy(ys, zs);
    var rel, n := StrayRule(WILD, false, r, ys, zs);
    WildPath(ys, zs);
    c, e := UnreachedIsLost([r], rel, n);
  }

  // ---- The same with a negated rule ----

  const DEEP := "out/a/build/f"

  lemma DeepPaths(i: nat)
    ensures AncestorEnd(DEEP, i) <==> i == 3 || i == 5 || i == 11
    ensures DEEP[..3] == "out" && DEEP[..5] == "out/a" && DEEP[..11] == "out/a/build"
    ensures Clean(DEEP)
  {}

  lemma BuildPaths(i: nat)
    ensures AncestorEnd("out/a/build", i) <==> i == 3 || i == 5
    ensures "out/a/build"[..3] == "out" && "out/a/build"[..5] == "out/a"
  {}

  lemma TwoVerdict(a: Rule, b: Rule, rel: string, isDir: bool)
    requires !a.negate && b.negate
    ensures Verdict([a, b], rel, isDir) <==> !Applies(b, rel, isDir) && Applies(a, rel, isDir)
    ensures a.prefix != "" && b.prefix == "" ==> Anchored([a, b]) == [a]
  {
    assert [a, b][..1] == [a];
    OneVerdict(a, rel, isDir);
  }

  ghost predicate MatchesOnly(r: Rule, path: string) {
    forall s :: Matches(r.re, s) <==> s == path
  }

  /** The rule of a line that is a path to a directory. */
  lemma LiteralParses(p: string) returns (r: Rule)
    requires Bare(p) && Ascii(p) && '/' in p && FirstSpecial(p) == |p|
    ensures Parse("", LineOf(p, false, false, true)) == Made(r)
    ensures !r.negate && r.base == "" && r.prefix == p + "/" && MatchesOnly(r, p)
  {
    r := RuleFor("", Body(p, false), false, true);
    LineParses("", p, false, false, true);
    LiteralRule(p, false, true);
    forall s ensures Matches(r.re, s) <==> s == p { LiteralMatches(p, s); }
  }

  lemma NamedText()
    ensures Bare("out/a") && Ascii("out/a") && '/' in "out/a" && FirstSpecial("out/a") == |"out/a"|
  {
    assert "out/a"[3] == '/';
    assert FirstSpecial("out/a") == 5;
  }

  /** The rule of the line "out/a/". */
  lemma NamedRule() returns (r: Rule)
    ensures Parse("", "out/a/") == Made(r)
    ensures !r.negate && r.base == "" && r.prefix == "out/a/" && MatchesOnly(r, "out/a")
  {
    NamedText();
    r := LiteralParses("out/a");
    assert LineOf("out/a", false, false, true) == "out/a/";
  }

  lemma NegatedText(p: string, a: string)
    requires p == "a" && a == "out"
    ensures Bare(p) && Ascii(p) && NoSlash(p) && Wildless(p) && IsPath([a, p])
    ensures LineOf(p, true, false, false) == "!a" && a + "/" + p == "out/a"
  {}

  lemma NameReads(p: string, a: string)
    requires Wildless(p)
    ensures Reading(["**", p], [a, p])
  {
    var path := [a, p];
    assert path[1..] == [p] && ["**", p] == ["**"] + [p];
    WildlessReadThemselves([p]);
    ReadingStars([p], path);
    assert ReadsAt([p], path, 1);
  }

  /** The rule of a line that takes back a name. */
  lemma NameRule(p: string, a: string) returns (r: Rule)
    requires Bare(p) && Ascii(p) && NoSlash(p) && Wildless(p) && IsPath([a, p])
    ensures Parse("", LineOf(p, true, false, false)) == Made(r)
    ensures r.negate && r.base == "" && r.prefix == "" && !r.dirOnly && Matches(r.re, a + "/" + p)
  {
    r := RuleFor("", Body(p, false), true, false);
    LineParses("", p, true, false, false);
    BodyRule("", p, true, false, false);
    NameReads(p, a);
    LineMeaning("", p, true, false, false, [a, p]);
    assert [a, p][1..] == [p];
  }

  /** The rule of the line "!a". */
  lemma NegatedRule(p: string, a: string) returns (r: Rule)
    requires p == "a" && a == "out"
    ensures Parse("", "!a") == Made(r)
    ensures r.negate && r.base == "" && r.prefix == "" && !r.dirOnly && Matches(r.re, "out/a")
  {
    NegatedText(p, a);
    r := NameRule(p, a);
  }

  /** A negated rule takes back what the first gives. */
  predicate TakesBack(a: Rule, b: Rule, rel: string) {
    Applies(a, rel, true) ==> Applies(b, rel, true)
  }

  lemma TwoNotReached(a: Rule, b: Rule, dir: string)
    requires !a.negate && b.negate && |a.prefix| <= |dir|
    requires TakesBack(a, b, dir) && forall i: nat :: AncestorEnd(dir, i) ==> TakesBack(a, b, dir[..i])
    ensures !Reaches([a, b], dir)
  {
    forall i: nat | AncestorEnd(dir, i) ensures !Verdict([a, b], dir[..i], true) { TwoVerdict(a, b, dir[..i], true); }
    TwoVerdict(a, b, dir, true);
    ShortNamesNot(a, dir);
  }

  lemma NegatedNotReached(a: Rule, b: Rule)
    requires !a.negate && a.base == "" && a.prefix == "out/a/" && MatchesOnly(a, "out/a")
    requires b.negate && b.base == "" && b.prefix == "" && !b.dirOnly && Matches(b.re, "out/a")
    ensures !ReachedOnTheWay([a, b], DEEP, 11)
  {
    forall i: nat | AncestorEnd("out/a/build", i) ensures TakesBack(a, b, "out/a/build"[..i]) { BuildPaths(i); }
    TwoNotReached(a, b, "out/a/build");
    TwoVerdict(a, b, "", true);
    OneVerdict(a, "out/a", true);
    DeepPaths(5);
    DeepPaths(11);
    assert AncestorEnd(DEEP, 5) && Verdict(Anchored([a, b]), DEEP[..5], true);
  }

  lemma BuildSegments()
    ensures Split("out/a/build") == ["out", "a", "build"]
  {
    ThreeJoined("out", "a", "build");
    assert "out" + "/" + ("a" + "/" + "build") == "out/a/build";
  }

  lemma DeepSegments()
    ensures Split(DEEP) == ["out", "a", "build"] + ["f"]
  {
    BuildSegments();
    OneSegment("f");
    SplitBoth("out/a/build", "f");
    assert "out/a/build" + "/" + "f" == DEEP;
  }

  lemma BuildIsJunk()
    ensures CanBeJunk("out/a/build")
  {
    BuildSegments();
    assert JunkName("build") != "";
  }

  lemma DeepName(x: string)
    requires x == "out" || x == "a" || x == "build" || x == "f"
    ensures FileName(x) && x != ".git"
  {}

  lemma DeepIsFile()
    ensures IsFilePath(DEEP)
  {
    DeepSegments();
    var ps := Split(DEEP);
    forall i | 0 <= i < |ps| ensures FileName(ps[i]) && ps[i] != ".git" { DeepName(ps[i]); }
  }

  /** After "out/a/", a rule that takes a back stops the walk at out/a/build, which
      the plan, going by the rules that name paths alone, would keep. */
  lemma NegatedIncludeIsLost() returns (c: Config, e: Entry)
    ensures Real(c) && |c.inc| == 2 && Parse("", "out/a/") == Made(c.inc[0]) && Parse("", "!a") == Made(c.inc[1])
    ensures e.rel == "out/a/build/f" && Loses(c, [e], e)
  {
    var a := NamedRule();
    var b := NegatedRule("a", "out");
    NegatedNotReached(a, b);
    BuildIsJunk();
    DeepIsFile();
    DeepPaths(11);
    c, e := UnreachedIsLost([a, b], DEEP, 11);
  }
}
