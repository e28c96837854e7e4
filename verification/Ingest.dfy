/** What the docs index is given: rag_ingest.go's planIngest, and what a walk that does
    not enter what it would leave out makes of a listing.

    Why a directory is junk and whether a file is binary are parameters here: junk is
    judged in Junk, what its names mean for the pruning is in Pruning, and the walk's
    own loop is in IngestWalk. Paths are strings of segments joined by slashes. */
module Ingest {
  import opened GlobRules
  import opened Glob

  datatype Entry = Entry(rel: string, size: nat)

  /** The configuration, why a directory is judged junk ("" when it is not), and
      whether a file is binary by name or by content. */
  datatype Config = Config(
    inc: seq<Rule>, exc: seq<Rule>, maxFile: int, maxDirFiles: int, maxDirBytes: int,
    reason: string -> string, binaryExt: string -> bool, sniff: string -> bool)

  // ---- One entry ----

  /** dir is a directory above rel. */
  predicate Above(dir: string, rel: string) {
    AncestorEnd(rel, |dir|) && rel[..|dir|] == dir
  }

  /** topJunk: the outermost junk directory rel lies in, or "". */
  function TopJunk(c: Config, rel: string, from: nat): (j: string)
    requires from <= |rel|
    ensures j != "" ==> Above(j, rel) && c.reason(j) != ""
    decreases |rel| - from
  {
    if from == |rel| then ""
    else if rel[from] == '/' && c.reason(rel[..from]) != "" then rel[..from]
    else TopJunk(c, rel, from + 1)
  }

  datatype Class = Excluded | Included | Junk(dir: string) | TooBig | BinaryName | Candidate

  /** An include wins over every skip the planner makes of itself. What lies in junk
      takes one that covers the junk directory, or that names a path. */
  ghost predicate IsIncluded(c: Config, rel: string) {
    var j := TopJunk(c, rel, 0);
    if j == "" then Covered(c.inc, rel, false)
    else Covered(c.inc, j, true) || Covered(Anchored(c.inc), rel, false)
  }

  ghost function ClassOf(c: Config, e: Entry): Class {
    var j := TopJunk(c, e.rel, 0);
    if Covered(c.exc, e.rel, false) then Excluded
    else if IsIncluded(c, e.rel) then Included
    else if j != "" then Junk(j)
    else if e.size > c.maxFile then TooBig
    else if c.binaryExt(e.rel) then BinaryName
    else Candidate
  }

  // ---- Lists of entries ----

  /** The entries of one class, in order. */
  ghost function Select(c: Config, es: seq<Entry>, k: Class): seq<Entry> {
    if es == [] then []
    else Select(c, es[..|es| - 1], k) + if ClassOf(c, es[|es| - 1]) == k then [es[|es| - 1]] else []
  }

  function Count(es: seq<Entry>, dir: string): nat {
    if es == [] then 0 else Count(es[..|es| - 1], dir) + if Above(dir, es[|es| - 1].rel) then 1 else 0
  }

  function BytesIn(es: seq<Entry>, dir: string): nat {
    if es == [] then 0 else BytesIn(es[..|es| - 1], dir) + if Above(dir, es[|es| - 1].rel) then es[|es| - 1].size else 0
  }

  /** The directories above some entry. */
  function DirsOf(es: seq<Entry>): set<string> {
    if es == [] then {} else DirsOf(es[..|es| - 1]) + DirsAbove(es[|es| - 1].rel)
  }

  function DirsAbove(rel: string): set<string> {
    set i | 0 <= i < |rel| && AncestorEnd(rel, i) :: rel[..i]
  }

  // ---- The directory rule ----

  predicate Over(c: Config, es: seq<Entry>, dir: string) {
    Count(es, dir) > c.maxDirFiles || BytesIn(es, dir) > c.maxDirBytes
  }

  predicate OverAbove(c: Config, es: seq<Entry>, dir: string) {
    exists i :: 0 <= i < |dir| && AncestorEnd(dir, i) && Over(c, es, dir[..i])
  }

  /** The directories left out for their size: over a limit, and none above is. */
  function SkippedDirs(c: Config, es: seq<Entry>): set<string> {
    set d | d in DirsOf(es) && Over(c, es, d) && !OverAbove(c, es, d)
  }

  /** inSkipped. */
  predicate InSkipped(rel: string, dirs: set<string>) {
    rel in dirs || exists i :: 0 <= i < |rel| && AncestorEnd(rel, i) && rel[..i] in dirs
  }

  function Unskipped(c: Config, es: seq<Entry>, dirs: set<string>, binary: bool): seq<Entry> {
    if es == [] then []
    else
      var e := es[|es| - 1];
      Unskipped(c, es[..|es| - 1], dirs, binary) +
      if !InSkipped(e.rel, dirs) && c.sniff(e.rel) == binary then [e] else []
  }

  datatype Plan = Plan(
    kept: seq<Entry>, bigFiles: seq<Entry>, binary: nat, skipped: set<string>, keptBytes: nat, huge: bool)

  function Total(es: seq<Entry>): nat {
    if es == [] then 0 else Total(es[..|es| - 1]) + es[|es| - 1].size
  }

  /** planIngest: what is indexed, in the order it was found, what is not, how much
      that is, and whether what is indexed is itself over the limits of a directory. */
  ghost function PlanOf(c: Config, es: seq<Entry>): Plan {
    var cands := Select(c, es, Candidate);
    var skipped := SkippedDirs(c, cands);
    var kept := Select(c, es, Included) + Unskipped(c, cands, skipped, false);
    Plan(kept,
         Select(c, es, TooBig),
         |Select(c, es, BinaryName)| + |Unskipped(c, cands, skipped, true)|,
         skipped,
         Total(kept),
         |kept| > c.maxDirFiles || Total(kept) > c.maxDirBytes)
  }

  // ---- The walk ----

  /** A workspace, less what its .gitignore files hide and every .git. */
  datatype Node = File(name: string, size: nat) | Dir(name: string, kids: seq<Node>)

  function Path(prefix: string, name: string): string {
    if prefix == "" then name else prefix + "/" + name
  }

  /** Every file, in walking order. */
  function Listing(prefix: string, kids: seq<Node>): seq<Entry>
    decreases kids
  {
    if kids == [] then []
    else
      var k := kids[|kids| - 1];
      Listing(prefix, kids[..|kids| - 1]) +
      match k
      case File(name, size) => [Entry(Path(prefix, name), size)]
      case Dir(name, inside) => Listing(Path(prefix, name), inside)
  }

  /** Where the walk does not go in. */
  ghost predicate Stopped(c: Config, dir: string) {
    Covered(c.exc, dir, true) || (c.reason(dir) != "" && !Reaches(c.inc, dir))
  }

  ghost predicate Hidden(c: Config, rel: string) {
    exists i: nat :: AncestorEnd(rel, i) && Stopped(c, rel[..i])
  }

  ghost function Visible(c: Config, es: seq<Entry>): seq<Entry> {
    if es == [] then []
    else Visible(c, es[..|es| - 1]) + if Hidden(c, es[|es| - 1].rel) then [] else [es[|es| - 1]]
  }

  // ---- Pruning loses nothing ----

  lemma {:induction false} JunkAbove(c: Config, rel: string, from: nat, i: nat)
    requires from <= i && AncestorEnd(rel, i) && i > 0 && c.reason(rel[..i]) != ""
    requires from == 0 ==> rel[0] != '/'
    ensures var j := TopJunk(c, rel, from); j != "" && |j| <= i
    decreases i - from
  {
    if from < i && !(rel[from] == '/' && c.reason(rel[..from]) != "") { JunkAbove(c, rel, from + 1, i); }
  }

  /** Paths are relative: none starts with a slash. */
  predicate Relative(rel: string) { !("/" <= rel) }

  lemma CoveredDown(rules: seq<Rule>, a: string, dir: string)
    requires Covered(rules, a, true) && (a == dir || Above(a, dir))
    ensures Covered(rules, dir, true)
  {
    if a != dir {
      CoveredBelow(rules, a, dir[|a| + 1..], true);
      assert dir == a + "/" + dir[|a| + 1..];
    }
  }

  /** Of what the walk hides, planIngest would keep only what an include covers. */
  lemma HiddenIsSkippedOrIncluded(c: Config, e: Entry)
    requires Relative(e.rel) && Hidden(c, e.rel)
    ensures var k := ClassOf(c, e); k.Excluded? || k.Junk? || k.Included?
  {
    var i: nat :| AncestorEnd(e.rel, i) && Stopped(c, e.rel[..i]);
    var dir, x := e.rel[..i], e.rel[i + 1..];
    assert e.rel == dir + "/" + x;
    if Covered(c.exc, dir, true) {
      CoveredBelow(c.exc, dir, x, false);
    } else {
      JunkAbove(c, e.rel, 0, i);
    }
  }

  /** The include rules reach every junk directory on the way to the file. */
  ghost predicate ReachesOn(c: Config, rel: string) {
    forall i: nat :: AncestorEnd(rel, i) && c.reason(rel[..i]) != "" ==> ReachedOnTheWay(c.inc, rel, i)
  }

  /** Then it would keep nothing that the walk hides. */
  lemma HiddenIsNotIncluded(c: Config, e: Entry)
    requires ReachesOn(c, e.rel) && Clean(e.rel) && Hidden(c, e.rel)
    ensures ClassOf(c, e) != Included
  {
    var i: nat :| AncestorEnd(e.rel, i) && Stopped(c, e.rel[..i]);
    var dir, x := e.rel[..i], e.rel[i + 1..];
    assert e.rel == dir + "/" + x;
    if Covered(c.exc, dir, true) {
      CoveredBelow(c.exc, dir, x, false);
    } else {
      JunkAbove(c, e.rel, 0, i);
      var j := TopJunk(c, e.rel, 0);
      assert j == dir || Above(j, dir);
      if Covered(c.inc, j, true) { CoveredDown(c.inc, j, dir); }
      assert ReachedOnTheWay(c.inc, e.rel, i);
    }
  }

  lemma SelectSnoc(c: Config, es: seq<Entry>, e: Entry, k: Class)
    ensures Select(c, es + [e], k) == Select(c, es, k) + if ClassOf(c, e) == k then [e] else []
  {
    assert (es + [e])[..|es|] == es;
  }

  lemma {:induction false} VisibleSelects(c: Config, es: seq<Entry>, k: Class)
    requires forall e :: e in es ==> Relative(e.rel)
    requires k == Candidate || k == TooBig || k == BinaryName
    ensures Select(c, Visible(c, es), k) == Select(c, es, k)
  {
    if es != [] {
      var init, e := es[..|es| - 1], es[|es| - 1];
      assert e in es;
      VisibleSelects(c, init, k);
      if Hidden(c, e.rel) {
        HiddenIsSkippedOrIncluded(c, e);
        assert Visible(c, init) + [] == Visible(c, init);
      } else {
        SelectSnoc(c, Visible(c, init), e, k);
      }
    }
  }

  ghost predicate HidesInclude(c: Config, e: Entry) {
    Hidden(c, e.rel) && ClassOf(c, e) == Included
  }

  ghost function HiddenIncludes(c: Config, es: seq<Entry>): nat {
    if es == [] then 0 else HiddenIncludes(c, es[..|es| - 1]) + if HidesInclude(c, es[|es| - 1]) then 1 else 0
  }

  lemma {:induction false} NoHiddenIncludes(c: Config, es: seq<Entry>)
    ensures HiddenIncludes(c, es) == 0 <==> forall e :: e in es ==> !HidesInclude(c, e)
  {
    if es != [] {
      NoHiddenIncludes(c, es[..|es| - 1]);
      assert es == es[..|es| - 1] + [es[|es| - 1]];
    }
  }

  /** The walk loses exactly the included files it hides. */
  lemma {:induction false} VisibleIncludes(c: Config, es: seq<Entry>)
    ensures |Select(c, Visible(c, es), Included)| + HiddenIncludes(c, es) == |Select(c, es, Included)|
    ensures HiddenIncludes(c, es) == 0 ==> Select(c, Visible(c, es), Included) == Select(c, es, Included)
  {
    if es != [] {
      var init, e := es[..|es| - 1], es[|es| - 1];
      VisibleIncludes(c, init);
      if Hidden(c, e.rel) {
        assert Visible(c, init) + [] == Visible(c, init);
      } else {
        SelectSnoc(c, Visible(c, init), e, Included);
      }
    }
  }

  /** Planning over what the walk lists gives what planning over everything does. */
  ghost predicate Lossless(c: Config, es: seq<Entry>) {
    PlanOf(c, Visible(c, es)) == PlanOf(c, es)
  }

  /** For one listing, exactly when the walk hides no file an include covers. */
  lemma ListingIsLosslessIff(c: Config, es: seq<Entry>)
    requires forall e :: e in es ==> Relative(e.rel)
    ensures Lossless(c, es) <==> forall e :: e in es ==> !HidesInclude(c, e)
  {
    VisibleSelects(c, es, Candidate);
    VisibleSelects(c, es, TooBig);
    VisibleSelects(c, es, BinaryName);
    VisibleIncludes(c, es);
    NoHiddenIncludes(c, es);
    SamePlan(c, Visible(c, es), es);
  }

  lemma SamePlan(c: Config, es: seq<Entry>, fs: seq<Entry>)
    requires Select(c, es, Candidate) == Select(c, fs, Candidate) && Select(c, es, TooBig) == Select(c, fs, TooBig)
    requires Select(c, es, BinaryName) == Select(c, fs, BinaryName)
    ensures Select(c, es, Included) == Select(c, fs, Included) ==> PlanOf(c, es) == PlanOf(c, fs)
    ensures |PlanOf(c, fs).kept| - |PlanOf(c, es).kept| == |Select(c, fs, Included)| - |Select(c, es, Included)|
  {}

  ghost predicate CleanEntries(es: seq<Entry>) { forall e :: e in es ==> Clean(e.rel) }

  lemma CleanIsRelative(rel: string)
    ensures Clean(rel) ==> Relative(rel)
  {
    assert "/" <= rel ==> rel[0] == '/';
  }

  /** When the include rules reach the junk on the way to each file, nothing is lost. */
  lemma ReachingIsLossless(c: Config, es: seq<Entry>)
    requires CleanEntries(es) && forall e :: e in es ==> ReachesOn(c, e.rel)
    ensures Lossless(c, es)
  {
    forall e | e in es ensures Relative(e.rel) { CleanIsRelative(e.rel); }
    ListingIsLosslessIff(c, es);
    forall e | e in es ensures !HidesInclude(c, e) {
      if Hidden(c, e.rel) { HiddenIsNotIncluded(c, e); }
    }
  }

  /** Whatever is judged junk: when the rules reach all they name. */
  lemma PruningIsLossless(c: Config, es: seq<Entry>)
    requires ReachesAll(c.inc) && CleanEntries(es)
    ensures Lossless(c, es)
  {
    forall e | e in es ensures ReachesOn(c, e.rel) {
      forall i: nat | AncestorEnd(e.rel, i) ensures ReachedOnTheWay(c.inc, e.rel, i) {}
    }
    ReachingIsLossless(c, es);
  }

  /** A listing with a file that is hidden, though an include names it and a directory
      above it is junk, loses that file. */
  lemma HiddenIncludeIsLost(c: Config, es: seq<Entry>, e: Entry, n: nat)
    requires CleanEntries(es) && e in es && c.exc == [] && AncestorEnd(e.rel, n) && c.reason(e.rel[..n]) != ""
    requires !ReachedOnTheWay(c.inc, e.rel, n)
    ensures !Lossless(c, es) && Hidden(c, e.rel) && ClassOf(c, e) == Included
  {
    forall f | f in es ensures Relative(f.rel) { CleanIsRelative(f.rel); }
    ListingIsLosslessIff(c, es);
    JunkAbove(c, e.rel, 0, n);
    assert Stopped(c, e.rel[..n]);
    assert HidesInclude(c, e);
  }

  // ---- The directory rule ----

  lemma AboveAbove(a: string, b: string, rel: string)
    requires Above(a, b) && Above(b, rel)
    ensures Above(a, rel)
  {}

  lemma BothAbove(a: string, b: string, rel: string)
    requires Above(a, rel) && Above(b, rel) && |a| < |b|
    ensures Above(a, b)
  {}

  /** Two directories above one entry are one above the other, or the same. */
  lemma SameLength(a: string, b: string, rel: string)
    requires Above(a, rel) && Above(b, rel) && |a| == |b|
    ensures a == b
  {}

  lemma {:induction false} DirsAre(es: seq<Entry>, d: string)
    ensures d in DirsOf(es) <==> exists k :: 0 <= k < |es| && Above(d, es[k].rel)
  {
    if es != [] {
      var init, e := es[..|es| - 1], es[|es| - 1];
      DirsAre(init, d);
      if d in DirsAbove(e.rel) { assert Above(d, es[|es| - 1].rel); }
      if Above(d, e.rel) { assert d == e.rel[..|d|]; }
      if k :| 0 <= k < |init| && Above(d, init[k].rel) { assert es[k] == init[k]; }
      if k :| 0 <= k < |es| && Above(d, es[k].rel) { if k < |init| { assert es[k] == init[k]; } }
    }
  }

  /** No directory skipped for its size lies in another. */
  lemma SkippedApart(c: Config, es: seq<Entry>, a: string, b: string)
    requires a in SkippedDirs(c, es) && b in SkippedDirs(c, es)
    ensures !Above(a, b)
  {
    OverIsAbove(c, es, a, b);
  }

  lemma OverIsAbove(c: Config, es: seq<Entry>, a: string, b: string)
    ensures Above(a, b) && Over(c, es, a) ==> OverAbove(c, es, b)
  {
    if Above(a, b) && Over(c, es, a) { assert AncestorEnd(b, |a|) && Over(c, es, b[..|a|]); }
  }

  lemma AboveSkips(a: string, b: string, dirs: set<string>)
    ensures Above(a, b) && a in dirs ==> InSkipped(b, dirs)
  {
    if Above(a, b) && a in dirs { assert AncestorEnd(b, |a|) && b[..|a|] in dirs; }
  }

  /** The highest directory over a limit, at or above one that is. */
  lemma {:induction false} TopOver(c: Config, es: seq<Entry>, d: string) returns (t: string)
    requires d in DirsOf(es) && Over(c, es, d)
    ensures t in SkippedDirs(c, es) && (t == d || Above(t, d))
    decreases |d|
  {
    t := d;
    if OverAbove(c, es, d) {
      var i :| 0 <= i < |d| && AncestorEnd(d, i) && Over(c, es, d[..i]);
      DirsAre(es, d);
      var k :| 0 <= k < |es| && Above(d, es[k].rel);
      AboveAbove(d[..i], d, es[k].rel);
      DirsAre(es, d[..i]);
      t := TopOver(c, es, d[..i]);
      if t != d[..i] { AboveAbove(t, d[..i], d); }
    }
  }

  /** Every directory that survives is within both limits. */
  lemma SurvivorsFit(c: Config, es: seq<Entry>, d: string)
    requires d in DirsOf(es) && !InSkipped(d, SkippedDirs(c, es))
    ensures Count(es, d) <= c.maxDirFiles && BytesIn(es, d) <= c.maxDirBytes
  {
    if Over(c, es, d) {
      var t := TopOver(c, es, d);
      AboveSkips(t, d, SkippedDirs(c, es));
    }
  }

  // ---- Conservation ----

  /** A number for each of some directories, added up. */
  ghost function Sum(dirs: set<string>, f: string -> nat): nat {
    if dirs == {} then 0 else var d :| d in dirs; f(d) + Sum(dirs - {d}, f)
  }

  lemma {:induction false} SumWithout(dirs: set<string>, f: string -> nat, d: string)
    requires d in dirs
    ensures Sum(dirs, f) == f(d) + Sum(dirs - {d}, f)
    decreases dirs
  {
    var x :| x in dirs && Sum(dirs, f) == f(x) + Sum(dirs - {x}, f);
    if x != d {
      SumWithout(dirs - {x}, f, d);
      SumWithout(dirs - {d}, f, x);
      assert dirs - {x} - {d} == dirs - {d} - {x};
    }
  }

  lemma {:induction false} SumZero(dirs: set<string>, f: string -> nat)
    requires forall d :: d in dirs ==> f(d) == 0
    ensures Sum(dirs, f) == 0
    decreases dirs
  {
    if dirs != {} {
      var d :| d in dirs;
      SumWithout(dirs, f, d);
      SumZero(dirs - {d}, f);
    }
  }

  lemma {:induction false} SumSame(dirs: set<string>, f: string -> nat, g: string -> nat)
    requires forall d :: d in dirs ==> f(d) == g(d)
    ensures Sum(dirs, f) == Sum(dirs, g)
    decreases dirs
  {
    if dirs != {} {
      var d :| d in dirs;
      SumWithout(dirs, f, d);
      SumWithout(dirs, g, d);
      SumSame(dirs - {d}, f, g);
    }
  }

  /** One more for one of them. */
  lemma SumOneMore(dirs: set<string>, f: string -> nat, g: string -> nat, d: string)
    requires d in dirs && g(d) == f(d) + 1 && forall x :: x in dirs && x != d ==> f(x) == g(x)
    ensures Sum(dirs, g) == Sum(dirs, f) + 1
  {
    SumWithout(dirs, f, d);
    SumWithout(dirs, g, d);
    SumSame(dirs - {d}, f, g);
  }

  /** How many of the entries each directory holds. */
  ghost function Files(es: seq<Entry>): string -> nat {
    d => Count(es, d)
  }

  lemma CountSnoc(es: seq<Entry>, e: Entry, d: string)
    ensures Files(es + [e])(d) == Files(es)(d) + if Above(d, e.rel) then 1 else 0
  {
    assert (es + [e])[..|es|] == es;
  }

  /** Directories none of which lies in another. */
  ghost predicate Apart(dirs: set<string>) {
    forall a, b :: a in dirs && b in dirs ==> !Above(a, b)
  }

  lemma OnlyOneAbove(dirs: set<string>, rel: string, d: string)
    requires Apart(dirs) && d in dirs && Above(d, rel)
    ensures forall x :: x in dirs && x != d ==> !Above(x, rel)
  {
    forall x | x in dirs && x != d ensures !Above(x, rel) {
      if Above(x, rel) {
        if |x| < |d| {
          BothAbove(x, d, rel);
        } else if |d| < |x| {
          BothAbove(d, x, rel);
        } else {
          SameLength(d, x, rel);
        }
      }
    }
  }

  lemma CountOneMore(es: seq<Entry>, e: Entry, dirs: set<string>)
    requires Apart(dirs) && e.rel !in dirs
    ensures Sum(dirs, Files(es + [e])) == Sum(dirs, Files(es)) + if InSkipped(e.rel, dirs) then 1 else 0
  {
    forall d ensures Files(es + [e])(d) == Files(es)(d) + if Above(d, e.rel) then 1 else 0 { CountSnoc(es, e, d); }
    if InSkipped(e.rel, dirs) {
      var i :| 0 <= i < |e.rel| && AncestorEnd(e.rel, i) && e.rel[..i] in dirs;
      OnlyOneAbove(dirs, e.rel, e.rel[..i]);
      SumOneMore(dirs, Files(es), Files(es + [e]), e.rel[..i]);
    } else {
      forall d | d in dirs ensures !Above(d, e.rel) { AboveSkips(d, e.rel, dirs); }
      SumSame(dirs, Files(es), Files(es + [e]));
    }
  }

  /** Every candidate is kept, binary, or a file of exactly one skipped directory. */
  lemma {:induction false} CandidatesConserved(c: Config, es: seq<Entry>, dirs: set<string>)
    requires Apart(dirs) && forall e :: e in es ==> e.rel !in dirs
    ensures |es| == |Unskipped(c, es, dirs, false)| + |Unskipped(c, es, dirs, true)| + Sum(dirs, Files(es))
  {
    if es == [] {
      SumZero(dirs, Files(es));
    } else {
      var init, e := es[..|es| - 1], es[|es| - 1];
      assert e in es && es == init + [e];
      CandidatesConserved(c, init, dirs);
      CountOneMore(init, e, dirs);
    }
  }

  /** How many of the entries each junk directory accounts for. */
  ghost function JunkFiles(c: Config, es: seq<Entry>): string -> nat {
    d => |Select(c, es, Junk(d))|
  }

  ghost function JunkDirs(c: Config, es: seq<Entry>): set<string> {
    if es == [] then {}
    else JunkDirs(c, es[..|es| - 1]) + match ClassOf(c, es[|es| - 1]) case Junk(d) => {d} case _ => {}
  }

  lemma JunkOneMore(c: Config, es: seq<Entry>, e: Entry, dirs: set<string>)
    requires ClassOf(c, e).Junk? ==> ClassOf(c, e).dir in dirs
    ensures Sum(dirs, JunkFiles(c, es + [e])) == Sum(dirs, JunkFiles(c, es)) + if ClassOf(c, e).Junk? then 1 else 0
  {
    forall d: string
      ensures JunkFiles(c, es + [e])(d) == JunkFiles(c, es)(d) + if ClassOf(c, e) == Junk(d) then 1 else 0
    {
      SelectSnoc(c, es, e, Junk(d));
    }
    if ClassOf(c, e).Junk? {
      SumOneMore(dirs, JunkFiles(c, es), JunkFiles(c, es + [e]), ClassOf(c, e).dir);
    } else {
      SumSame(dirs, JunkFiles(c, es), JunkFiles(c, es + [e]));
    }
  }

  lemma OneMore(c: Config, es: seq<Entry>, e: Entry, k: Class)
    ensures |Select(c, es + [e], k)| == |Select(c, es, k)| + if ClassOf(c, e) == k then 1 else 0
  {
    SelectSnoc(c, es, e, k);
  }

  lemma {:induction false} ClassesConserved(c: Config, es: seq<Entry>, dirs: set<string>)
    requires JunkDirs(c, es) <= dirs
    ensures |es| == |Select(c, es, Excluded)| + |Select(c, es, Included)| + Sum(dirs, JunkFiles(c, es))
                    + |Select(c, es, TooBig)| + |Select(c, es, BinaryName)| + |Select(c, es, Candidate)|
  {
    if es == [] {
      SumZero(dirs, JunkFiles(c, es));
    } else {
      var init, e := es[..|es| - 1], es[|es| - 1];
      assert es == init + [e];
      ClassesConserved(c, init, dirs);
      JunkOneMore(c, init, e, dirs);
      OneMore(c, init, e, Excluded);
      OneMore(c, init, e, Included);
      OneMore(c, init, e, TooBig);
      OneMore(c, init, e, BinaryName);
      OneMore(c, init, e, Candidate);
    }
  }

  lemma {:induction false} SelectedIn(c: Config, es: seq<Entry>, k: Class, e: Entry)
    requires e in Select(c, es, k)
    ensures e in es
  {
    if es != [] && e in Select(c, es[..|es| - 1], k) { SelectedIn(c, es[..|es| - 1], k, e); }
  }

  /** Nothing is lost: with nothing pruned, every entry is excluded, kept, a file of
      one junk directory, too big, binary, or a file of one directory skipped for
      its size. No path is both a file's and a directory's. */
  lemma EntriesConserved(c: Config, es: seq<Entry>)
    requires forall e, f :: e in es && f in es ==> !Above(e.rel, f.rel)
    ensures var p := PlanOf(c, es);
            |es| == |Select(c, es, Excluded)| + |p.kept| + Sum(JunkDirs(c, es), JunkFiles(c, es))
                    + |p.bigFiles| + p.binary + Sum(p.skipped, Files(Select(c, es, Candidate)))
  {
    var cands := Select(c, es, Candidate);
    var dirs := SkippedDirs(c, cands);
    ClassesConserved(c, es, JunkDirs(c, es));
    forall a, b | a in dirs && b in dirs ensures !Above(a, b) { SkippedApart(c, cands, a, b); }
    forall e | e in cands ensures e.rel !in dirs {
      SelectedIn(c, es, Candidate, e);
      if e.rel in dirs {
        DirsAre(cands, e.rel);
        var k :| 0 <= k < |cands| && Above(e.rel, cands[k].rel);
        SelectedIn(c, es, Candidate, cands[k]);
      }
    }
    CandidatesConserved(c, cands, dirs);
  }

  // ---- The loops of planIngest ----

  datatype Tally = Tally(files: nat, bytes: nat)

  function TallyOf(es: seq<Entry>, d: string): Tally {
    Tally(Count(es, d), BytesIn(es, d))
  }

  function Plus(t: Tally, size: nat): Tally {
    Tally(t.files + 1, t.bytes + size)
  }

  method FindTopJunk(c: Config, rel: string) returns (j: string)
    ensures j == TopJunk(c, rel, 0)
  {
    for i := 0 to |rel|
      invariant TopJunk(c, rel, i) == TopJunk(c, rel, 0)
    {
      if rel[i] == '/' && c.reason(rel[..i]) != "" { return rel[..i]; }
    }
    j := "";
  }

  /** planIngest's first decisions on an entry. */
  method Classify(c: Config, incPaths: seq<Rule>, e: Entry) returns (k: Class)
    requires incPaths == Anchored(c.inc)
    ensures k == ClassOf(c, e)
  {
    var excluded := IsCovered(c.exc, e.rel, false);
    if excluded { return Excluded; }
    var j := FindTopJunk(c, e.rel);
    var included := IsCovered(if j == "" then c.inc else incPaths, e.rel, false);
    if j != "" && !included {
      included := IsCovered(c.inc, j, true);
    }
    if included { return Included; }
    if j != "" { return Junk(j); }
    if e.size > c.maxFile { return TooBig; }
    if c.binaryExt(e.rel) { return BinaryName; }
    k := Candidate;
  }

  ghost predicate Sorted(c: Config, es: seq<Entry>, kept: seq<Entry>, big: seq<Entry>, binary: nat, cands: seq<Entry>) {
    && kept == Select(c, es, Included) && big == Select(c, es, TooBig)
    && binary == |Select(c, es, BinaryName)| && cands == Select(c, es, Candidate)
  }

  /** A junk directory's files among the entries. */
  ghost function JunkTally(c: Config, es: seq<Entry>, d: string): Tally {
    Tally(|Select(c, es, Junk(d))|, Total(Select(c, es, Junk(d))))
  }

  /** A directory left out as junk: why, and what it holds. */
  datatype JunkDir = JunkDir(why: string, held: Tally)

  function Why(c: Config, pruned: map<string, string>, d: string): string {
    if d in pruned then pruned[d] else c.reason(d)
  }

  /** The junk list: every directory the walk pruned, and every one with files. */
  ghost predicate JunkListed(c: Config, es: seq<Entry>, pruned: map<string, string>, junk: map<string, JunkDir>) {
    && junk.Keys == pruned.Keys + JunkDirs(c, es)
    && forall d :: d in junk ==> junk[d] == JunkDir(Why(c, pruned, d), JunkTally(c, es, d))
  }

  method CountJunk(c: Config, ghost es: seq<Entry>, e: Entry, d: string, ghost pruned: map<string, string>,
      junk: map<string, JunkDir>) returns (more: map<string, JunkDir>)
    requires ClassOf(c, e) == Junk(d) && JunkListed(c, es, pruned, junk)
    ensures JunkListed(c, es + [e], pruned, more)
  {
    var dir := if d in junk then junk[d] else JunkDir(c.reason(d), Tally(0, 0));
    more := junk[d := dir.(held := Plus(dir.held, e.size))];
    if d !in junk { NoJunk(c, es, d); }
    JunkCounted(c, es, e, d, pruned, junk, dir.held);
  }

  lemma JunkDirsSnoc(c: Config, es: seq<Entry>, e: Entry)
    ensures JunkDirs(c, es + [e]) == JunkDirs(c, es) + match ClassOf(c, e) case Junk(d) => {d} case _ => {}
  {
    assert (es + [e])[..|es|] == es;
  }

  lemma JunkKeys(c: Config, es: seq<Entry>, e: Entry, d: string, pruned: set<string>, keys: set<string>)
    requires ClassOf(c, e) == Junk(d) && keys == pruned + JunkDirs(c, es)
    ensures keys + {d} == pruned + JunkDirs(c, es + [e])
  {
    JunkDirsSnoc(c, es, e);
  }

  lemma JunkTallies(c: Config, es: seq<Entry>, e: Entry, d: string, held: Tally)
    requires ClassOf(c, e) == Junk(d) && held == JunkTally(c, es, d)
    ensures forall x: string :: JunkTally(c, es + [e], x) == if x == d then Plus(held, e.size) else JunkTally(c, es, x)
  {
    forall x: string ensures JunkTally(c, es + [e], x) == if x == d then Plus(held, e.size) else JunkTally(c, es, x) {
      JunkTallySnoc(c, es, e, x);
    }
  }

  lemma JunkCounted(c: Config, es: seq<Entry>, e: Entry, d: string, pruned: map<string, string>,
      junk: map<string, JunkDir>, held: Tally)
    requires ClassOf(c, e) == Junk(d) && JunkListed(c, es, pruned, junk) && held == JunkTally(c, es, d)
    ensures JunkListed(c, es + [e], pruned, junk[d := JunkDir(Why(c, pruned, d), Plus(held, e.size))])
  {
    JunkKeys(c, es, e, d, pruned.Keys, junk.Keys);
    JunkTallies(c, es, e, d, held);
    JunkPut(junk, d, JunkDir(Why(c, pruned, d), Plus(held, e.size)));
  }

  lemma JunkPut(junk: map<string, JunkDir>, d: string, dir: JunkDir)
    ensures junk[d := dir].Keys == junk.Keys + {d}
  {}

  lemma JunkTallySnoc(c: Config, es: seq<Entry>, e: Entry, d: string)
    ensures JunkTally(c, es + [e], d) ==
            if ClassOf(c, e) == Junk(d) then Plus(JunkTally(c, es, d), e.size) else JunkTally(c, es, d)
  {
    var before, after := Select(c, es, Junk(d)), Select(c, es + [e], Junk(d));
    SelectSnoc(c, es, e, Junk(d));
    SizeSnoc(before, e, after, ClassOf(c, e) == Junk(d));
  }

  lemma SizeSnoc(before: seq<Entry>, e: Entry, after: seq<Entry>, more: bool)
    requires after == before + if more then [e] else []
    ensures |after| == |before| + (if more then 1 else 0) && Total(after) == Total(before) + if more then e.size else 0
  {
    if more { TotalSnoc(before, e); } else { assert after == before; }
  }

  lemma TotalSnoc(es: seq<Entry>, e: Entry)
    ensures Total(es + [e]) == Total(es) + e.size
  {
    assert (es + [e])[..|es|] == es;
  }

  lemma {:induction false} NoJunk(c: Config, es: seq<Entry>, d: string)
    requires d !in JunkDirs(c, es)
    ensures JunkTally(c, es, d) == Tally(0, 0)
  {
    if es != [] { NoJunk(c, es[..|es| - 1], d); }
  }

  lemma OtherJunk(c: Config, es: seq<Entry>, e: Entry, pruned: map<string, string>, junk: map<string, JunkDir>)
    requires !ClassOf(c, e).Junk? && JunkListed(c, es, pruned, junk)
    ensures JunkListed(c, es + [e], pruned, junk)
  {
    JunkDirsSnoc(c, es, e);
    forall x | x in junk ensures junk[x].held == JunkTally(c, es + [e], x) { JunkTallySnoc(c, es, e, x); }
  }

  lemma SortedSnoc(c: Config, es: seq<Entry>, e: Entry, kept: seq<Entry>, big: seq<Entry>, binary: nat,
      cands: seq<Entry>)
    requires Sorted(c, es, kept, big, binary, cands)
    ensures var k := ClassOf(c, e);
            Sorted(c, es + [e], if k == Included then kept + [e] else kept, if k == TooBig then big + [e] else big,
                   if k == BinaryName then binary + 1 else binary, if k == Candidate then cands + [e] else cands)
  {
    SelectSnoc(c, es, e, Included);
    SelectSnoc(c, es, e, TooBig);
    SelectSnoc(c, es, e, BinaryName);
    SelectSnoc(c, es, e, Candidate);
  }

  /** planIngest's first loop. */
  method SortEntries(c: Config, es: seq<Entry>, pruned: map<string, string>)
      returns (kept: seq<Entry>, big: seq<Entry>, binary: nat, cands: seq<Entry>, junk: map<string, JunkDir>)
    ensures Sorted(c, es, kept, big, binary, cands) && JunkListed(c, es, pruned, junk)
  {
    kept, big, binary, cands := [], [], 0, [];
    junk := map d | d in pruned :: JunkDir(pruned[d], Tally(0, 0));
    var incPaths := AnchoredRules(c.inc);
    for i := 0 to |es|
      invariant Sorted(c, es[..i], kept, big, binary, cands) && JunkListed(c, es[..i], pruned, junk)
    {
      var e := es[i];
      assert es[..i + 1] == es[..i] + [e];
      var k := Classify(c, incPaths, e);
      SortedSnoc(c, es[..i], e, kept, big, binary, cands);
      if k.Junk? {
        junk := CountJunk(c, es[..i], e, k.dir, pruned, junk);
      } else {
        OtherJunk(c, es[..i], e, pruned, junk);
        match k
        case Included => kept := kept + [e];
        case TooBig => big := big + [e];
        case BinaryName => binary := binary + 1;
        case Candidate => cands := cands + [e];
        case _ =>
      }
    }
    assert es[..|es|] == es;
  }

  // ---- Aggregating ----

  ghost predicate Aggregated(es: seq<Entry>, dirs: map<string, Tally>) {
    dirs.Keys == DirsOf(es) && forall d :: d in dirs ==> dirs[d] == TallyOf(es, d)
  }

  /** The directories above rel that end before i. */
  function DirsBefore(rel: string, i: nat): set<string> {
    set k | 0 <= k < |rel| && k < i && AncestorEnd(rel, k) :: rel[..k]
  }

  ghost predicate PartlyAggregated(es: seq<Entry>, e: Entry, i: nat, dirs: map<string, Tally>) {
    && dirs.Keys == DirsOf(es) + DirsBefore(e.rel, i)
    && forall d :: d in dirs ==>
         dirs[d] == if d in DirsBefore(e.rel, i) then Plus(TallyOf(es, d), e.size) else TallyOf(es, d)
  }

  lemma {:induction false} NoTally(es: seq<Entry>, d: string)
    requires d !in DirsOf(es)
    ensures TallyOf(es, d) == Tally(0, 0)
  {
    if es != [] {
      NoTally(es[..|es| - 1], d);
      InDirsAbove(d, es[|es| - 1].rel);
    }
  }

  lemma InDirsAbove(d: string, rel: string)
    ensures d in DirsAbove(rel) <==> Above(d, rel)
  {
    if Above(d, rel) { assert d == rel[..|d|]; }
  }

  lemma InDirsBefore(d: string, rel: string, i: nat)
    ensures d in DirsBefore(rel, i) <==> Above(d, rel) && |d| < i
  {
    if Above(d, rel) { assert d == rel[..|d|]; }
  }

  lemma DirsBeforeNext(rel: string, i: nat)
    requires i < |rel|
    ensures DirsBefore(rel, i + 1) == DirsBefore(rel, i) + if rel[i] == '/' then {rel[..i]} else {}
    ensures rel[..i] !in DirsBefore(rel, i)
  {
    InDirsBefore(rel[..i], rel, i);
    var next := DirsBefore(rel, i) + if rel[i] == '/' then {rel[..i]} else {};
    forall d: string ensures d in DirsBefore(rel, i + 1) <==> d in next {
      InDirsBefore(d, rel, i);
      InDirsBefore(d, rel, i + 1);
    }
  }

  lemma TallySnoc(es: seq<Entry>, e: Entry, d: string)
    ensures TallyOf(es + [e], d) == if d in DirsAbove(e.rel) then Plus(TallyOf(es, d), e.size) else TallyOf(es, d)
  {
    assert (es + [e])[..|es|] == es;
    InDirsAbove(d, e.rel);
  }

  lemma AggregatedSnoc(es: seq<Entry>, e: Entry, dirs: map<string, Tally>)
    requires PartlyAggregated(es, e, |e.rel|, dirs)
    ensures Aggregated(es + [e], dirs)
  {
    assert (es + [e])[..|es|] == es;
    assert DirsBefore(e.rel, |e.rel|) == DirsAbove(e.rel);
    forall d | d in dirs ensures dirs[d] == TallyOf(es + [e], d) { TallySnoc(es, e, d); }
  }

  /** Every directory above one entry. */
  method AddAncestors(ghost es: seq<Entry>, e: Entry, dirs: map<string, Tally>) returns (more: map<string, Tally>)
    requires Aggregated(es, dirs)
    ensures Aggregated(es + [e], more)
  {
    more := dirs;
    for i := 0 to |e.rel|
      invariant PartlyAggregated(es, e, i, more)
    {
      DirsBeforeNext(e.rel, i);
      if e.rel[i] == '/' {
        var d := e.rel[..i];
        if d !in more { NoTally(es, d); }
        more := more[d := Plus(if d in more then more[d] else Tally(0, 0), e.size)];
      }
    }
    AggregatedSnoc(es, e, more);
  }

  method Aggregate(es: seq<Entry>) returns (dirs: map<string, Tally>)
    ensures Aggregated(es, dirs)
  {
    dirs := map[];
    for k := 0 to |es|
      invariant Aggregated(es[..k], dirs)
    {
      assert es[..k + 1] == es[..k] + [es[k]];
      dirs := AddAncestors(es[..k], es[k], dirs);
    }
    assert es[..|es|] == es;
  }

  // ---- Top down ----

  /** strings.Count(d, "/"). */
  function Depth(d: string): nat {
    if d == "" then 0 else Depth(d[..|d| - 1]) + if d[|d| - 1] == '/' then 1 else 0
  }

  lemma {:induction false} Deeper(a: string, b: string)
    requires Above(a, b)
    ensures Depth(a) < Depth(b)
  {
    var init := b[..|b| - 1];
    if |init| == |a| {
      assert init == a;
    } else {
      assert Above(a, init);
      Deeper(a, init);
    }
  }

  /** Go's order of strings, by runes as by their UTF-8. */
  predicate Less(a: string, b: string) {
    b != "" && (a == "" || a[0] < b[0] || (a[0] == b[0] && Less(a[1..], b[1..])))
  }

  lemma {:induction false} LessTotal(a: string, b: string)
    ensures a == b || Less(a, b) || Less(b, a)
  {
    if a != "" && b != "" && a[0] == b[0] {
      LessTotal(a[1..], b[1..]);
      assert a == [a[0]] + a[1..] && b == [b[0]] + b[1..];
    }
  }

  lemma {:induction false} LessTransitive(a: string, b: string, c: string)
    requires Less(a, b) && Less(b, c)
    ensures Less(a, c)
  {
    if a != "" && a[0] == b[0] == c[0] { LessTransitive(a[1..], b[1..], c[1..]); }
  }

  lemma {:induction false} LessNotSelf(a: string)
    ensures !Less(a, a)
  {
    if a != "" { LessNotSelf(a[1..]); }
  }

  /** Shallower, or as deep and first by name. */
  predicate Precedes(a: string, b: string) {
    Depth(a) < Depth(b) || (Depth(a) == Depth(b) && Less(a, b))
  }

  predicate IsFirst(left: set<string>, d: string) {
    d in left && forall x :: x in left && x != d ==> Precedes(d, x)
  }

  lemma {:induction false} First(left: set<string>) returns (d: string)
    requires left != {}
    ensures IsFirst(left, d)
    decreases left
  {
    d :| d in left;
    if left != {d} {
      var rest := First(left - {d});
      d := FirstOf(left, d, rest);
    }
  }

  lemma FirstOf(left: set<string>, x: string, y: string) returns (d: string)
    requires x in left && IsFirst(left - {x}, y)
    ensures IsFirst(left, d)
  {
    LessTotal(x, y);
    d := if Precedes(x, y) then x else y;
    forall z | z in left && z != d ensures Precedes(d, z) {
      if z != x && z != y {
        assert z in left - {x} && Precedes(y, z);
        if Depth(x) == Depth(y) == Depth(z) && Less(x, y) { LessTransitive(x, y, z); }
      }
    }
  }

  predicate Leads(d: string, left: set<string>) {
    forall x :: x in left ==> Precedes(d, x)
  }

  /** The directories, each once, the shallower first and by name among the others. */
  predicate TopDown(order: seq<string>) {
    forall i, j :: 0 <= i < j < |order| ==> Precedes(order[i], order[j])
  }

  /** The order planIngest goes through them in. */
  method SortByDepth(dirs: set<string>) returns (order: seq<string>)
    ensures forall d :: d in order <==> d in dirs
    ensures TopDown(order)
  {
    order := [];
    var left := dirs;
    while left != {}
      invariant left <= dirs && forall d :: d in dirs <==> d in left || d in order
      invariant TopDown(order)
      invariant forall i :: 0 <= i < |order| ==> Leads(order[i], left)
      decreases left
    {
      ghost var least := First(left);
      assert least in left;
      var d :| d in left && IsFirst(left, d);
      assert IsFirst(left, d);
      forall i | 0 <= i < |order| ensures Leads(order[i], left - {d}) && Precedes(order[i], d) {
        assert Leads(order[i], left);
      }
      assert Leads(d, left - {d});
      order := order + [d];
      left := left - {d};
    }
  }

  /** So each comes once. */
  lemma OrderedOnce(order: seq<string>)
    requires TopDown(order)
    ensures forall i, j :: 0 <= i < j < |order| ==> order[i] != order[j]
  {
    forall i, j | 0 <= i < j < |order| ensures order[i] != order[j] {
      assert Precedes(order[i], order[j]);
      LessNotSelf(order[i]);
    }
  }

  lemma SkipStep(c: Config, es: seq<Entry>, order: seq<string>, k: nat, skipped: set<string>)
    requires k < |order| && (forall d :: d in order <==> d in DirsOf(es)) && TopDown(order)
    requires forall d :: d in skipped <==> d in order[..k] && d in SkippedDirs(c, es)
    ensures InSkipped(order[k], skipped) ==> order[k] in skipped || order[k] !in SkippedDirs(c, es)
    ensures !InSkipped(order[k], skipped) ==> (order[k] in SkippedDirs(c, es) <==> Over(c, es, order[k]))
  {
    var d := order[k];
    if InSkipped(d, skipped) {
      if d !in skipped {
        var i :| 0 <= i < |d| && AncestorEnd(d, i) && d[..i] in skipped;
        OverIsAbove(c, es, d[..i], d);
      }
    } else if OverAbove(c, es, d) {
      var t := SkippedAbove(c, es, d);
      Deeper(t, d);
      EarlierInOrder(order, k, t);
      AboveSkips(t, d, skipped);
    }
  }

  lemma Shallower(order: seq<string>)
    requires TopDown(order)
    ensures forall i, j :: 0 <= i < j < |order| ==> Depth(order[i]) <= Depth(order[j])
  {
    forall i, j | 0 <= i < j < |order| ensures Depth(order[i]) <= Depth(order[j]) {
      assert Precedes(order[i], order[j]);
    }
  }

  lemma EarlierInOrder(order: seq<string>, k: nat, t: string)
    requires k < |order| && t in order && Depth(t) < Depth(order[k]) && TopDown(order)
    ensures t in order[..k]
  {
    var i :| 0 <= i < |order| && order[i] == t;
    Shallower(order);
    assert order[..k][i] == t;
  }

  lemma SkippedAbove(c: Config, es: seq<Entry>, d: string) returns (t: string)
    requires d in DirsOf(es) && OverAbove(c, es, d)
    ensures t in SkippedDirs(c, es) && t in DirsOf(es) && Above(t, d)
  {
    var i :| 0 <= i < |d| && AncestorEnd(d, i) && Over(c, es, d[..i]);
    DirsAre(es, d);
    var k :| 0 <= k < |es| && Above(d, es[k].rel);
    AboveAbove(d[..i], d, es[k].rel);
    DirsAre(es, d[..i]);
    t := TopOver(c, es, d[..i]);
    if t != d[..i] { AboveAbove(t, d[..i], d); }
  }

  method FindSkipped(rel: string, dirs: set<string>) returns (inside: bool)
    ensures inside <==> InSkipped(rel, dirs)
  {
    for i := 0 to |rel|
      invariant forall k :: 0 <= k < i && AncestorEnd(rel, k) ==> rel[..k] !in dirs
    {
      if rel[i] == '/' && rel[..i] in dirs { return true; }
    }
    inside := rel in dirs;
  }

  /** planIngest's pass over the directories, from the top down: it skips exactly
      the topmost of those over a limit. */
  method SkipDirs(c: Config, ghost es: seq<Entry>, dirs: map<string, Tally>) returns (skipped: set<string>)
    requires Aggregated(es, dirs)
    ensures skipped == SkippedDirs(c, es)
  {
    var order := SortByDepth(dirs.Keys);
    skipped := {};
    for k := 0 to |order|
      invariant forall d :: d in skipped <==> d in order[..k] && d in SkippedDirs(c, es)
    {
      var d := order[k];
      assert order[..k + 1] == order[..k] + [d];
      SkipStep(c, es, order, k, skipped);
      var inside := FindSkipped(d, skipped);
      if !inside {
        assert d in order;
        var t := dirs[d];
        if t.files > c.maxDirFiles || t.bytes > c.maxDirBytes {
          skipped := skipped + {d};
        }
      }
    }
    assert order[..|order|] == order;
  }

  /** planIngest's last loop over the candidates. */
  method KeepRest(c: Config, cands: seq<Entry>, skipped: set<string>) returns (kept: seq<Entry>, binary: nat)
    ensures kept == Unskipped(c, cands, skipped, false) && binary == |Unskipped(c, cands, skipped, true)|
  {
    kept, binary := [], 0;
    for i := 0 to |cands|
      invariant kept == Unskipped(c, cands[..i], skipped, false)
      invariant binary == |Unskipped(c, cands[..i], skipped, true)|
    {
      assert cands[..i + 1][..i] == cands[..i];
      var inside := FindSkipped(cands[i].rel, skipped);
      if !inside {
        if c.sniff(cands[i].rel) {
          binary := binary + 1;
        } else {
          kept := kept + [cands[i]];
        }
      }
    }
    assert cands[..|cands|] == cands;
  }

  predicate ByRel(es: seq<Entry>) {
    forall i, j :: 0 <= i < j < |es| ==> !Less(es[j].rel, es[i].rel)
  }

  lemma {:induction false} TotalFirst(e: Entry, es: seq<Entry>)
    ensures Total([e] + es) == e.size + Total(es)
  {
    if es != [] {
      TotalFirst(e, es[..|es| - 1]);
      assert ([e] + es)[..|es|] == [e] + es[..|es| - 1];
    }
  }

  function InsertByRel(e: Entry, es: seq<Entry>): (r: seq<Entry>)
    requires ByRel(es)
    ensures multiset(r) == multiset(es) + multiset{e} && ByRel(r) && Total(r) == Total(es) + e.size
  {
    if es == [] || Less(e.rel, es[0].rel) then
      InsertFirst(e, es);
      TotalFirst(e, es);
      [e] + es
    else
      var r := InsertByRel(e, es[1..]);
      assert es == [es[0]] + es[1..];
      InsertLater(es[0], e, es[1..], r);
      TotalFirst(es[0], es[1..]);
      TotalFirst(es[0], r);
      [es[0]] + r
  }

  lemma InsertFirst(e: Entry, es: seq<Entry>)
    requires ByRel(es) && (es == [] || Less(e.rel, es[0].rel))
    ensures ByRel([e] + es) && multiset([e] + es) == multiset(es) + multiset{e}
  {
    LessNotSelf(e.rel);
    forall j | 0 <= j < |es| && Less(es[j].rel, e.rel) ensures false {
      LessTransitive(es[j].rel, e.rel, es[0].rel);
      LessNotSelf(es[0].rel);
    }
  }

  lemma InsertLater(first: Entry, e: Entry, es: seq<Entry>, r: seq<Entry>)
    requires ByRel([first] + es) && !Less(e.rel, first.rel)
    requires ByRel(r) && multiset(r) == multiset(es) + multiset{e}
    ensures ByRel([first] + r) && multiset([first] + r) == multiset([first] + es) + multiset{e}
  {
    forall j | 0 <= j < |r| ensures !Less(r[j].rel, first.rel) {
      assert r[j] in multiset(r);
      if r[j] != e {
        var i :| 0 <= i < |es| && es[i] == r[j];
        assert ([first] + es)[i + 1] == r[j] && ([first] + es)[0] == first;
      }
    }
  }

  /** The files by name, as they go into the index. */
  function SortByRel(es: seq<Entry>): (r: seq<Entry>)
    ensures multiset(r) == multiset(es) && ByRel(r) && Total(r) == Total(es)
  {
    if es == [] then []
    else
      assert es == es[..|es| - 1] + [es[|es| - 1]];
      InsertByRel(es[|es| - 1], SortByRel(es[..|es| - 1]))
  }

  /** planIngest, with the junk list and the files by name. */
  method PlanIngest(c: Config, es: seq<Entry>, pruned: map<string, string>)
      returns (p: Plan, junk: map<string, JunkDir>, files: seq<Entry>)
    ensures p == PlanOf(c, es) && JunkListed(c, es, pruned, junk)
    ensures multiset(files) == multiset(p.kept) && ByRel(files)
  {
    var kept, big, binary, cands;
    kept, big, binary, cands, junk := SortEntries(c, es, pruned);
    var dirs := Aggregate(cands);
    var skipped := SkipDirs(c, cands, dirs);
    var rest, sniffed := KeepRest(c, cands, skipped);
    kept := kept + rest;
    files := SortByRel(kept);
    var bytes := AddSizes(files);
    p := Plan(kept, big, binary + sniffed, skipped, bytes, |kept| > c.maxDirFiles || bytes > c.maxDirBytes);
  }

  method AddSizes(es: seq<Entry>) returns (bytes: nat)
    ensures bytes == Total(es)
  {
    bytes := 0;
    for i := 0 to |es|
      invariant bytes == Total(es[..i])
    {
      assert es[..i + 1][..i] == es[..i];
      bytes := bytes + es[i].size;
    }
    assert es[..|es|] == es;
  }
}
