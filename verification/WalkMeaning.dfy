/** What the walk lists and what it prunes, of each file and each directory of a
    workspace by itself. */
module WalkMeaning {
  import opened Glob
  import opened GlobRules
  import opened Ingest
  import opened IngestWalk
  import opened Junk

  /** The walk may go into a directory: no rule excludes it, and it is not junk, or an
      include reaches it. */
  ghost predicate GoesIn(c: Config, d: string) {
    !Covered(c.exc, d, true) && (c.reason(d) == "" || Reaches(c.inc, d))
  }

  /** So it does on the way. */
  ghost predicate Entered(c: Config, rel: string) {
    forall i: nat :: AncestorEnd(rel, i) ==> GoesIn(c, rel[..i])
  }

  lemma {:induction false} VisibleHas(c: Config, es: seq<Entry>, e: Entry)
    ensures e in Visible(c, es) <==> e in es && Entered(c, e.rel)
  {
    if es != [] {
      VisibleHas(c, es[..|es| - 1], e);
      assert es == es[..|es| - 1] + [es[|es| - 1]];
    }
  }

  /** The walk lists exactly the files of the workspace that are in no .git, that the
      .gitignore files of the whole workspace do not cover, and on whose way it may go
      into every directory. */
  lemma WalkLists(c: Config, rules: seq<Rule>, kids: seq<Tree>, entries: seq<Entry>, pruned: map<string, string>,
      e: Entry)
    requires Planted("", kids) && Walked(c, "", Shown(rules, "", kids), entries, pruned)
    ensures e in entries <==>
            && e in IngestWalk.Files("", kids) && !InGit(e.rel) && !Covered(rules + AllRules(kids), e.rel, false)
            && Entered(c, e.rel)
  {
    VisibleHas(c, Listing("", Shown(rules, "", kids)), e);
    ShownIff(rules, kids, e);
  }

  // ---- Directories ----

  /** Every directory of a workspace. */
  function TreeDirs(prefix: string, kids: seq<Tree>): set<string>
    decreases kids
  {
    if kids == [] then {}
    else TreeDirs(prefix, kids[..|kids| - 1]) + KidDirs(prefix, kids[|kids| - 1])
  }

  function KidDirs(prefix: string, k: Tree): set<string>
    decreases k
  {
    var d := Path(prefix, k.name);
    if k.Leaf? then {} else {d} + TreeDirs(d, k.inside)
  }

  lemma {:induction false} TreeDirsBeneath(prefix: string, kids: seq<Tree>)
    requires prefix != ""
    ensures forall x :: x in TreeDirs(prefix, kids) ==> Above(prefix, x)
    decreases kids
  {
    if kids != [] {
      TreeDirsBeneath(prefix, kids[..|kids| - 1]);
      var k := kids[|kids| - 1];
      var d := Path(prefix, k.name);
      assert d == prefix + "/" + k.name && Above(prefix, d);
      if k.Branch? {
        TreeDirsBeneath(d, k.inside);
        forall x | x in TreeDirs(d, k.inside) ensures Above(prefix, x) { AboveAbove(prefix, d, x); }
      }
    }
  }

  lemma {:induction false} TreeDirsClean(prefix: string, kids: seq<Tree>)
    requires Planted(prefix, kids) && (prefix == "" || Clean(prefix))
    ensures forall x :: x in TreeDirs(prefix, kids) ==> Clean(x)
    decreases kids
  {
    if kids != [] {
      TreeDirsClean(prefix, kids[..|kids| - 1]);
      var k := kids[|kids| - 1];
      NameClean(k.name);
      if prefix != "" { CleanBoth(prefix, k.name); }
      if k.Branch? { TreeDirsClean(Path(prefix, k.name), k.inside); }
    }
  }

  ghost predicate DirShown(all: seq<Rule>, x: string) {
    !InGit(x) && Base(x) != ".git" && !Covered(all, x, true)
  }

  lemma DirsHiddenBelow(all: seq<Rule>, d: string, inside: seq<Tree>, x: string)
    requires d != "" && x in {d} + TreeDirs(d, inside) && (Base(d) == ".git" || Covered(all, d, true))
    ensures !DirShown(all, x)
  {
    TreeDirsBeneath(d, inside);
    if x != d {
      assert x[..|d|] == d && x == d + "/" + x[|d| + 1..];
      if Covered(all, d, true) { CoveredBelow(all, d, x[|d| + 1..], true); }
    }
  }

  lemma {:induction false} DirsShownBelow(all: seq<Rule>, above: seq<Rule>, prefix: string, kids: seq<Tree>, x: string)
    requires Planted(prefix, kids) && NotIgnored(all, prefix) && NoGit(prefix) && AllHeard(all, above, prefix, kids)
    ensures x in DirsIn(prefix, Shown(above, prefix, kids)) <==> x in TreeDirs(prefix, kids) && DirShown(all, x)
    decreases kids, 1
  {
    if kids != [] {
      var init, k := kids[..|kids| - 1], kids[|kids| - 1];
      assert kids == init + [k];
      AllHeardInit(all, above, prefix, init, k);
      DirsShownBelow(all, above, prefix, init, x);
      AllHeardLast(all, above, prefix, init, k);
      KidDirsShown(all, above, prefix, k, x);
      var a, b := Shown(above, prefix, init), ShownKid(above, prefix, k);
      if b != [] { KidsBoth(prefix, a, b[0]); } else { assert a + b == a; }
    }
  }

  lemma {:induction false} KidDirsShown(all: seq<Rule>, above: seq<Rule>, prefix: string, k: Tree, x: string)
    requires PlantedKid(prefix, k) && NotIgnored(all, prefix) && NoGit(prefix)
    requires AgreesIn(all, above + RulesIn(k), Path(prefix, k.name))
    ensures x in DirsIn(prefix, ShownKid(above, prefix, k)) <==> x in KidDirs(prefix, k) && DirShown(all, x)
    decreases k, 0
  {
    var d := Path(prefix, k.name);
    GitPath(prefix, k.name);
    GitBase(prefix, k.name);
    OwnSilent(prefix, k, above);
    assert AtOrIn(d, d) && Agrees(all, above + RulesIn(k), d);
    OwnVerdict(all, above, prefix, k.name, k.Branch?);
    match k
    case Leaf(name, size) => OneKid(prefix, File(name, size));
    case Branch(name, rules, inside) =>
      if name == ".git" || Covered(all, d, true) {
        if x in KidDirs(prefix, k) { DirsHiddenBelow(all, d, inside, x); }
      } else {
        AllHeardInside(all, above, d, rules, inside);
        DirsShownBelow(all, above + rules, d, inside, x);
        OneKid(prefix, Dir(name, Shown(above + rules, d, inside)));
      }
  }

  lemma {:induction false} NoTopJunk(c: Config, d: string, from: nat)
    requires from <= |d| && (from == 0 ==> Relative(d))
    ensures TopJunk(c, d, from) == "" <==> forall i: nat :: from <= i && AncestorEnd(d, i) ==> c.reason(d[..i]) == ""
    decreases |d| - from
  {
    if from < |d| {
      if from == 0 && d[0] == '/' { assert "/" <= d; }
      NoTopJunk(c, d, from + 1);
    }
  }

  /** The walk prunes exactly the directories of the workspace that it comes to and does
      not enter for being junk, and that are in no junk themselves: no rule excludes
      them, they are junk, no include reaches them; each with its reason. */
  lemma WalkPrunes(c: Config, rules: seq<Rule>, kids: seq<Tree>, entries: seq<Entry>, pruned: map<string, string>,
      d: string)
    requires Planted("", kids) && Walked(c, "", Shown(rules, "", kids), entries, pruned)
    ensures d in pruned <==>
            && d in TreeDirs("", kids) && !InGit(d) && Base(d) != ".git" && !Covered(rules + AllRules(kids), d, true)
            && Entered(c, d) && !Covered(c.exc, d, true) && c.reason(d) != "" && !Reaches(c.inc, d)
            && forall i: nat :: AncestorEnd(d, i) ==> c.reason(d[..i]) == ""
    ensures d in pruned ==> pruned[d] == c.reason(d)
  {
    var all := rules + AllRules(kids);
    forall k | k in kids ensures AgreesIn(all, all, Path("", k.name)) {
      forall p | AtOrIn(Path("", k.name), p) ensures Agrees(all, all, p) {}
    }
    DirsShownBelow(all, rules, "", kids, d);
    if d in TreeDirs("", kids) {
      TreeDirsClean("", kids);
      CleanIsRelative(d);
      NoTopJunk(c, d, 0);
    }
  }
}
