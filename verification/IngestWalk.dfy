/** Listing a workspace without entering what would be left out: rag_ingest.go's
    walkEntries, which reads .gitignore files as it goes. */
module IngestWalk {
  import opened Glob
  import opened GlobRules
  import opened Ingest
  import opened Junk
  import Strings

  // ---- The walk's loop ----

  predicate WellNamed(kids: seq<Node>)
    decreases kids
  {
    kids == [] ||
    var k := kids[|kids| - 1];
    && k.name != "" && '/' !in k.name
    && (k.Dir? ==> WellNamed(k.kids))
    && WellNamed(kids[..|kids| - 1])
  }

  /** The walk has come this far: nothing at or above here stopped it. */
  ghost predicate Clear(c: Config, prefix: string) {
    prefix == "" || (!Stopped(c, prefix) && !Hidden(c, prefix))
  }

  lemma PathAncestors(prefix: string, name: string, i: nat)
    requires '/' !in name
    ensures var p := Path(prefix, name);
            AncestorEnd(p, i) <==> prefix != "" && (i == |prefix| || AncestorEnd(prefix, i))
    ensures prefix != "" && i <= |prefix| ==> Path(prefix, name)[..i] == prefix[..i]
  {
    var p := Path(prefix, name);
    if prefix != "" {
      assert p == prefix + ("/" + name);
      if |prefix| < i < |p| { assert p[i] == name[i - |prefix| - 1] && p[i] in name; }
    } else if i < |p| {
      assert p[i] in name;
    }
  }

  lemma ClearPath(c: Config, prefix: string, name: string)
    requires Clear(c, prefix) && '/' !in name
    ensures !Hidden(c, Path(prefix, name))
  {
    var p := Path(prefix, name);
    forall i: nat | AncestorEnd(p, i) ensures !Stopped(c, p[..i]) {
      PathAncestors(prefix, name, i);
      if i == |prefix| { assert p[..i] == prefix; } else { assert AncestorEnd(prefix, i); }
    }
  }

  lemma {:induction false} VisibleConcat(c: Config, a: seq<Entry>, b: seq<Entry>)
    ensures Visible(c, a + b) == Visible(c, a) + Visible(c, b)
  {
    if b == [] {
      assert a + b == a;
    } else {
      assert (a + b)[..|a + b| - 1] == a + b[..|b| - 1];
      VisibleConcat(c, a, b[..|b| - 1]);
    }
  }

  lemma {:induction false} ListedBeneath(prefix: string, kids: seq<Node>)
    requires prefix != ""
    ensures forall e :: e in Listing(prefix, kids) ==> Above(prefix, e.rel)
    decreases kids
  {
    if kids != [] {
      ListedBeneath(prefix, kids[..|kids| - 1]);
      var k := kids[|kids| - 1];
      var d := Path(prefix, k.name);
      assert d == prefix + "/" + k.name && Above(prefix, d);
      if k.Dir? {
        ListedBeneath(d, k.kids);
        forall e | e in Listing(d, k.kids) ensures Above(prefix, e.rel) { AboveAbove(prefix, d, e.rel); }
      }
    }
  }

  lemma {:induction false} AllHidden(c: Config, es: seq<Entry>)
    requires forall e :: e in es ==> Hidden(c, e.rel)
    ensures Visible(c, es) == []
  {
    if es != [] { AllHidden(c, es[..|es| - 1]); }
  }

  lemma StoppedHides(c: Config, d: string, kids: seq<Node>)
    requires d != "" && Stopped(c, d)
    ensures Visible(c, Listing(d, kids)) == []
  {
    ListedBeneath(d, kids);
    forall e | e in Listing(d, kids) ensures Hidden(c, e.rel) { assert AncestorEnd(e.rel, |d|) && e.rel[..|d|] == d; }
    AllHidden(c, Listing(d, kids));
  }

  /** Every directory. */
  function DirsIn(prefix: string, kids: seq<Node>): set<string>
    decreases kids
  {
    if kids == [] then {}
    else
      var k := kids[|kids| - 1];
      var d := Path(prefix, k.name);
      DirsIn(prefix, kids[..|kids| - 1]) + if k.File? then {} else {d} + DirsIn(d, k.kids)
  }

  lemma {:induction false} DirsBeneath(prefix: string, kids: seq<Node>)
    requires prefix != ""
    ensures forall d :: d in DirsIn(prefix, kids) ==> Above(prefix, d)
    decreases kids
  {
    if kids != [] {
      DirsBeneath(prefix, kids[..|kids| - 1]);
      var k := kids[|kids| - 1];
      var d := Path(prefix, k.name);
      assert d == prefix + "/" + k.name && Above(prefix, d);
      if k.Dir? {
        DirsBeneath(d, k.kids);
        forall x | x in DirsIn(d, k.kids) ensures Above(prefix, x) { AboveAbove(prefix, d, x); }
      }
    }
  }

  /** Junk that no include reaches and no rule excludes, outermost. */
  ghost predicate OutermostJunk(c: Config, d: string) {
    !Covered(c.exc, d, true) && c.reason(d) != "" && !Reaches(c.inc, d) && TopJunk(c, d, 0) == ""
  }

  /** All such directories that the walk comes to, each with its reason. */
  ghost predicate PrunedAre(c: Config, dirs: set<string>, pruned: map<string, string>) {
    && (forall d :: d in pruned <==> d in dirs && !Hidden(c, d) && OutermostJunk(c, d))
    && forall d :: d in pruned ==> pruned[d] == c.reason(d)
  }

  lemma StoppedHidesDirs(c: Config, d: string, kids: seq<Node>)
    requires d != "" && Stopped(c, d)
    ensures forall x :: x in DirsIn(d, kids) ==> Hidden(c, x)
  {
    DirsBeneath(d, kids);
    forall x | x in DirsIn(d, kids) ensures Hidden(c, x) { assert AncestorEnd(x, |d|) && x[..|d|] == d; }
  }

  lemma PrunedWithin(c: Config, dirs: set<string>, pruned: map<string, string>,
      more: set<string>, under: map<string, string>)
    requires PrunedAre(c, dirs, pruned) && PrunedAre(c, more, under)
    ensures PrunedAre(c, dirs + more, pruned + under)
  {}

  // ---- The walk and the plan ----

  lemma {:induction false} ListingClean(prefix: string, kids: seq<Node>)
    requires WellNamed(kids) && (prefix == "" || Clean(prefix))
    ensures CleanEntries(Listing(prefix, kids))
    decreases kids
  {
    if kids != [] {
      ListingClean(prefix, kids[..|kids| - 1]);
      var k := kids[|kids| - 1];
      NameClean(k.name);
      if prefix != "" { CleanBoth(prefix, k.name); }
      if k.Dir? { ListingClean(Path(prefix, k.name), k.kids); }
    }
  }

  /** Planning over what the walk lists is planning over the whole workspace. */
  lemma WalkIsLossless(c: Config, kids: seq<Node>)
    requires WellNamed(kids) && ReachesAll(c.inc)
    ensures Lossless(c, Listing("", kids))
  {
    ListingClean("", kids);
    PruningIsLossless(c, Listing("", kids));
  }

  // ---- .gitignore files ----

  /** A workspace, with the rules of each directory's own .gitignore. */
  datatype Tree = Leaf(name: string, size: nat) | Branch(name: string, rules: seq<Rule>, inside: seq<Tree>)

  /** Every name comes once in a directory, and the rules are the directory's. */
  predicate Planted(prefix: string, kids: seq<Tree>)
    decreases kids
  {
    kids == [] ||
    var k := kids[|kids| - 1];
    && PlantedKid(prefix, k) && Planted(prefix, kids[..|kids| - 1])
    && forall i :: 0 <= i < |kids| - 1 ==> kids[i].name != k.name
  }

  predicate PlantedKid(prefix: string, k: Tree)
    decreases k
  {
    && k.name != "" && '/' !in k.name
    && (k.Branch? ==>
         var d := Path(prefix, k.name); Planted(d, k.inside) && forall r :: r in k.rules ==> r.base == d)
  }

  /** What git would show of it: less every .git, and what the rules of the
      directories above hide. */
  function Shown(above: seq<Rule>, prefix: string, kids: seq<Tree>): seq<Node>
    decreases kids
  {
    if kids == [] then []
    else Shown(above, prefix, kids[..|kids| - 1]) + ShownKid(above, prefix, kids[|kids| - 1])
  }

  function ShownKid(above: seq<Rule>, prefix: string, k: Tree): seq<Node>
    decreases k
  {
    var d := Path(prefix, k.name);
    if Verdict(above, d, k.Branch?) || (k.Branch? && k.name == ".git") then []
    else match k
      case Leaf(name, size) => [File(name, size)]
      case Branch(name, rules, inside) => [Dir(name, Shown(above + rules, d, inside))]
  }

  /** d, or something in it. */
  predicate AtOrIn(d: string, p: string) { p == d || Above(d, p) }

  /** Every rule is of a directory among these, or in one. */
  predicate Within(more: seq<Rule>, prefix: string, kids: seq<Tree>) {
    forall r :: r in more ==> exists k :: k in kids && AtOrIn(Path(prefix, k.name), r.base)
  }

  lemma {:induction false} HeardConcat(a: seq<Rule>, b: seq<Rule>, rel: string)
    ensures Heard(a + b, rel) == Heard(a, rel) + Heard(b, rel)
  {
    if b == [] {
      assert a + b == a;
    } else {
      var init, r := b[..|b| - 1], b[|b| - 1];
      HeardConcat(a, init, rel);
      HeardSnoc(a + init, r, rel);
      Strings.ConcatAssociates(a, init, [r]);
      assert b == init + [r];
    }
  }

  lemma {:induction false} NoneHeard(more: seq<Rule>, rel: string)
    requires forall r :: r in more ==> r.base != "" && !Beneath(r.base, rel)
    ensures Heard(more, rel) == []
  {
    if more != [] { NoneHeard(more[..|more| - 1], rel); }
  }

  /** Rules of directories are silent at and above them. */
  lemma SilentAbove(more: seq<Rule>, prefix: string, kids: seq<Tree>)
    requires Within(more, prefix, kids) && prefix != "" && forall k :: k in kids ==> k.name != ""
    ensures Heard(more, prefix) == []
  {
    forall r | r in more ensures r.base != "" && !Beneath(r.base, prefix) {
      var k :| k in kids && AtOrIn(Path(prefix, k.name), r.base);
      assert |r.base| > |prefix|;
    }
    NoneHeard(more, prefix);
  }

  /** A path is at or in one child only. */
  lemma OneChild(prefix: string, x: string, y: string, p: string)
    requires '/' !in x && '/' !in y && x != "" && y != ""
    requires AtOrIn(Path(prefix, x), p) && AtOrIn(Path(prefix, y), p)
    ensures x == y
  {
    var dx, dy := Path(prefix, x), Path(prefix, y);
    PathAncestors(prefix, x, |dy|);
    PathAncestors(prefix, y, |dx|);
    assert p[..|dx|] == dx && p[..|dy|] == dy;
    assert |dx| == |dy|;
    SameName(prefix, x, y);
  }

  lemma Siblings(prefix: string, x: string, y: string, b: string, p: string)
    requires '/' !in x && '/' !in y && x != y && x != "" && y != ""
    requires AtOrIn(Path(prefix, x), b) && AtOrIn(Path(prefix, y), p)
    ensures b != "" && !Beneath(b, p)
  {
    if Beneath(b, p) {
      BeneathIn(Path(prefix, x), b, p);
      OneChild(prefix, x, y, p);
    }
  }

  lemma BeneathIn(d: string, b: string, p: string)
    requires AtOrIn(d, b) && Beneath(b, p)
    ensures Above(d, p)
  {
    assert p[..|b| + 1] == b + "/";
    assert p[..|d|] == b[..|d|] == d;
  }

  lemma SameName(prefix: string, x: string, y: string)
    requires Path(prefix, x) == Path(prefix, y)
    ensures x == y
  {
    if prefix != "" { assert Path(prefix, x)[|prefix| + 1..] == x && Path(prefix, y)[|prefix| + 1..] == y; }
  }

  // ---- The rules read so far ----

  /** They say the same of a path. */
  ghost predicate Agrees(ign: seq<Rule>, above: seq<Rule>, p: string) { Heard(ign, p) == Heard(above, p) }

  ghost predicate AgreesIn(ign: seq<Rule>, above: seq<Rule>, d: string) {
    forall p :: AtOrIn(d, p) ==> Agrees(ign, above, p)
  }

  ghost predicate AgreesOn(ign: seq<Rule>, above: seq<Rule>, prefix: string, kids: seq<Tree>) {
    forall k :: k in kids ==> AgreesIn(ign, above, Path(prefix, k.name))
  }

  ghost predicate NotIgnored(ign: seq<Rule>, prefix: string) { prefix == "" || !Covered(ign, prefix, true) }

  lemma OwnVerdict(ign: seq<Rule>, above: seq<Rule>, prefix: string, name: string, isDir: bool)
    requires NotIgnored(ign, prefix) && '/' !in name && Agrees(ign, above, Path(prefix, name))
    ensures Covered(ign, Path(prefix, name), isDir) <==> Verdict(above, Path(prefix, name), isDir)
  {
    var p := Path(prefix, name);
    forall i: nat | AncestorEnd(p, i) ensures !Verdict(ign, p[..i], true) {
      PathAncestors(prefix, name, i);
      assert prefix[..|prefix|] == prefix;
    }
    VerdictHears(ign, p, isDir);
    VerdictHears(above, p, isDir);
  }

  /** Rules read in other children change nothing for this one. */
  lemma GrowsApart(ign: seq<Rule>, above: seq<Rule>, more: seq<Rule>, prefix: string, init: seq<Tree>, k: Tree)
    requires Planted(prefix, init + [k]) && Within(more, prefix, init)
    requires AgreesIn(ign, above, Path(prefix, k.name))
    ensures AgreesIn(ign + more, above, Path(prefix, k.name))
  {
    assert (init + [k])[..|init|] == init;
    PlantedNames(prefix, init);
    forall p | AtOrIn(Path(prefix, k.name), p) ensures Agrees(ign + more, above, p) {
      forall r | r in more ensures r.base != "" && !Beneath(r.base, p) {
        var x :| x in init && AtOrIn(Path(prefix, x.name), r.base);
        var i :| 0 <= i < |init| && init[i] == x;
        assert (init + [k])[i] == x;
        Siblings(prefix, x.name, k.name, r.base, p);
      }
      NoneHeard(more, p);
      HeardConcat(ign, more, p);
      assert Agrees(ign, above, p);
    }
  }

  lemma {:induction false} PlantedNames(prefix: string, kids: seq<Tree>)
    requires Planted(prefix, kids)
    ensures forall k :: k in kids ==> k.name != "" && '/' !in k.name
  {
    if kids != [] {
      PlantedNames(prefix, kids[..|kids| - 1]);
      assert kids == kids[..|kids| - 1] + [kids[|kids| - 1]];
    }
  }

  lemma StillNotIgnored(ign: seq<Rule>, more: seq<Rule>, prefix: string, kids: seq<Tree>)
    requires NotIgnored(ign, prefix) && Within(more, prefix, kids) && Planted(prefix, kids)
    ensures NotIgnored(ign + more, prefix)
  {
    if prefix != "" {
      PlantedNames(prefix, kids);
      SilentAbove(more, prefix, kids);
      HeardConcat(ign, more, prefix);
      assert Heard(ign, prefix) + [] == Heard(ign, prefix);
      ForeignRulesSilent(ign + more, prefix, true);
      ForeignRulesSilent(ign, prefix, true);
    }
  }

  /** A directory's own rules, once read, are among those above what is in it. */
  lemma Enters(ign: seq<Rule>, above: seq<Rule>, d: string, rules: seq<Rule>, inside: seq<Tree>)
    requires d != "" && AgreesIn(ign, above, d) && !Covered(ign, d, true)
    requires (forall r :: r in rules ==> r.base == d) && Planted(d, inside)
    ensures AgreesOn(ign + rules, above + rules, d, inside) && NotIgnored(ign + rules, d)
  {
    PlantedNames(d, inside);
    forall k | k in inside ensures AgreesIn(ign + rules, above + rules, Path(d, k.name)) {
      forall p | AtOrIn(Path(d, k.name), p) ensures Agrees(ign + rules, above + rules, p) {
        ChildIn(d, k.name, p);
        HeardConcat(ign, rules, p);
        HeardConcat(above, rules, p);
        assert Agrees(ign, above, p);
      }
    }
    NoneHeard(rules, d);
    HeardConcat(ign, rules, d);
    assert Heard(ign, d) + [] == Heard(ign, d);
    ForeignRulesSilent(ign + rules, d, true);
    ForeignRulesSilent(ign, d, true);
  }

  lemma ChildIn(d: string, name: string, p: string)
    requires d != "" && AtOrIn(Path(d, name), p)
    ensures Above(d, p)
  {
    assert Above(d, Path(d, name));
    if p != Path(d, name) { AboveAbove(d, Path(d, name), p); }
  }

  lemma WithinInside(more: seq<Rule>, d: string, inside: seq<Tree>)
    requires Within(more, d, inside) && d != ""
    ensures forall r :: r in more ==> AtOrIn(d, r.base)
  {
    forall r | r in more ensures AtOrIn(d, r.base) {
      var x :| x in inside && AtOrIn(Path(d, x.name), r.base);
      ChildIn(d, x.name, r.base);
    }
  }

  // ---- The loop ----

  /** The rules a walk has read. */
  class RuleList {
    var rules: seq<Rule>

    constructor ()
      ensures rules == []
    {
      rules := [];
    }

    /** addFile. */
    method Add(more: seq<Rule>)
      modifies this
      ensures rules == old(rules) + more
    {
      rules := rules + more;
    }
  }

  /** Whether the walk stops at a directory, and whether it lists it as junk. */
  method StopsAt(c: Config, d: string) returns (stop: bool, junk: bool)
    ensures stop <==> Stopped(c, d)
    ensures junk <==> OutermostJunk(c, d)
  {
    junk := false;
    stop := IsCovered(c.exc, d, true);
    if stop { return; }
    if c.reason(d) != "" {
      var reached := IsReached(c.inc, d);
      if !reached {
        stop := true;
        var outer := FindTopJunk(c, d);
        junk := outer == "";
      }
    }
  }

  /** What a walk beneath prefix makes of nodes. */
  ghost predicate Walked(c: Config, prefix: string, nodes: seq<Node>, entries: seq<Entry>,
      pruned: map<string, string>)
  {
    entries == Visible(c, Listing(prefix, nodes)) && PrunedAre(c, DirsIn(prefix, nodes), pruned)
  }

  lemma KidsBoth(prefix: string, a: seq<Node>, k: Node)
    ensures Listing(prefix, a + [k]) == Listing(prefix, a) + Listing(prefix, [k])
    ensures DirsIn(prefix, a + [k]) == DirsIn(prefix, a) + DirsIn(prefix, [k])
  {
    OneKid(prefix, k);
    assert (a + [k])[..|a|] == a;
  }

  lemma OneKid(prefix: string, k: Node)
    ensures k.File? ==> Listing(prefix, [k]) == [Entry(Path(prefix, k.name), k.size)] && DirsIn(prefix, [k]) == {}
    ensures k.Dir? ==> Listing(prefix, [k]) == Listing(Path(prefix, k.name), k.kids)
    ensures k.Dir? ==> DirsIn(prefix, [k]) == {Path(prefix, k.name)} + DirsIn(Path(prefix, k.name), k.kids)
  {
    assert [k][..0] == [];
  }

  lemma WalkedBoth(c: Config, prefix: string, a: seq<Node>, b: seq<Node>, es: seq<Entry>, ps: map<string, string>,
      fs: seq<Entry>, qs: map<string, string>)
    requires Walked(c, prefix, a, es, ps) && Walked(c, prefix, b, fs, qs) && |b| <= 1
    ensures Walked(c, prefix, a + b, es + fs, ps + qs)
  {
    if b == [] {
      assert a + b == a && Visible(c, []) == [];
      assert qs == map[] by { assert DirsIn(prefix, b) == {}; }
    } else {
      assert b == [b[0]];
      KidsBoth(prefix, a, b[0]);
      VisibleConcat(c, Listing(prefix, a), Listing(prefix, b));
      PrunedWithin(c, DirsIn(prefix, a), ps, DirsIn(prefix, b), qs);
    }
  }

  lemma WalkedFile(c: Config, prefix: string, name: string, size: nat)
    requires Clear(c, prefix) && '/' !in name
    ensures Walked(c, prefix, [File(name, size)], [Entry(Path(prefix, name), size)], map[])
  {
    ClearPath(c, prefix, name);
    OneKid(prefix, File(name, size));
    assert [Entry(Path(prefix, name), size)][..0] == [];
  }

  lemma WithinBoth(first: seq<Rule>, last: seq<Rule>, prefix: string, init: seq<Tree>, k: Tree)
    requires Within(first, prefix, init) && Within(last, prefix, [k])
    ensures Within(first + last, prefix, init + [k])
  {
    forall r | r in first + last ensures exists x :: x in init + [k] && AtOrIn(Path(prefix, x.name), r.base) {
      if r in first {
        var x :| x in init && AtOrIn(Path(prefix, x.name), r.base);
        assert x in init + [k];
      } else {
        assert k in init + [k];
      }
    }
  }

  lemma FirstKids(ign: seq<Rule>, above: seq<Rule>, prefix: string, kids: seq<Tree>)
    requires kids != [] && Planted(prefix, kids) && AgreesOn(ign, above, prefix, kids)
    ensures AgreesOn(ign, above, prefix, kids[..|kids| - 1])
    ensures AgreesIn(ign, above, Path(prefix, kids[|kids| - 1].name))
  {
    forall x | x in kids[..|kids| - 1] ensures AgreesIn(ign, above, Path(prefix, x.name)) { assert x in kids; }
  }

  /** What was read in the first children leaves the last as it was. */
  lemma AfterFirst(ign: seq<Rule>, above: seq<Rule>, first: seq<Rule>, prefix: string, kids: seq<Tree>)
    requires kids != [] && Planted(prefix, kids) && AgreesOn(ign, above, prefix, kids) && NotIgnored(ign, prefix)
    requires Within(first, prefix, kids[..|kids| - 1])
    ensures NotIgnored(ign + first, prefix) && AgreesIn(ign + first, above, Path(prefix, kids[|kids| - 1].name))
  {
    var init, k := kids[..|kids| - 1], kids[|kids| - 1];
    assert kids == init + [k];
    FirstKids(ign, above, prefix, kids);
    GrowsApart(ign, above, first, prefix, init, k);
    StillNotIgnored(ign, first, prefix, init);
  }

  /** What a walk beneath prefix, with the rules above, has read and made of these. */
  ghost predicate Done(c: Config, above: seq<Rule>, prefix: string, kids: seq<Tree>, entries: seq<Entry>,
      pruned: map<string, string>, more: seq<Rule>)
  {
    Walked(c, prefix, Shown(above, prefix, kids), entries, pruned) && Within(more, prefix, kids)
  }

  ghost predicate KidDone(c: Config, above: seq<Rule>, prefix: string, k: Tree, entries: seq<Entry>,
      pruned: map<string, string>, more: seq<Rule>)
  {
    Walked(c, prefix, ShownKid(above, prefix, k), entries, pruned) && Within(more, prefix, [k])
  }

  lemma DoneMore(c: Config, above: seq<Rule>, prefix: string, kids: seq<Tree>, es: seq<Entry>,
      ps: map<string, string>, first: seq<Rule>, fs: seq<Entry>, qs: map<string, string>, last: seq<Rule>)
    requires kids != [] && Done(c, above, prefix, kids[..|kids| - 1], es, ps, first)
    requires KidDone(c, above, prefix, kids[|kids| - 1], fs, qs, last)
    ensures Done(c, above, prefix, kids, es + fs, ps + qs, first + last)
  {
    var init, k := kids[..|kids| - 1], kids[|kids| - 1];
    WithinBoth(first, last, prefix, init, k);
    assert kids == init + [k];
    WalkedBoth(c, prefix, Shown(above, prefix, init), ShownKid(above, prefix, k), es, ps, fs, qs);
  }

  /** walkEntries, below one directory. */
  method Walk(c: Config, ign: RuleList, ghost above: seq<Rule>, prefix: string, kids: seq<Tree>)
      returns (entries: seq<Entry>, pruned: map<string, string>, ghost more: seq<Rule>)
    requires Planted(prefix, kids) && Clear(c, prefix)
    requires NotIgnored(ign.rules, prefix) && AgreesOn(ign.rules, above, prefix, kids)
    modifies ign
    ensures ign.rules == old(ign.rules) + more && Done(c, above, prefix, kids, entries, pruned, more)
    decreases kids, 1
  {
    entries, pruned, more := [], map[], [];
    if kids == [] { return; }
    FirstKids(ign.rules, above, prefix, kids);
    var fs, qs;
    ghost var first, last;
    entries, pruned, first := Walk(c, ign, above, prefix, kids[..|kids| - 1]);
    AfterFirst(old(ign.rules), above, first, prefix, kids);
    fs, qs, last := WalkKid(c, ign, above, prefix, kids[|kids| - 1]);
    DoneMore(c, above, prefix, kids, entries, pruned, first, fs, qs, last);
    Strings.ConcatAssociates(old(ign.rules), first, last);
    entries, pruned, more := entries + fs, pruned + qs, first + last;
  }

  /** One call of WalkDir's function, and of those beneath it. */
  method WalkKid(c: Config, ign: RuleList, ghost above: seq<Rule>, prefix: string, k: Tree)
      returns (entries: seq<Entry>, pruned: map<string, string>, ghost more: seq<Rule>)
    requires PlantedKid(prefix, k) && Clear(c, prefix)
    requires NotIgnored(ign.rules, prefix) && AgreesIn(ign.rules, above, Path(prefix, k.name))
    modifies ign
    ensures ign.rules == old(ign.rules) + more && KidDone(c, above, prefix, k, entries, pruned, more)
    decreases k, 1
  {
    entries, pruned, more := [], map[], [];
    var d := Path(prefix, k.name);
    assert AtOrIn(d, d) && Agrees(ign.rules, above, d);
    OwnVerdict(ign.rules, above, prefix, k.name, k.Branch?);
    if k.Branch? && k.name == ".git" { return; }
    var ignored := IsCovered(ign.rules, d, k.Branch?);
    if ignored { return; }
    match k
    case Leaf(name, size) =>
      entries := [Entry(d, size)];
      WalkedFile(c, prefix, name, size);
    case Branch(name, rules, inside) =>
      ClearPath(c, prefix, name);
      entries, pruned, more := WalkInto(c, ign, above, d, rules, inside);
      OneKid(prefix, Dir(name, Shown(above + rules, d, inside)));
  }

  /** One directory that git would show: in, or not. */
  method WalkInto(c: Config, ign: RuleList, ghost above: seq<Rule>, d: string, rules: seq<Rule>, inside: seq<Tree>)
      returns (entries: seq<Entry>, pruned: map<string, string>, ghost more: seq<Rule>)
    requires d != "" && !Hidden(c, d) && Planted(d, inside) && forall r :: r in rules ==> r.base == d
    requires !Covered(ign.rules, d, true) && AgreesIn(ign.rules, above, d)
    modifies ign
    ensures var nodes := Shown(above + rules, d, inside);
            entries == Visible(c, Listing(d, nodes)) && PrunedAre(c, {d} + DirsIn(d, nodes), pruned)
    ensures ign.rules == old(ign.rules) + more && forall r :: r in more ==> AtOrIn(d, r.base)
    decreases inside, 2
  {
    entries, pruned, more := [], map[], [];
    var stop, junk := StopsAt(c, d);
    if stop {
      StoppedHides(c, d, Shown(above + rules, d, inside));
      StoppedHidesDirs(c, d, Shown(above + rules, d, inside));
      if junk { pruned := map[d := c.reason(d)]; }
    } else {
      Enters(ign.rules, above, d, rules, inside);
      ign.Add(rules);
      entries, pruned, more := Walk(c, ign, above + rules, d, inside);
      WithinInside(more, d, inside);
      Strings.ConcatAssociates(old(ign.rules), rules, more);
      more := rules + more;
    }
  }

  /** walkEntries: exactly what git would show, less what the walk stops at. */
  method WalkEntries(c: Config, rules: seq<Rule>, kids: seq<Tree>)
      returns (entries: seq<Entry>, pruned: map<string, string>)
    requires Planted("", kids)
    ensures Walked(c, "", Shown(rules, "", kids), entries, pruned)
  {
    var ign := new RuleList();
    ign.Add(rules);
    assert ign.rules == rules;
    ghost var more;
    entries, pruned, more := Walk(c, ign, rules, "", kids);
  }

  // ---- What git would show ----

  /** Every file of the workspace. */
  function Files(prefix: string, kids: seq<Tree>): seq<Entry>
    decreases kids
  {
    if kids == [] then []
    else
      var k := kids[|kids| - 1];
      var d := Path(prefix, k.name);
      Files(prefix, kids[..|kids| - 1]) + if k.Leaf? then [Entry(d, k.size)] else Files(d, k.inside)
  }

  /** The rules of every .gitignore in it, entered or not. */
  function AllRules(kids: seq<Tree>): seq<Rule>
    decreases kids
  {
    if kids == [] then []
    else AllRules(kids[..|kids| - 1]) + RulesIn(kids[|kids| - 1])
  }

  function RulesIn(k: Tree): seq<Rule>
    decreases k
  {
    if k.Leaf? then [] else k.rules + AllRules(k.inside)
  }

  predicate InGit(rel: string) {
    exists i :: 0 <= i < |rel| && AncestorEnd(rel, i) && Base(rel[..i]) == ".git"
  }

  lemma {:induction false} AllRulesWithin(prefix: string, kids: seq<Tree>)
    requires Planted(prefix, kids)
    ensures Within(AllRules(kids), prefix, kids)
    decreases kids, 1
  {
    if kids != [] {
      var init, k := kids[..|kids| - 1], kids[|kids| - 1];
      AllRulesWithin(prefix, init);
      RulesInWithin(prefix, k);
      WithinBoth(AllRules(init), RulesIn(k), prefix, init, k);
      assert kids == init + [k];
    }
  }

  lemma {:induction false} RulesInWithin(prefix: string, k: Tree)
    requires PlantedKid(prefix, k)
    ensures forall r :: r in RulesIn(k) ==> AtOrIn(Path(prefix, k.name), r.base)
    ensures Within(RulesIn(k), prefix, [k])
    decreases k, 0
  {
    if k.Branch? {
      AllRulesWithin(Path(prefix, k.name), k.inside);
      WithinInside(AllRules(k.inside), Path(prefix, k.name), k.inside);
    }
    assert k in [k];
  }

  /** What others' rules say of a path at or in the last child. */
  lemma LastHears(prefix: string, init: seq<Tree>, k: Tree, above: seq<Rule>, p: string)
    requires Planted(prefix, init + [k]) && AtOrIn(Path(prefix, k.name), p)
    ensures Heard(above + AllRules(init + [k]), p) == Heard(above + RulesIn(k), p)
  {
    var more := AllRules(init);
    assert (init + [k])[..|init|] == init;
    AllRulesWithin(prefix, init);
    PlantedNames(prefix, init);
    forall r | r in more ensures r.base != "" && !Beneath(r.base, p) {
      var x :| x in init && AtOrIn(Path(prefix, x.name), r.base);
      var i :| 0 <= i < |init| && init[i] == x;
      assert (init + [k])[i] == x;
      Siblings(prefix, x.name, k.name, r.base, p);
    }
    NoneHeard(more, p);
    HeardConcat(above, more + RulesIn(k), p);
    HeardConcat(more, RulesIn(k), p);
    HeardConcat(above, RulesIn(k), p);
    assert [] + Heard(RulesIn(k), p) == Heard(RulesIn(k), p);
  }

  lemma InitHears(prefix: string, init: seq<Tree>, k: Tree, above: seq<Rule>, x: Tree, p: string)
    requires Planted(prefix, init + [k]) && x in init && AtOrIn(Path(prefix, x.name), p)
    ensures Heard(above + AllRules(init + [k]), p) == Heard(above + AllRules(init), p)
  {
    assert (init + [k])[..|init|] == init;
    PlantedNames(prefix, init);
    RulesInWithin(prefix, k);
    var i :| 0 <= i < |init| && init[i] == x;
    assert (init + [k])[i] == x;
    forall r | r in RulesIn(k) ensures r.base != "" && !Beneath(r.base, p) {
      Siblings(prefix, k.name, x.name, r.base, p);
    }
    NoneHeard(RulesIn(k), p);
    HeardConcat(above + AllRules(init), RulesIn(k), p);
    Strings.ConcatAssociates(above, AllRules(init), RulesIn(k));
    assert Heard(above + AllRules(init), p) + [] == Heard(above + AllRules(init), p);
  }

  lemma OwnSilent(prefix: string, k: Tree, above: seq<Rule>)
    requires PlantedKid(prefix, k)
    ensures Heard(above + RulesIn(k), Path(prefix, k.name)) == Heard(above, Path(prefix, k.name))
  {
    var d := Path(prefix, k.name);
    RulesInWithin(prefix, k);
    forall r | r in RulesIn(k) ensures r.base != "" && !Beneath(r.base, d) { assert |r.base| >= |d|; }
    NoneHeard(RulesIn(k), d);
    HeardConcat(above, RulesIn(k), d);
    assert Heard(above, d) + [] == Heard(above, d);
  }

  /** Of the rules of the whole workspace a child's paths hear those above it and its
      own. */
  ghost predicate AllHeard(all: seq<Rule>, above: seq<Rule>, prefix: string, kids: seq<Tree>) {
    AgreesOn(all, above + AllRules(kids), prefix, kids)
  }

  lemma AllHeardInit(all: seq<Rule>, above: seq<Rule>, prefix: string, init: seq<Tree>, k: Tree)
    requires Planted(prefix, init + [k]) && AllHeard(all, above, prefix, init + [k])
    ensures AllHeard(all, above, prefix, init)
  {
    forall x | x in init ensures AgreesIn(all, above + AllRules(init), Path(prefix, x.name)) {
      assert x in init + [k];
      forall p | AtOrIn(Path(prefix, x.name), p) ensures Agrees(all, above + AllRules(init), p) {
        InitHears(prefix, init, k, above, x, p);
        assert Agrees(all, above + AllRules(init + [k]), p);
      }
    }
  }

  lemma AllHeardLast(all: seq<Rule>, above: seq<Rule>, prefix: string, init: seq<Tree>, k: Tree)
    requires Planted(prefix, init + [k]) && AllHeard(all, above, prefix, init + [k])
    ensures AgreesIn(all, above + RulesIn(k), Path(prefix, k.name))
  {
    assert k in init + [k];
    forall p | AtOrIn(Path(prefix, k.name), p) ensures Agrees(all, above + RulesIn(k), p) {
      LastHears(prefix, init, k, above, p);
      assert Agrees(all, above + AllRules(init + [k]), p);
    }
  }

  lemma AllHeardInside(all: seq<Rule>, above: seq<Rule>, d: string, rules: seq<Rule>, inside: seq<Tree>)
    requires d != "" && AgreesIn(all, above + (rules + AllRules(inside)), d)
    ensures AllHeard(all, above + rules, d, inside)
  {
    Strings.ConcatAssociates(above, rules, AllRules(inside));
    forall k | k in inside ensures AgreesIn(all, above + rules + AllRules(inside), Path(d, k.name)) {
      forall p | AtOrIn(Path(d, k.name), p) ensures Agrees(all, above + rules + AllRules(inside), p) {
        ChildIn(d, k.name, p);
        assert Agrees(all, above + (rules + AllRules(inside)), p);
      }
    }
  }

  /** No directory at or above the prefix is called .git. */
  predicate NoGit(prefix: string) { prefix == "" || (!InGit(prefix) && Base(prefix) != ".git") }

  lemma GitBase(prefix: string, name: string)
    requires '/' !in name
    ensures Base(Path(prefix, name)) == name
  {
    OneSegment(name);
    if prefix != "" { SplitBoth(prefix, name); }
  }

  lemma GitPath(prefix: string, name: string)
    requires NoGit(prefix) && '/' !in name
    ensures !InGit(Path(prefix, name)) && (name != ".git" ==> NoGit(Path(prefix, name)))
  {
    var p := Path(prefix, name);
    forall i | 0 <= i < |p| && AncestorEnd(p, i) ensures Base(p[..i]) != ".git" {
      PathAncestors(prefix, name, i);
      assert prefix[..|prefix|] == prefix;
    }
    GitBase(prefix, name);
  }

  /** Shown and of the workspace; and of the workspace, in no .git and not covered. */
  ghost predicate ShownRight(all: seq<Rule>, shown: seq<Entry>, files: seq<Entry>, e: Entry) {
    e in shown <==> e in files && !InGit(e.rel) && !Covered(all, e.rel, false)
  }

  lemma {:induction false} FilesBeneath(prefix: string, kids: seq<Tree>)
    requires prefix != ""
    ensures forall e :: e in Files(prefix, kids) ==> Above(prefix, e.rel)
    decreases kids
  {
    if kids != [] {
      FilesBeneath(prefix, kids[..|kids| - 1]);
      var k := kids[|kids| - 1];
      var d := Path(prefix, k.name);
      assert Above(prefix, d);
      if k.Branch? {
        FilesBeneath(d, k.inside);
        forall e | e in Files(d, k.inside) ensures Above(prefix, e.rel) { AboveAbove(prefix, d, e.rel); }
      }
    }
  }

  lemma HiddenBelow(all: seq<Rule>, d: string, inside: seq<Tree>, e: Entry)
    requires d != "" && (Base(d) == ".git" || Covered(all, d, true))
    ensures e in Files(d, inside) ==> InGit(e.rel) || Covered(all, e.rel, false)
  {
    FilesBeneath(d, inside);
    if e in Files(d, inside) {
      assert e.rel[..|d|] == d && e.rel == d + "/" + e.rel[|d| + 1..];
      if Covered(all, d, true) { CoveredBelow(all, d, e.rel[|d| + 1..], false); }
    }
  }

  lemma {:induction false} ShownBelow(all: seq<Rule>, above: seq<Rule>, prefix: string, kids: seq<Tree>, e: Entry)
    requires Planted(prefix, kids) && NotIgnored(all, prefix) && NoGit(prefix) && AllHeard(all, above, prefix, kids)
    ensures ShownRight(all, Listing(prefix, Shown(above, prefix, kids)), Files(prefix, kids), e)
    decreases kids, 1
  {
    if kids != [] {
      var init, k := kids[..|kids| - 1], kids[|kids| - 1];
      assert kids == init + [k];
      AllHeardInit(all, above, prefix, init, k);
      ShownBelow(all, above, prefix, init, e);
      AllHeardLast(all, above, prefix, init, k);
      ShownKidBelow(all, above, prefix, k, e);
      var a, b := Shown(above, prefix, init), ShownKid(above, prefix, k);
      if b != [] { KidsBoth(prefix, a, b[0]); } else { assert a + b == a; }
    }
  }

  lemma {:induction false} ShownKidBelow(all: seq<Rule>, above: seq<Rule>, prefix: string, k: Tree, e: Entry)
    requires PlantedKid(prefix, k) && NotIgnored(all, prefix) && NoGit(prefix)
    requires AgreesIn(all, above + RulesIn(k), Path(prefix, k.name))
    ensures var d := Path(prefix, k.name);
            ShownRight(all, Listing(prefix, ShownKid(above, prefix, k)),
                       if k.Leaf? then [Entry(d, k.size)] else Files(d, k.inside), e)
    decreases k, 0
  {
    var d := Path(prefix, k.name);
    GitPath(prefix, k.name);
    OwnSilent(prefix, k, above);
    assert AtOrIn(d, d) && Agrees(all, above + RulesIn(k), d);
    OwnVerdict(all, above, prefix, k.name, k.Branch?);
    match k
    case Leaf(name, size) => OneKid(prefix, File(name, size));
    case Branch(name, rules, inside) =>
      if name == ".git" || Covered(all, d, true) {
        GitBase(prefix, name);
        HiddenBelow(all, d, inside, e);
      } else {
        AllHeardInside(all, above, d, rules, inside);
        ShownBelow(all, above + rules, d, inside, e);
        OneKid(prefix, Dir(name, Shown(above + rules, d, inside)));
      }
  }

  /** What the walk goes by, reading each .gitignore as it comes to it and none where
      it does not enter, is what all the workspace's .gitignore files together say:
      a file is shown exactly when they do not cover it and it is in no .git. */
  lemma ShownIff(rules: seq<Rule>, kids: seq<Tree>, e: Entry)
    requires Planted("", kids)
    ensures e in Listing("", Shown(rules, "", kids)) <==>
            e in Files("", kids) && !InGit(e.rel) && !Covered(rules + AllRules(kids), e.rel, false)
  {
    forall k | k in kids ensures AgreesIn(rules + AllRules(kids), rules + AllRules(kids), Path("", k.name)) {
      forall p | AtOrIn(Path("", k.name), p) ensures Agrees(rules + AllRules(kids), rules + AllRules(kids), p) {}
    }
    ShownBelow(rules + AllRules(kids), rules, "", kids, e);
  }
}
