/** What planIngest decides of each file, in terms of the file alone, the rules, and
    what else lies beside it. */
module PlanMeaning {
  import opened GlobRules
  import opened Ingest
  import opened Seqs

  // ---- What is asked of a file ----

  /** Some directory it lies in is junk. */
  ghost predicate InJunk(c: Config, rel: string) {
    exists i: nat :: AncestorEnd(rel, i) && c.reason(rel[..i]) != ""
  }

  /** The directory that ends at i is, and none above it. */
  ghost predicate OuterJunk(c: Config, rel: string, i: nat) {
    && AncestorEnd(rel, i) && c.reason(rel[..i]) != ""
    && forall k: nat :: k < i && AncestorEnd(rel, k) ==> c.reason(rel[..k]) == ""
  }

  /** An include wins: in junk, one that covers the outermost junk directory or names
      a path; elsewhere, any that covers the file. */
  ghost predicate Wins(c: Config, rel: string) {
    if InJunk(c, rel) then
      Covered(Anchored(c.inc), rel, false) || exists i: nat :: OuterJunk(c, rel, i) && Covered(c.inc, rel[..i], true)
    else Covered(c.inc, rel, false)
  }

  ghost predicate Excludes(c: Config, rel: string) { Covered(c.exc, rel, false) }

  /** Neither an exclude nor an include speaks of it, and it is in no junk. */
  ghost predicate Unspoken(c: Config, rel: string) {
    !Excludes(c, rel) && !Wins(c, rel) && !InJunk(c, rel)
  }

  /** And neither its size nor its name speaks against it. */
  ghost predicate Ordinary(c: Config, e: Entry) {
    Unspoken(c, e.rel) && e.size <= c.maxFile && !c.binaryExt(e.rel)
  }

  /** The ordinary files in a directory, at any depth. */
  ghost function Load(c: Config, es: seq<Entry>, dir: string): seq<Entry> {
    Filter(es, (e: Entry) => Ordinary(c, e) && dir + "/" <= e.rel)
  }

  /** Too many, or too much. */
  ghost predicate Overfull(c: Config, es: seq<Entry>, dir: string) {
    var load := Load(c, es, dir);
    load != [] && (|load| > c.maxDirFiles || Total(load) > c.maxDirBytes)
  }

  /** The path is that of an overfull directory, or in one. */
  ghost predicate InOverfull(c: Config, es: seq<Entry>, rel: string) {
    exists d :: (d == rel || d + "/" <= rel) && Overfull(c, es, d)
  }

  // ---- One entry ----

  ghost predicate NoJunkFrom(c: Config, rel: string, from: nat, to: nat) {
    forall k :: from <= k < to && AncestorEnd(rel, k) ==> c.reason(rel[..k]) == ""
  }

  lemma {:induction false} TopJunkIs(c: Config, rel: string, from: nat)
    requires from <= |rel|
    ensures var j := TopJunk(c, rel, from);
            && (j != "" ==> from <= |j| && Above(j, rel) && c.reason(j) != "" && NoJunkFrom(c, rel, from, |j|))
            && (j == "" && (from > 0 || Relative(rel)) ==> NoJunkFrom(c, rel, from, |rel|))
    decreases |rel| - from
  {
    if from < |rel| && !(rel[from] == '/' && c.reason(rel[..from]) != "") {
      TopJunkIs(c, rel, from + 1);
    } else if from == 0 && from < |rel| {
      assert "/" <= rel;
    }
  }

  lemma JunkIs(c: Config, rel: string)
    requires Relative(rel)
    ensures var j := TopJunk(c, rel, 0);
            (j == "" <==> !InJunk(c, rel)) && (j != "" ==> OuterJunk(c, rel, |j|) && rel[..|j|] == j)
    ensures forall i: nat, k: nat :: OuterJunk(c, rel, i) && OuterJunk(c, rel, k) ==> i == k
  {
    TopJunkIs(c, rel, 0);
  }

  lemma WinsIs(c: Config, rel: string)
    requires Relative(rel)
    ensures IsIncluded(c, rel) <==> Wins(c, rel)
  {
    JunkIs(c, rel);
  }

  /** What a file is sorted as. */
  lemma ClassIs(c: Config, e: Entry, d: string)
    requires Relative(e.rel)
    ensures var k := ClassOf(c, e);
            && (k == Excluded <==> Excludes(c, e.rel))
            && (k == Included <==> !Excludes(c, e.rel) && Wins(c, e.rel))
            && (k == Junk(d) <==>
                  !Excludes(c, e.rel) && !Wins(c, e.rel) && OuterJunk(c, e.rel, |d|) && e.rel[..|d|] == d)
            && (k == TooBig <==> Unspoken(c, e.rel) && e.size > c.maxFile)
            && (k == BinaryName <==> Unspoken(c, e.rel) && e.size <= c.maxFile && c.binaryExt(e.rel))
            && (k == Candidate <==> Ordinary(c, e))
  {
    JunkIs(c, e.rel);
    WinsIs(c, e.rel);
  }

  // ---- Lists ----

  lemma {:induction false} SelectIsFilter(c: Config, es: seq<Entry>, k: Class)
    ensures Select(c, es, k) == Filter(es, (e: Entry) => ClassOf(c, e) == k)
  {
    if es != [] { SelectIsFilter(c, es[..|es| - 1], k); }
  }

  lemma AboveIs(d: string, rel: string)
    ensures Above(d, rel) <==> d + "/" <= rel
  {
    if d + "/" <= rel { assert rel[..|d| + 1] == d + "/"; }
  }

  lemma {:induction false} CountIs(es: seq<Entry>, d: string)
    ensures var held := Filter(es, (e: Entry) => d + "/" <= e.rel);
            Count(es, d) == |held| && BytesIn(es, d) == Total(held)
  {
    if es != [] {
      var init, e := es[..|es| - 1], es[|es| - 1];
      CountIs(init, d);
      AboveIs(d, e.rel);
      var held := Filter(init, (e: Entry) => d + "/" <= e.rel);
      assert (held + [e])[..|held|] == held && held + [] == held;
    }
  }

  lemma {:induction false} UnskippedIsFilter(c: Config, es: seq<Entry>, dirs: set<string>, binary: bool)
    ensures Unskipped(c, es, dirs, binary) ==
            Filter(es, (e: Entry) => !InSkipped(e.rel, dirs) && c.sniff(e.rel) == binary)
  {
    if es != [] { UnskippedIsFilter(c, es[..|es| - 1], dirs, binary); }
  }

  // ---- Directories over a limit ----

  ghost predicate AllRelative(es: seq<Entry>) { forall e :: e in es ==> Relative(e.rel) }

  /** The files of one class are those of which what is asked of it is true. */
  lemma ClassFilter(c: Config, es: seq<Entry>, k: Class, p: Entry -> bool)
    requires forall e :: e in es ==> (ClassOf(c, e) == k <==> p(e))
    ensures Select(c, es, k) == Filter(es, p)
  {
    SelectIsFilter(c, es, k);
    FilterSame(es, (e: Entry) => ClassOf(c, e) == k, p);
  }

  lemma CandidatesAre(c: Config, es: seq<Entry>)
    requires AllRelative(es)
    ensures Select(c, es, Candidate) == Filter(es, (e: Entry) => Ordinary(c, e))
  {
    forall e | e in es ensures ClassOf(c, e) == Candidate <==> Ordinary(c, e) { ClassIs(c, e, ""); }
    ClassFilter(c, es, Candidate, (e: Entry) => Ordinary(c, e));
  }

  lemma LoadIs(c: Config, es: seq<Entry>, d: string)
    requires AllRelative(es)
    ensures var cands := Select(c, es, Candidate);
            Count(cands, d) == |Load(c, es, d)| && BytesIn(cands, d) == Total(Load(c, es, d))
  {
    CandidatesAre(c, es);
    CountIs(Select(c, es, Candidate), d);
    FilterBoth(es, (e: Entry) => Ordinary(c, e), (e: Entry) => d + "/" <= e.rel,
               (e: Entry) => Ordinary(c, e) && d + "/" <= e.rel);
  }

  lemma {:induction false} CountSome(es: seq<Entry>, d: string)
    ensures Count(es, d) > 0 <==> d in DirsOf(es)
  {
    DirsAre(es, d);
    if es != [] {
      var init, e := es[..|es| - 1], es[|es| - 1];
      CountSome(init, d);
      DirsAre(init, d);
      if k :| 0 <= k < |init| && Above(d, init[k].rel) { assert es[k] == init[k]; }
      if k :| 0 <= k < |es| && Above(d, es[k].rel) { if k < |init| { assert es[k] == init[k]; } }
    }
  }

  lemma OverIs(c: Config, es: seq<Entry>, d: string)
    requires AllRelative(es)
    ensures var cands := Select(c, es, Candidate);
            d in DirsOf(cands) && Over(c, cands, d) <==> Overfull(c, es, d)
  {
    LoadIs(c, es, d);
    CountSome(Select(c, es, Candidate), d);
  }

  /** A directory is left out for its size exactly if it is overfull and none that it
      lies in is. */
  lemma SkippedIs(c: Config, es: seq<Entry>, d: string)
    requires AllRelative(es)
    ensures d in SkippedDirs(c, Select(c, es, Candidate)) <==>
            Overfull(c, es, d) && forall a :: a + "/" <= d ==> !Overfull(c, es, a)
  {
    var cands := Select(c, es, Candidate);
    OverIs(c, es, d);
    if d in DirsOf(cands) {
      DirsAre(cands, d);
      var k :| 0 <= k < |cands| && Above(d, cands[k].rel);
      forall a | a + "/" <= d ensures Overfull(c, es, a) <==> Over(c, cands, a) {
        AboveIs(a, d);
        AboveAbove(a, d, cands[k].rel);
        DirsAre(cands, a);
        OverIs(c, es, a);
      }
      forall i | 0 <= i < |d| && AncestorEnd(d, i) ensures d[..i] + "/" <= d { AboveIs(d[..i], d); }
      forall a | a + "/" <= d && Over(c, cands, a) ensures OverAbove(c, cands, d) {
        AboveIs(a, d);
        OverIsAbove(c, cands, a, d);
      }
    }
  }

  lemma InSkippedIs(c: Config, es: seq<Entry>, rel: string)
    requires AllRelative(es)
    ensures InSkipped(rel, SkippedDirs(c, Select(c, es, Candidate))) <==> InOverfull(c, es, rel)
  {
    var cands := Select(c, es, Candidate);
    var dirs := SkippedDirs(c, cands);
    forall d ensures d in dirs ==> Overfull(c, es, d) { OverIs(c, es, d); }
    if i :| 0 <= i < |rel| && AncestorEnd(rel, i) && rel[..i] in dirs { AboveIs(rel[..i], rel); }
    if d :| (d == rel || d + "/" <= rel) && Overfull(c, es, d) {
      OverIs(c, es, d);
      AboveIs(d, rel);
      var t := TopOver(c, cands, d);
      if t != d && d != rel { AboveAbove(t, d, rel); }
      AboveSkips(t, rel, dirs);
    }
  }

  // ---- The plan ----

  /** A junk directory's own: neither excluded nor included, and it is the outermost. */
  ghost predicate LiesIn(c: Config, e: Entry, d: string) {
    !Excludes(c, e.rel) && !Wins(c, e.rel) && OuterJunk(c, e.rel, |d|) && e.rel[..|d|] == d
  }

  ghost predicate Stays(c: Config, es: seq<Entry>, e: Entry, binary: bool) {
    Ordinary(c, e) && !InOverfull(c, es, e.rel) && c.sniff(e.rel) == binary
  }

  lemma RestIs(c: Config, es: seq<Entry>, binary: bool)
    requires AllRelative(es)
    ensures var cands := Select(c, es, Candidate);
            Unskipped(c, cands, SkippedDirs(c, cands), binary) == Filter(es, (e: Entry) => Stays(c, es, e, binary))
  {
    var cands := Select(c, es, Candidate);
    var dirs := SkippedDirs(c, cands);
    CandidatesAre(c, es);
    UnskippedIsFilter(c, cands, dirs, binary);
    forall e | e in es ensures InSkipped(e.rel, dirs) == InOverfull(c, es, e.rel) { InSkippedIs(c, es, e.rel); }
    FilterBoth(es, (e: Entry) => Ordinary(c, e), (e: Entry) => !InSkipped(e.rel, dirs) && c.sniff(e.rel) == binary,
               (e: Entry) => Stays(c, es, e, binary));
  }

  /** planIngest's plan: what is reported as too big, what is kept, and how much is
      binary or lies in directories left out for their size, all said of each file by
      itself and of what lies beside it. */
  lemma PlanIs(c: Config, es: seq<Entry>)
    requires AllRelative(es)
    ensures var p := PlanOf(c, es);
            && p.bigFiles == Filter(es, (e: Entry) => Unspoken(c, e.rel) && e.size > c.maxFile)
            && p.kept == Filter(es, (e: Entry) => !Excludes(c, e.rel) && Wins(c, e.rel))
                         + Filter(es, (e: Entry) => Stays(c, es, e, false))
            && p.binary == |Filter(es, (e: Entry) => Unspoken(c, e.rel) && e.size <= c.maxFile && c.binaryExt(e.rel))|
                           + |Filter(es, (e: Entry) => Stays(c, es, e, true))|
            && p.keptBytes == Total(p.kept)
            && (p.huge <==> |p.kept| > c.maxDirFiles || Total(p.kept) > c.maxDirBytes)
    ensures forall d :: d in PlanOf(c, es).skipped <==>
              Overfull(c, es, d) && forall a :: a + "/" <= d ==> !Overfull(c, es, a)
  {
    forall e | e in es
      ensures (ClassOf(c, e) == TooBig <==> Unspoken(c, e.rel) && e.size > c.maxFile)
              && (ClassOf(c, e) == Included <==> !Excludes(c, e.rel) && Wins(c, e.rel))
              && (ClassOf(c, e) == BinaryName <==> Unspoken(c, e.rel) && e.size <= c.maxFile && c.binaryExt(e.rel))
    {
      ClassIs(c, e, "");
    }
    ClassFilter(c, es, TooBig, (e: Entry) => Unspoken(c, e.rel) && e.size > c.maxFile);
    ClassFilter(c, es, Included, (e: Entry) => !Excludes(c, e.rel) && Wins(c, e.rel));
    ClassFilter(c, es, BinaryName, (e: Entry) => Unspoken(c, e.rel) && e.size <= c.maxFile && c.binaryExt(e.rel));
    RestIs(c, es, false);
    RestIs(c, es, true);
    forall d ensures d in PlanOf(c, es).skipped <==>
                     Overfull(c, es, d) && forall a :: a + "/" <= d ==> !Overfull(c, es, a)
    {
      SkippedIs(c, es, d);
    }
  }

  /** Which files are indexed, and which are reported as too big. */
  lemma KeptIff(c: Config, es: seq<Entry>, e: Entry)
    requires AllRelative(es)
    ensures e in PlanOf(c, es).bigFiles <==>
            e in es && !Excludes(c, e.rel) && !Wins(c, e.rel) && !InJunk(c, e.rel) && e.size > c.maxFile
    ensures e in PlanOf(c, es).kept <==>
            && e in es && !Excludes(c, e.rel)
            && (|| Wins(c, e.rel)
                || (&& !InJunk(c, e.rel) && e.size <= c.maxFile && !c.binaryExt(e.rel) && !c.sniff(e.rel)
                    && !InOverfull(c, es, e.rel)))
  {
    PlanIs(c, es);
    FilterHas(es, (e: Entry) => Unspoken(c, e.rel) && e.size > c.maxFile, e);
    FilterHas(es, (e: Entry) => !Excludes(c, e.rel) && Wins(c, e.rel), e);
    FilterHas(es, (e: Entry) => Stays(c, es, e, false), e);
  }

  lemma {:induction false} JunkDirsAre(c: Config, es: seq<Entry>, d: string)
    ensures d in JunkDirs(c, es) <==> exists e :: e in es && ClassOf(c, e) == Junk(d)
  {
    if es != [] {
      var init, e := es[..|es| - 1], es[|es| - 1];
      JunkDirsAre(c, init, d);
      assert es == init + [e];
      if x :| x in init && ClassOf(c, x) == Junk(d) { assert x in es; }
      if ClassOf(c, e) == Junk(d) { assert e in es; }
    }
  }

  /** The junk list: what the walk pruned, and every directory with files of its own;
      each with how many and how much. */
  lemma JunkListIs(c: Config, es: seq<Entry>, pruned: map<string, string>, junk: map<string, JunkDir>, d: string)
    requires AllRelative(es) && JunkListed(c, es, pruned, junk)
    ensures d in junk <==> d in pruned || exists e :: e in es && LiesIn(c, e, d)
    ensures var held := Filter(es, (e: Entry) => LiesIn(c, e, d));
            d in junk ==> junk[d] == JunkDir(if d in pruned then pruned[d] else c.reason(d), Tally(|held|, Total(held)))
  {
    forall e | e in es ensures ClassOf(c, e) == Junk(d) <==> LiesIn(c, e, d) { ClassIs(c, e, d); }
    ClassFilter(c, es, Junk(d), (e: Entry) => LiesIn(c, e, d));
    JunkDirsAre(c, es, d);
  }

  /** A directory is as deep as its path has slashes: so the directories are ordered by. */
  lemma {:induction false} DepthIs(d: string)
    ensures Depth(d) == multiset(d)['/']
  {
    if d != "" {
      DepthIs(d[..|d| - 1]);
      assert d == d[..|d| - 1] + [d[|d| - 1]];
    }
  }
}
