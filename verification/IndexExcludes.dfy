/** indexstate.go: which directories to leave out of an index that did not fit. */
module IndexExcludes {
  import Seqs

  datatype IndexDir = IndexDir(dir: string, files: int, share: real, nestedCheckouts: int)

  datatype IndexReport = IndexReport(files: int, heaviest: seq<IndexDir>)

  /** What decides a directory's name: whether --exclude can take it (cleanExclude),
      and whether it looks generated (looksGenerated). */
  datatype Names = Names(usable: string -> bool, generated: string -> bool)

  const DOMINANT_SHARE: real := 0.5

  predicate Obvious(d: IndexDir, names: Names) {
    && names.usable(d.dir)
    && (d.nestedCheckouts > 0 || (d.share > DOMINANT_SHARE && names.generated(d.dir)))
  }

  ghost predicate LargestFirst(ds: seq<IndexDir>) {
    |ds| > 1 ==> ds[0].files >= ds[1].files && LargestFirst(ds[1..])
  }

  lemma LargestMore(first: IndexDir, ds: seq<IndexDir>)
    requires LargestFirst(ds) && (ds != [] ==> first.files >= ds[0].files)
    ensures LargestFirst([first] + ds) && multiset([first] + ds) == multiset(ds) + multiset{first}
  {
    assert ([first] + ds)[1..] == ds;
  }

  function InsertByFiles(d: IndexDir, ds: seq<IndexDir>): (r: seq<IndexDir>)
    requires LargestFirst(ds)
    ensures LargestFirst(r) && multiset(r) == multiset(ds) + multiset{d}
    ensures r != [] && r[0] == if ds != [] && ds[0].files > d.files then ds[0] else d
  {
    if ds == [] || ds[0].files <= d.files then
      LargestMore(d, ds);
      [d] + ds
    else
      var rest := InsertByFiles(d, ds[1..]);
      LargestMore(ds[0], rest);
      LargestMore(ds[0], ds[1..]);
      assert [ds[0]] + ds[1..] == ds;
      [ds[0]] + rest
  }

  /** sort.SliceStable, largest first. */
  function SortByFiles(ds: seq<IndexDir>): (r: seq<IndexDir>)
    ensures LargestFirst(r) && multiset(r) == multiset(ds)
  {
    if ds == [] then []
    else
      assert ds == [ds[0]] + ds[1..];
      InsertByFiles(ds[0], SortByFiles(ds[1..]))
  }

  function Filter(ds: seq<IndexDir>, names: Names): seq<IndexDir> {
    if ds == [] then [] else (if Obvious(ds[0], names) then [ds[0]] else []) + Filter(ds[1..], names)
  }

  lemma {:induction false} FilterCounts(ds: seq<IndexDir>, names: Names, d: IndexDir)
    ensures multiset(Filter(ds, names))[d] == if Obvious(d, names) then multiset(ds)[d] else 0
  {
    if ds != [] {
      FilterCounts(ds[1..], names, d);
      assert ds == [ds[0]] + ds[1..];
    }
  }

  /** heaviest's obvious directories, largest first. */
  function Candidates(r: IndexReport, names: Names): seq<IndexDir> {
    SortByFiles(Filter(r.heaviest, names))
  }

  /** The candidates are heaviest's obvious directories, each as often as it is
      listed there, and nothing else. */
  lemma CandidatesAre(r: IndexReport, names: Names, d: IndexDir)
    ensures LargestFirst(Candidates(r, names))
    ensures multiset(Candidates(r, names))[d] == if Obvious(d, names) then multiset(r.heaviest)[d] else 0
  {
    FilterCounts(r.heaviest, names, d);
  }

  lemma FrontSwaps(d: IndexDir, first: IndexDir, more: seq<IndexDir>, rest: seq<IndexDir>, p: IndexDir -> bool)
    requires Seqs.Filter(rest, p) == Seqs.Filter([d] + more, p) && !(p(d) && p(first))
    ensures Seqs.Filter([first] + rest, p) == Seqs.Filter([d] + ([first] + more), p)
  {
    Seqs.FilterCons(d, [first] + more, p);
    Seqs.FilterCons(d, more, p);
    Seqs.FilterCons(first, more, p);
    Seqs.FilterCons(first, rest, p);
  }

  lemma {:induction false} InsertIsStable(d: IndexDir, ds: seq<IndexDir>, n: int, p: IndexDir -> bool)
    requires LargestFirst(ds) && forall e :: p(e) ==> e.files == n
    ensures Seqs.Filter(InsertByFiles(d, ds), p) == Seqs.Filter([d] + ds, p)
  {
    if ds != [] && ds[0].files > d.files {
      InsertIsStable(d, ds[1..], n, p);
      FrontSwaps(d, ds[0], ds[1..], InsertByFiles(d, ds[1..]), p);
      assert [ds[0]] + ds[1..] == ds;
    }
  }

  lemma SameBehind(d: IndexDir, more: seq<IndexDir>, sorted: seq<IndexDir>, p: IndexDir -> bool)
    requires Seqs.Filter(sorted, p) == Seqs.Filter(more, p)
    ensures Seqs.Filter([d] + sorted, p) == Seqs.Filter([d] + more, p)
  {
    Seqs.FilterCons(d, more, p);
    Seqs.FilterCons(d, sorted, p);
  }

  /** Those of one size stand in the order they were listed in. */
  lemma {:induction false} SortIsStable(ds: seq<IndexDir>, n: int, p: IndexDir -> bool)
    requires forall d :: p(d) ==> d.files == n
    ensures Seqs.Filter(SortByFiles(ds), p) == Seqs.Filter(ds, p)
  {
    if ds != [] {
      SortIsStable(ds[1..], n, p);
      InsertIsStable(ds[0], SortByFiles(ds[1..]), n, p);
      SameBehind(ds[0], ds[1..], SortByFiles(ds[1..]), p);
      assert [ds[0]] + ds[1..] == ds;
    }
  }

  lemma {:induction false} ObviousAre(ds: seq<IndexDir>, names: Names, p: IndexDir -> bool, both: IndexDir -> bool)
    requires forall d :: d in ds ==> both(d) == (Obvious(d, names) && p(d))
    ensures Seqs.Filter(Filter(ds, names), p) == Seqs.Filter(ds, both)
  {
    if ds != [] {
      ObviousAre(ds[1..], names, p, both);
      assert ds == [ds[0]] + ds[1..] && ds[0] in ds;
      Seqs.FilterCons(ds[0], ds[1..], both);
      if Obvious(ds[0], names) {
        Seqs.FilterCons(ds[0], Filter(ds[1..], names), p);
      } else {
        assert [] + Filter(ds[1..], names) == Filter(ds[1..], names);
      }
    }
  }

  /** The candidates, largest first and those of one size as listed: every directory
      whose name can be given to --exclude and that holds other checkouts, or more than
      half of the index under a name that looks generated. */
  lemma CandidatesMean(r: IndexReport, names: Names, n: int)
    ensures LargestFirst(Candidates(r, names))
    ensures Seqs.Filter(Candidates(r, names), (d: IndexDir) => d.files == n) ==
            Seqs.Filter(r.heaviest, (d: IndexDir) =>
              && d.files == n && names.usable(d.dir)
              && (d.nestedCheckouts > 0 || (d.share > 0.5 && names.generated(d.dir))))
  {
    SortIsStable(Filter(r.heaviest, names), n, (d: IndexDir) => d.files == n);
    ObviousAre(r.heaviest, names, (d: IndexDir) => d.files == n, (d: IndexDir) =>
      d.files == n && names.usable(d.dir) && (d.nestedCheckouts > 0 || (d.share > 0.5 && names.generated(d.dir))));
  }

  /** obviousExcludes. */
  method ObviousExcludes(r: IndexReport, names: Names) returns (cands: seq<IndexDir>)
    ensures cands == Candidates(r, names)
  {
    cands := [];
    var i := 0;
    while i < |r.heaviest|
      invariant 0 <= i <= |r.heaviest|
      invariant cands + Filter(r.heaviest[i..], names) == Filter(r.heaviest, names)
    {
      ghost var rest := Filter(r.heaviest[i + 1..], names);
      assert r.heaviest[i..][1..] == r.heaviest[i + 1..];
      assert cands + ([r.heaviest[i]] + rest) == cands + [r.heaviest[i]] + rest;
      if Obvious(r.heaviest[i], names) {
        cands := cands + [r.heaviest[i]];
      }
      i := i + 1;
    }
    assert cands + [] == cands == Filter(r.heaviest, names);
    cands := SortByFiles(cands);
  }

  // ---- Sets of candidates, as masks ----

  function SumFiles(ds: seq<IndexDir>): int {
    if ds == [] then 0 else ds[0].files + SumFiles(ds[1..])
  }

  /** How many directories a mask names. */
  function Count(mask: seq<bool>): nat {
    if mask == [] then 0 else (if mask[0] then 1 else 0) + Count(mask[1..])
  }

  /** The files of the directories a mask names. */
  function Masked(ds: seq<IndexDir>, mask: seq<bool>): int
    requires |ds| == |mask|
  {
    if ds == [] then 0 else (if mask[0] then ds[0].files else 0) + Masked(ds[1..], mask[1..])
  }

  /** The files of the first k directories. */
  function FirstFiles(ds: seq<IndexDir>, k: nat): int {
    if ds == [] || k == 0 then 0 else ds[0].files + FirstFiles(ds[1..], k - 1)
  }

  ghost predicate NonNegative(ds: seq<IndexDir>) {
    forall i :: 0 <= i < |ds| ==> ds[i].files >= 0
  }

  lemma {:induction false} SumAppend(a: seq<IndexDir>, b: seq<IndexDir>)
    ensures SumFiles(a + b) == SumFiles(a) + SumFiles(b)
  {
    if a == [] {
      assert a + b == b;
    } else {
      assert (a + b)[1..] == a[1..] + b;
      SumAppend(a[1..], b);
    }
  }

  lemma {:induction false} SumNonNegative(ds: seq<IndexDir>)
    requires NonNegative(ds)
    ensures SumFiles(ds) >= 0
  {
    if ds != [] { SumNonNegative(ds[1..]); }
  }

  lemma {:induction false} FirstFilesAre(ds: seq<IndexDir>, k: nat)
    requires k <= |ds|
    ensures FirstFiles(ds, k) == SumFiles(ds[..k])
  {
    if k > 0 {
      FirstFilesAre(ds[1..], k - 1);
      assert ds[..k][1..] == ds[1..][..k - 1];
    }
  }

  /** The first k after the head hold no more than the first k. */
  lemma {:induction false} ShiftedFiles(ds: seq<IndexDir>, k: nat)
    requires ds != [] && LargestFirst(ds) && NonNegative(ds)
    ensures FirstFiles(ds[1..], k) <= FirstFiles(ds, k)
  {
    if k > 0 && |ds| > 1 {
      ShiftedFiles(ds[1..], k - 1);
    }
  }

  /** Of candidates listed largest first, no k directories hold more files than
      the first k. */
  lemma {:induction false} FirstAreHeaviest(ds: seq<IndexDir>, mask: seq<bool>, k: nat)
    requires LargestFirst(ds) && NonNegative(ds) && |mask| == |ds| && Count(mask) <= k
    ensures Masked(ds, mask) <= FirstFiles(ds, k)
  {
    if ds == [] {
    } else if mask[0] {
      FirstAreHeaviest(ds[1..], mask[1..], k - 1);
    } else {
      FirstAreHeaviest(ds[1..], mask[1..], k);
      ShiftedFiles(ds, k);
    }
  }

  lemma CandidatesNonNegative(r: IndexReport, names: Names)
    requires NonNegative(r.heaviest)
    ensures NonNegative(Candidates(r, names)) && LargestFirst(Candidates(r, names))
  {
    var cands := Candidates(r, names);
    forall i | 0 <= i < |cands| ensures cands[i].files >= 0 {
      assert cands[i] in multiset(cands);
      CandidatesAre(r, names, cands[i]);
    }
  }

  /** A prefix that is not enough is beaten by no set of as few directories. */
  lemma NoSmallerSet(cands: seq<IndexDir>, files: int, limit: int, k: nat, mask: seq<bool>)
    requires LargestFirst(cands) && NonNegative(cands)
    requires k < |cands| && files - SumFiles(cands[..k]) > limit
    requires |mask| == |cands| && files - Masked(cands, mask) <= limit
    ensures Count(mask) > k
  {
    if Count(mask) <= k {
      FirstAreHeaviest(cands, mask, k);
      FirstFilesAre(cands, k);
    }
  }

  predicate Fits(files: int, chosen: int, limit: int) {
    files - chosen <= limit
  }

  /** Out of an index over its limit, chosen is the candidates' shortest prefix
      that makes it fit, and no smaller set of candidates does; nothing is chosen
      exactly when all candidates together do not suffice. */
  ghost predicate Best(cands: seq<IndexDir>, files: int, limit: int, chosen: seq<IndexDir>) {
    && chosen <= cands
    && (files <= limit ==> chosen == [])
    && (files > limit ==> (chosen == [] <==> files - SumFiles(cands) > limit))
    && (chosen != [] ==> files - SumFiles(chosen) <= limit)
    && (chosen != [] ==>
          forall mask :: |mask| == |cands| && files - Masked(cands, mask) <= limit ==> Count(mask) >= |chosen|)
  }

  lemma ShortestIsBest(cands: seq<IndexDir>, files: int, limit: int, k: nat)
    requires LargestFirst(cands) && NonNegative(cands) && k <= |cands|
    requires Fits(files, SumFiles(cands[..k]), limit)
    requires k > 0 ==> !Fits(files, SumFiles(cands[..k - 1]), limit)
    ensures Best(cands, files, limit, cands[..k])
  {
    PrefixFiles(cands, k);
    PrefixFiles(cands, if k > 0 then k - 1 else 0);
    forall mask | |mask| == |cands| && Fits(files, Masked(cands, mask), limit) ensures Count(mask) >= k {
      if k > 0 { NoSmallerSet(cands, files, limit, k - 1, mask); }
    }
  }

  lemma PrefixFiles(cands: seq<IndexDir>, k: nat)
    requires NonNegative(cands) && k <= |cands|
    ensures 0 <= SumFiles(cands[..k]) <= SumFiles(cands)
  {
    assert cands == cands[..k] + cands[k..];
    SumAppend(cands[..k], cands[k..]);
    SumNonNegative(cands[k..]);
    SumNonNegative(cands[..k]);
  }

  /** The candidates chooseExcludes takes, from the first on, until the rest fits. */
  function TakenUntil(cands: seq<IndexDir>, left: int, limit: int): seq<IndexDir> {
    if cands == [] || left <= limit then [] else [cands[0]] + TakenUntil(cands[1..], left - cands[0].files, limit)
  }

  function Chosen(cands: seq<IndexDir>, files: int, limit: int): seq<IndexDir> {
    var taken := TakenUntil(cands, files, limit);
    if Fits(files, SumFiles(taken), limit) then taken else []
  }

  lemma SumFront(cands: seq<IndexDir>, k: nat)
    requires 0 < k <= |cands|
    ensures SumFiles(cands[..k]) == cands[0].files + SumFiles(cands[1..][..k - 1])
  {
    assert cands[..k][1..] == cands[1..][..k - 1];
  }

  /** They are the shortest prefix that makes the index fit, or all of them. */
  lemma {:induction false} TakenIsShortest(cands: seq<IndexDir>, files: int, limit: int)
    ensures var k := |TakenUntil(cands, files, limit)|;
            && k <= |cands| && TakenUntil(cands, files, limit) == cands[..k]
            && (k < |cands| ==> Fits(files, SumFiles(cands[..k]), limit))
            && (k > 0 ==> !Fits(files, SumFiles(cands[..k - 1]), limit))
    decreases |cands|
  {
    var k := |TakenUntil(cands, files, limit)|;
    if k > 0 {
      TakenIsShortest(cands[1..], files - cands[0].files, limit);
      SumFront(cands, k);
      assert cands[..k] == [cands[0]] + cands[1..][..k - 1];
      if k > 1 { SumFront(cands, k - 1); }
    }
  }

  /** What chooseExcludes chooses is best, when no directory has a negative count. */
  lemma ChosenIsBest(cands: seq<IndexDir>, files: int, limit: int)
    requires LargestFirst(cands) && NonNegative(cands)
    ensures Best(cands, files, limit, Chosen(cands, files, limit))
  {
    TakenIsShortest(cands, files, limit);
    var k := |TakenUntil(cands, files, limit)|;
    if Fits(files, SumFiles(cands[..k]), limit) {
      ShortestIsBest(cands, files, limit, k);
    } else {
      assert cands[..k] == cands;
      PrefixFiles(cands, 0);
    }
  }

  /** chooseExcludes' loop. */
  method TakeUntilFits(cands: seq<IndexDir>, files: int, limit: int) returns (out: seq<IndexDir>)
    ensures out == Chosen(cands, files, limit)
  {
    var left := files;
    out := [];
    var i := 0;
    ghost var taken := TakenUntil(cands, files, limit);
    while i < |cands| && left > limit
      invariant 0 <= i <= |cands| && out + TakenUntil(cands[i..], left, limit) == taken
      invariant left == files - SumFiles(out)
    {
      assert cands[i..][1..] == cands[i + 1..];
      SumAppend(out, [cands[i]]);
      out := out + [cands[i]];
      left := left - cands[i].files;
      i := i + 1;
    }
    assert out == taken;
    if left > limit {
      return [];
    }
  }

  /** chooseExcludes. */
  method ChooseExcludes(r: IndexReport, limit: int, names: Names) returns (out: seq<IndexDir>)
    ensures out == Chosen(Candidates(r, names), r.files, limit)
    ensures NonNegative(r.heaviest) ==> Best(Candidates(r, names), r.files, limit, out)
  {
    var cands := ObviousExcludes(r, names);
    out := TakeUntilFits(cands, r.files, limit);
    if NonNegative(r.heaviest) {
      CandidatesNonNegative(r, names);
      ChosenIsBest(cands, r.files, limit);
    }
  }
}
