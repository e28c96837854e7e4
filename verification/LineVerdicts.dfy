/** What the lines of an ignore file say of a path: each by the path that its own
    directory sees, and together by the last that reads it. */
module LineVerdicts {
  import opened Glob
  import opened GlobRules
  import opened JunkLines
  import opened SafePatterns

  /** A line that is a pattern in ASCII, with its marks. */
  datatype Line = Line(p: string, negate: bool, lead: bool, dir: bool)

  predicate LegalLine(l: Line) { Bare(l.p) && Ascii(l.p) }

  /** It reads the path as its directory sees it; one for directories, only those. */
  ghost predicate LineReads(l: Line, path: seq<string>, isDir: bool) {
    (l.dir ==> isDir) && Reading(SegmentsOf(l.p, l.lead), path)
  }

  function RuleIn(d: string, l: Line): Rule { RuleFor(d, Body(l.p, l.lead), l.negate, l.dir) }

  /** The path in directory d, from the root. */
  function Under(d: string, path: seq<string>): string {
    if d == "" then Join(path) else d + "/" + Join(path)
  }

  /** One line, in its directory's file: its rule applies to what it reads, and there
      its verdict is its own. */
  lemma LineDecides(d: string, l: Line, path: seq<string>, isDir: bool)
    requires LegalLine(l) && IsPath(path) && path != []
    ensures Parse(d, LineOf(l.p, l.negate, l.lead, l.dir)) == Made(RuleIn(d, l))
    ensures Applies(RuleIn(d, l), Under(d, path), isDir) <==> LineReads(l, path, isDir)
    ensures Verdict([RuleIn(d, l)], Under(d, path), isDir) <==> !l.negate && LineReads(l, path, isDir)
  {
    LineParses(d, l.p, l.negate, l.lead, l.dir);
    LineMeaning(d, l.p, l.negate, l.lead, l.dir, path);
    var rel := Under(d, path);
    assert d != "" ==> Beneath(d, rel) && rel[|d| + 1..] == Join(path);
    assert [RuleIn(d, l)][..0] == [];
  }

  /** It has no say outside its directory. */
  lemma SilentOutside(d: string, l: Line, rel: string, isDir: bool)
    requires LegalLine(l) && d != "" && !(d + "/" <= rel)
    ensures !Applies(RuleIn(d, l), rel, isDir) && !Verdict([RuleIn(d, l)], rel, isDir)
  {
    assert [RuleIn(d, l)][..0] == [];
  }

  // ---- The lines of a workspace ----

  /** A line of the ignore file of a directory, "" the root. */
  datatype Placed = Placed(d: string, line: Line)

  ghost predicate Legal(ls: seq<Placed>) { forall l :: l in ls ==> LegalLine(l.line) }

  function RulesOf(ls: seq<Placed>): seq<Rule> {
    seq(|ls|, i requires 0 <= i < |ls| => RuleIn(ls[i].d, ls[i].line))
  }

  /** Its directory is above the path, and it reads what follows. */
  ghost predicate PlacedReads(l: Placed, path: seq<string>, isDir: bool) {
    exists k: nat :: k < |path| && l.d == Join(path[..k]) && LineReads(l.line, path[k..], isDir)
  }

  lemma PartIsPath(path: seq<string>, k: nat)
    requires IsPath(path) && k <= |path|
    ensures IsPath(path[..k]) && IsPath(path[k..])
  {}

  lemma PathParts(path: seq<string>, k: nat)
    requires IsPath(path) && k < |path|
    ensures IsPath(path[k..]) && Under(Join(path[..k]), path[k..]) == Join(path)
    ensures k > 0 ==> Join(path[..k]) != ""
  {
    PartIsPath(path, k);
    if k > 0 {
      JoinParts(path[..k], path[k..]);
      assert path[..k] + path[k..] == path;
    } else {
      assert path[0..] == path;
    }
  }

  lemma JoinParts(a: seq<string>, b: seq<string>)
    requires IsPath(a) && a != [] && b != []
    ensures Join(a) != "" && Under(Join(a), b) == Join(a + b)
  {
    JoinHas(a);
    JoinBoth(a, b);
  }

  lemma PlacedDecides(l: Placed, path: seq<string>, isDir: bool)
    requires LegalLine(l.line) && IsPath(path) && path != []
    ensures Applies(RuleIn(l.d, l.line), Join(path), isDir) <==> PlacedReads(l, path, isDir)
  {
    forall k: nat | k < |path| && l.d == Join(path[..k])
      ensures Applies(RuleIn(l.d, l.line), Join(path), isDir) <==> LineReads(l.line, path[k..], isDir)
    {
      PathParts(path, k);
      LineDecides(l.d, l.line, path[k..], isDir);
    }
    if l.d == "" {
      assert Join(path[..0]) == "";
    } else if l.d + "/" <= Join(path) {
      assert Join(path)[..|l.d|] == l.d && Join(path)[|l.d|] == '/';
      var m := AncestorIsJoin(path, |l.d|);
    } else {
      SilentOutside(l.d, l.line, Join(path), isDir);
      forall k: nat | k < |path| && l.d == Join(path[..k]) ensures false { PathParts(path, k); }
    }
  }

  /** Line i reads the path, and no later one does. */
  ghost predicate LastToRead(ls: seq<Placed>, i: nat, path: seq<string>, isDir: bool) {
    i < |ls| && PlacedReads(ls[i], path, isDir) && forall k :: i < k < |ls| ==> !PlacedReads(ls[k], path, isDir)
  }

  /** The last line that reads the path is not negated. */
  ghost predicate Ignored(ls: seq<Placed>, path: seq<string>, isDir: bool) {
    exists i: nat :: LastToRead(ls, i, path, isDir) && !ls[i].line.negate
  }

  lemma {:induction false} LastTrue(p: nat -> bool, n: nat) returns (i: nat)
    requires exists k: nat :: k < n && p(k)
    ensures i < n && p(i) && forall k: nat :: i < k < n ==> !p(k)
    decreases n
  {
    if p(n - 1) { i := n - 1; } else { i := LastTrue(p, n - 1); }
  }

  lemma LastReads(ls: seq<Placed>, path: seq<string>, isDir: bool)
    ensures (exists i: nat :: LastToRead(ls, i, path, isDir))
            || forall i :: 0 <= i < |ls| ==> !PlacedReads(ls[i], path, isDir)
  {
    var hits := (k: nat) => k < |ls| && PlacedReads(ls[k], path, isDir);
    if exists k: nat :: k < |ls| && hits(k) {
      var i := LastTrue(hits, |ls|);
      forall k | i < k < |ls| ensures !PlacedReads(ls[k], path, isDir) { assert !hits(k); }
      assert LastToRead(ls, i, path, isDir);
    } else {
      forall k | 0 <= k < |ls| ensures !PlacedReads(ls[k], path, isDir) { assert !hits(k); }
    }
  }

  /** A path is ignored by itself exactly if the last line that reads it is not negated,
      wherever in the workspace the lines stand. */
  lemma LinesDecide(ls: seq<Placed>, path: seq<string>, isDir: bool)
    requires Legal(ls) && IsPath(path) && path != []
    ensures Verdict(RulesOf(ls), Join(path), isDir) <==> Ignored(ls, path, isDir)
  {
    var rules, rel := RulesOf(ls), Join(path);
    forall i | 0 <= i < |ls| ensures Applies(rules[i], rel, isDir) <==> PlacedReads(ls[i], path, isDir) {
      PlacedDecides(ls[i], path, isDir);
    }
    forall i: nat | LastToRead(ls, i, path, isDir) ensures Verdict(rules, rel, isDir) == !ls[i].line.negate {
      LastRuleWins(rules, rel, isDir, i);
    }
    LastRuleWins(rules, rel, isDir, 0);
    LastReads(ls, path, isDir);
  }

  /** A path is covered by the verdict on it, or on a directory above it. */
  lemma CoverIs(rules: seq<Rule>, path: seq<string>, isDir: bool)
    requires IsPath(path) && path != []
    ensures Covered(rules, Join(path), isDir) <==>
            exists k :: 1 <= k <= |path| && Verdict(rules, Join(path[..k]), k < |path| || isDir)
  {
    var rel := Join(path);
    assert path[..|path|] == path;
    if ThroughAncestor(rules, rel) {
      var i: nat :| AncestorEnd(rel, i) && Verdict(rules, rel[..i], true);
      var m := AncestorIsJoin(path, i);
    }
    if k :| 1 <= k < |path| && Verdict(rules, Join(path[..k]), true) {
      PathParts(path, k);
      var d := Join(path[..k]);
      assert AncestorEnd(rel, |d|) && rel[..|d|] == d;
    }
  }

  /** A path is ignored by itself, or with a directory above it. */
  ghost predicate IgnoredAt(ls: seq<Placed>, path: seq<string>, isDir: bool, k: nat) {
    1 <= k <= |path| && Ignored(ls, path[..k], k < |path| || isDir)
  }

  /** And it is covered exactly if that is so of it, or of a directory above it. */
  lemma LinesCover(ls: seq<Placed>, path: seq<string>, isDir: bool)
    requires Legal(ls) && IsPath(path) && path != []
    ensures Covered(RulesOf(ls), Join(path), isDir) <==> exists k: nat :: IgnoredAt(ls, path, isDir, k)
  {
    CoverIs(RulesOf(ls), path, isDir);
    forall k: nat | 1 <= k <= |path|
      ensures IgnoredAt(ls, path, isDir, k) <==> Verdict(RulesOf(ls), Join(path[..k]), k < |path| || isDir)
    {
      LinesDecide(ls, path[..k], k < |path| || isDir);
    }
  }

  // ---- Marks ----

  lemma ParsesAs(base: string, line: string, marked: string, negate: bool)
    requires line != "" && line[|line| - 1] !in " \r" && line[0] != '#' && Unmarked(line) == (marked, negate)
    ensures Parse(base, line) == ParseBody(base, marked, negate)
  {
    EndStays(line);
  }

  lemma NothingNamed(base: string, marked: string, negate: bool)
    requires TrimSlashes(marked) == ""
    ensures ParseBody(base, marked, negate) == NoRule
  {}

  lemma SlashesGo()
    ensures TrimSlashes("/") == ""
  {
    assert TrimSlashes("") == "";
  }

  lemma SlashStays(line: string)
    requires |line| == 1 && line[0] == '/'
    ensures Unmarked(line) == (line, false)
  {}

  lemma MarkGoes(line: string)
    requires |line| == 1 && line[0] == '!'
    ensures Unmarked(line) == ("", true) && TrimSlashes("") == ""
  {
    assert "!" <= line && line[1..] == "";
  }

  lemma MarkAlone(base: string, line: string)
    requires |line| == 1 && (line[0] == '/' || line[0] == '!')
    ensures Parse(base, line) == NoRule
  {
    if line[0] == '/' {
      SlashesGo();
      SlashStays(line);
      assert line == "/";
    } else {
      MarkGoes(line);
    }
    ParsesAs(base, line, Unmarked(line).0, Unmarked(line).1);
    NothingNamed(base, Unmarked(line).0, Unmarked(line).1);
  }

  lemma CommentAlone(base: string, line: string)
    requires line != "" && line[0] == '#' && line[|line| - 1] !in " \r"
    ensures Parse(base, line) == NoRule
  {
    EndStays(line);
    assert "#" <= line;
  }

  /** Comments, empty lines, and marks without a pattern give no rule. */
  lemma NoRules(base: string, line: string)
    ensures line == "" || line == "/" || line == "!" ==> Parse(base, line) == NoRule
    ensures line != "" && line[0] == '#' && line[|line| - 1] !in " \r" ==> Parse(base, line) == NoRule
  {
    if line == "/" || line == "!" {
      MarkAlone(base, line);
    } else if line != "" && line[0] == '#' && line[|line| - 1] !in " \r" {
      CommentAlone(base, line);
    }
  }

  /** A return at the end of a line, and a space that is not escaped, do not count. */
  lemma TrimsEnd(base: string, line: string)
    ensures !EndsIn(line, "\r") ==> Parse(base, line + "\r") == Parse(base, line)
    ensures !EndsIn(line, "\r") && !EndsIn(line, "\\") ==> Parse(base, line + " ") == Parse(base, line)
  {
    assert (line + "\r")[..|line|] == line && (line + " ")[..|line|] == line;
    assert EndsIn(line + " ", " ") && EndsIn(line + "\r", "\r");
    if EndsIn(line + " ", "\\ ") { assert line[|line| - 1] == (line + " ")[|line| - 1] == "\\ "[0]; }
    assert !EndsIn(line + " ", "\r");
  }

  /** An escaped space stays. */
  lemma EscapedSpaceStays(x: string)
    ensures TrimTail(x + "\\ ") == x + "\\ "
  {
    assert EndsIn(x + "\\ ", "\\ ");
  }

  lemma EscapedStart(c: char, x: string)
    requires c in "!#"
    ensures Unmarked("\\" + [c] + x) == ([c] + x, false)
  {
    var line := "\\" + [c] + x;
    assert line[0] == '\\' && line[1] == c && line[1..] == [c] + x;
  }

  /** An escaped mark is the first character of a pattern. */
  lemma EscapedMark(base: string, c: char, x: string)
    requires c in "!#" && (x == "" || x[|x| - 1] !in "/ \r") && Plain(x)
    ensures Parse(base, "\\" + [c] + x) == Made(RuleFor(base, [c] + x, false, false))
  {
    var line, p := "\\" + [c] + x, [c] + x;
    EndStays(line);
    EscapedStart(c, x);
    assert p[|p| - 1] == (if x == "" then c else x[|x| - 1]) && !EndsIn(p, "/");
    assert line[0] == '\\';
    NoBracketNoClass(p);
  }
}
