/** Which directories are junk: rag_ingest.go's junkDirs, workspaceCopies and
    junkJudge. The file system is a predicate on paths relative to the workspace. */
module Junk {
  import opened Glob
  import opened GlobRules

  /** junkDirs: the reason that goes with a name, "" for any other. */
  function JunkName(name: string): string {
    if name in {"node_modules", "bower_components", "Pods"} then "dependencies"
    else if name in {".venv", "venv"} then "virtualenv"
    else if name in {"__pycache__", ".tox", ".mypy_cache", ".pytest_cache"} then "cache"
    else if name in {".cache", ".gradle", ".terraform"} then "cache"
    else if name in {"dist", "build", "out", ".next", ".nuxt", ".svelte-kit", "DerivedData"} then "build output"
    else if name == "coverage" then "coverage"
    else if name == ".idea" then "editor state"
    else if name == ".git" then "git"
    else ""
  }

  /** workspaceCopies. */
  predicate WorkspaceCopy(dir: string) {
    dir == ".dun/worktrees" || dir == ".claude/worktrees"
  }

  /** path.Base, and a path next to dir. */
  function Base(dir: string): string {
    var ps := Split(dir);
    ps[|ps| - 1]
  }

  function Beside(dir: string, name: string): string {
    var ps := Split(dir);
    Join(ps[..|ps| - 1] + [name])
  }

  /** junkJudge.reason, without its memory; there says what exists. */
  function Reason(there: string -> bool, dir: string): string {
    if WorkspaceCopy(dir) then "worktrees"
    else if JunkName(Base(dir)) != "" then JunkName(Base(dir))
    else if Base(dir) == "env" then if there(dir + "/pyvenv.cfg") then "virtualenv" else ""
    else if Base(dir) != "target" then ""
    else if there(Beside(dir, "Cargo.toml")) || there(Beside(dir, "pom.xml")) then "build output"
    else ""
  }

  /** The names a directory is junk by, somewhere or everywhere. */
  predicate JunkBase(name: string) {
    JunkName(name) != "" || name == "env" || name == "target"
  }

  predicate CanBeJunk(dir: string) {
    WorkspaceCopy(dir) || JunkBase(Base(dir))
  }

  /** A directory can be junk exactly when it is in some file system. */
  lemma CanBeJunkIff(dir: string)
    ensures CanBeJunk(dir) <==> exists there: string -> bool :: Reason(there, dir) != ""
  {
    if CanBeJunk(dir) {
      assert Reason(_ => true, dir) != "";
    }
  }

  /** junkJudge. */
  class JunkJudge {
    const there: string -> bool
    var memo: map<string, string>

    /** What it remembers is what it would say. */
    ghost predicate Valid()
      reads this
    {
      forall dir :: dir in memo ==> memo[dir] == Reason(there, dir)
    }

    constructor (there: string -> bool)
      ensures Valid() && this.there == there
    {
      this.there, memo := there, map[];
    }

    /** reason. */
    method Judge(dir: string) returns (why: string)
      requires Valid()
      modifies this`memo
      ensures Valid() && why == Reason(there, dir)
      ensures memo.Keys == old(memo).Keys + {dir}
    {
      if dir in memo { return memo[dir]; }
      var name := Base(dir);
      why := "";
      if WorkspaceCopy(dir) {
        why := "worktrees";
      } else if JunkName(name) != "" {
        why := JunkName(name);
      } else if name == "env" {
        if there(dir + "/pyvenv.cfg") { why := "virtualenv"; }
      } else if name == "target" {
        if there(Beside(dir, "Cargo.toml")) || there(Beside(dir, "pom.xml")) { why := "build output"; }
      }
      memo := memo[dir := why];
    }
  }

  // ---- Paths of files ----

  /** What a file can be called. */
  predicate FileName(x: string) {
    x != "" && NoSlash(x) && '\0' !in x && x != "." && x != ".."
  }

  /** A file the walk could come upon: it goes into no .git. */
  predicate IsFilePath(rel: string) {
    FilePath(Split(rel))
  }

  predicate FilePath(ps: seq<string>) {
    forall i :: 0 <= i < |ps| ==> FileName(ps[i]) && (i < |ps| - 1 ==> ps[i] != ".git")
  }

  lemma FilePathIsClean(rel: string)
    requires IsFilePath(rel)
    ensures Clean(rel)
  {
    JoinSplit(rel);
    JoinClean(Split(rel));
  }

  lemma {:induction false} SplitBoth(d: string, x: string)
    ensures Split(d + "/" + x) == Split(d) + Split(x)
  {
    if d == "" {
      SplitWhole("", x);
      assert "" + "/" + x == "/" + x;
    } else {
      var c, t := d[0], d[1..];
      SplitBoth(t, x);
      assert d + "/" + x == [c] + (t + "/" + x) && d == [c] + t;
      SplitMore(t + "/" + x, c);
      SplitMore(t, c);
      HeadOfBoth(c, Split(t), Split(x));
    }
  }

  lemma HeadOfBoth(c: char, ps: seq<string>, qs: seq<string>)
    requires ps != []
    ensures [""] + (ps + qs) == ([""] + ps) + qs
    ensures [[c] + (ps + qs)[0]] + (ps + qs)[1..] == ([[c] + ps[0]] + ps[1..]) + qs
  {
    assert (ps + qs)[1..] == ps[1..] + qs;
  }

  lemma {:induction false} JoinSnoc(ps: seq<string>, x: string)
    requires ps != []
    ensures Join(ps + [x]) == Join(ps) + "/" + x
  {
    assert (ps + [x])[1..] == ps[1..] + [x];
    if |ps| > 1 { JoinSnoc(ps[1..], x); }
  }

  // ---- What makes a directory junk ----

  /** A name in a directory, "" the root. */
  function InDir(parent: string, name: string): string {
    if parent == "" then name else parent + "/" + name
  }

  lemma BaseIs(parent: string, name: string, x: string)
    requires NoSlash(name)
    ensures Base(InDir(parent, name)) == name && Beside(InDir(parent, name), x) == InDir(parent, x)
  {
    OneSegment(name);
    if parent == "" {
      assert Split(name)[..0] + [x] == [x];
    } else {
      SplitBoth(parent, name);
      JoinSplit(parent);
      assert Split(parent + "/" + name)[..|Split(parent)|] == Split(parent);
      JoinSnoc(Split(parent), x);
    }
  }

  lemma CopyName(copies: string, d: string)
    requires NoSlash(copies) && (d == ".dun/" + copies || d == ".claude/" + copies)
    ensures Base(d) == copies
  {
    var parent := if d == ".dun/" + copies then ".dun" else ".claude";
    assert d == parent + "/" + copies;
    BaseIs(parent, copies, "");
  }

  lemma CopyBase(d: string)
    requires WorkspaceCopy(d)
    ensures Base(d) == "worktrees"
  {
    CopyName("worktrees", d);
  }

  /** An env is junk exactly when it has a pyvenv.cfg, a target exactly when a Cargo.toml
      or a pom.xml stands next to it; of other names nothing depends on what exists. */
  lemma JunkByFiles(there: string -> bool, other: string -> bool, parent: string, name: string)
    requires NoSlash(name)
    ensures var d := InDir(parent, name);
            && (name == "env" ==> (Reason(there, d) != "" <==> there(d + "/pyvenv.cfg")))
            && (name == "target" ==>
                  (Reason(there, d) != "" <==> there(InDir(parent, "Cargo.toml")) || there(InDir(parent, "pom.xml"))))
            && (name != "env" && name != "target" ==> Reason(there, d) == Reason(other, d))
  {
    BaseIs(parent, name, "Cargo.toml");
    BaseIs(parent, name, "pom.xml");
    var d := InDir(parent, name);
    if WorkspaceCopy(d) { CopyBase(d); }
  }

  // ---- Rules and junk ----

  /** The directory that ends at n can be junk, on the way to a file. */
  predicate JunkOnTheWay(rel: string, n: nat) {
    IsFilePath(rel) && AncestorEnd(rel, n) && CanBeJunk(rel[..n])
  }

  /** The rules reach every directory that can be junk, on the way to a file that a
      rule which names paths covers. */
  ghost predicate ReachesJunk(rules: seq<Rule>) {
    forall rel: string, n: nat :: JunkOnTheWay(rel, n) ==> ReachedOnTheWay(rules, rel, n)
  }
}
