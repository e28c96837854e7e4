/** Ignore patterns and what they match: rag_ignore.go's globRegex, against the
    segment-wise reading of gitignore's "PATTERN FORMAT".

    A pattern reaches globRegex as bytes, so here it is a string of bytes; a path
    is matched rune by rune. Only the expressions globRegex writes are given a
    meaning. Bracket classes are not part of this model; a bracket that is never
    closed is a literal. */
module Glob {
  import Strings

  /** A literal, [^/]*, [^/], .* and (?:.*\/)?. */
  datatype Atom = Lit(c: char) | Run | One | Rest | Dirs

  predicate NoSlash(s: string) { '/' !in s }

  /** The whole of s matches the expression, as between ^ and $. */
  predicate Matches(re: seq<Atom>, s: string)
    decreases |re|
  {
    if re == [] then s == ""
    else match re[0]
      case Lit(c) => s != "" && s[0] == c && Matches(re[1..], s[1..])
      case One => s != "" && s[0] != '/' && Matches(re[1..], s[1..])
      case Run => exists k :: 0 <= k <= |s| && NoSlash(s[..k]) && Matches(re[1..], s[k..])
      case Rest => exists k :: 0 <= k <= |s| && '\n' !in s[..k] && Matches(re[1..], s[k..])
      case Dirs =>
        || Matches(re[1..], s)
        || exists k :: 0 <= k < |s| && s[k] == '/' && '\n' !in s[..k] && Matches(re[1..], s[k + 1..])
  }

  /** globRegex, from a position on; atStart says that no character or a slash
      comes before it. */
  function Compile(g: string, atStart: bool): seq<Atom>
    decreases |g|
  {
    if g == "" then []
    else if "**" <= g then
      if atStart && "**/" <= g then [Dirs] + Compile(g[3..], true)
      else if atStart && |g| == 2 then [Rest] + Compile(g[2..], false)
      else [Run] + Compile(g[2..], false)
    else if g[0] == '*' then [Run] + Compile(g[1..], false)
    else if g[0] == '?' then [One] + Compile(g[1..], false)
    else if g[0] == '\\' && |g| > 1 then [Lit(g[1])] + Compile(g[2..], g[1] == '/')
    else [Lit(g[0])] + Compile(g[1..], g[0] == '/')
  }

  /** Whether globRegex comes upon a bracket that is closed later. */
  predicate HasClass(g: string) {
    if g == "" then false
    else if g[0] == '\\' && |g| > 1 then HasClass(g[2..])
    else (g[0] == '[' && ']' in g[1..]) || HasClass(g[1..])
  }

  lemma {:induction false} NoBracketNoClass(g: string)
    requires '[' !in g
    ensures !HasClass(g)
    decreases |g|
  {
    if g != "" && g[0] == '\\' && |g| > 1 {
      NoBracketNoClass(g[2..]);
    } else if g != "" {
      assert g[0] in g;
      NoBracketNoClass(g[1..]);
    }
  }

  // ---- Segments ----

  /** strings.Split(s, "/"). */
  function Split(s: string): (ps: seq<string>)
    ensures ps != []
  {
    if s == "" then [""]
    else if s[0] == '/' then [""] + Split(s[1..])
    else var rest := Split(s[1..]); [[s[0]] + rest[0]] + rest[1..]
  }

  function Join(ps: seq<string>): string {
    if ps == [] then "" else if |ps| == 1 then ps[0] else ps[0] + "/" + Join(ps[1..])
  }

  /** A path's segments: none is empty, none has a slash or a newline in it. */
  ghost predicate IsPath(ps: seq<string>) {
    forall i :: 0 <= i < |ps| ==> ps[i] != "" && NoSlash(ps[i]) && '\n' !in ps[i]
  }

  // ---- The reading ----

  /** One segment: * is any run of characters, ? any one, others themselves. */
  predicate SegMatches(p: string, s: string)
    decreases |p|
  {
    if p == "" then s == ""
    else if p[0] == '*' then exists k :: 0 <= k <= |s| && SegMatches(p[1..], s[k..])
    else s != "" && (p[0] == '?' || p[0] == s[0]) && SegMatches(p[1..], s[1..])
  }

  /** A pattern's segments on a path's: ** is any run of segments, or at the end
      everything inside. */
  predicate Reading(ps: seq<string>, path: seq<string>)
    decreases |ps|
  {
    if ps == [] then path == []
    else if ps == ["**"] then path != []
    else if ps[0] == "**" then exists k :: 0 <= k <= |path| && Reading(ps[1..], path[k..])
    else path != [] && SegMatches(ps[0], path[0]) && Reading(ps[1..], path[1..])
  }

  // ---- Compiling by segments ----

  function SegAtoms(p: string): seq<Atom> {
    if p == "" then []
    else if "**" <= p then [Run] + SegAtoms(p[2..])
    else if p[0] == '*' then [Run] + SegAtoms(p[1..])
    else if p[0] == '?' then [One] + SegAtoms(p[1..])
    else [Lit(p[0])] + SegAtoms(p[1..])
  }

  function PathAtoms(ps: seq<string>): seq<Atom> {
    if ps == [] then []
    else if ps == ["**"] then [Rest]
    else if ps[0] == "**" then [Dirs] + PathAtoms(ps[1..])
    else SegAtoms(ps[0]) + if |ps| == 1 then [] else [Lit('/')] + PathAtoms(ps[1..])
  }

  function MidAtoms(ps: seq<string>): seq<Atom>
    requires ps != []
  {
    SegAtoms(ps[0]) + if |ps| == 1 then [] else [Lit('/')] + PathAtoms(ps[1..])
  }

  /** No escape and no class. */
  predicate Plain(g: string) { '\\' !in g && '[' !in g }

  lemma PlainRest(g: string, n: nat)
    requires Plain(g) && n <= |g|
    ensures Plain(g[n..])
  {}

  lemma SplitMore(g: string, c: char)
    ensures Split([c] + g) == if c == '/' then [""] + Split(g) else [[c] + Split(g)[0]] + Split(g)[1..]
  {
    assert ([c] + g)[1..] == g;
  }

  lemma StarPairIs(p: string)
    ensures "**" <= p <==> |p| >= 2 && p[0] == '*' && p[1] == '*'
  {
    if "**" <= p { assert p[0] == "**"[0] && p[1] == "**"[1]; }
  }

  lemma SegMore(c: char, x: string)
    requires c == '*' ==> !("*" <= x)
    ensures SegAtoms([c] + x) == [if c == '*' then Run else if c == '?' then One else Lit(c)] + SegAtoms(x)
  {
    var p := [c] + x;
    assert p[0] == c && p[1..] == x && (|p| > 1 ==> p[1] == x[0]);
    StarPairIs(p);
  }

  lemma SegStars(x: string)
    ensures SegAtoms("**" + x) == [Run] + SegAtoms(x)
  {
    assert ("**" + x)[2..] == x;
  }

  lemma {:induction false} HeadStarts(g: string)
    ensures "*" <= Split(g)[0] <==> "*" <= g
  {}

  lemma MidMore(c: char, ps: seq<string>, a: Atom)
    requires ps != [] && SegAtoms([c] + ps[0]) == [a] + SegAtoms(ps[0])
    ensures MidAtoms([[c] + ps[0]] + ps[1..]) == [a] + MidAtoms(ps)
  {
    var qs := [[c] + ps[0]] + ps[1..];
    assert qs[1..] == ps[1..];
  }

  /** Inside a segment, globRegex compiles the rest of it, then the others. */
  lemma {:induction false} CompileMid(g: string)
    requires Plain(g)
    ensures Compile(g, false) == MidAtoms(Split(g))
    decreases |g|, 0
  {
    if g != "" {
      PlainRest(g, 1);
      assert g == [g[0]] + g[1..];
      SplitMore(g[1..], g[0]);
      if "**" <= g {
        PlainRest(g, 2);
        CompileMid(g[2..]);
        MidStars(g[2..]);
        assert g == "**" + g[2..];
      } else if g[0] == '/' {
        CompileStart(g[1..]);
        assert g[0] in g;
        assert ([""] + Split(g[1..]))[1..] == Split(g[1..]);
      } else {
        assert g[0] in g;
        CompileMid(g[1..]);
        HeadStarts(g[1..]);
        SegMore(g[0], Split(g[1..])[0]);
        MidMore(g[0], Split(g[1..]), if g[0] == '*' then Run else if g[0] == '?' then One else Lit(g[0]));
      }
    }
  }

  lemma SplitTwo(c: char, d: char, g: string)
    requires c != '/' && d != '/'
    ensures Split([c, d] + g) == [[c, d] + Split(g)[0]] + Split(g)[1..]
  {
    SplitMore(g, d);
    SplitMore([d] + g, c);
    HeadTwo(c, d, Split(g), Split([d] + g));
    assert [c, d] + g == [c] + ([d] + g);
  }

  lemma HeadTwo(c: char, d: char, ps: seq<string>, qs: seq<string>)
    requires ps != [] && qs == [[d] + ps[0]] + ps[1..]
    ensures [[c] + qs[0]] + qs[1..] == [[c, d] + ps[0]] + ps[1..]
  {
    assert [c] + ([d] + ps[0]) == [c, d] + ps[0] && qs[1..] == ps[1..];
  }

  lemma SplitStars(g: string)
    ensures Split("**" + g) == ["**" + Split(g)[0]] + Split(g)[1..]
  {
    SplitTwo('*', '*', g);
  }

  lemma MidTwo(x: string, ps: seq<string>, a: Atom)
    requires ps != [] && SegAtoms(x + ps[0]) == [a] + SegAtoms(ps[0])
    ensures MidAtoms([x + ps[0]] + ps[1..]) == [a] + MidAtoms(ps)
  {
    assert ([x + ps[0]] + ps[1..])[1..] == ps[1..];
  }

  lemma MidStars(g: string)
    ensures MidAtoms(Split("**" + g)) == [Run] + MidAtoms(Split(g))
  {
    SplitStars(g);
    SegStars(Split(g)[0]);
    MidTwo("**", Split(g), Run);
  }

  /** At a segment's start, the segments. */
  lemma {:induction false} CompileStart(g: string)
    requires Plain(g)
    ensures Compile(g, true) == PathAtoms(Split(g))
    decreases |g|, 1
  {
    if "**/" <= g {
      PlainRest(g, 3);
      CompileStart(g[3..]);
      assert g == "**" + (['/'] + g[3..]);
      SplitStars(['/'] + g[3..]);
      SplitMore(g[3..], '/');
      assert "**" + "" == "**" && ([""] + Split(g[3..]))[1..] == Split(g[3..]);
    } else if g == "**" {
      assert Split(g) == ["**"] by { SplitStars(""); assert g == "**" + ""; }
      assert g[2..] == "";
    } else {
      CompileMid(g);
      NotStars(g);
    }
  }

  lemma NotStars(g: string)
    requires !("**/" <= g) && g != "**"
    ensures Split(g)[0] != "**"
  {
    HeadIs(g);
  }

  lemma {:induction false} HeadIs(g: string)
    ensures var h := Split(g)[0]; h <= g && NoSlash(h) && (|g| > |h| ==> g[|h|] == '/')
  {
    if g != "" && g[0] != '/' { HeadIs(g[1..]); }
  }

  // ---- A segment's atoms ----

  /** The first k characters of s are the segment's. */
  predicate Fits(p: string, y: seq<Atom>, s: string, k: nat) {
    k <= |s| && NoSlash(s[..k]) && SegMatches(p, s[..k]) && Matches(y, s[k..])
  }

  ghost predicate Fit(p: string, y: seq<Atom>, s: string) {
    exists k: nat :: Fits(p, y, s, k)
  }

  lemma Slices(s: string, j: nat, k: nat)
    ensures j + k <= |s| ==> s[j..][..k] == s[j..j + k] == s[..j + k][j..] && s[j..][k..] == s[j + k..]
  {}

  lemma {:induction false} StarsAreOne(q: string, t: string)
    ensures SegMatches("**" + q, t) <==> SegMatches("*" + q, t)
  {
    assert ("**" + q)[1..] == "*" + q && ("*" + q)[1..] == q;
    if SegMatches("**" + q, t) {
      var j :| 0 <= j <= |t| && SegMatches("*" + q, t[j..]);
      var i :| 0 <= i <= |t[j..]| && SegMatches(q, t[j..][i..]);
      assert t[j..][i..] == t[j + i..];
    }
    if SegMatches("*" + q, t) {
      assert t[0..] == t;
    }
  }

  lemma StarFits(q: string, y: seq<Atom>, s: string, j: nat, k: nat)
    requires j <= |s| && NoSlash(s[..j]) && Fits(q, y, s[j..], k)
    ensures Fits("*" + q, y, s, j + k)
  {
    Slices(s, j, k);
    assert ("*" + q)[1..] == q;
    assert SegMatches(q, s[..j + k][j..]);
    assert s[..j + k] == s[..j] + s[j..j + k];
  }

  lemma FitsStar(q: string, y: seq<Atom>, s: string, k: nat) returns (j: nat)
    requires Fits("*" + q, y, s, k)
    ensures j <= k <= |s| && NoSlash(s[..j]) && Fits(q, y, s[j..], k - j)
  {
    assert ("*" + q)[1..] == q;
    j :| 0 <= j <= |s[..k]| && SegMatches(q, s[..k][j..]);
    Slices(s, j, k - j);
    assert s[..j] == s[..k][..j];
  }

  /** A star's atom, then the rest. */
  lemma StarThen(q: string, re: seq<Atom>, y: seq<Atom>, s: string)
    requires forall j :: 0 <= j <= |s| ==> (Matches(re, s[j..]) <==> Fit(q, y, s[j..]))
    ensures Matches([Run] + re, s) <==> Fit("*" + q, y, s)
  {
    assert ([Run] + re)[1..] == re;
    if Matches([Run] + re, s) {
      var j :| 0 <= j <= |s| && NoSlash(s[..j]) && Matches(re, s[j..]);
      var k: nat :| Fits(q, y, s[j..], k);
      StarFits(q, y, s, j, k);
    }
    if k: nat :| Fits("*" + q, y, s, k) {
      var j := FitsStar(q, y, s, k);
      assert Fit(q, y, s[j..]);
    }
  }

  predicate Takes(c: char, s: string) {
    s != "" && s[0] != '/' && (c == '?' || s[0] == c)
  }

  lemma CharFits(c: char, q: string, y: seq<Atom>, s: string, k: nat)
    requires c != '*' && Takes(c, s) && Fits(q, y, s[1..], k)
    ensures Fits([c] + q, y, s, 1 + k)
  {
    Slices(s, 1, k);
    var t := s[..1 + k];
    assert t == [s[0]] + s[1..1 + k] && t[1..] == s[1..1 + k];
    assert ([c] + q)[1..] == q;
  }

  lemma FitsChar(c: char, q: string, y: seq<Atom>, s: string, k: nat)
    requires c != '*' && c != '/' && Fits([c] + q, y, s, k)
    ensures k > 0 && Takes(c, s) && Fits(q, y, s[1..], k - 1)
  {
    assert ([c] + q)[1..] == q;
    assert s[..k] != "" && s[..k][0] == s[0];
    Slices(s, 1, k - 1);
    assert s[..k] == [s[0]] + s[1..k];
  }

  /** One character's atom, then the rest. */
  lemma CharThen(c: char, q: string, re: seq<Atom>, y: seq<Atom>, s: string)
    requires c != '*' && c != '/'
    requires s != "" ==> (Matches(re, s[1..]) <==> Fit(q, y, s[1..]))
    ensures Matches([if c == '?' then One else Lit(c)] + re, s) <==> Fit([c] + q, y, s)
  {
    var a := if c == '?' then One else Lit(c);
    assert ([a] + re)[1..] == re;
    if Matches([a] + re, s) {
      var k: nat :| Fits(q, y, s[1..], k);
      CharFits(c, q, y, s, k);
    }
    if k: nat :| Fits([c] + q, y, s, k) {
      FitsChar(c, q, y, s, k);
    }
  }

  ghost predicate SplitsAt(p: string, y: seq<Atom>, s: string) {
    Matches(SegAtoms(p) + y, s) <==> Fit(p, y, s)
  }

  lemma {:induction false} SegThen(p: string, y: seq<Atom>, s: string)
    requires NoSlash(p)
    ensures SplitsAt(p, y, s)
    decreases |p|
  {
    if p == "" {
      assert [] + y == y && s[..0] == "" && s[0..] == s;
      if Matches(y, s) { assert Fits(p, y, s, 0); }
    } else {
      var q := if "**" <= p then p[2..] else p[1..];
      forall j | 0 <= j <= |s| ensures SplitsAt(q, y, s[j..]) { SegThen(q, y, s[j..]); }
      if "**" <= p {
        assert p == "**" + q;
        StarsSplit(q, y, s);
      } else {
        assert p == [p[0]] + q && p[0] in p;
        OneSplit(p[0], q, y, s);
      }
    }
  }

  lemma StarsSplit(q: string, y: seq<Atom>, s: string)
    requires forall j :: 0 <= j <= |s| ==> SplitsAt(q, y, s[j..])
    ensures SplitsAt("**" + q, y, s)
  {
    forall j | 0 <= j <= |s| ensures Matches(SegAtoms(q) + y, s[j..]) <==> Fit(q, y, s[j..]) {
      assert SplitsAt(q, y, s[j..]);
    }
    StarThen(q, SegAtoms(q) + y, y, s);
    SegStars(q);
    Strings.ConcatAssociates([Run], SegAtoms(q), y);
    FitStars(q, y, s);
  }

  lemma OneSplit(c: char, q: string, y: seq<Atom>, s: string)
    requires c != '/' && (c == '*' ==> !("*" <= q)) && forall j :: 0 <= j <= |s| ==> SplitsAt(q, y, s[j..])
    ensures SplitsAt([c] + q, y, s)
  {
    SegMore(c, q);
    var a := if c == '*' then Run else if c == '?' then One else Lit(c);
    Strings.ConcatAssociates([a], SegAtoms(q), y);
    if c == '*' {
      forall j | 0 <= j <= |s| ensures Matches(SegAtoms(q) + y, s[j..]) <==> Fit(q, y, s[j..]) {
        assert SplitsAt(q, y, s[j..]);
      }
      StarThen(q, SegAtoms(q) + y, y, s);
    } else {
      assert s != "" ==> SplitsAt(q, y, s[1..]);
      CharThen(c, q, SegAtoms(q) + y, y, s);
    }
  }

  lemma FitStars(q: string, y: seq<Atom>, s: string)
    ensures Fit("**" + q, y, s) <==> Fit("*" + q, y, s)
  {
    if k: nat :| Fits("**" + q, y, s, k) {
      StarsAreOne(q, s[..k]);
      assert Fits("*" + q, y, s, k);
    }
    if k: nat :| Fits("*" + q, y, s, k) {
      StarsAreOne(q, s[..k]);
      assert Fits("**" + q, y, s, k);
    }
  }

  // ---- A path's slashes ----

  lemma {:induction false} JoinHas(ps: seq<string>)
    requires IsPath(ps)
    ensures '\n' !in Join(ps) && (ps != [] ==> Join(ps) != "")
  {
    if |ps| > 1 { JoinHas(ps[1..]); }
  }

  /** Each slash of a path ends one of its segments. */
  lemma {:induction false} SlashEnds(ps: seq<string>, k: nat) returns (j: nat)
    requires IsPath(ps) && k < |Join(ps)| && Join(ps)[k] == '/'
    ensures 0 < j < |ps| && Join(ps)[k + 1..] == Join(ps[j..])
    ensures NoSlash(Join(ps)[..k]) ==> j == 1 && Join(ps)[..k] == ps[0]
  {
    var s := Join(ps);
    if |ps| == 1 {
      assert false;
    } else {
      var rest := Join(ps[1..]);
      assert s == ps[0] + ("/" + rest);
      if k < |ps[0]| {
        assert false;
      } else if k == |ps[0]| {
        j := 1;
      } else {
        assert s[|ps[0]|] == '/' && s[..k][|ps[0]|] == '/';
        j := SlashEnds(ps[1..], k - |ps[0]| - 1);
        assert ps[1..][j..] == ps[j + 1..];
        assert s[k + 1..] == rest[k - |ps[0]|..];
        j := j + 1;
      }
    }
  }

  lemma {:induction false} SlashBefore(ps: seq<string>, j: nat) returns (k: nat)
    requires 0 < j < |ps|
    ensures k < |Join(ps)| && Join(ps)[k] == '/' && Join(ps)[k + 1..] == Join(ps[j..])
  {
    var rest := Join(ps[1..]);
    assert Join(ps) == ps[0] + ("/" + rest);
    if j == 1 {
      k := |ps[0]|;
    } else {
      k := SlashBefore(ps[1..], j - 1);
      assert ps[1..][j - 1..] == ps[j..];
      assert Join(ps)[|ps[0]| + 1 + k + 1..] == rest[k + 1..];
      k := |ps[0]| + 1 + k;
    }
  }

  lemma HasSlash(ps: seq<string>)
    ensures |ps| > 1 ==> '/' in Join(ps)
  {
    if |ps| > 1 { var k := SlashBefore(ps, 1); }
  }

  // ---- The expression means what the pattern reads ----

  /** Segments with no slash in them. */
  ghost predicate Segments(ps: seq<string>) {
    forall i :: 0 <= i < |ps| ==> NoSlash(ps[i])
  }

  lemma {:induction false} ReadingNothing(ps: seq<string>)
    requires ps != []
    ensures !Reading(ps, [])
  {
    if ps != ["**"] && ps[0] == "**" { ReadingNothing(ps[1..]); }
  }

  lemma ReadingSegment(p: string, ps: seq<string>, path: seq<string>)
    requires p != "**"
    ensures Reading([p] + ps, path) <==> path != [] && SegMatches(p, path[0]) && Reading(ps, path[1..])
  {
    var all := [p] + ps;
    assert all[0] == p && all[1..] == ps && all != ["**"];
  }

  ghost predicate ReadsAt(ps: seq<string>, path: seq<string>, j: nat) {
    j <= |path| && Reading(ps, path[j..])
  }

  lemma ReadingStars(ps: seq<string>, path: seq<string>)
    requires ps != []
    ensures Reading(["**"] + ps, path) <==> exists j: nat :: ReadsAt(ps, path, j)
  {
    var all := ["**"] + ps;
    assert all[1..] == ps && |all| > 1;
    if j: nat :| ReadsAt(ps, path, j) { assert Reading(all[1..], path[j..]); }
    if Reading(all, path) {
      var j :| 0 <= j <= |path| && Reading(all[1..], path[j..]);
      assert ReadsAt(ps, path, j);
    }
  }

  lemma LastSegment(p: string, path: seq<string>)
    requires NoSlash(p) && p != "**" && IsPath(path) && path != []
    ensures Matches(SegAtoms(p), Join(path)) <==> Reading([p], path)
  {
    var s := Join(path);
    SegThen(p, [], s);
    assert SplitsAt(p, [], s);
    assert SegAtoms(p) + [] == SegAtoms(p);
    assert s[..|s|] == s;
    if k: nat :| Fits(p, [], s, k) {
      assert k == |s|;
    }
    HasSlash(path);
    if Reading([p], path) {
      ReadingSegment(p, [], path);
      assert [p] + [] == [p];
      assert Fits(p, [], s, |s|);
    }
  }

  lemma FirstFits(p: string, re: seq<Atom>, path: seq<string>, k: nat)
    requires IsPath(path) && path != [] && Fits(p, [Lit('/')] + re, Join(path), k)
    ensures |path| > 1 && SegMatches(p, path[0]) && Matches(re, Join(path[1..]))
  {
    var s := Join(path);
    assert ([Lit('/')] + re)[1..] == re;
    assert s[k..][0] == s[k] && s[k..][1..] == s[k + 1..];
    var j := SlashEnds(path, k);
  }

  lemma FitsFirst(p: string, re: seq<Atom>, path: seq<string>)
    requires IsPath(path) && |path| > 1 && SegMatches(p, path[0]) && Matches(re, Join(path[1..]))
    ensures Fits(p, [Lit('/')] + re, Join(path), |path[0]|)
  {
    var s, k := Join(path), |path[0]|;
    assert ([Lit('/')] + re)[1..] == re;
    assert s == path[0] + ("/" + Join(path[1..]));
    assert s[..k] == path[0] && s[k..] == "/" + Join(path[1..]) && s[k..][1..] == Join(path[1..]);
  }

  lemma FirstSegment(p: string, ps: seq<string>, path: seq<string>)
    requires NoSlash(p) && p != "**" && ps != [] && IsPath(path) && path != []
    requires |path| > 1 ==> (Matches(PathAtoms(ps), Join(path[1..])) <==> Reading(ps, path[1..]))
    ensures Matches(SegAtoms(p) + ([Lit('/')] + PathAtoms(ps)), Join(path)) <==> Reading([p] + ps, path)
  {
    var y := [Lit('/')] + PathAtoms(ps);
    SegThen(p, y, Join(path));
    ReadingSegment(p, ps, path);
    if k: nat :| Fits(p, y, Join(path), k) {
      FirstFits(p, PathAtoms(ps), path, k);
    }
    if Reading([p] + ps, path) {
      ReadingNothing(ps);
      FitsFirst(p, PathAtoms(ps), path);
    }
  }

  lemma DirsRead(ps: seq<string>, path: seq<string>) returns (j: nat)
    requires ps != [] && IsPath(path) && path != [] && Matches([Dirs] + PathAtoms(ps), Join(path))
    ensures j < |path| && Matches(PathAtoms(ps), Join(path[j..]))
  {
    var s, re := Join(path), PathAtoms(ps);
    assert ([Dirs] + re)[1..] == re && path[0..] == path;
    j := 0;
    if !Matches(re, s) {
      var k :| 0 <= k < |s| && s[k] == '/' && '\n' !in s[..k] && Matches(re, s[k + 1..]);
      j := SlashEnds(path, k);
    }
  }

  lemma ReadDirs(ps: seq<string>, path: seq<string>, j: nat)
    requires ps != [] && IsPath(path) && j < |path| && Matches(PathAtoms(ps), Join(path[j..]))
    ensures Matches([Dirs] + PathAtoms(ps), Join(path))
  {
    var s, re := Join(path), PathAtoms(ps);
    assert ([Dirs] + re)[1..] == re;
    if j == 0 {
      assert path[0..] == path;
    } else {
      var k := SlashBefore(path, j);
      JoinHas(path);
      assert '\n' !in s[..k] && Matches(re, s[k + 1..]);
    }
  }

  ghost predicate MeansAt(ps: seq<string>, path: seq<string>, j: nat)
    requires j <= |path|
  {
    Matches(PathAtoms(ps), Join(path[j..])) <==> Reading(ps, path[j..])
  }

  lemma AnyDirs(ps: seq<string>, path: seq<string>)
    requires ps != [] && IsPath(path) && path != []
    requires forall j: nat :: j < |path| ==> MeansAt(ps, path, j)
    ensures Matches([Dirs] + PathAtoms(ps), Join(path)) <==> Reading(["**"] + ps, path)
  {
    ReadingStars(ps, path);
    if Matches([Dirs] + PathAtoms(ps), Join(path)) {
      var j := DirsRead(ps, path);
      assert MeansAt(ps, path, j);
      assert ReadsAt(ps, path, j);
    }
    if j: nat :| ReadsAt(ps, path, j) {
      ReadingNothing(ps);
      assert j < |path| && MeansAt(ps, path, j);
      ReadDirs(ps, path, j);
    }
  }

  lemma {:induction false} PathMeaning(ps: seq<string>, path: seq<string>)
    requires ps != [] && Segments(ps) && IsPath(path) && path != []
    ensures Matches(PathAtoms(ps), Join(path)) <==> Reading(ps, path)
    decreases |ps|
  {
    var s := Join(path);
    if ps == ["**"] {
      JoinHas(path);
      assert s[|s|..] == "" && Matches([Rest][1..], s[|s|..]);
    } else if |ps| == 1 {
      assert ps == [ps[0]];
      LastSegment(ps[0], path);
      assert SegAtoms(ps[0]) + [] == SegAtoms(ps[0]);
    } else {
      assert ps == [ps[0]] + ps[1..];
      forall j: nat | j < |path| ensures MeansAt(ps[1..], path, j) {
        PathMeaning(ps[1..], path[j..]);
      }
      if ps[0] == "**" {
        AnyDirs(ps[1..], path);
      } else {
        assert |path| > 1 ==> MeansAt(ps[1..], path, 1);
        FirstSegment(ps[0], ps[1..], path);
      }
    }
  }

  // ---- Runes and bytes ----

  function ByteOf(n: nat): char
    requires n < 0x100
  {
    n as char
  }

  /** A rune in UTF-8 (RFC 3629, section 3). */
  function Encode(c: char): (b: string)
    ensures c < '\U{80}' ==> b == [c]
    ensures c >= '\U{80}' ==> |b| >= 2 && forall i :: 0 <= i < |b| ==> b[i] >= '\U{80}'
  {
    var n := c as int;
    if n < 0x80 then [c]
    else if n < 0x800 then [ByteOf(0xC0 + n / 0x40), ByteOf(0x80 + n % 0x40)]
    else if n < 0x1_0000 then [ByteOf(0xE0 + n / 0x1000), ByteOf(0x80 + n / 0x40 % 0x40), ByteOf(0x80 + n % 0x40)]
    else [ByteOf(0xF0 + n / 0x4_0000), ByteOf(0x80 + n / 0x1000 % 0x40),
          ByteOf(0x80 + n / 0x40 % 0x40), ByteOf(0x80 + n % 0x40)]
  }

  /** A pattern as globRegex gets it. */
  function Bytes(p: string): string {
    if p == "" then "" else Encode(p[0]) + Bytes(p[1..])
  }

  predicate Ascii(p: string) {
    forall i :: 0 <= i < |p| ==> p[i] < '\U{80}'
  }

  lemma {:induction false} AsciiBytes(p: string)
    requires Ascii(p)
    ensures Bytes(p) == p
  {
    if p != "" { AsciiBytes(p[1..]); }
  }

  /** How many characters are beyond ASCII. */
  function High(s: string): nat {
    if s == "" then 0 else (if s[0] >= '\U{80}' then 1 else 0) + High(s[1..])
  }

  function HighLits(re: seq<Atom>): nat {
    if re == [] then 0 else (if re[0].Lit? && re[0].c >= '\U{80}' then 1 else 0) + HighLits(re[1..])
  }

  lemma {:induction false} HighConcat(a: string, b: string)
    ensures High(a + b) == High(a) + High(b)
  {
    if a == "" {
      assert a + b == b;
    } else {
      assert (a + b)[1..] == a[1..] + b;
      HighConcat(a[1..], b);
    }
  }

  lemma {:induction false} AllHigh(s: string)
    requires forall i :: 0 <= i < |s| ==> s[i] >= '\U{80}'
    ensures High(s) == |s|
  {
    if s != "" { AllHigh(s[1..]); }
  }

  /** UTF-8 has at least two bytes beyond ASCII for each such rune. */
  lemma {:induction false} BytesAreHigher(p: string)
    ensures High(Bytes(p)) >= 2 * High(p) && (High(p) == 0 <==> Ascii(p))
  {
    if p != "" {
      BytesAreHigher(p[1..]);
      HighConcat(Encode(p[0]), Bytes(p[1..]));
      if p[0] >= '\U{80}' { AllHigh(Encode(p[0])); }
      assert p == [p[0]] + p[1..];
    }
  }

  lemma HighAtom(a: Atom, re: seq<Atom>)
    ensures HighLits([a] + re) == (if a.Lit? && a.c >= '\U{80}' then 1 else 0) + HighLits(re)
  {
    assert ([a] + re)[1..] == re;
  }

  lemma HighDrop(g: string, n: nat)
    requires n <= |g| && n <= 3
    ensures High(g) == High(g[..n]) + High(g[n..])
  {
    assert g == g[..n] + g[n..];
    HighConcat(g[..n], g[n..]);
  }

  lemma High1(c: char)
    ensures High([c]) == if c >= '\U{80}' then 1 else 0
  {
    assert [c][1..] == "";
  }

  /** Every byte beyond ASCII becomes a literal of its own. */
  lemma {:induction false} CompiledHigh(g: string, atStart: bool)
    ensures HighLits(Compile(g, atStart)) == High(g)
    decreases |g|
  {
    if g == "" {
    } else if "**/" <= g && atStart {
      HighDrop(g, 3);
      assert g[..3] == ['*'] + (['*'] + ['/']);
      HighConcat(['*'], ['*'] + ['/']);
      HighConcat(['*'], ['/']);
      High1('*');
      High1('/');
      CompiledHigh(g[3..], true);
      HighAtom(Dirs, Compile(g[3..], true));
    } else if "**" <= g {
      HighDrop(g, 2);
      assert g[..2] == ['*'] + ['*'];
      HighConcat(['*'], ['*']);
      High1('*');
      CompiledHigh(g[2..], false);
      HighAtom(if atStart && |g| == 2 then Rest else Run, Compile(g[2..], false));
    } else if g[0] == '\\' && |g| > 1 {
      HighDrop(g, 2);
      assert g[..2] == [g[0]] + [g[1]];
      HighConcat([g[0]], [g[1]]);
      High1(g[0]);
      High1(g[1]);
      CompiledHigh(g[2..], g[1] == '/');
      HighAtom(Lit(g[1]), Compile(g[2..], g[1] == '/'));
    } else {
      var slash := g[0] == '/';
      CompiledHigh(g[1..], slash);
      HighAtom(if g[0] == '*' then Run else if g[0] == '?' then One else Lit(g[0]), Compile(g[1..], slash));
    }
  }

  /** A literal takes a character of its own. */
  lemma {:induction false} MatchNeedsHigh(re: seq<Atom>, s: string)
    requires Matches(re, s)
    ensures High(s) >= HighLits(re)
    decreases |re|, 1
  {
    if re != [] {
      match re[0]
      case Lit(_) => MatchNeedsHigh(re[1..], s[1..]);
      case One => MatchNeedsHigh(re[1..], s[1..]);
      case Run =>
        var k :| 0 <= k <= |s| && NoSlash(s[..k]) && Matches(re[1..], s[k..]);
        MatchNeedsRest(re, s, k);
      case Rest =>
        var k :| 0 <= k <= |s| && '\n' !in s[..k] && Matches(re[1..], s[k..]);
        MatchNeedsRest(re, s, k);
      case Dirs =>
        if Matches(re[1..], s) {
          MatchNeedsHigh(re[1..], s);
        } else {
          var k :| 0 <= k < |s| && s[k] == '/' && '\n' !in s[..k] && Matches(re[1..], s[k + 1..]);
          MatchNeedsRest(re, s, k + 1);
        }
    }
  }

  lemma {:induction false} MatchNeedsRest(re: seq<Atom>, s: string, k: nat)
    requires re != [] && !re[0].Lit? && k <= |s| && Matches(re[1..], s[k..])
    ensures High(s) >= HighLits(re)
    decreases |re|, 0
  {
    MatchNeedsHigh(re[1..], s[k..]);
    assert s == s[..k] + s[k..];
    HighConcat(s[..k], s[k..]);
  }

  // ---- A path every pattern reads ----

  function SampleSegment(p: string): string {
    if p == "" then "" else [if p[0] == '*' || p[0] == '?' then 'x' else p[0]] + SampleSegment(p[1..])
  }

  function Sample(ps: seq<string>): seq<string> {
    if ps == [] then []
    else if ps == ["**"] then ["x"]
    else if ps[0] == "**" then Sample(ps[1..])
    else [SampleSegment(ps[0])] + Sample(ps[1..])
  }

  lemma {:induction false} SampleSegmentMatches(p: string)
    ensures SegMatches(p, SampleSegment(p)) && High(SampleSegment(p)) == High(p) && |SampleSegment(p)| == |p|
    ensures NoSlash(p) ==> NoSlash(SampleSegment(p))
    ensures '\n' !in p ==> '\n' !in SampleSegment(p)
  {
    if p != "" {
      SampleSegmentMatches(p[1..]);
      assert SampleSegment(p)[1..] == SampleSegment(p[1..]);
      assert p[0] in p && p == [p[0]] + p[1..];
    }
  }

  function HighAll(ps: seq<string>): nat {
    if ps == [] then 0 else High(ps[0]) + HighAll(ps[1..])
  }

  lemma {:induction false} SampleReads(ps: seq<string>)
    requires Segments(ps) && forall i :: 0 <= i < |ps| ==> ps[i] != "" && '\n' !in ps[i]
    ensures Reading(ps, Sample(ps)) && IsPath(Sample(ps)) && (ps != [] ==> Sample(ps) != [])
    ensures HighAll(Sample(ps)) <= HighAll(ps)
  {
    if ps == ["**"] {
      High1('x');
      assert Sample(ps)[1..] == [];
    } else if ps != [] {
      SampleReads(ps[1..]);
      if ps[0] == "**" {
        assert Sample(ps)[0..] == Sample(ps);
      } else {
        SampleSegmentMatches(ps[0]);
        assert Sample(ps)[1..] == Sample(ps[1..]);
      }
    }
  }

  lemma {:induction false} HighJoin(ps: seq<string>)
    ensures High(Join(ps)) == HighAll(ps)
  {
    if |ps| == 1 {
      assert HighAll(ps[1..]) == 0;
    } else if |ps| > 1 {
      HighJoin(ps[1..]);
      assert Join(ps) == ps[0] + ("/" + Join(ps[1..]));
      HighConcat(ps[0], "/" + Join(ps[1..]));
      HighConcat("/", Join(ps[1..]));
      High1('/');
    }
  }

  lemma JoinMore(c: char, ps: seq<string>)
    requires ps != [] && c != '/'
    ensures Join([[c] + ps[0]] + ps[1..]) == [c] + Join(ps)
  {
    var qs := [[c] + ps[0]] + ps[1..];
    assert qs[1..] == ps[1..];
    if |ps| > 1 {
      Strings.ConcatAssociates([c], ps[0], "/" + Join(ps[1..]));
      Strings.ConcatAssociates([c] + ps[0], "/", Join(ps[1..]));
      Strings.ConcatAssociates(ps[0], "/", Join(ps[1..]));
    }
  }

  lemma {:induction false} JoinSplit(p: string)
    ensures Join(Split(p)) == p && Segments(Split(p))
  {
    if p != "" {
      JoinSplit(p[1..]);
      var rest := Split(p[1..]);
      assert p == [p[0]] + p[1..];
      if p[0] == '/' {
        assert Split(p)[1..] == rest && "" + "/" == "/";
      } else {
        JoinMore(p[0], rest);
      }
    }
  }

  lemma {:induction false} SplitWhole(p: string, rest: string)
    requires NoSlash(p)
    ensures Split(p + "/" + rest) == [p] + Split(rest)
  {
    if p == "" {
      assert "" + "/" + rest == ['/'] + rest;
      SplitMore(rest, '/');
    } else {
      assert p + "/" + rest == [p[0]] + (p[1..] + "/" + rest) && p[0] in p;
      SplitWhole(p[1..], rest);
      SplitMore(p[1..] + "/" + rest, p[0]);
      assert [p[0]] + p[1..] == p;
    }
  }

  /** Splitting undoes joining. */
  lemma {:induction false} SplitJoin(ps: seq<string>)
    requires ps != [] && Segments(ps)
    ensures Split(Join(ps)) == ps
  {
    if |ps| == 1 {
      OneSegment(ps[0]);
    } else {
      SplitJoin(ps[1..]);
      SplitWhole(ps[0], Join(ps[1..]));
    }
  }

  // ---- When the expression means what the pattern reads ----

  /** Anchored patterns of ASCII mean what they read, on every path. */
  lemma AsciiMeaning(p: string, path: seq<string>)
    requires Plain(p) && Ascii(p) && IsPath(path) && path != []
    ensures Matches(Compile(Bytes(p), true), Join(path)) <==> Reading(Split(p), path)
  {
    AsciiBytes(p);
    CompileStart(p);
    JoinSplit(p);
    PathMeaning(Split(p), path);
  }

  /** So does a pattern with no slash, at any depth. */
  lemma AnyDepthMeaning(p: string, path: seq<string>)
    requires Plain(p) && Ascii(p) && NoSlash(p) && IsPath(path) && path != []
    ensures Matches([Dirs] + Compile(Bytes(p), true), Join(path)) <==> Reading(["**", p], path)
  {
    AsciiBytes(p);
    CompileStart(p);
    OneSegment(p);
    PathMeaning(["**", p], path);
    assert ["**", p][1..] == [p];
  }

  lemma {:induction false} OneSegment(p: string)
    requires NoSlash(p)
    ensures Split(p) == [p]
  {
    if p != "" {
      OneSegment(p[1..]);
      assert p[0] in p && [p[0]] + p[1..] == p;
    }
  }

  /** A pattern beyond ASCII misses a path it reads: its runes were compiled byte
      by byte. */
  lemma BeyondAsciiMisses(p: string) returns (path: seq<string>)
    requires !Ascii(p) && forall i :: 0 <= i < |Split(p)| ==> Split(p)[i] != "" && '\n' !in Split(p)[i]
    ensures IsPath(path) && path != [] && Reading(Split(p), path)
    ensures !Matches(Compile(Bytes(p), true), Join(path))
  {
    path := Sample(Split(p));
    JoinSplit(p);
    SampleReads(Split(p));
    HighJoin(path);
    HighJoin(Split(p));
    BytesAreHigher(p);
    CompiledHigh(Bytes(p), true);
    if Matches(Compile(Bytes(p), true), Join(path)) {
      MatchNeedsHigh(Compile(Bytes(p), true), Join(path));
    }
  }

  /** On a path, the expression means what the segments read. */
  ghost predicate Same(re: seq<Atom>, ps: seq<string>, path: seq<string>) {
    IsPath(path) && path != [] ==> (Matches(re, Join(path)) <==> Reading(ps, path))
  }

  ghost predicate SameOn(p: string, path: seq<string>) {
    Same(Compile(Bytes(p), true), Split(p), path)
  }

  /** An anchored pattern without escapes, classes or empty segments means what it
      reads on every path exactly when it is ASCII. */
  lemma MeansWhatItReadsIff(p: string)
    requires Plain(p) && forall i :: 0 <= i < |Split(p)| ==> Split(p)[i] != "" && '\n' !in Split(p)[i]
    ensures (forall path :: SameOn(p, path)) <==> Ascii(p)
  {
    if Ascii(p) {
      forall path ensures SameOn(p, path) {
        if IsPath(path) && path != [] { AsciiMeaning(p, path); }
      }
    } else {
      var path := BeyondAsciiMisses(p);
      assert !SameOn(p, path);
    }
  }

  ghost predicate SameAnyDepth(p: string, path: seq<string>) {
    Same([Dirs] + Compile(Bytes(p), true), ["**", p], path)
  }

  /** A pattern with no slash, beyond ASCII, misses a path it reads at the root. */
  lemma AnyDepthMisses(p: string) returns (path: seq<string>)
    requires !Ascii(p) && NoSlash(p) && p != "" && '\n' !in p
    ensures IsPath(path) && path != [] && Reading(["**", p], path)
    ensures !Matches([Dirs] + Compile(Bytes(p), true), Join(path))
  {
    OneSegment(p);
    path := Sample([p]);
    SampleReads([p]);
    ReadingAtRoot(p, path);
    HighJoin(path);
    HighJoin([p]);
    BytesAreHigher(p);
    CompiledHigh(Bytes(p), true);
    HighAtom(Dirs, Compile(Bytes(p), true));
    if Matches([Dirs] + Compile(Bytes(p), true), Join(path)) {
      MatchNeedsHigh([Dirs] + Compile(Bytes(p), true), Join(path));
    }
  }

  lemma ReadingAtRoot(p: string, path: seq<string>)
    requires Reading([p], path)
    ensures Reading(["**", p], path)
  {
    ReadingStars([p], path);
    assert path[0..] == path && ReadsAt([p], path, 0);
    assert ["**"] + [p] == ["**", p];
  }

  /** So a pattern with no slash means what it reads, at any depth, exactly when it
      is ASCII. */
  lemma AnyDepthMeansIff(p: string)
    requires Plain(p) && NoSlash(p) && p != "" && '\n' !in p
    ensures (forall path :: SameAnyDepth(p, path)) <==> Ascii(p)
  {
    if Ascii(p) {
      forall path ensures SameAnyDepth(p, path) {
        if IsPath(path) && path != [] { AnyDepthMeaning(p, path); }
      }
    } else {
      var path := AnyDepthMisses(p);
      assert !SameAnyDepth(p, path);
    }
  }

  // ---- The loop ----

  predicate AtStart(g: string, i: nat)
    requires i <= |g|
  {
    i == 0 || g[i - 1] == '/'
  }

  function CompileFrom(g: string, i: nat): seq<Atom>
    requires i <= |g|
  {
    Compile(g[i..], AtStart(g, i))
  }

  lemma Later(g: string, i: nat, n: nat)
    ensures i + n <= |g| ==> g[i..][n..] == g[i + n..]
  {}

  lemma StarsNoClass(g: string)
    requires "**" <= g && !HasClass(g)
    ensures !HasClass(g[2..]) && ("**/" <= g ==> !HasClass(g[3..]))
  {
    StarPairIs(g);
    assert g[1..][1..] == g[2..] && g[1..][0] == '*';
    assert !HasClass(g[1..]);
    if "**/" <= g { assert g[2..][1..] == g[3..] && g[2..][0] == "**/"[2]; }
  }

  /** One turn of globRegex's loop: what it writes, and where it goes on. */
  method NextAtom(g: string, start: nat) returns (a: Atom, i: nat)
    requires start < |g| && !HasClass(g[start..])
    ensures start < i <= |g| && !HasClass(g[i..])
    ensures CompileFrom(g, start) == [a] + CompileFrom(g, i)
  {
    Later(g, start, 1);
    Later(g, start, 2);
    Later(g, start, 3);
    i := start;
    if g[i] == '*' && "**" <= g[i..] {
      StarsNoClass(g[i..]);
      var atStart := i == 0 || g[i - 1] == '/';
      if atStart && "**/" <= g[i..] {
        a := Dirs;
        i := i + 2;
      } else if atStart && i + 2 == |g| {
        a := Rest;
        i := i + 1;
      } else {
        a := Run;
        i := i + 1;
      }
    } else if g[i] == '*' {
      a := Run;
    } else if g[i] == '?' {
      a := One;
    } else if g[i] == '\\' && i + 1 < |g| {
      i := i + 1;
      a := Lit(g[i]);
    } else {
      a := Lit(g[i]);    // a '[' without a ']' after it, too
    }
    i := i + 1;
  }

  /** globRegex. */
  method GlobRegex(g: string) returns (re: seq<Atom>)
    requires !HasClass(g)
    ensures re == Compile(g, true)
  {
    re := [];
    var i := 0;
    ghost var all := Compile(g, true);
    assert g[0..] == g;
    while i < |g|
      invariant 0 <= i <= |g| && !HasClass(g[i..])
      invariant re + CompileFrom(g, i) == all
    {
      var a;
      a, i := NextAtom(g, i);
      Strings.ConcatAssociates(re, [a], CompileFrom(g, i));
      re := re + [a];
    }
  }
}
