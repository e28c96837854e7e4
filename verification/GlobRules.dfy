/** Ignore rules and their verdicts: rag_ignore.go's parseGlobRule and globRules.

    A path is a string of runes, its segments joined by slashes; a line of rules is
    a string of bytes. A rule set is a list. */
module GlobRules {
  import opened Glob
  import opened Strings

  datatype Rule = Rule(base: string, re: seq<Atom>, negate: bool, dirOnly: bool, prefix: string)

  /** A line gives a rule or none; a line with a bracket class is not modelled. */
  datatype Parsed = NoRule | Made(rule: Rule) | ClassPattern

  // ---- One line ----

  predicate EndsIn(s: string, t: string) {
    |t| <= |s| && s[|s| - |t|..] == t
  }

  /** Trailing spaces go, unless escaped. */
  function TrimTail(s: string): string {
    if EndsIn(s, " ") && !EndsIn(s, "\\ ") then TrimTail(s[..|s| - 1]) else s
  }

  function TrimSlashes(s: string): string {
    if EndsIn(s, "/") then TrimSlashes(s[..|s| - 1]) else s
  }

  predicate Special(c: char) { c in "*?[\\" }

  /** strings.IndexAny(s, `*?[\`), or the length. */
  function FirstSpecial(s: string): (i: nat)
    ensures i <= |s| && (i < |s| ==> Special(s[i]))
    ensures forall k :: 0 <= k < i ==> !Special(s[k])
  {
    if s == "" || Special(s[0]) then 0 else 1 + FirstSpecial(s[1..])
  }

  /** The literal start of an anchored pattern, in bytes like the pattern. */
  function PrefixOf(base: string, pattern: string): string {
    var lit := if FirstSpecial(pattern) < |pattern| then pattern[..FirstSpecial(pattern)] else pattern + "/";
    if base != "" then Bytes(base) + "/" + lit else lit
  }

  /** The line after its own marks: what is left, and whether it was negated. */
  function Unmarked(line: string): (string, bool) {
    if "!" <= line then (line[1..], true)
    else if "\\!" <= line || "\\#" <= line then (line[1..], false)
    else (line, false)
  }

  function RuleFor(base: string, body: string, negate: bool, dirOnly: bool): Rule {
    var pattern := if "/" <= body then body[1..] else body;
    if '/' in body then Rule(base, Compile(pattern, true), negate, dirOnly, PrefixOf(base, pattern))
    else Rule(base, [Dirs] + Compile(pattern, true), negate, dirOnly, "")
  }

  function CutReturn(line: string): string {
    if EndsIn(line, "\r") then line[..|line| - 1] else line
  }

  function ParseBody(base: string, marked: string, negate: bool): Parsed {
    var body := TrimSlashes(marked);
    if body == "" then NoRule
    else if HasClass(body) then ClassPattern
    else Made(RuleFor(base, body, negate, EndsIn(marked, "/")))
  }

  /** parseGlobRule. */
  function Parse(base: string, line: string): Parsed {
    var text := TrimTail(CutReturn(line));
    if text == "" || "#" <= text then NoRule
    else ParseBody(base, Unmarked(text).0, Unmarked(text).1)
  }

  method TrimLine(line: string) returns (text: string)
    ensures text == TrimTail(CutReturn(line))
  {
    text := CutReturn(line);
    while EndsIn(text, " ") && !EndsIn(text, "\\ ")
      invariant TrimTail(text) == TrimTail(CutReturn(line))
      decreases |text|
    {
      text := text[..|text| - 1];
    }
  }

  method MakeRule(base: string, body: string, negate: bool, dirOnly: bool) returns (r: Rule)
    requires !HasClass(body)
    ensures r == RuleFor(base, body, negate, dirOnly)
  {
    var anchored := '/' in body;
    var pattern := body;
    if "/" <= body { pattern := body[1..]; }
    var re := GlobRegex(pattern);
    r := Rule(base, [Dirs] + re, negate, dirOnly, "");
    if anchored {
      r := r.(re := re, prefix := PrefixOf(base, pattern));
    }
  }

  method ParseGlobRule(base: string, line: string) returns (r: Parsed)
    ensures r == Parse(base, line)
  {
    var text := TrimLine(line);
    if text == "" || "#" <= text { return NoRule; }
    var negate, dirOnly := false, false;
    if "!" <= text {
      negate := true;
      text := text[1..];
    } else if "\\!" <= text || "\\#" <= text {
      text := text[1..];
    }
    if EndsIn(text, "/") {
      dirOnly := true;
      text := TrimSlashes(text);
    }
    if text == "" { return NoRule; }
    if HasClass(text) { return ClassPattern; }
    var rule := MakeRule(base, text, negate, dirOnly);
    r := Made(rule);
  }

  /** A pattern's text, without the marks of a line around it. */
  predicate Bare(p: string) {
    p != "" && p[0] !in "!#/" && p[|p| - 1] !in "/ \r" && Plain(p)
  }

  /** The line that says so much about a pattern. */
  function LineOf(p: string, negate: bool, lead: bool, dir: bool): string {
    (if negate then "!" else "") + (if lead then "/" else "") + p + if dir then "/" else ""
  }

  function Marked(p: string, lead: bool, dir: bool): string {
    Body(p, lead) + if dir then "/" else ""
  }

  function Body(p: string, lead: bool): string {
    (if lead then "/" else "") + p
  }

  lemma BodyStays(p: string, lead: bool, dir: bool)
    requires Bare(p)
    ensures TrimSlashes(Marked(p, lead, dir)) == Body(p, lead) && (EndsIn(Marked(p, lead, dir), "/") <==> dir)
    ensures Body(p, lead) != "" && !HasClass(Body(p, lead))
  {
    var body := Body(p, lead);
    NoBracketNoClass(body);
    assert body[|body| - 1] == p[|p| - 1];
    assert !EndsIn(body, "/");
    if dir {
      assert Marked(p, lead, dir)[..|body|] == body;
    } else {
      assert Marked(p, lead, dir) == body;
    }
  }

  lemma EndStays(line: string)
    requires line != "" && line[|line| - 1] !in " \r"
    ensures TrimTail(CutReturn(line)) == line
  {
    assert !EndsIn(line, " ") && !EndsIn(line, "\r");
  }

  lemma MarkedEnds(p: string, lead: bool, dir: bool)
    requires Bare(p)
    ensures var m := Marked(p, lead, dir);
            m != "" && m[0] == (if lead then '/' else p[0]) && m[|m| - 1] == (if dir then '/' else p[|p| - 1])
  {}

  lemma StartStays(marked: string)
    requires marked != "" && marked[0] !in "!#\\"
    ensures Unmarked(marked) == (marked, false) && !("#" <= marked)
    ensures Unmarked("!" + marked) == (marked, true) && !("#" <= "!" + marked)
  {
    assert ("!" + marked)[0] == '!';
    assert ("!" + marked)[1..] == marked;
    assert "\\!"[0] == "\\#"[0] == '\\';
  }

  lemma LineStays(p: string, negate: bool, lead: bool, dir: bool)
    requires Bare(p)
    ensures var line := LineOf(p, negate, lead, dir);
            && TrimTail(CutReturn(line)) == line && line != "" && !("#" <= line)
            && Unmarked(line) == (Marked(p, lead, dir), negate)
  {
    var line, marked := LineOf(p, negate, lead, dir), Marked(p, lead, dir);
    MarkedEnds(p, lead, dir);
    assert p[0] in p;
    StartStays(marked);
    assert line == if negate then "!" + marked else marked;
    EndStays(line);
  }

  lemma LineParses(base: string, p: string, negate: bool, lead: bool, dir: bool)
    requires Bare(p)
    ensures Parse(base, LineOf(p, negate, lead, dir)) == Made(RuleFor(base, Body(p, lead), negate, dir))
  {
    LineStays(p, negate, lead, dir);
    BodyStays(p, lead, dir);
  }

  /** The reading of a line: anchored when a slash leads it or stands in it, at any
      depth otherwise. */
  function SegmentsOf(p: string, lead: bool): seq<string> {
    if lead || '/' in p then Split(p) else ["**", p]
  }

  /** A parsed line matches exactly the paths its pattern reads. */
  lemma LineMeaning(base: string, p: string, negate: bool, lead: bool, dir: bool, path: seq<string>)
    requires Bare(p) && Ascii(p) && IsPath(path) && path != []
    ensures Parse(base, LineOf(p, negate, lead, dir)).Made?
    ensures var r := Parse(base, LineOf(p, negate, lead, dir)).rule;
            && r.base == base && r.negate == negate && r.dirOnly == dir
            && (Matches(r.re, Join(path)) <==> Reading(SegmentsOf(p, lead), path))
  {
    LineParses(base, p, negate, lead, dir);
    BodyMeaning(base, p, negate, lead, dir, path);
  }

  lemma BodyMeaning(base: string, p: string, negate: bool, lead: bool, dir: bool, path: seq<string>)
    requires Bare(p) && Ascii(p) && IsPath(path) && path != []
    ensures Matches(RuleFor(base, Body(p, lead), negate, dir).re, Join(path)) <==> Reading(SegmentsOf(p, lead), path)
  {
    assert '/' in Body(p, lead) <==> lead || '/' in p;
    assert (if "/" <= Body(p, lead) then Body(p, lead)[1..] else Body(p, lead)) == p;
    AsciiBytes(p);
    if lead || '/' in p {
      AsciiMeaning(p, path);
    } else {
      AnyDepthMeaning(p, path);
    }
  }

  lemma {:induction false} BytesKeepAscii(p: string, c: char)
    requires c < '\U{80}'
    ensures c in Bytes(p) <==> c in p
  {
    if p != "" {
      BytesKeepAscii(p[1..], c);
      assert p == [p[0]] + p[1..];
    }
  }

  lemma {:induction false} BytesEnds(p: string)
    requires p != ""
    ensures var b := Bytes(p); b != "" && SameMark(b[0], p[0]) && SameMark(b[|b| - 1], p[|p| - 1])
  {
    if p[1..] != "" {
      BytesEnds(p[1..]);
    }
  }

  /** The same character, or both beyond ASCII. */
  predicate SameMark(b: char, c: char) { if c < '\U{80}' then b == c else b >= '\U{80}' }

  lemma BytesBare(p: string)
    requires Bare(p)
    ensures Bare(Bytes(p)) && ('/' in Bytes(p) <==> '/' in p)
  {
    BytesEnds(p);
    BytesKeepAscii(p, '\\');
    BytesKeepAscii(p, '[');
    BytesKeepAscii(p, '/');
  }

  /** The line of a pattern, in bytes as it is read from a file, matches the path if
      and only if the pattern reads it. */
  ghost predicate SameLine(base: string, p: string, negate: bool, lead: bool, dir: bool, path: seq<string>) {
    var line := Parse(base, LineOf(Bytes(p), negate, lead, dir));
    line.Made? && Same(line.rule.re, SegmentsOf(p, lead), path)
  }

  lemma BodyRule(base: string, p: string, negate: bool, lead: bool, dir: bool)
    requires Bare(p)
    ensures var r, anchored := RuleFor(base, Body(p, lead), negate, dir), lead || '/' in p;
            && r.re == (if anchored then Compile(p, true) else [Dirs] + Compile(p, true))
            && r.prefix == (if anchored then PrefixOf(base, p) else "")
  {
    assert '/' in Body(p, lead) <==> lead || '/' in p;
    assert (if "/" <= Body(p, lead) then Body(p, lead)[1..] else Body(p, lead)) == p;
  }

  lemma BytesLine(base: string, p: string, negate: bool, lead: bool, dir: bool)
    requires Bare(p)
    ensures var line, anchored := Parse(base, LineOf(Bytes(p), negate, lead, dir)), lead || '/' in p;
            line.Made? && line.rule.re == if anchored then Compile(Bytes(p), true) else [Dirs] + Compile(Bytes(p), true)
  {
    BytesBare(p);
    BodyRule(base, Bytes(p), negate, lead, dir);
    LineParses(base, Bytes(p), negate, lead, dir);
  }

  lemma LineIs(base: string, p: string, negate: bool, lead: bool, dir: bool, path: seq<string>)
    requires Bare(p)
    ensures SameLine(base, p, negate, lead, dir, path) <==>
            if lead || '/' in p then SameOn(p, path) else SameAnyDepth(p, path)
  {
    BytesLine(base, p, negate, lead, dir);
  }

  /** A parsed line matches exactly the paths its pattern reads, on every path,
      exactly when the pattern is ASCII. */
  lemma LineMeaningIff(base: string, p: string, negate: bool, lead: bool, dir: bool)
    requires Bare(p) && Clean(p) && '\n' !in p
    ensures (forall path :: SameLine(base, p, negate, lead, dir, path)) <==> Ascii(p)
  {
    if lead || '/' in p {
      CleanSplit(p);
      forall i | 0 <= i < |Split(p)| ensures '\n' !in Split(p)[i] { SplitIn(p, i); }
      MeansWhatItReadsIff(p);
      SameEverywhere(base, p, negate, lead, dir);
    } else {
      AnyDepthMeansIff(p);
      SameEverywhere(base, p, negate, lead, dir);
    }
  }

  lemma SameEverywhere(base: string, p: string, negate: bool, lead: bool, dir: bool)
    requires Bare(p)
    ensures (forall path :: SameLine(base, p, negate, lead, dir, path)) <==>
            if lead || '/' in p then forall path :: SameOn(p, path) else forall path :: SameAnyDepth(p, path)
  {
    forall path ensures SameLine(base, p, negate, lead, dir, path) <==>
                        if lead || '/' in p then SameOn(p, path) else SameAnyDepth(p, path)
    {
      LineIs(base, p, negate, lead, dir, path);
    }
  }

  lemma {:induction false} SplitIn(p: string, i: nat)
    requires i < |Split(p)|
    ensures forall c :: c in Split(p)[i] ==> c in p
  {
    if p != "" {
      assert p == [p[0]] + p[1..];
      if p[0] == '/' {
        if i > 0 { SplitIn(p[1..], i - 1); }
      } else {
        SplitIn(p[1..], i);
      }
    }
  }

  // ---- A rule set's verdict ----

  predicate Beneath(base: string, rel: string) { base + "/" <= rel }

  /** Whether a rule matches a path itself. */
  predicate Applies(r: Rule, rel: string, isDir: bool) {
    && (r.dirOnly ==> isDir)
    && if r.base == "" then Matches(r.re, rel)
       else Beneath(r.base, rel) && Matches(r.re, rel[|r.base| + 1..])
  }

  /** match: the verdict of the last rule that matches. */
  function Verdict(rules: seq<Rule>, rel: string, isDir: bool): bool {
    if rules == [] then false
    else
      var r := rules[|rules| - 1];
      if Applies(r, rel, isDir) then !r.negate else Verdict(rules[..|rules| - 1], rel, isDir)
  }

  /** Rule i matches and no later rule does. */
  ghost predicate LastToApply(rules: seq<Rule>, i: nat, rel: string, isDir: bool) {
    i < |rules| && Applies(rules[i], rel, isDir) && forall k :: i < k < |rules| ==> !Applies(rules[k], rel, isDir)
  }

  /** The last matching rule wins; without one, the path is not ignored. */
  lemma {:induction false} LastRuleWins(rules: seq<Rule>, rel: string, isDir: bool, i: nat)
    ensures LastToApply(rules, i, rel, isDir) ==> Verdict(rules, rel, isDir) == !rules[i].negate
    ensures (forall k :: 0 <= k < |rules| ==> !Applies(rules[k], rel, isDir)) ==> !Verdict(rules, rel, isDir)
  {
    if rules != [] && !Applies(rules[|rules| - 1], rel, isDir) {
      LastRuleWins(rules[..|rules| - 1], rel, isDir, i);
    }
  }

  /** The rules with a say on a path: the root's, and those of directories above it. */
  function Heard(rules: seq<Rule>, rel: string): seq<Rule> {
    if rules == [] then []
    else
      var r := rules[|rules| - 1];
      Heard(rules[..|rules| - 1], rel) + if r.base == "" || Beneath(r.base, rel) then [r] else []
  }

  lemma HeardSnoc(rules: seq<Rule>, r: Rule, rel: string)
    ensures Heard(rules + [r], rel) == Heard(rules, rel) + if r.base == "" || Beneath(r.base, rel) then [r] else []
  {
    assert (rules + [r])[..|rules|] == rules;
  }

  lemma {:induction false} VerdictHears(rules: seq<Rule>, rel: string, isDir: bool)
    ensures Verdict(rules, rel, isDir) == Verdict(Heard(rules, rel), rel, isDir)
  {
    if rules != [] {
      var init, r := rules[..|rules| - 1], rules[|rules| - 1];
      VerdictHears(init, rel, isDir);
      var heard := Heard(init, rel);
      assert (heard + [r])[..|heard|] == heard && heard + [] == heard;
    }
  }

  /** The place i in rel ends an ancestor of it. */
  predicate AncestorEnd(rel: string, i: nat) { i < |rel| && rel[i] == '/' }

  ghost predicate ThroughAncestor(rules: seq<Rule>, rel: string) {
    exists i: nat :: AncestorEnd(rel, i) && Verdict(rules, rel[..i], true)
  }

  /** matches: by itself, or through a directory above it. */
  ghost predicate Covered(rules: seq<Rule>, rel: string, isDir: bool) {
    ThroughAncestor(rules, rel) || Verdict(rules, rel, isDir)
  }

  /** An ancestor hears no rule that the path does not. */
  lemma {:induction false} HeardTwice(rules: seq<Rule>, rel: string, i: nat)
    requires AncestorEnd(rel, i)
    ensures Heard(Heard(rules, rel), rel[..i]) == Heard(rules, rel[..i])
  {
    if rules != [] {
      var init, r := rules[..|rules| - 1], rules[|rules| - 1];
      HeardTwice(init, rel, i);
      HeardSnoc(Heard(init, rel), r, rel[..i]);
      assert Heard(init, rel) + [] == Heard(init, rel) && Heard(init, rel[..i]) + [] == Heard(init, rel[..i]);
    }
  }

  /** The rules of a directory's own file are silent outside it, wherever they stand
      among the others, so one the walk does not enter has no say on other paths. */
  lemma ForeignRulesSilent(rules: seq<Rule>, rel: string, isDir: bool)
    ensures Verdict(rules, rel, isDir) == Verdict(Heard(rules, rel), rel, isDir)
    ensures Covered(rules, rel, isDir) <==> Covered(Heard(rules, rel), rel, isDir)
  {
    VerdictHears(rules, rel, isDir);
    forall i: nat | AncestorEnd(rel, i)
      ensures Verdict(rules, rel[..i], true) == Verdict(Heard(rules, rel), rel[..i], true)
    {
      HeardTwice(rules, rel, i);
      VerdictHears(rules, rel[..i], true);
      VerdictHears(Heard(rules, rel), rel[..i], true);
    }
  }

  /** What covers a directory covers everything beneath it. */
  lemma CoveredBelow(rules: seq<Rule>, dir: string, x: string, isDir: bool)
    requires Covered(rules, dir, true)
    ensures Covered(rules, dir + "/" + x, isDir)
  {
    var rel := dir + "/" + x;
    if Verdict(rules, dir, true) {
      assert AncestorEnd(rel, |dir|) && rel[..|dir|] == dir;
    } else {
      var i: nat :| AncestorEnd(dir, i) && Verdict(rules, dir[..i], true);
      assert AncestorEnd(rel, i) && rel[..i] == dir[..i];
    }
  }

  /** The rules that name a path. */
  function Anchored(rules: seq<Rule>): seq<Rule> {
    if rules == [] then []
    else Anchored(rules[..|rules| - 1]) + if rules[|rules| - 1].prefix != "" then [rules[|rules| - 1]] else []
  }

  predicate Names(r: Rule, dir: string) {
    !r.negate && r.prefix != "" && Bytes(dir) + "/" <= r.prefix
  }

  /** reaches. */
  ghost predicate Reaches(rules: seq<Rule>, dir: string) {
    Covered(rules, dir, true) || exists i :: 0 <= i < |rules| && Names(rules[i], dir)
  }

  // ---- The loops ----

  /** match. */
  method Match(rules: seq<Rule>, rel: string, isDir: bool) returns (ignored: bool)
    ensures ignored == Verdict(rules, rel, isDir)
  {
    ignored := false;
    for i := 0 to |rules|
      invariant ignored == Verdict(rules[..i], rel, isDir)
    {
      var r := rules[i];
      assert rules[..i + 1][..i] == rules[..i];
      if Applies(r, rel, isDir) {
        ignored := !r.negate;
      }
    }
    assert rules[..|rules|] == rules;
  }

  /** matches. */
  method IsCovered(rules: seq<Rule>, rel: string, isDir: bool) returns (covered: bool)
    ensures covered <==> Covered(rules, rel, isDir)
  {
    if |rules| == 0 {
      assert rules == [];
      return false;
    }
    for i := 0 to |rel|
      invariant forall k: nat :: k < i && AncestorEnd(rel, k) ==> !Verdict(rules, rel[..k], true)
    {
      if rel[i] == '/' {
        var dir := Match(rules, rel[..i], true);
        if dir {
          assert AncestorEnd(rel, i);
          return true;
        }
      }
    }
    covered := Match(rules, rel, isDir);
  }

  /** reaches. */
  method IsReached(rules: seq<Rule>, dir: string) returns (reached: bool)
    ensures reached <==> Reaches(rules, dir)
  {
    reached := IsCovered(rules, dir, true);
    if reached { return; }
    for i := 0 to |rules|
      invariant forall k :: 0 <= k < i ==> !Names(rules[k], dir)
    {
      if Names(rules[i], dir) { return true; }
    }
  }

  /** anchored. */
  method AnchoredRules(rules: seq<Rule>) returns (out: seq<Rule>)
    ensures out == Anchored(rules)
  {
    out := [];
    for i := 0 to |rules|
      invariant out == Anchored(rules[..i])
    {
      assert rules[..i + 1][..i] == rules[..i];
      if rules[i].prefix != "" { out := out + [rules[i]]; }
    }
    assert rules[..|rules|] == rules;
  }

  // ---- What the rules that name a path reach ----

  /** No segment of the path is empty. */
  predicate Clean(rel: string) {
    && rel != "" && rel[|rel| - 1] != '/'
    && forall i :: 0 <= i < |rel| && rel[i] == '/' ==> i > 0 && rel[i - 1] != '/'
  }

  /** A directory above a path is reached, if a rule that names paths covers the path. */
  ghost predicate ReachedOnTheWay(rules: seq<Rule>, rel: string, n: nat) {
    Clean(rel) && AncestorEnd(rel, n) && Covered(Anchored(rules), rel, false) ==> Reaches(rules, rel[..n])
  }

  /** What reaches' comment says: it is true of every directory that a rule which
      names a path could match something beneath. */
  ghost predicate ReachesAll(rules: seq<Rule>) {
    forall rel: string, n: nat :: ReachedOnTheWay(rules, rel, n)
  }

  function Literal(lit: string): seq<Atom> {
    seq(|lit|, i requires 0 <= i < |lit| => Lit(lit[i]))
  }

  /** Where x first has a slash. */
  predicate FirstSlash(x: string, m: nat) { AncestorEnd(x, m) && NoSlash(x[..m]) }

  ghost predicate OpenAt(lit: string, tail: seq<Atom>, x: string, m: nat) {
    Clean(lit + x) && FirstSlash(x, m) && Matches(tail, x) ==> Matches(tail, x[..m])
  }

  /** What comes after the literal start matches, of a longer path, its first segment. */
  ghost predicate OpenTail(lit: string, tail: seq<Atom>) {
    forall x: string, m: nat :: OpenAt(lit, tail, x, m)
  }

  predicate StartsWith(r: Rule, lit: string, tail: seq<Atom>) {
    Ascii(lit) && lit <= r.prefix && r.re == Literal(lit) + tail
  }

  /** An un-negated rule that, when it names paths, opens everything in them. */
  ghost predicate Opens(r: Rule) {
    && !r.negate
    && (r.prefix != "" ==> r.base == "" && exists lit, tail :: StartsWith(r, lit, tail) && OpenTail(lit, tail))
  }

  lemma {:induction false} LiteralThen(lit: string, tail: seq<Atom>, s: string)
    ensures Matches(Literal(lit) + tail, s) <==> lit <= s && Matches(tail, s[|lit|..])
  {
    var re := Literal(lit) + tail;
    if lit == "" {
      assert re == tail && s[0..] == s;
    } else {
      assert re[0] == Lit(lit[0]) && re[1..] == Literal(lit[1..]) + tail;
      if s != "" {
        LiteralThen(lit[1..], tail, s[1..]);
        assert s == [s[0]] + s[1..] && lit == [lit[0]] + lit[1..];
        assert |lit| <= |s| ==> s[1..][|lit| - 1..] == s[|lit|..];
      }
    }
  }

  lemma {:induction false} AnchoredIn(rules: seq<Rule>, r: Rule)
    ensures r in Anchored(rules) <==> r in rules && r.prefix != ""
  {
    if rules != [] {
      AnchoredIn(rules[..|rules| - 1], r);
      assert rules == rules[..|rules| - 1] + [rules[|rules| - 1]];
    }
  }

  /** Without negation, one rule that matches decides. */
  lemma {:induction false} UnnegatedVerdict(rules: seq<Rule>, rel: string, isDir: bool)
    requires forall r :: r in rules ==> !r.negate
    ensures Verdict(rules, rel, isDir) <==> exists r :: r in rules && Applies(r, rel, isDir)
  {
    if rules != [] {
      UnnegatedVerdict(rules[..|rules| - 1], rel, isDir);
      assert rules == rules[..|rules| - 1] + [rules[|rules| - 1]];
    }
  }

  /** Covered at or above a directory, everything in it is reached. */
  lemma ReachedAbove(rules: seq<Rule>, dir: string, n: nat, r: Rule)
    requires forall r :: r in rules ==> !r.negate
    requires n <= |dir| && (n < |dir| ==> dir[n] == '/') && r in rules && Applies(r, dir[..n], true)
    ensures Covered(rules, dir, true)
  {
    UnnegatedVerdict(rules, dir[..n], true);
    if n < |dir| {
      assert AncestorEnd(dir, n);
    } else {
      assert dir[..n] == dir;
    }
  }

  /** A rule that names paths matches what they cover, or a directory above it. */
  lemma CoveringRule(rules: seq<Rule>, rel: string) returns (c: nat, r: Rule)
    requires forall r :: r in rules ==> !r.negate
    requires Covered(Anchored(rules), rel, false)
    ensures c <= |rel| && (c < |rel| ==> rel[c] == '/') && r in rules && r.prefix != ""
            && Applies(r, rel[..c], c < |rel|)
  {
    if ThroughAncestor(Anchored(rules), rel) {
      c :| AncestorEnd(rel, c) && Verdict(Anchored(rules), rel[..c], true);
    } else {
      c := |rel|;
      assert rel[..c] == rel;
    }
    forall x | x in Anchored(rules) ensures !x.negate { AnchoredIn(rules, x); }
    UnnegatedVerdict(Anchored(rules), rel[..c], c < |rel|);
    r :| r in Anchored(rules) && Applies(r, rel[..c], c < |rel|);
    AnchoredIn(rules, r);
  }

  /** A directory on the literal start of a rule is named by it. */
  lemma NamedByStart(r: Rule, lit: string, dir: string)
    requires !r.negate && Ascii(lit) && lit <= r.prefix && dir + "/" <= lit
    ensures Names(r, dir)
  {
    forall i | 0 <= i < |dir| ensures dir[i] < '\U{80}' { assert dir[i] == (dir + "/")[i] == lit[i]; }
    AsciiBytes(dir);
  }

  lemma FirstSlashBefore(x: string, k: nat) returns (m: nat)
    requires AncestorEnd(x, k)
    ensures m <= k && FirstSlash(x, m)
  {
    m := 0;
    while x[m] != '/'
      invariant m <= k && NoSlash(x[..m])
      decreases k - m
    {
      assert x[..m + 1] == x[..m] + [x[m]];
      m := m + 1;
    }
  }

  lemma CleanStart(rel: string, c: nat)
    requires Clean(rel) && c <= |rel| && (c < |rel| ==> rel[c] == '/')
    ensures Clean(rel[..c])
  {}

  /** Beyond the literal start, an open rule matches the first directory. */
  lemma OpenedBelow(s: string, n: nat, lit: string, tail: seq<Atom>) returns (m: nat)
    requires Clean(s) && AncestorEnd(s, n) && |lit| <= n
    requires OpenTail(lit, tail) && Matches(Literal(lit) + tail, s)
    ensures m <= n && s[m] == '/' && Matches(Literal(lit) + tail, s[..m])
  {
    var x := s[|lit|..];
    LiteralThen(lit, tail, s);
    assert s == lit + x;
    var k := FirstSlashBefore(x, n - |lit|);
    assert OpenAt(lit, tail, x, k);
    m := |lit| + k;
    OpenedAt(lit, tail, x, k);
    assert s[..m] == lit + x[..k];
  }

  lemma OpenedAt(lit: string, tail: seq<Atom>, x: string, k: nat)
    requires k <= |x| && Matches(tail, x[..k])
    ensures Matches(Literal(lit) + tail, lit + x[..k])
  {
    LiteralThen(lit, tail, lit + x[..k]);
    assert (lit + x[..k])[|lit|..] == x[..k];
  }

  /** When each of them opens what it names, they reach all they name. */
  lemma OpenRulesReach(rules: seq<Rule>)
    requires forall r :: r in rules ==> Opens(r)
    ensures ReachesAll(rules)
  {
    forall rel: string, n: nat | Clean(rel) && AncestorEnd(rel, n) && Covered(Anchored(rules), rel, false)
      ensures Reaches(rules, rel[..n])
    {
      OpenRulesReachOne(rules, rel, n);
    }
  }

  lemma OpenRulesReachOne(rules: seq<Rule>, rel: string, n: nat)
    requires forall r :: r in rules ==> Opens(r)
    requires Clean(rel) && AncestorEnd(rel, n) && Covered(Anchored(rules), rel, false)
    ensures Reaches(rules, rel[..n])
  {
    var c, r := CoveringRule(rules, rel);
    var dir := rel[..n];
    if n >= c {
      assert rel[..c] == dir[..c];
      ReachedAbove(rules, dir, c, r);
    } else {
      var lit, tail :| StartsWith(r, lit, tail) && OpenTail(lit, tail);
      if n < |lit| {
        LiteralThen(lit, tail, rel[..c]);
        assert dir + "/" == rel[..n + 1] == lit[..n + 1];
        NamedByStart(r, lit, dir);
        var i :| 0 <= i < |rules| && rules[i] == r;
      } else {
        CleanStart(rel, c);
        var m := OpenedBelow(rel[..c], n, lit, tail);
        assert rel[..c][..m] == dir[..m];
        ReachedAbove(rules, dir, m, r);
      }
    }
  }

  // ---- Which lines reach all they name ----

  /** Any number of characters will do, if there are as many as question marks. */
  predicate AnyName(q: string) {
    '*' in q && Asks(q) <= 1 && forall i :: 0 <= i < |q| ==> q[i] == '*' || q[i] == '?'
  }

  function Asks(q: string): nat {
    if q == "" then 0 else (if q[0] == '?' then 1 else 0) + Asks(q[1..])
  }

  /** Star pairs, then a segment that any name is read by. */
  predicate OpenSegments(qs: seq<string>) {
    && qs != [] && AnyName(qs[|qs| - 1])
    && forall i :: 0 <= i < |qs| - 1 ==> qs[i] == "**"
  }

  predicate AtSegment(lit: string) { lit == "" || lit[|lit| - 1] == '/' }

  /** Wildcards stand in the last segment only, or are star pairs before a segment
      of wildcards that any name is read by. */
  predicate OpenPattern(p: string) {
    var n := FirstSpecial(p);
    NoSlash(p[n..]) || (AtSegment(p[..n]) && OpenSegments(Split(p[n..])))
  }

  /** A line that names a path with a literal start does so in an open way. */
  predicate OpenText(p: string, lead: bool) {
    lead || '/' in p ==> FirstSpecial(p) == 0 || OpenPattern(p)
  }

  /** The expression of a pattern's rest, from its first wildcard on. */
  function TailAtoms(lit: string, g: string): seq<Atom> {
    if AtSegment(lit) then PathAtoms(Split(g)) else MidAtoms(Split(g))
  }

  lemma CompilePlainly(c: char, g: string, atStart: bool)
    requires !Special(c)
    ensures Compile([c] + g, atStart) == [Lit(c)] + Compile(g, c == '/')
  {
    assert ([c] + g)[1..] == g && ([c] + g)[0] == c != '*';
    assert Special('*') && Special('?') && Special('\\');
  }

  lemma LiteralMore(c: char, lit: string)
    ensures Literal([c] + lit) == [Lit(c)] + Literal(lit)
  {}

  lemma {:induction false} CompileLiteralThen(lit: string, g: string, atStart: bool)
    requires forall i :: 0 <= i < |lit| ==> !Special(lit[i])
    ensures Compile(lit + g, atStart) == Literal(lit) + Compile(g, if lit == "" then atStart else AtSegment(lit))
  {
    if lit == "" {
      assert lit + g == g;
    } else {
      var c, rest := lit[0], lit[1..];
      assert lit == [c] + rest && lit + g == [c] + (rest + g);
      CompilePlainly(c, rest + g, atStart);
      CompileLiteralThen(rest, g, c == '/');
      LiteralMore(c, rest);
      AtSegmentMore(c, rest);
      ConcatAssociates([Lit(c)], Literal(rest), Compile(g, AtSegment(lit)));
    }
  }

  lemma AtSegmentMore(c: char, lit: string)
    ensures AtSegment([c] + lit) <==> if lit == "" then c == '/' else AtSegment(lit)
  {
    assert lit != "" ==> ([c] + lit)[|lit|] == lit[|lit| - 1];
  }

  lemma CompilePattern(p: string)
    requires Plain(p)
    ensures var n := FirstSpecial(p); Compile(p, true) == Literal(p[..n]) + TailAtoms(p[..n], p[n..])
  {
    var n := FirstSpecial(p);
    var lit, g := p[..n], p[n..];
    assert p == lit + g;
    CompileLiteralThen(lit, g, true);
    PlainRest(p, n);
    if AtSegment(lit) { CompileStart(g); } else { CompileMid(g); }
  }

  lemma SegAtomsSplit(q: string, x: string)
    requires NoSlash(q)
    ensures Matches(SegAtoms(q), x) <==> NoSlash(x) && SegMatches(q, x)
  {
    SegThen(q, [], x);
    assert SplitsAt(q, [], x);
    assert SegAtoms(q) + [] == SegAtoms(q) && x[..|x|] == x;
    if NoSlash(x) && SegMatches(q, x) { assert Fits(q, [], x, |x|); }
    if k: nat :| Fits(q, [], x, k) { assert k == |x|; }
  }

  lemma {:induction false} AnyNameReads(q: string, x: string)
    requires (forall i :: 0 <= i < |q| ==> q[i] == '*' || q[i] == '?') && Asks(q) <= |x|
    requires '*' in q || |q| == |x|
    ensures SegMatches(q, x)
    decreases |q|
  {
    if q != "" {
      assert q == [q[0]] + q[1..];
      if q[0] == '?' {
        AnyNameReads(q[1..], x[1..]);
      } else if '*' in q[1..] {
        assert x[0..] == x;
        AnyNameReads(q[1..], x[0..]);
      } else {
        AllAsks(q[1..]);
        AnyNameReads(q[1..], x[|x| - |q[1..]|..]);
      }
    }
  }

  lemma {:induction false} AllAsks(q: string)
    requires forall i :: 0 <= i < |q| ==> q[i] == '?'
    ensures Asks(q) == |q|
  {
    if q != "" { AllAsks(q[1..]); }
  }

  lemma {:induction false} StarPairsRead(qs: seq<string>, x: string)
    requires OpenSegments(qs) && qs[|qs| - 1] == "**" && Matches(PathAtoms(qs), x)
    ensures '\n' !in x
  {
    if |qs| == 1 {
      assert qs == ["**"];
      var k :| 0 <= k <= |x| && '\n' !in x[..k] && Matches([Rest][1..], x[k..]);
      assert x[..k] == x;
    } else {
      var re := PathAtoms(qs);
      assert re[1..] == PathAtoms(qs[1..]);
      if k :| 0 <= k < |x| && x[k] == '/' && '\n' !in x[..k] && Matches(re[1..], x[k + 1..]) {
        StarPairsRead(qs[1..], x[k + 1..]);
        assert x == x[..k] + ([x[k]] + x[k + 1..]);
      } else {
        StarPairsRead(qs[1..], x);
      }
    }
  }

  /** Open segments match any name; a newline only when the last is not a star pair. */
  lemma {:induction false} OpenSegmentsMatch(qs: seq<string>, x: string)
    requires OpenSegments(qs) && x != "" && NoSlash(x) && (qs[|qs| - 1] == "**" ==> '\n' !in x)
    ensures Matches(PathAtoms(qs), x)
  {
    if |qs| == 1 {
      assert qs == [qs[0]];
      if qs[0] == "**" {
        assert x[..|x|] == x && x[|x|..] == "" && Matches([Rest][1..], x[|x|..]);
      } else {
        AnyNameReads(qs[0], x);
        SegAtomsSplit(qs[0], x);
        assert SegAtoms(qs[0]) + [] == SegAtoms(qs[0]);
      }
    } else {
      OpenSegmentsMatch(qs[1..], x);
      assert PathAtoms(qs)[1..] == PathAtoms(qs[1..]);
    }
  }

  lemma OpenSegmentsTail(lit: string, qs: seq<string>)
    requires AtSegment(lit) && OpenSegments(qs)
    ensures OpenTail(lit, PathAtoms(qs))
  {
    forall x: string, m: nat | Clean(lit + x) && FirstSlash(x, m) && Matches(PathAtoms(qs), x)
      ensures Matches(PathAtoms(qs), x[..m])
    {
      assert (lit + x)[|lit| + m] == '/' && (lit != "" ==> (lit + x)[|lit| - 1] == '/');
      if qs[|qs| - 1] == "**" { StarPairsRead(qs, x); }
      OpenSegmentsMatch(qs, x[..m]);
    }
  }

  lemma LastSegmentTail(lit: string, q: string)
    requires NoSlash(q)
    ensures OpenTail(lit, SegAtoms(q))
  {
    forall x: string, m: nat | FirstSlash(x, m) ensures !Matches(SegAtoms(q), x) {
      SegAtomsSplit(q, x);
      assert x[m] in x;
    }
  }

  lemma TailOpens(lit: string, g: string)
    requires NoSlash(g) || (AtSegment(lit) && OpenSegments(Split(g)))
    ensures OpenTail(lit, TailAtoms(lit, g))
  {
    if AtSegment(lit) && OpenSegments(Split(g)) {
      OpenSegmentsTail(lit, Split(g));
    } else {
      OneSegment(g);
      LastAtoms(g);
      LastSegmentTail(lit, g);
    }
  }

  lemma LastAtoms(g: string)
    ensures MidAtoms([g]) == SegAtoms(g) && (g != "**" ==> PathAtoms([g]) == SegAtoms(g))
  {
    assert SegAtoms(g) + [] == SegAtoms(g);
  }

  /** The rule of a line that names a path. */
  lemma NamingLine(p: string, lead: bool, dir: bool)
    requires Bare(p) && Ascii(p) && (lead || '/' in p)
    ensures var r, n := RuleFor("", Body(p, lead), false, dir), FirstSpecial(p);
            StartsWith(r, p[..n], TailAtoms(p[..n], p[n..])) && r.prefix == if n < |p| then p[..n] else p + "/"
  {
    BodyRule("", p, false, lead, dir);
    CompilePattern(p);
    assert p <= p + "/";
  }

  /** Such a line gives a rule that opens what it names. */
  lemma OpenLine(p: string, lead: bool, dir: bool)
    requires Bare(p) && Ascii(p) && OpenText(p, lead)
    ensures Opens(RuleFor("", Body(p, lead), false, dir))
  {
    if lead || '/' in p {
      NamingLine(p, lead, dir);
      if FirstSpecial(p) > 0 { TailOpens(p[..FirstSpecial(p)], p[FirstSpecial(p)..]); }
    } else {
      BodyRule("", p, false, lead, dir);
    }
  }

  // ---- and which do not ----

  lemma {:induction false} SlashNeeded(re: seq<Atom>, s: string)
    requires Lit('/') in re && Matches(re, s)
    ensures '/' in s
  {
    assert re == [re[0]] + re[1..];
    if re[0] != Lit('/') {
      var k :| 0 <= k <= |s| && Matches(re[1..], s[k..]);
      SlashNeeded(re[1..], s[k..]);
    }
  }

  lemma {:induction false} CharNeeded(q: string, c: char, s: string)
    requires c in q && c != '*' && c != '?' && SegMatches(q, s)
    ensures c in s
    decreases |q|
  {
    assert q == [q[0]] + q[1..];
    if q[0] != c {
      var k :| 0 <= k <= |s| && SegMatches(q[1..], s[k..]);
      CharNeeded(q[1..], c, s[k..]);
    }
  }

  lemma {:induction false} AsksNeeded(q: string, s: string)
    requires SegMatches(q, s)
    ensures |s| >= Asks(q) && ('*' !in q ==> |s| == |q|)
    decreases |q|
  {
    if q != "" {
      assert q == [q[0]] + q[1..];
      if q[0] == '*' {
        var k :| 0 <= k <= |s| && SegMatches(q[1..], s[k..]);
        AsksNeeded(q[1..], s[k..]);
      } else {
        AsksNeeded(q[1..], s[1..]);
      }
    }
  }

  predicate IsName(x: string) { x != "" && NoSlash(x) && '\n' !in x }

  /** Of all segments, only those misread no name. */
  lemma MissedName(q: string) returns (x: string)
    requires q != "" && !AnyName(q)
    ensures IsName(x) && !SegMatches(q, x)
  {
    if i :| 0 <= i < |q| && q[i] != '*' && q[i] != '?' {
      x := if q[i] == 'x' then "y" else "x";
      if SegMatches(q, x) { CharNeeded(q, q[i], x); }
    } else {
      x := if Asks(q) > 1 then "x" else "xx";
      if SegMatches(q, x) { AsksNeeded(q, x); }
      if '*' !in q { AllAsks(q); }
    }
  }

  lemma {:induction false} MissedBySegments(qs: seq<string>) returns (x: string)
    requires qs != [] && (forall i :: 0 <= i < |qs| ==> qs[i] != "" && NoSlash(qs[i])) && !OpenSegments(qs)
    ensures IsName(x) && !Matches(PathAtoms(qs), x)
  {
    if |qs| == 1 {
      assert qs == [qs[0]] && Asks("**") == 0;
      x := MissedName(qs[0]);
      SegAtomsSplit(qs[0], x);
      LastAtoms(qs[0]);
    } else if qs[0] == "**" {
      x := MissedBySegments(qs[1..]);
      assert PathAtoms(qs)[1..] == PathAtoms(qs[1..]);
    } else {
      x := "x";
      assert PathAtoms(qs)[|SegAtoms(qs[0])|] == Lit('/');
      if Matches(PathAtoms(qs), x) { SlashNeeded(PathAtoms(qs), x); }
    }
  }

  /** The rest of a pattern does not match x, though it does match a path in it. */
  predicate Closes(tail: seq<Atom>, x: string, y: string) {
    x != "" && NoSlash(x) && Clean(y) && !Matches(tail, x) && Matches(tail, x + "/" + y)
  }

  lemma {:induction false} JoinClean(ps: seq<string>)
    requires ps != [] && forall i :: 0 <= i < |ps| ==> ps[i] != "" && NoSlash(ps[i])
    ensures Clean(Join(ps))
  {
    if |ps| == 1 {
      NameClean(ps[0]);
    } else {
      JoinClean(ps[1..]);
      NameClean(ps[0]);
      CleanBoth(ps[0], Join(ps[1..]));
    }
  }

  lemma NameClean(x: string)
    requires x != "" && NoSlash(x)
    ensures Clean(x)
  {
    assert x[|x| - 1] in x;
  }

  lemma CleanBoth(a: string, b: string)
    requires Clean(a) && Clean(b)
    ensures Clean(a + "/" + b)
  {
    var s := a + "/" + b;
    forall i | 0 <= i < |s| && s[i] == '/' ensures i > 0 && s[i - 1] != '/' {
      if i > |a| { assert s[i] == b[i - |a| - 1]; }
    }
  }

  lemma {:induction false} CleanSplit(g: string)
    requires Clean(g)
    ensures forall i :: 0 <= i < |Split(g)| ==> Split(g)[i] != ""
    decreases |g|
  {
    var h := g[1..];
    if h != "" {
      if h[0] == '/' {
        forall i | 0 <= i < |h[1..]| && h[1..][i] == '/' ensures i > 0 && h[1..][i - 1] != '/' {
          assert g[i + 2] == '/';
        }
        CleanSplit(h[1..]);
        assert Split(h)[1..] == Split(h[1..]);
      } else {
        forall i | 0 <= i < |h| && h[i] == '/' ensures i > 0 && h[i - 1] != '/' { assert g[i + 1] == '/'; }
        CleanSplit(h);
      }
    }
  }

  /** Segments after the first wildcard's, and a name in its place. */
  lemma ClosedTail(lit: string, g: string) returns (x: string, y: string)
    requires Clean(g) && '\n' !in g && !NoSlash(g) && !(AtSegment(lit) && OpenSegments(Split(g)))
    ensures Closes(TailAtoms(lit, g), x, y)
  {
    var qs := Split(g);
    JoinSplit(g);
    CleanSplit(g);
    forall i | 0 <= i < |qs| ensures '\n' !in qs[i] { SplitIn(g, i); }
    var rest := qs[1..];
    SampleReads(rest);
    PathMeaning(rest, Sample(rest));
    JoinClean(Sample(rest));
    y := Join(Sample(rest));
    if AtSegment(lit) && qs[0] == "**" {
      x := MissedBySegments(rest);
      StarPairCloses(qs, x, y);
    } else {
      x := SampleSegment(qs[0]);
      SampleSegmentMatches(qs[0]);
      SegmentCloses(qs, x, y);
    }
  }

  lemma StarPairCloses(qs: seq<string>, x: string, y: string)
    requires |qs| > 1 && qs[0] == "**" && IsName(x) && !Matches(PathAtoms(qs[1..]), x)
    requires Clean(y) && Matches(PathAtoms(qs[1..]), y)
    ensures Closes(PathAtoms(qs), x, y)
  {
    var re, s := PathAtoms(qs), x + "/" + y;
    assert re[1..] == PathAtoms(qs[1..]);
    assert s[|x|] == '/' && s[..|x|] == x && s[|x| + 1..] == y;
  }

  lemma SegmentCloses(qs: seq<string>, x: string, y: string)
    requires |qs| > 1 && NoSlash(qs[0]) && x != "" && NoSlash(x) && SegMatches(qs[0], x)
    requires Clean(y) && Matches(PathAtoms(qs[1..]), y)
    ensures Closes(MidAtoms(qs), x, y)
  {
    var re, s, tail := MidAtoms(qs), x + "/" + y, [Lit('/')] + PathAtoms(qs[1..]);
    assert re[|SegAtoms(qs[0])|] == Lit('/');
    if Matches(re, x) { SlashNeeded(re, x); }
    assert s[..|x|] == x && s[|x|..] == "/" + y && ("/" + y)[1..] == y && tail[1..] == PathAtoms(qs[1..]);
    SegThen(qs[0], tail, s);
    assert SplitsAt(qs[0], tail, s) && Fits(qs[0], tail, s, |x|);
  }

  lemma OneVerdict(r: Rule, rel: string, isDir: bool)
    requires !r.negate
    ensures Verdict([r], rel, isDir) == Applies(r, rel, isDir)
    ensures Anchored([r]) == if r.prefix != "" then [r] else []
  {
    assert [r][..0] == [];
  }

  lemma OneNotCovered(r: Rule, dir: string)
    requires !r.negate && !Applies(r, dir, true) && forall i: nat :: AncestorEnd(dir, i) ==> !Applies(r, dir[..i], true)
    ensures !Covered([r], dir, true)
  {
    forall i: nat | AncestorEnd(dir, i) ensures !Verdict([r], dir[..i], true) { OneVerdict(r, dir[..i], true); }
    OneVerdict(r, dir, true);
  }

  lemma {:induction false} BytesLonger(s: string)
    ensures |Bytes(s)| >= |s|
  {
    if s != "" { BytesLonger(s[1..]); }
  }

  lemma ShortNamesNot(r: Rule, dir: string)
    requires |r.prefix| <= |dir|
    ensures !Names(r, dir)
  {
    BytesLonger(dir);
  }

  lemma SlashInStart(lit: string, x: string, i: nat)
    ensures NoSlash(x) && AncestorEnd(lit + x, i) ==> i < |lit|
  {
    if |lit| <= i < |lit + x| { assert (lit + x)[i] == x[i - |lit|] && x[i - |lit|] in x; }
  }

  lemma CoveredInside(r: Rule, dir: string, name: string)
    requires !r.negate && r.prefix != "" && Applies(r, dir, true)
    ensures Covered(Anchored([r]), dir + "/" + name, false)
  {
    var rel := dir + "/" + name;
    OneVerdict(r, dir, true);
    assert AncestorEnd(rel, |dir|) && rel[..|dir|] == dir;
  }

  /** Such a rule covers a path in a directory that it does not reach. */
  lemma ClosedRule(r: Rule, lit: string, tail: seq<Atom>, x: string, y: string) returns (rel: string, n: nat)
    requires !r.negate && r.base == "" && r.prefix == lit != "" && StartsWith(r, lit, tail)
    requires Closes(tail, x, y) && Clean(lit + x)
    ensures !ReachedOnTheWay([r], rel, n)
  {
    var dir := lit + x;
    var file := dir + "/" + y;
    rel, n := file + "/" + "k", |dir|;
    CleanBoth(dir, y);
    CleanBoth(file, "k");
    FileMatches(lit, tail, x, y);
    CoveredInside(r, file, "k");
    ClosedNotReached(r, lit, tail, x);
    assert rel[..n] == dir && rel[n] == '/';
  }

  lemma FileMatches(lit: string, tail: seq<Atom>, x: string, y: string)
    requires Matches(tail, x + "/" + y)
    ensures Matches(Literal(lit) + tail, lit + x + "/" + y)
  {
    var file := lit + x + "/" + y;
    LiteralThen(lit, tail, file);
    assert file == lit + (x + "/" + y) && file[|lit|..] == x + "/" + y;
  }

  lemma ClosedNotReached(r: Rule, lit: string, tail: seq<Atom>, x: string)
    requires !r.negate && r.base == "" && r.prefix == lit && StartsWith(r, lit, tail)
    requires NoSlash(x) && !Matches(tail, x)
    ensures !Reaches([r], lit + x)
  {
    var dir := lit + x;
    LiteralThen(lit, tail, dir);
    assert dir[|lit|..] == x;
    forall i: nat | AncestorEnd(dir, i) ensures !Applies(r, dir[..i], true) {
      SlashInStart(lit, x, i);
      LiteralThen(lit, tail, dir[..i]);
    }
    OneNotCovered(r, dir);
    ShortNamesNot(r, dir);
  }

  lemma CleanParts(p: string, n: nat, x: string)
    requires Clean(p) && n < |p| && p[n] != '/' && x != "" && NoSlash(x)
    ensures Clean(p[n..]) && Clean(p[..n] + x)
  {
    var g, dir := p[n..], p[..n] + x;
    forall i | 0 <= i < |g| && g[i] == '/' ensures i > 0 && g[i - 1] != '/' { assert p[n + i] == '/'; }
    assert dir[|dir| - 1] in x;
    forall i | 0 <= i < |dir| && dir[i] == '/' ensures i > 0 && dir[i - 1] != '/' {
      SlashInStart(p[..n], x, i);
      assert p[i] == '/';
    }
  }

  lemma ClosedLine(p: string, lead: bool, dir: bool) returns (rel: string, n: nat)
    requires Bare(p) && Ascii(p) && Clean(p) && '\n' !in p && !OpenText(p, lead)
    ensures !ReachedOnTheWay([RuleFor("", Body(p, lead), false, dir)], rel, n)
  {
    var k := FirstSpecial(p);
    var lit, g := p[..k], p[k..];
    CleanParts(p, k, "x");
    var x, y := ClosedTail(lit, g);
    CleanParts(p, k, x);
    NamingLine(p, lead, dir);
    rel, n := ClosedRule(RuleFor("", Body(p, lead), false, dir), lit, TailAtoms(lit, g), x, y);
  }

  /** A line by itself reaches all it names exactly when its text is open: it names
      no path, begins with a wildcard, has wildcards in its last segment only, or
      has star pairs before a segment that any name is read by. */
  lemma LineReachesIff(p: string, lead: bool, dir: bool)
    requires Bare(p) && Ascii(p) && Clean(p) && '\n' !in p
    ensures var line := Parse("", LineOf(p, false, lead, dir));
            line.Made? && (ReachesAll([line.rule]) <==> OpenText(p, lead))
  {
    var r := RuleFor("", Body(p, lead), false, dir);
    LineParses("", p, false, lead, dir);
    if OpenText(p, lead) {
      OpenLine(p, lead, dir);
      OpenRulesReach([r]);
    } else {
      var rel, n := ClosedLine(p, lead, dir);
    }
  }

  // ---- Rules that are paths ----

  predicate IsLiteral(r: Rule, lit: string) {
    Ascii(lit) && r.re == Literal(lit) && r.prefix == lit + "/"
  }

  /** A pattern without wildcards that is anchored gives a rule that is the path it
      names, and opens it. */
  lemma LiteralLine(p: string, lead: bool, dir: bool)
    requires Bare(p) && Ascii(p) && (lead || '/' in p) && forall i :: 0 <= i < |p| ==> !Special(p[i])
    ensures var line := Parse("", LineOf(p, false, lead, dir));
            line.Made? && IsLiteral(line.rule, p) && Opens(line.rule)
  {
    LineParses("", p, false, lead, dir);
    LiteralRule(p, lead, dir);
    OpenLine(p, lead, dir);
  }

  lemma LiteralRule(p: string, lead: bool, dir: bool)
    requires Bare(p) && Ascii(p) && (lead || '/' in p) && FirstSpecial(p) == |p|
    ensures IsLiteral(RuleFor("", Body(p, lead), false, dir), p)
  {
    NamingLine(p, lead, dir);
    assert p[..|p|] == p && p[|p|..] == "";
    LiteralAlone(p);
  }

  lemma LiteralAlone(p: string)
    ensures Literal(p) + TailAtoms(p, "") == Literal(p)
  {
    assert Split("") == [""];
    LastAtoms("");
  }

  lemma {:induction false} LiteralMatches(lit: string, s: string)
    ensures Matches(Literal(lit), s) <==> s == lit
  {
    LiteralThen(lit, [], s);
    assert Literal(lit) + [] == Literal(lit);
  }
}
