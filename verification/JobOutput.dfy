/** A background job's output stream: bgjob.go's Write, filter, reportLocked and
    openLogLocked, bgkill.go's lastLine, and the draining of jobs.go's jobReport.

    A monitor's regular expression is any predicate on a line. */
module JobOutput {
  import opened Strings
  import opened Wrappers

  const EARLY_MAX := 0x10_0000

  // ---- Lines ----

  /** strings.Split(s, "\n"). */
  function Pieces(s: string): (ps: seq<string>)
    ensures ps != []
  {
    if s == "" then [""] else Before(s[0], Pieces(s[1..]))
  }

  /** One more character in front. */
  function Before(c: char, ps: seq<string>): (r: seq<string>)
    requires ps != []
    ensures r != []
  {
    if c == '\n' then [""] + ps else [[c] + ps[0]] + ps[1..]
  }

  /** The complete lines of s, each with its newline. */
  function Lines(s: string): seq<string> {
    Ended(Front(Pieces(s)))
  }

  /** What follows the last newline of s. */
  function Tail(s: string): string {
    Last(Pieces(s))
  }

  function Front(ps: seq<string>): seq<string>
    requires ps != []
  {
    ps[..|ps| - 1]
  }

  function Last(ps: seq<string>): string
    requires ps != []
  {
    ps[|ps| - 1]
  }

  function Ended(ps: seq<string>): seq<string> {
    seq(|ps|, i requires 0 <= i < |ps| => ps[i] + "\n")
  }

  function Joined(ls: seq<string>): string {
    if ls == [] then "" else ls[0] + Joined(ls[1..])
  }

  lemma BeforeConcat(c: char, ps: seq<string>, x: string, qs: seq<string>)
    requires ps != []
    ensures var r := Before(c, ps);
            Before(c, Front(ps) + [Last(ps) + x] + qs) == Front(r) + [Last(r) + x] + qs
  {
    if c == '\n' {
      FrontConcat([""], ps);
    } else if |ps| == 1 {
      BeforeOne(c, ps[0], x, qs);
    } else {
      BeforeSeveral(c, Front(ps), Last(ps), x, qs);
      assert Front(ps) + [Last(ps)] == ps;
    }
  }

  lemma BeforeSeveral(c: char, f: seq<string>, l: string, x: string, qs: seq<string>)
    requires f != [] && c != '\n'
    ensures var r := Before(c, f + [l]);
            Before(c, f + [l + x] + qs) == Front(r) + [Last(r) + x] + qs
  {
    BeforeFront(c, f, l);
    BeforeMany(c, f, [l + x] + qs);
    ConcatAssociates(f, [l + x], qs);
    ConcatAssociates(Before(c, f), [l + x], qs);
  }

  lemma BeforeOne(c: char, p: string, x: string, qs: seq<string>)
    requires c != '\n'
    ensures Before(c, [p + x] + qs) == [[c] + p + x] + qs
  {
    ConcatAssociates([c], p, x);
  }

  lemma BeforeFront(c: char, f: seq<string>, l: string)
    requires f != [] && c != '\n'
    ensures Front(Before(c, f + [l])) == Before(c, f) && Last(Before(c, f + [l])) == l
  {
    BeforeMany(c, f, [l]);
  }

  lemma BeforeMany(c: char, f: seq<string>, rest: seq<string>)
    requires f != [] && c != '\n'
    ensures Before(c, f + rest) == Before(c, f) + rest
  {
    assert (f + rest)[1..] == f[1..] + rest;
  }

  /** What text adds after a: the line a left unfinished is finished first. */
  lemma {:induction false} PiecesConcat(a: string, b: string)
    ensures Pieces(a + b) == Front(Pieces(a)) + [Tail(a) + Pieces(b)[0]] + Pieces(b)[1..]
  {
    if a == "" {
      assert a + b == b && "" + Pieces(b)[0] == Pieces(b)[0];
      assert Front(Pieces(a)) == [];
    } else {
      assert (a + b)[1..] == a[1..] + b;
      PiecesConcat(a[1..], b);
      BeforeConcat(a[0], Pieces(a[1..]), Pieces(b)[0], Pieces(b)[1..]);
    }
  }

  lemma {:induction false} OnePiece(t: string)
    requires '\n' !in t
    ensures Pieces(t) == [t]
  {
    if t != "" {
      OnePiece(t[1..]);
      assert t[0] in t && [t[0]] + t[1..] == t;
    }
  }

  lemma {:induction false} TailHasNoBreak(s: string)
    ensures '\n' !in Tail(s)
  {
    if s != "" { TailHasNoBreak(s[1..]); }
  }

  lemma EndedConcat(ps: seq<string>, qs: seq<string>)
    ensures Ended(ps + qs) == Ended(ps) + Ended(qs)
  {}

  lemma FrontConcat(f: seq<string>, ps: seq<string>)
    requires ps != []
    ensures Front(f + ps) == f + Front(ps) && Last(f + ps) == Last(ps)
  {}

  /** The lines of text that comes in two parts. */
  lemma LinesConcat(a: string, b: string)
    ensures Lines(a + b) == Lines(a) + Lines(Tail(a) + b)
    ensures Tail(a + b) == Tail(Tail(a) + b)
  {
    TailHasNoBreak(a);
    OnePiece(Tail(a));
    PiecesConcat(a, b);
    PiecesConcat(Tail(a), b);
    var ps := Pieces(Tail(a) + b);
    assert Pieces(a + b) == Front(Pieces(a)) + ps;
    FrontConcat(Front(Pieces(a)), ps);
    EndedConcat(Front(Pieces(a)), Front(ps));
  }

  lemma {:induction false} JoinedLines(s: string)
    ensures Joined(Lines(s)) + Tail(s) == s
  {
    if s != "" {
      JoinedLines(s[1..]);
      BeforeLines(s[0], Pieces(s[1..]));
      assert s == [s[0]] + s[1..];
    }
  }

  function JoinPieces(ps: seq<string>): string
    requires ps != []
  {
    Joined(Ended(Front(ps))) + Last(ps)
  }

  lemma BeforeLines(c: char, ps: seq<string>)
    requires ps != []
    ensures JoinPieces(Before(c, ps)) == [c] + JoinPieces(ps)
  {
    if c == '\n' {
      BreakLines(ps);
    } else if |ps| > 1 {
      EndedMore(c, Front(ps));
      BeforeFront(c, Front(ps), Last(ps));
      assert ps == Front(ps) + [Last(ps)];
      ConcatAssociates([c], Joined(Ended(Front(ps))), Last(ps));
    } else {
      assert Front(ps) == [] && Front(Before(c, ps)) == [];
    }
  }

  lemma BreakLines(ps: seq<string>)
    requires ps != []
    ensures JoinPieces([""] + ps) == "\n" + JoinPieces(ps)
  {
    var f := Ended(Front(ps));
    FrontConcat([""], ps);
    assert "" + "\n" == "\n";
    assert Ended([""] + Front(ps)) == ["\n"] + f;
    assert (["\n"] + f)[1..] == f;
    ConcatAssociates("\n", Joined(f), Last(ps));
  }

  lemma EndedMore(c: char, f: seq<string>)
    requires f != [] && c != '\n'
    ensures Joined(Ended(Before(c, f))) == [c] + Joined(Ended(f))
  {
    var g := Ended(f);
    assert ([c] + f[0]) + "\n" == [c] + (f[0] + "\n");
    assert Ended(Before(c, f)) == [[c] + g[0]] + g[1..];
    assert ([c] + g[0]) + Joined(g[1..]) == [c] + Joined(g);
  }

  /** Whole lines, then text without a newline. */
  lemma CutAtLast(whole: string, rest: string)
    requires '\n' !in rest && (whole == "" || whole[|whole| - 1] == '\n')
    ensures Lines(whole + rest) == Lines(whole) && Tail(whole + rest) == rest && Tail(whole) == ""
  {
    TailOfEnded(whole);
    LinesConcat(whole, rest);
    assert "" + rest == rest;
    OnePiece(rest);
    assert Lines(rest) == [] && Lines(whole) + [] == Lines(whole);
  }

  lemma TailOfEnded(c: string)
    requires c == "" || c[|c| - 1] == '\n'
    ensures Tail(c) == ""
  {
    if c != "" {
      assert c == c[..|c| - 1] + "\n";
      PiecesConcat(c[..|c| - 1], "\n");
      assert Pieces("\n") == ["", ""];
    }
  }

  // ---- What a monitor keeps, and the last line ----

  type Pattern = string -> bool

  /** The lines the monitor asked for; no pattern asks for every line. */
  function Kept(re: Option<Pattern>, ls: seq<string>): string {
    if ls == [] then ""
    else (if re.None? || re.value(ls[0]) then ls[0] else "") + Kept(re, ls[1..])
  }

  lemma {:induction false} KeptConcat(re: Option<Pattern>, a: seq<string>, b: seq<string>)
    ensures Kept(re, a + b) == Kept(re, a) + Kept(re, b)
  {
    if a == [] {
      assert a + b == b;
    } else {
      assert (a + b)[1..] == a[1..] + b;
      KeptConcat(re, a[1..], b);
    }
  }

  lemma {:induction false} KeptAll(ls: seq<string>)
    ensures Kept(None, ls) == Joined(ls)
  {
    if ls != [] { KeptAll(ls[1..]); }
  }

  /** The last line that is not blank, without the space around it. */
  function LastNonBlank(ls: seq<string>): string {
    if ls == [] then ""
    else if TrimSpace(Last(ls)) != "" then TrimSpace(Last(ls))
    else LastNonBlank(Front(ls))
  }

  function Newer(before: string, latest: string): string {
    if latest != "" then latest else before
  }

  lemma {:induction false} LastConcat(a: seq<string>, b: seq<string>)
    ensures LastNonBlank(a + b) == Newer(LastNonBlank(a), LastNonBlank(b))
  {
    if b == [] {
      assert a + b == a;
    } else {
      assert Front(a + b) == a + Front(b) && Last(a + b) == Last(b);
      LastConcat(a, Front(b));
    }
  }

  /** A break is white space by itself, and no part of other white space. */
  lemma NotInWideSpace(x: string, c: char, k: nat)
    requires c in "\r\n" && 1 < k <= |x| + 1
    ensures IsSpace((x + [c])[..k]) ==> k <= |x| && (x + [c])[..k] == x[..k]
  {
    if k == |x| + 1 { assert (x + [c])[..k][k - 1] == c; } else { assert (x + [c])[..k] == x[..k]; }
  }

  lemma BreakAtStart(x: string, c: char)
    requires c in "\r\n" && x != ""
    ensures SpaceAtStart(x + [c]) == SpaceAtStart(x)
  {
    assert (x + [c])[..1] == x[..1];
    NotInWideSpace(x, c, 2);
    if |x| >= 2 {
      assert (x + [c])[..2] == x[..2];
      NotInWideSpace(x, c, 3);
      assert |x| >= 3 ==> (x + [c])[..3] == x[..3];
    }
  }

  lemma BreakAtEnd(x: string, c: char)
    requires c in "\r\n"
    ensures SpaceAtEnd(x + [c]) == 1 && (x + [c])[..|x|] == x
    ensures SpaceAtStart(x + [c]) == if x == "" then 1 else SpaceAtStart(x)
  {
    assert (x + [c])[|x|..] == [c];
    if x == "" { assert x + [c] == [c] && [c][..1] == [c]; } else { BreakAtStart(x, c); }
  }

  lemma {:induction false} TrimSpaceEnd(x: string, c: char)
    requires c in "\r\n"
    ensures TrimSpace(x + [c]) == TrimSpace(x)
    decreases |x|
  {
    BreakAtEnd(x, c);
    var n := SpaceAtStart(x);
    if x == "" {
      assert (x + [c])[1..] == "";
    } else if n > 0 {
      assert (x + [c])[n..] == x[n..] + [c];
      TrimSpaceEnd(x[n..], c);
    }
  }

  lemma {:induction false} EndedBlank(ps: seq<string>)
    ensures LastNonBlank(Ended(ps)) == LastNonBlank(ps)
  {
    if ps != [] {
      TrimSpaceEnd(Last(ps), '\n');
      assert Front(Ended(ps)) == Ended(Front(ps));
      EndedBlank(Front(ps));
    }
  }

  /** Of whole lines, the last non-blank piece is the last non-blank line. */
  lemma LastOfLines(b: string)
    requires Tail(b) == ""
    ensures LastNonBlank(Pieces(b)) == LastNonBlank(Lines(b))
  {
    EndedBlank(Front(Pieces(b)));
  }

  /** strings.TrimRight(s, "\r\n"). */
  function TrimBreaks(s: string): string {
    if s == "" || LastChar(s) !in "\r\n" then s else TrimBreaks(s[..|s| - 1])
  }

  function LastChar(s: string): char
    requires s != ""
  {
    s[|s| - 1]
  }

  lemma {:induction false} TrimKeepsLast(s: string)
    ensures LastNonBlank(Pieces(TrimBreaks(s))) == LastNonBlank(Pieces(s))
  {
    if s != "" && LastChar(s) in "\r\n" {
      var a := s[..|s| - 1];
      TrimKeepsLast(a);
      assert s == a + [LastChar(s)];
      DropBreak(a, LastChar(s));
    }
  }

  lemma DropBreak(a: string, c: char)
    requires c in "\r\n"
    ensures LastNonBlank(Pieces(a + [c])) == LastNonBlank(Pieces(a))
  {
    if c == '\n' { DropNewline(a); } else { DropReturn(a); }
  }

  lemma DropNewline(a: string)
    ensures LastNonBlank(Pieces(a + ['\n'])) == LastNonBlank(Pieces(a))
  {
    PiecesConcat(a, ['\n']);
    assert Pieces(['\n']) == ["", ""];
    assert Tail(a) + "" == Tail(a);
    assert Pieces(a + ['\n']) == Pieces(a) + [""];
    LastConcat(Pieces(a), [""]);
    assert LastNonBlank([""]) == "";
  }

  lemma DropReturn(a: string)
    ensures LastNonBlank(Pieces(a + ['\r'])) == LastNonBlank(Pieces(a))
  {
    PiecesConcat(a, ['\r']);
    OnePiece(['\r']);
    assert Pieces(a + ['\r']) == Front(Pieces(a)) + [Tail(a) + ['\r']];
    TrimSpaceEnd(Tail(a), '\r');
    assert Front(Pieces(a + ['\r'])) == Front(Pieces(a));
  }

  // ---- The loops ----

  /** lastNewline. */
  method LastNewline(b: string) returns (i: int)
    ensures -1 <= i < |b| && (i >= 0 ==> b[i] == '\n')
    ensures forall k :: i < k < |b| ==> b[k] != '\n'
  {
    i := |b| - 1;
    while i >= 0
      invariant -1 <= i < |b| && forall k :: i < k < |b| ==> b[k] != '\n'
    {
      if b[i] == '\n' { return; }
      i := i - 1;
    }
  }

  /** b is cut after its last newline: whole lines, and the tail. */
  predicate CutInTwo(b: string, complete: string, rest: string) {
    && complete + rest == b && Tail(complete) == "" && rest == Tail(b)
    && Lines(complete) == Lines(b) && LastNonBlank(Pieces(complete)) == LastNonBlank(Lines(b))
    && (complete == "" ==> Lines(b) == [])
  }

  /** b is two texts, the first empty or ended by a newline and the second without. */
  predicate CutAfterLast(b: string, complete: string, rest: string) {
    && b == complete + rest && '\n' !in rest
    && (complete == "" || complete[|complete| - 1] == '\n')
  }

  lemma CutIs(b: string, n: nat)
    requires n <= |b| && (n > 0 ==> b[n - 1] == '\n') && forall k :: n <= k < |b| ==> b[k] != '\n'
    ensures CutAfterLast(b, b[..n], b[n..])
  {
    assert b[..n] + b[n..] == b;
    if n > 0 { assert b[..n][n - 1] == b[n - 1]; }
  }

  method Cut(b: string) returns (complete: string, rest: string)
    ensures CutAfterLast(b, complete, rest)
  {
    var i := LastNewline(b);
    CutIs(b, i + 1);
    complete, rest := b[..i + 1], b[i + 1..];
  }

  /** Write's cut into whole lines and the tail. */
  method CutLines(b: string) returns (complete: string, rest: string)
    ensures CutInTwo(b, complete, rest)
  {
    complete, rest := Cut(b);
    CutIsWhole(b, complete, rest);
  }

  lemma CutIsWhole(b: string, complete: string, rest: string)
    requires CutAfterLast(b, complete, rest)
    ensures CutInTwo(b, complete, rest)
  {
    CutAtLast(complete, rest);
    LastOfLines(complete);
  }

  /** lastLine. */
  method LastLine(b: string) returns (r: string)
    ensures r == LastNonBlank(Pieces(b))
  {
    TrimKeepsLast(b);
    var lines := Pieces(TrimBreaks(b));
    var i := |lines| - 1;
    assert lines[..i + 1] == lines;
    while i >= 0
      invariant -1 <= i < |lines|
      invariant LastNonBlank(lines[..i + 1]) == LastNonBlank(lines)
    {
      assert Last(lines[..i + 1]) == lines[i] && Front(lines[..i + 1]) == lines[..i];
      var l := TrimSpace(lines[i]);
      if l != "" { return l; }
      i := i - 1;
    }
    r := "";
  }

  /** filter, over strings.SplitAfter's lines. */
  method Filter(re: Option<Pattern>, b: string) returns (keep: string)
    ensures keep == Kept(re, Lines(b) + [Tail(b)])
    ensures Tail(b) == "" ==> keep == Kept(re, Lines(b))
  {
    KeptConcat(re, Lines(b), [Tail(b)]);
    KeptOne(re, Tail(b));
    if re.None? {
      KeptAll(Lines(b));
      JoinedLines(b);
      return b;
    }
    keep := FilterLines(re.value, Lines(b) + [Tail(b)]);
  }

  lemma KeptOne(re: Option<Pattern>, l: string)
    ensures Kept(re, [l]) == if re.None? || re.value(l) then l else ""
  {
    assert [l][1..] == [];
  }

  method FilterLines(re: Pattern, lines: seq<string>) returns (keep: string)
    ensures keep == Kept(Some(re), lines)
  {
    keep := "";
    var i := 0;
    while i < |lines|
      invariant 0 <= i <= |lines|
      invariant keep + Kept(Some(re), lines[i..]) == Kept(Some(re), lines)
    {
      assert lines[i..][1..] == lines[i + 1..];
      if lines[i] != "" && re(lines[i]) {
        keep := keep + lines[i];
      }
      i := i + 1;
    }
  }

  // ---- The stream, one critical section at a time ----

  datatype State = State(
    log: Option<string>,       // the open log's contents
    early: string, partial: string, pending: string, written: nat, last: string,
    bufferBytes: int, ignore: bool, promoted: bool, done: bool,
    total: string,             // history: all output so far
    drained: string,           // history: all that reports and readers took from pending
    file: string,              // history: the log file, once closed
    head: string,              // history: what the log began with
    from: Option<nat>,         // history: how much output there was when it opened
    ended: nat,                // history: and when the command finished
    note: string)              // history: the line finish adds to the log of a killed job

  const INIT := State(None, "", "", "", 0, "", 0, false, false, false, "", "", "", "", None, 0, "")

  datatype Event =
    | Write(p: string)
    | Promote(opens: bool)
    | Ask
    | Tune(bufferBytes: int, ignore: bool)
    | Finish(note: string)

  /** The job is promoted at most once, while it runs, and finishes once. */
  predicate Enabled(s: State, e: Event) {
    match e
    case Promote(_) => !s.promoted && !s.done
    case Finish(_) => !s.done
    case _ => true
  }

  predicate Due(s: State) {
    !s.ignore && s.pending != "" && s.bufferBytes > 0 && |s.pending| >= s.bufferBytes
  }

  function Drained(s: State): State {
    s.(drained := s.drained + s.pending, pending := "")
  }

  /** Write, before its report. */
  function Taken(re: Option<Pattern>, s: State, p: string): State {
    s.(log := if s.log.Some? then Some(s.log.value + p) else None,
       early := if s.log.None? && |s.early| < EARLY_MAX then s.early + p else s.early,
       written := s.written + |p|,
       partial := Tail(s.partial + p),
       last := Newer(s.last, LastNonBlank(Lines(s.partial + p))),
       pending := s.pending + Kept(re, Lines(s.partial + p)),
       total := s.total + p)
  }

  function Next(re: Option<Pattern>, s: State, e: Event): State {
    match e
    case Write(p) => var t := Taken(re, s, p); if Due(t) then Drained(t) else t
    case Promote(opens) =>
      if opens then s.(promoted := true, log := Some(s.early), early := "", head := s.early, from := Some(|s.total|))
      else s.(promoted := true)
    case Ask => Drained(s)
    case Tune(bytes, ignore) => s.(bufferBytes := bytes, ignore := ignore)
    case Finish(note) =>
      if s.log.Some?
      then s.(done := true, file := s.log.value + note, note := note, ended := |s.total|, log := None)
      else s.(done := true, ended := |s.total|)
  }

  ghost predicate IsRun(re: Option<Pattern>, s: State, events: seq<Event>)
    decreases |events|
  {
    events == [] || (Enabled(s, events[0]) && IsRun(re, Next(re, s, events[0]), events[1..]))
  }

  function Run(re: Option<Pattern>, s: State, events: seq<Event>): State
    decreases |events|
  {
    if events == [] then s else Run(re, Next(re, s, events[0]), events[1..])
  }

  function Text(e: Event): string { if e.Write? then e.p else "" }

  /** All that was written. */
  function Output(events: seq<Event>): string {
    if events == [] then "" else Text(events[0]) + Output(events[1..])
  }

  // ---- The reports ----

  predicate ReportsInv(re: Option<Pattern>, s: State) {
    && s.drained + s.pending == Kept(re, Lines(s.total))
    && s.partial == Tail(s.total)
    && s.last == LastNonBlank(Lines(s.total))
    && s.written == |s.total|
  }

  lemma KeptSoFar(re: Option<Pattern>, a: string, b: string)
    ensures Kept(re, Lines(a + b)) == Kept(re, Lines(a)) + Kept(re, Lines(Tail(a) + b))
    ensures LastNonBlank(Lines(a + b)) == Newer(LastNonBlank(Lines(a)), LastNonBlank(Lines(Tail(a) + b)))
  {
    LinesConcat(a, b);
    KeptConcat(re, Lines(a), Lines(Tail(a) + b));
    LastConcat(Lines(a), Lines(Tail(a) + b));
  }

  lemma TakenReports(re: Option<Pattern>, s: State, p: string)
    requires ReportsInv(re, s)
    ensures ReportsInv(re, Taken(re, s, p))
  {
    KeptSoFar(re, s.total, p);
    LinesConcat(s.total, p);
    ConcatAssociates(s.drained, s.pending, Kept(re, Lines(s.partial + p)));
  }

  lemma DrainedReports(re: Option<Pattern>, s: State)
    requires ReportsInv(re, s)
    ensures ReportsInv(re, Drained(s))
  {
    assert (s.drained + s.pending) + "" == s.drained + s.pending;
  }

  lemma WriteReports(re: Option<Pattern>, s: State, p: string)
    requires ReportsInv(re, s)
    ensures ReportsInv(re, Next(re, s, Write(p)))
  {
    TakenReports(re, s, p);
    DrainedReports(re, Taken(re, s, p));
  }

  lemma NextReports(re: Option<Pattern>, s: State, e: Event)
    requires ReportsInv(re, s)
    ensures ReportsInv(re, Next(re, s, e))
  {
    match e
    case Write(p) => WriteReports(re, s, p);
    case Ask => DrainedReports(re, s);
    case _ =>
  }

  lemma {:induction false} RunReports(re: Option<Pattern>, s: State, events: seq<Event>)
    requires ReportsInv(re, s)
    ensures ReportsInv(re, Run(re, s, events))
    decreases |events|
  {
    if events != [] {
      NextReports(re, s, events[0]);
      RunReports(re, Next(re, s, events[0]), events[1..]);
    }
  }

  lemma NextTotal(re: Option<Pattern>, s: State, e: Event)
    ensures Next(re, s, e).total == s.total + Text(e)
  {
    assert s.total + "" == s.total;
  }

  lemma {:induction false} TotalIsOutput(re: Option<Pattern>, s: State, events: seq<Event>)
    ensures Run(re, s, events).total == s.total + Output(events)
    decreases |events|
  {
    if events != [] {
      NextTotal(re, s, events[0]);
      TotalIsOutput(re, Next(re, s, events[0]), events[1..]);
      ConcatAssociates(s.total, Text(events[0]), Output(events[1..]));
    }
  }

  /** Whatever was drained and whatever is pending are the monitor's lines of the
      whole output, each once and in order; partial is its unterminated tail. */
  lemma EveryLineOnce(re: Option<Pattern>, events: seq<Event>)
    ensures var s := Run(re, INIT, events);
            var out := Output(events);
            && s.drained + s.pending == Kept(re, Lines(out)) && s.partial == Tail(out)
            && s.last == LastNonBlank(Lines(out)) && s.written == |out|
  {
    RunReports(re, INIT, events);
    TotalIsOutput(re, INIT, events);
    assert INIT.total + Output(events) == Output(events);
  }

  /** However the output is split across writes, and whenever it is read, two
      runs that wrote the same have reported and hold the same. */
  lemma ChunksDoNotMatter(re: Option<Pattern>, es: seq<Event>, fs: seq<Event>)
    requires Output(es) == Output(fs)
    ensures var s, t := Run(re, INIT, es), Run(re, INIT, fs);
            && s.drained + s.pending == t.drained + t.pending
            && s.partial == t.partial && s.last == t.last && s.written == t.written
  {
    EveryLineOnce(re, es);
    EveryLineOnce(re, fs);
  }

  predicate OnTime(s: State) {
    !s.ignore && s.bufferBytes > 0 ==> |s.pending| < s.bufferBytes
  }

  lemma {:induction false} StaysOnTime(re: Option<Pattern>, s: State, events: seq<Event>)
    requires OnTime(s) && forall i :: 0 <= i < |events| ==> !events[i].Tune?
    ensures OnTime(Run(re, s, events))
    decreases |events|
  {
    if events != [] { StaysOnTime(re, Next(re, s, events[0]), events[1..]); }
  }

  lemma {:induction false} RunConcat(re: Option<Pattern>, s: State, a: seq<Event>, b: seq<Event>)
    ensures Run(re, s, a + b) == Run(re, Run(re, s, a), b)
    decreases |a|
  {
    if a == [] {
      assert a + b == b;
    } else {
      assert (a + b)[1..] == a[1..] + b;
      RunConcat(re, Next(re, s, a[0]), a[1..], b);
    }
  }

  /** No report is late: in every run, from a write on and until the monitor is tuned
      again, an unmuted monitor with a threshold has less than it pending. */
  lemma NoReportIsLate(re: Option<Pattern>, before: seq<Event>, p: string, after: seq<Event>)
    requires forall i :: 0 <= i < |after| ==> !after[i].Tune?
    ensures OnTime(Run(re, INIT, before + ([Write(p)] + after)))
  {
    RunConcat(re, INIT, before, [Write(p)] + after);
    assert ([Write(p)] + after)[1..] == after;
    StaysOnTime(re, Next(re, Run(re, INIT, before), Write(p)), after);
  }

  // ---- The log ----

  /** Until the log opens, early is the beginning of the output, at least
      EARLY_MAX of it if there is as much. */
  predicate Begins(head: string, out: string) {
    head <= out && (|head| < EARLY_MAX ==> head == out)
  }

  /** What the log holds, once it has opened. */
  predicate LogHolds(s: State, n: nat) {
    n <= |s.total| && Begins(s.head, s.total[..n]) &&
    if s.done then s.log.None? && n <= s.ended <= |s.total| && s.file == s.head + s.total[n..s.ended] + s.note
    else s.note == "" && s.log == Some(s.head + s.total[n..])
  }

  predicate LogInv(s: State) {
    match s.from
    case None => s.log.None? && s.note == "" && Begins(s.early, s.total)
    case Some(n) => s.promoted && LogHolds(s, n)
  }

  lemma TakenLog(re: Option<Pattern>, s: State, p: string)
    requires LogInv(s)
    ensures LogInv(Taken(re, s, p))
  {
    var t := s.total + p;
    if s.from.Some? {
      var n := s.from.value;
      assert t[..n] == s.total[..n];
      if s.done {
        assert t[n..s.ended] == s.total[n..s.ended];
      } else {
        assert s.head + t[n..] == s.head + s.total[n..] + p;
      }
    }
  }

  lemma PromoteLog(re: Option<Pattern>, s: State, opens: bool)
    requires LogInv(s) && Enabled(s, Promote(opens))
    ensures LogInv(Next(re, s, Promote(opens)))
  {
    assert s.total[..|s.total|] == s.total && s.total[|s.total|..] == "";
    assert s.early + "" == s.early;
  }

  lemma FinishLog(re: Option<Pattern>, s: State, note: string)
    requires LogInv(s) && Enabled(s, Finish(note))
    ensures LogInv(Next(re, s, Finish(note)))
  {
    if s.from.Some? { assert s.total[s.from.value..|s.total|] == s.total[s.from.value..]; }
  }

  lemma NextLog(re: Option<Pattern>, s: State, e: Event)
    requires LogInv(s) && Enabled(s, e)
    ensures LogInv(Next(re, s, e))
  {
    match e
    case Write(p) => TakenLog(re, s, p);
    case Promote(opens) => PromoteLog(re, s, opens);
    case Finish(note) => FinishLog(re, s, note);
    case _ =>
  }

  lemma {:induction false} RunLog(re: Option<Pattern>, s: State, events: seq<Event>)
    requires LogInv(s) && IsRun(re, s, events)
    ensures LogInv(Run(re, s, events))
    decreases |events|
  {
    if events != [] {
      NextLog(re, s, events[0]);
      RunLog(re, Next(re, s, events[0]), events[1..]);
    }
  }

  /** If the log opened, it holds a beginning of the output so far, all of it or
      at least EARLY_MAX, then all the output since, up to the end of the command,
      and nothing else but the line about a kill at its end. */
  lemma LogHoldsOutput(re: Option<Pattern>, events: seq<Event>)
    requires IsRun(re, INIT, events) && Run(re, INIT, events).from.Some?
    ensures var s := Run(re, INIT, events);
            var out, n := Output(events), s.from.value;
            && n <= |out| && s.head <= out[..n] && |s.head| >= (if n < EARLY_MAX then n else EARLY_MAX)
            && (!s.done ==> s.log == Some(s.head + out[n..]))
            && (s.done ==> n <= s.ended <= |out| && s.file == s.head + out[n..s.ended] + s.note)
  {
    RunLog(re, INIT, events);
    TotalIsOutput(re, INIT, events);
    assert INIT.total + Output(events) == Output(events);
    LogAsStated(Run(re, INIT, events));
  }

  lemma LogAsStated(s: State)
    requires LogInv(s) && s.from.Some?
    ensures var n := s.from.value;
            && LogHolds(s, n) && s.head <= s.total[..n] && |s.head| >= (if n < EARLY_MAX then n else EARLY_MAX)
  {}

  // ---- The job's part in it ----

  class JobStream {
    const re: Option<Pattern>
    var log: Option<string>
    var early: string
    var partial: string
    var pending: string
    var written: nat
    var last: string
    var bufferBytes: int
    var ignore: bool
    var promoted: bool
    var done: bool
    ghost var past: State

    constructor (re: Option<Pattern>)
      ensures this.re == re && Abs() == INIT
    {
      this.re := re;
      log, early, partial, pending, written, last := None, "", "", "", 0, "";
      bufferBytes, ignore, promoted, done := 0, false, false, false;
      past := INIT;
    }

    /** The fields, with the history. */
    ghost function Abs(): State
      reads this
    {
      past.(log := log, early := early, partial := partial, pending := pending, written := written, last := last,
            bufferBytes := bufferBytes, ignore := ignore, promoted := promoted, done := done)
    }

    /** Write's first part: to the log, or to memory before there is one. */
    method Tee(p: string)
      modifies this`log, this`early, this`written
      ensures log == if old(log).Some? then Some(old(log).value + p) else None
      ensures early == if old(log).None? && |old(early)| < EARLY_MAX then old(early) + p else old(early)
      ensures written == old(written) + |p|
    {
      if log.Some? {
        log := Some(log.value + p);
      } else if |early| < EARLY_MAX {
        early := early + p;
      }
      written := written + |p|;
    }

    /** Write's second part: complete lines go to the monitor. */
    method TakeLines(p: string)
      modifies this`partial, this`last, this`pending
      ensures partial == Tail(old(partial) + p)
      ensures last == Newer(old(last), LastNonBlank(Lines(old(partial) + p)))
      ensures pending == old(pending) + Kept(re, Lines(old(partial) + p))
    {
      var complete;
      complete, partial := CutLines(partial + p);
      if complete != "" {
        var l := LastLine(complete);
        if l != "" {
          last := l;
        }
        var kept := Filter(re, complete);
        pending := pending + kept;
      }
    }

    /** reportLocked: the report's body, if one is due. */
    method Report(force: bool) returns (body: Option<string>)
      modifies this`pending, this`past
      ensures var due := !ignore && old(pending) != "" && (force || Due(old(Abs())));
              && body == (if due then Some(TrimNewlines(old(pending))) else None)
              && Abs() == if due then Drained(old(Abs())) else old(Abs())
    {
      if ignore || |pending| == 0 { return None; }
      if !force && (bufferBytes <= 0 || |pending| < bufferBytes) { return None; }
      body := Some(TrimNewlines(pending));
      past := past.(drained := past.drained + pending);
      pending := "";
    }

    /** Write. */
    method Write(p: string) returns (report: Option<string>)
      modifies this
      ensures Abs() == Next(re, old(Abs()), Event.Write(p))
      ensures var t := Taken(re, old(Abs()), p); report == if Due(t) then Some(TrimNewlines(t.pending)) else None
    {
      Tee(p);
      TakeLines(p);
      past := past.(total := past.total + p);
      assert Abs() == Taken(re, old(Abs()), p);
      report := Report(false);
    }

    /** openLogLocked; opens is whether the file could be created. */
    method Promote(opens: bool)
      requires !promoted && !done
      modifies this
      ensures Abs() == Next(re, old(Abs()), Event.Promote(opens))
    {
      promoted := true;
      if !opens { return; }
      past := past.(head := early, from := Some(|past.total|));
      log, early := Some(early), "";
    }

    /** jobReport's drain. */
    method Ask() returns (body: string)
      modifies this`pending, this`past
      ensures Abs() == Next(re, old(Abs()), Event.Ask)
      ensures body == TrimNewlines(old(pending))
    {
      body := TrimNewlines(pending);
      past := past.(drained := past.drained + pending);
      pending := "";
    }

    /** tuneJob's threshold and mute. */
    method Tune(bytes: Option<int>, mute: Option<bool>)
      modifies this`bufferBytes, this`ignore
      ensures Abs() == Next(re, old(Abs()), Event.Tune(bytes.GetOr(old(bufferBytes)), mute.GetOr(old(ignore))))
    {
      if bytes.Some? { bufferBytes := bytes.value; }
      if mute.Some? { ignore := mute.value; }
    }

    /** finish closes the log; note is "" for a job nobody killed. */
    method Finish(note: string)
      requires !done
      modifies this
      ensures Abs() == Next(re, old(Abs()), Event.Finish(note))
    {
      done := true;
      past := past.(ended := |past.total|);
      if log.Some? {
        past := past.(file := log.value + note, note := note);
        log := None;
      }
    }
  }
}
