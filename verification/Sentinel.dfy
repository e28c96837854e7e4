/** Telling one command's output from the next in a persistent shell: the
    sentinel line of exec.go's RunPromotable, and splitSentinel. */
module Sentinel {
  import opened Strings
  import opened Wrappers

  // ---- Decimal numbers ----

  predicate IsDigit(c: char) { '0' <= c <= '9' }

  function Digit(d: nat): (c: char)
    requires d < 10
    ensures IsDigit(c) && (c as int - '0' as int) == d
  {
    ('0' as int + d) as char
  }

  /** %d, and the shell's $?. */
  function Decimal(n: nat): (s: string)
    ensures s != "" && forall i :: 0 <= i < |s| ==> IsDigit(s[i])
  {
    if n < 10 then [Digit(n)] else Decimal(n / 10) + [Digit(n % 10)]
  }

  function Value(s: string): int {
    if s == "" then 0 else 10 * Value(s[..|s| - 1]) + (s[|s| - 1] as int - '0' as int)
  }

  lemma {:induction false} ValueOfDecimal(n: nat)
    ensures Value(Decimal(n)) == n
  {
    var s := Decimal(n);
    if n >= 10 {
      ValueOfDecimal(n / 10);
      assert s[..|s| - 1] == Decimal(n / 10);
    } else {
      assert s[..0] == "";
    }
  }

  lemma {:induction false} LongerDecimal(a: nat, b: nat)
    requires a <= b
    ensures |Decimal(a)| <= |Decimal(b)|
  {
    if a >= 10 { LongerDecimal(a / 10, b / 10); }
  }

  // ---- strconv.Atoi ----

  predicate AllDigits(s: string) {
    s != "" && forall i :: 0 <= i < |s| ==> IsDigit(s[i])
  }

  function Atoi(s: string): Option<int> {
    if s != "" && s[0] == '-' then (if AllDigits(s[1..]) then Some(-Value(s[1..])) else None)
    else if s != "" && s[0] == '+' then (if AllDigits(s[1..]) then Some(Value(s[1..])) else None)
    else if AllDigits(s) then Some(Value(s)) else None
  }

  // ---- The marker ----

  const PREFIX: string := "DUN_EXEC_END_"

  function Marker(seqno: nat): string {
    PREFIX + Decimal(seqno)
  }

  /** What `echo SENTINEL $?` prints: after text with no newline of its own, on
      that text's line. */
  function MarkerLine(text: string, seqno: nat, code: nat): string {
    text + (Marker(seqno) + (" " + Decimal(code)))
  }

  /** One line: what is written to the sink, and the code if it ended the wait. */
  datatype Split = Split(written: string, code: Option<int>)

  function CodeOf(rest: string): int {
    var trimmed := TrimSpace(rest);
    if trimmed == "" then 0 else match Atoi(trimmed) case Some(c) => c case None => 0
  }

  /** splitSentinel. */
  function SplitLine(line: string, marker: string): Split {
    var i := Index(line, marker, 0);
    if i < 0 then Split(line + "\n", None)
    else Split(if i > 0 then line[..i] + "\n" else "", Some(CodeOf(line[i + |marker|..])))
  }

  // ---- A marker is found where it was printed ----

  lemma PrefixLetters(i: nat)
    requires i < |PREFIX|
    ensures PREFIX[i] == 'D' ==> i == 0 || (i == 11 && PREFIX[12] == '_')
    ensures PREFIX[0] == 'D' && PREFIX[1] == 'U' && |PREFIX| == 13
  {
    assert PREFIX == ['D', 'U', 'N', '_', 'E', 'X', 'E', 'C', '_', 'E', 'N', 'D', '_'];
  }

  /** A marker's letters stand nowhere in it but at its start. */
  lemma MarkerLetters(b: nat, i: nat)
    requires 0 < i < |Marker(b)|
    ensures Marker(b)[i] == 'D' ==> i + 1 < |Marker(b)| && Marker(b)[i + 1] != 'U'
    ensures Marker(b)[0] == 'D' && Marker(b)[1] == 'U'
  {
    PrefixLetters(if i < 13 then i else 0);
    if i >= 13 { assert Marker(b)[i] == Decimal(b)[i - 13]; }
  }

  /** A marker that begins before the place where another begins ends before it. */
  lemma NoStraddle(text: string, rest: string, b: nat, p: nat)
    requires p < |text| && |rest| >= 2 && rest[0] == 'D' && rest[1] == 'U'
    ensures At(text + rest, p, Marker(b)) ==> At(text, p, Marker(b))
  {
    var m := Marker(b);
    var d := |text| - p;
    AtChar(text + rest, p, m, d);
    AtChar(text + rest, p, m, d + 1);
    if d < |m| {
      MarkerLetters(b, d);
    } else {
      assert (text + rest)[p..p + |m|] == text[p..p + |m|];
    }
  }

  /** Behind its first letter a marker line holds no marker. */
  lemma NoneInside(a: nat, code: nat, b: nat, p: nat)
    requires p > 0
    ensures !At(Marker(a) + (" " + Decimal(code)), p, Marker(b))
  {
    var line := Marker(a) + (" " + Decimal(code));
    var m := Marker(b);
    AtChar(line, p, m, 0);
    AtChar(line, p, m, 1);
    MarkerLetters(b, 1);
    if p < |Marker(a)| { MarkerLetters(a, p); }
  }

  /** At its very start a marker line holds only its own marker, or a shorter
      number's. */
  lemma OwnAtStart(a: nat, code: nat, b: nat)
    requires a <= b
    ensures At(Marker(a) + (" " + Decimal(code)), 0, Marker(b)) <==> a == b
  {
    var line, m, n := Marker(a) + (" " + Decimal(code)), Marker(b), |Marker(a)|;
    LongerDecimal(a, b);
    MarkerInjective(a, b);
    assert line[0..n] == Marker(a);
    AtChar(line, 0, m, n);
  }

  lemma MarkerInjective(a: nat, b: nat)
    ensures Marker(a) == Marker(b) ==> a == b
  {
    ValueOfDecimal(a);
    ValueOfDecimal(b);
    assert Marker(a)[13..] == Decimal(a) && Marker(b)[13..] == Decimal(b);
  }

  lemma TrimDigits(d: string)
    requires d != "" && IsDigit(d[0]) && IsDigit(d[|d| - 1])
    ensures TrimSpace(" " + d) == d
  {
    NoSpaceAtStart(d);
    NoSpaceAtEnd(d);
    assert (" " + d)[..1] == " " && (" " + d)[1..] == d;
  }

  lemma CodeOfDecimal(code: nat)
    ensures CodeOf(" " + Decimal(code)) == code
  {
    var d := Decimal(code);
    assert (" " + d)[1..] == d;
    TrimDigits(d);
    assert Atoi(d) == Some(Value(d));
    ValueOfDecimal(code);
  }

  /** The marker is first in its line where it was printed. */
  lemma MarkerIndex(text: string, seqno: nat, code: nat)
    requires !Contains(text, Marker(seqno))
    ensures Index(MarkerLine(text, seqno, code), Marker(seqno), 0) == |text|
  {
    var tail := Marker(seqno) + (" " + Decimal(code));
    var line, m := text + tail, Marker(seqno);
    MarkerLetters(seqno, 1);
    forall p | 0 <= p < |text| ensures !At(line, p, m) {
      NoStraddle(text, tail, seqno, p);
    }
    assert line[|text|..|text| + |m|] == m;
    IndexIs(line, m, |text|);
  }

  /** The marker is found exactly where it was printed, behind any text that does
      not hold it, and its line gives that text and the exit code. */
  lemma SplitsAtMarker(text: string, seqno: nat, code: nat)
    requires !Contains(text, Marker(seqno))
    ensures SplitLine(MarkerLine(text, seqno, code), Marker(seqno))
         == Split(if text != "" then text + "\n" else "", Some(code))
  {
    var line, rest := MarkerLine(text, seqno, code), " " + Decimal(code);
    MarkerIndex(text, seqno, code);
    ConcatAssociates(text, Marker(seqno), rest);
    assert line[|text| + |Marker(seqno)|..] == rest && line[..|text|] == text;
    CodeOfDecimal(code);
  }

  /** The line that ended an earlier command in the same shell never ends a later
      one: their numbers differ, and no number's marker is part of a smaller
      number's line. */
  lemma EarlierNeverMatches(text: string, a: nat, code: nat, b: nat)
    requires a < b && !Contains(text, Marker(b))
    ensures !Contains(MarkerLine(text, a, code), Marker(b))
  {
    var tail := Marker(a) + (" " + Decimal(code));
    MarkerLetters(a, 1);
    OwnAtStart(a, code, b);
    forall p: nat | p <= |text + tail| ensures !At(text + tail, p, Marker(b)) {
      if p < |text| {
        NoStraddle(text, tail, b, p);
      } else {
        TailAt(text, tail, p - |text|, Marker(b));
        if p > |text| { NoneInside(a, code, b, p - |text|); }
      }
    }
  }

  lemma TailAt(text: string, tail: string, p: nat, m: string)
    ensures At(text + tail, |text| + p, m) <==> At(tail, p, m)
  {
    if p + |m| <= |tail| {
      assert (text + tail)[|text| + p..|text| + p + |m|] == tail[p..p + |m|];
    }
  }

  // ---- A whole wait ----

  /** What readUntil has when it stops: the output so far, and the code once a
      line carried the marker. */
  datatype Reading = Reading(output: string, code: Option<int>)

  /** readUntil over the lines it pops, up to the first that carries the marker. */
  function ReadLines(lines: seq<string>, marker: string): Reading {
    if lines == [] then Reading("", None)
    else
      var first := SplitLine(lines[0], marker);
      if first.code.Some? then Reading(first.written, first.code)
      else
        var rest := ReadLines(lines[1..], marker);
        Reading(first.written + rest.output, rest.code)
  }

  function Unlines(lines: seq<string>): string {
    if lines == [] then "" else lines[0] + "\n" + Unlines(lines[1..])
  }

  /** What a command wrote: lines, and text with no newline of its own, to which the
      wait adds one. */
  function Written(lines: seq<string>, text: string): string {
    Unlines(lines) + if text != "" then text + "\n" else ""
  }

  /** It holds the command's marker nowhere. */
  ghost predicate Unforged(lines: seq<string>, text: string, seqno: nat) {
    !Contains(text, Marker(seqno)) && forall i :: 0 <= i < |lines| ==> !Contains(lines[i], Marker(seqno))
  }

  lemma WrittenFirst(lines: seq<string>, text: string)
    requires lines != []
    ensures Written(lines, text) == lines[0] + "\n" + Written(lines[1..], text)
  {
    var more := if text != "" then text + "\n" else "";
    ConcatAssociates(lines[0] + "\n", Unlines(lines[1..]), more);
  }

  lemma {:induction false} ReadsUnforged(lines: seq<string>, text: string, seqno: nat, code: nat, after: seq<string>)
    requires Unforged(lines, text, seqno)
    ensures ReadLines(lines + [MarkerLine(text, seqno, code)] + after, Marker(seqno))
         == Reading(Written(lines, text), Some(code))
  {
    var all := lines + [MarkerLine(text, seqno, code)] + after;
    if lines == [] {
      SplitsAtMarker(text, seqno, code);
    } else {
      assert all[1..] == lines[1..] + [MarkerLine(text, seqno, code)] + after;
      ReadsUnforged(lines[1..], text, seqno, code, after);
      WrittenFirst(lines, text);
    }
  }

  /** A line that holds the marker is cut short. */
  lemma ForgedLine(line: string, rest: string, seqno: nat)
    requires Contains(line, Marker(seqno))
    ensures var first := SplitLine(line + rest, Marker(seqno)); first.code.Some? && |first.written| < |line + "\n"|
  {
    var p :| 0 <= p <= |line| && At(line, p, Marker(seqno));
    assert (line + rest)[p..p + |Marker(seqno)|] == line[p..p + |Marker(seqno)|];
    assert At(line + rest, p, Marker(seqno));
    assert Index(line + rest, Marker(seqno), 0) <= p;
  }

  /** A read that a forged marker ends has less than was written. */
  lemma {:induction false} ReadsForged(lines: seq<string>, text: string, seqno: nat, code: nat, after: seq<string>)
    requires !Unforged(lines, text, seqno)
    ensures |ReadLines(lines + [MarkerLine(text, seqno, code)] + after, Marker(seqno)).output| < |Written(lines, text)|
  {
    var all := lines + [MarkerLine(text, seqno, code)] + after;
    if lines == [] {
      ForgedLine(text, Marker(seqno) + (" " + Decimal(code)), seqno);
    } else {
      WrittenFirst(lines, text);
      assert all[1..] == lines[1..] + [MarkerLine(text, seqno, code)] + after;
      assert all[0] == lines[0] == lines[0] + "";
      if Contains(lines[0], Marker(seqno)) {
        ForgedLine(lines[0], "", seqno);
      } else {
        ReadsForged(lines[1..], text, seqno, code, after);
      }
    }
  }

  /** However the output falls into lines, and whatever follows, the wait returns
      exactly the command's output and its code if and only if the output does not
      hold the marker. */
  lemma ReadsCommandIff(lines: seq<string>, text: string, seqno: nat, code: nat, after: seq<string>)
    ensures var all := lines + [MarkerLine(text, seqno, code)] + after;
            ReadLines(all, Marker(seqno)) == Reading(Written(lines, text), Some(code)) <==> Unforged(lines, text, seqno)
  {
    if Unforged(lines, text, seqno) {
      ReadsUnforged(lines, text, seqno, code, after);
    } else {
      ReadsForged(lines, text, seqno, code, after);
    }
  }

  /** More lines do not change a wait that has ended. */
  lemma {:induction false} EndedStays(lines: seq<string>, more: seq<string>, marker: string)
    requires ReadLines(lines, marker).code.Some?
    ensures ReadLines(lines + more, marker) == ReadLines(lines, marker)
  {
    assert (lines + more)[1..] == lines[1..] + more;
    if SplitLine(lines[0], marker).code.None? { EndedStays(lines[1..], more, marker); }
  }
}
