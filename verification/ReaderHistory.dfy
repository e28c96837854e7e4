/** What the events of a run say of the line buffer: which lines the pump read, which
    the reader got, and that neither is ever stuck. */
module ReaderHistory {
  import opened Sentinel
  import opened ShellReader
  import opened Strings
  import opened Wrappers

  lemma {:induction false} RunConcat(s: State, a: seq<Event>, b: seq<Event>)
    requires IsRun(s, a + b)
    ensures IsRun(s, a) && IsRun(Run(s, a), b) && Run(s, a + b) == Run(Run(s, a), b)
    decreases |a|
  {
    if a == [] {
      assert a + b == b;
    } else {
      assert (a + b)[1..] == a[1..] + b;
      RunConcat(Next(s, a[0]), a[1..], b);
    }
  }

  /** A run, less its last event. */
  lemma RunLast(events: seq<Event>)
    requires events != [] && IsRun(INIT, events)
    ensures var init, e := events[..|events| - 1], events[|events| - 1];
            IsRun(INIT, init) && Enabled(Run(INIT, init), e) && Run(INIT, events) == Next(Run(INIT, init), e)
  {
    var init, e := events[..|events| - 1], events[|events| - 1];
    assert events == init + [e] && [e][1..] == [];
    RunConcat(INIT, init, [e]);
  }

  /** The lines the pump read, in order. */
  function Scans(events: seq<Event>): seq<string> {
    if events == [] then []
    else
      var e := events[|events| - 1];
      Scans(events[..|events| - 1]) + if e.Scan? then [e.line] else []
  }

  lemma {:induction false} ScansAreTold(events: seq<Event>)
    requires IsRun(INIT, events)
    ensures Run(INIT, events).scanned == Scans(events)
    decreases |events|
  {
    if events != [] {
      RunLast(events);
      ScansAreTold(events[..|events| - 1]);
    }
  }

  /** In every run: what the reader took, what is in the buffer, at most 4096 lines, and
      what the pump still has in hand, are the lines it read, in order. */
  lemma NothingIsLost(events: seq<Event>)
    requires IsRun(INIT, events)
    ensures var s := Run(INIT, events);
            s.popped + s.lines + InHand(s.pump) == Scans(events) && |s.lines| <= 4096 && |InHand(s.pump)| <= 1
  {
    RunInv(events);
    ScansAreTold(events);
  }

  /** In every run, a pop takes the next line of what the pump read, unless the buffer is
      empty; nothing else takes any. */
  lemma PopTakesTheNext(events: seq<Event>, e: Event)
    requires IsRun(INIT, events) && Enabled(Run(INIT, events), e)
    ensures var s := Run(INIT, events);
            if e == Pop && s.lines != [] then
              |s.popped| < |Scans(events)| && Next(s, e).popped == Scans(events)[..|s.popped| + 1]
            else Next(s, e).popped == s.popped
  {
    NothingIsLost(events);
    RunInv(events);
    var s := Run(INIT, events);
    if e == Pop && s.lines != [] {
      assert Scans(events)[|s.popped|] == (s.popped + s.lines)[|s.popped|] == s.lines[0];
      assert Scans(events)[..|s.popped|] == s.popped;
    }
  }

  /** In every run, a line goes into the buffer as it is read while fewer than 4096 are
      there; else the pump falls asleep with it. */
  lemma ScanPuts(events: seq<Event>, line: string)
    requires IsRun(INIT, events) && Enabled(Run(INIT, events), Scan(line))
    ensures var s := Run(INIT, events);
            var n := Next(s, Scan(line));
            if |s.lines| < 4096 then n.lines == s.lines + [line] && n.pump == Ready
            else n.lines == s.lines && n.pump == Asleep(line)
  {
    RunInv(events);
  }

  /** In every run the pump can go on, with any line or with the one in hand, or the
      buffer is full and the reader's next pop lets it go on and put that line in. */
  lemma NeverStuck(events: seq<Event>)
    requires IsRun(INIT, events)
    ensures var s := Run(INIT, events);
            || (forall line :: Enabled(s, Scan(line)))
            || Enabled(s, Resume)
            || (&& |s.lines| == 4096 && Enabled(s, Pop) && Enabled(Next(s, Pop), Resume)
                && Next(Next(s, Pop), Resume).lines == s.lines[1..] + InHand(s.pump))
  {
    RunInv(events);
  }

  /** A read that comes to the end line ends. */
  lemma {:induction false} ReadEnds(lines: seq<string>, text: string, seqno: nat, code: nat, after: seq<string>)
    ensures ReadLines(lines + [MarkerLine(text, seqno, code)] + after, Marker(seqno)).code.Some?
  {
    var all := lines + [MarkerLine(text, seqno, code)] + after;
    if lines != [] {
      assert all[1..] == lines[1..] + [MarkerLine(text, seqno, code)] + after;
      ReadEnds(lines[1..], text, seqno, code, after);
    } else if Contains(text, Marker(seqno)) {
      ForgedLine(text, Marker(seqno) + (" " + Decimal(code)), seqno);
    } else {
      SplitsAtMarker(text, seqno, code);
    }
  }

  /** So in every run the reader of a command that wrote these lines has not come to
      their end, or has the command's output and code, if and only if the output does
      not hold its marker: whatever the interleaving, as long as the pump read what the
      shell wrote. */
  lemma WaitIsTold(events: seq<Event>, lines: seq<string>, text: string, seqno: nat, code: nat, after: seq<string>)
    requires IsRun(INIT, events)
    requires Scans(events) <= lines + [MarkerLine(text, seqno, code)] + after
    ensures var r := ReadLines(Run(INIT, events).popped, Marker(seqno));
            r.code.None? || (r == Reading(Written(lines, text), Some(code)) <==> Unforged(lines, text, seqno))
    ensures |Run(INIT, events).popped| > |lines| ==> ReadLines(Run(INIT, events).popped, Marker(seqno)).code.Some?
  {
    ScansAreTold(events);
    NothingIsLost(events);
    WaitReturnsTheOutputIff(events, lines, text, seqno, code, after);
    var popped := Run(INIT, events).popped;
    if |popped| > |lines| {
      assert popped <= Scans(events);
      var more := after[..|popped| - |lines| - 1];
      assert popped == (lines + [MarkerLine(text, seqno, code)] + after)[..|popped|];
      assert popped == lines + [MarkerLine(text, seqno, code)] + more;
      ReadEnds(lines, text, seqno, code, more);
    }
  }

  // ---- The code ----

  /** One or more decimal digits. */
  predicate Digits(d: string) { d != "" && forall i :: 0 <= i < |d| ==> d[i] in "0123456789" }

  /** What follows the marker, as it stands or with a sign. */
  predicate Reads(t: string, sign: string, d: string) { Digits(d) && t == sign + d }

  lemma DigitsAre(d: string)
    ensures Digits(d) <==> AllDigits(d)
  {}

  /** The code after any marker, the command's own or not: the number that follows, with
      or without a sign, and 0 when anything else or nothing does. */
  lemma CodeIs(rest: string)
    ensures var t := TrimSpace(rest);
            && (forall d :: Reads(t, "", d) || Reads(t, "+", d) ==> CodeOf(rest) == Value(d))
            && (forall d :: Reads(t, "-", d) ==> CodeOf(rest) == -Value(d))
            && ((forall d :: !Reads(t, "", d) && !Reads(t, "+", d) && !Reads(t, "-", d)) ==> CodeOf(rest) == 0)
  {
    var t := TrimSpace(rest);
    forall d ensures Reads(t, "", d) || Reads(t, "+", d) ==> CodeOf(rest) == Value(d) { SignedDigits(t, d); }
    forall d ensures Reads(t, "-", d) ==> CodeOf(rest) == -Value(d) { SignedDigits(t, d); }
    if t != "" && Atoi(t).Some? {
      DigitsAre(t);
      DigitsAre(t[1..]);
      assert t == "" + t && t == [t[0]] + t[1..];
      assert Reads(t, "", t) || Reads(t, "+", t[1..]) || Reads(t, "-", t[1..]);
    }
  }

  lemma SignedDigits(t: string, d: string)
    ensures Reads(t, "", d) || Reads(t, "+", d) ==> Atoi(t) == Some(Value(d))
    ensures Reads(t, "-", d) ==> Atoi(t) == Some(-Value(d))
    ensures Reads(t, "", d) || Reads(t, "+", d) || Reads(t, "-", d) ==> t != ""
  {
    DigitsAre(d);
    assert ("+" + d)[1..] == d && ("-" + d)[1..] == d && "" + d == d;
    assert Digits(d) ==> d[0] in "0123456789";
  }
}
