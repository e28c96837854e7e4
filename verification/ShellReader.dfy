/** The line buffer between a shell's output and the command that reads it:
    exec.go's shLineBuf, its pump, and readUntil's loop.

    One pump feeds the buffer and one reader empties it. Each holds the buffer's
    lock for one step, so a run is any interleaving of their steps. */
module ShellReader {
  import opened Sentinel
  import opened Wrappers

  const LINE_BUF_MAX: nat := 4096

  /** Where the pump is: between lines, asleep on the condition with a line in
      hand, or signalled and about to try again. */
  datatype Pump = Ready | Asleep(line: string) | Woken(line: string)

  datatype State = State(
    n: nat, lines: seq<string>, full: bool,
    pump: Pump,
    scanned: seq<string>,   // history: every line the pump read, in order
    popped: seq<string>)    // history: every line the reader took, in order

  const INIT := State(0, [], false, Ready, [], [])

  datatype Event =
    | Scan(line: string)    // the pump reads a line and takes the lock
    | Resume                // the signalled pump has the lock again
    | Pop                   // popLine

  predicate Enabled(s: State, e: Event) {
    match e
    case Scan(_) => s.pump.Ready?
    case Resume => s.pump.Woken?
    case Pop => true
  }

  /** pump's critical section with a line in hand. */
  function Offer(s: State, line: string): State {
    if s.n >= LINE_BUF_MAX then s.(full := true, pump := Asleep(line))
    else s.(lines := s.lines + [line], n := s.n + 1, pump := Ready)
  }

  function Signal(p: Pump): Pump {
    match p case Asleep(line) => Woken(line) case _ => p
  }

  function Next(s: State, e: Event): State {
    match e
    case Scan(line) => Offer(s.(scanned := s.scanned + [line]), line)
    case Resume => if s.pump.Woken? then Offer(s, s.pump.line) else s
    case Pop =>
      if s.n == 0 || s.lines == [] then s
      else
        var s' := s.(lines := s.lines[1..], n := s.n - 1, popped := s.popped + [s.lines[0]]);
        if s.full then s'.(full := false, pump := Signal(s.pump)) else s'
  }

  ghost predicate IsRun(s: State, events: seq<Event>)
    decreases |events|
  {
    events == [] || (Enabled(s, events[0]) && IsRun(Next(s, events[0]), events[1..]))
  }

  function Run(s: State, events: seq<Event>): State
    decreases |events|
  {
    if events == [] then s else Run(Next(s, events[0]), events[1..])
  }

  /** The line the pump holds but has not put in the buffer. */
  function InHand(p: Pump): seq<string> {
    match p case Ready => [] case Asleep(line) => [line] case Woken(line) => [line]
  }

  /** Bounded; first in, first out, nothing lost; and the pump sleeps only while
      the buffer is full, with the flag set that makes the next pop wake it. */
  ghost predicate Inv(s: State) {
    && s.n == |s.lines| <= LINE_BUF_MAX
    && s.popped + s.lines + InHand(s.pump) == s.scanned
    && (s.pump.Asleep? ==> s.full && s.n == LINE_BUF_MAX)
    && (s.full ==> s.pump.Asleep?)
  }

  lemma NextInv(s: State, e: Event)
    requires Inv(s) && Enabled(s, e)
    ensures Inv(Next(s, e))
  {
    match e
    case Scan(line) =>
      assert s.popped + (s.lines + [line]) == s.popped + s.lines + [line];
      assert s.popped + s.lines + [] == s.scanned;
    case Resume =>
      assert s.popped + (s.lines + [s.pump.line]) == s.popped + s.lines + [s.pump.line];
    case Pop =>
      if s.n > 0 {
        assert s.popped + [s.lines[0]] + s.lines[1..] == s.popped + s.lines;
      }
  }

  lemma {:induction false} InvKept(s: State, events: seq<Event>)
    requires Inv(s) && IsRun(s, events)
    ensures Inv(Run(s, events))
    decreases |events|
  {
    if events != [] {
      NextInv(s, events[0]);
      InvKept(Next(s, events[0]), events[1..]);
    }
  }

  /** In every run from the start. */
  lemma RunInv(events: seq<Event>)
    requires IsRun(INIT, events)
    ensures Inv(Run(INIT, events))
  {
    InvKept(INIT, events);
  }

  /** A pop that makes room never leaves the pump asleep, and the pump's next
      step puts its line in. */
  lemma PopWakes(s: State)
    requires Inv(s) && s.pump.Asleep?
    ensures var s' := Next(s, Pop);
            && s'.pump == Woken(s.pump.line)
            && Next(s', Resume).lines == s'.lines + [s.pump.line]
            && Next(s', Resume).pump == Ready
  {}

  /** In every run, a wait that has ended on the lines popped so far has the
      result the whole output gives: how the steps interleave does not matter. */
  lemma ScheduleIndependent(events: seq<Event>, stream: seq<string>, marker: string)
    requires IsRun(INIT, events) && Run(INIT, events).scanned <= stream
    requires ReadLines(Run(INIT, events).popped, marker).code.Some?
    ensures ReadLines(Run(INIT, events).popped, marker) == ReadLines(stream, marker)
  {
    var s := Run(INIT, events);
    RunInv(events);
    assert s.popped <= s.scanned;
    EndedStays(s.popped, stream[|s.popped|..], marker);
    assert stream == s.popped + stream[|s.popped|..];
  }

  /** So in every run the reader of a command has not seen the end yet, or has the
      command's output and its exit code if and only if the output does not hold its
      marker. */
  lemma WaitReturnsTheOutputIff(events: seq<Event>, lines: seq<string>, text: string, seqno: nat, code: nat,
      after: seq<string>)
    requires IsRun(INIT, events)
    requires Run(INIT, events).scanned <= lines + [MarkerLine(text, seqno, code)] + after
    ensures var r := ReadLines(Run(INIT, events).popped, Marker(seqno));
            r.code.None? || (r == Reading(Written(lines, text), Some(code)) <==> Unforged(lines, text, seqno))
  {
    if ReadLines(Run(INIT, events).popped, Marker(seqno)).code.Some? {
      ScheduleIndependent(events, lines + [MarkerLine(text, seqno, code)] + after, Marker(seqno));
      ReadsCommandIff(lines, text, seqno, code, after);
    }
  }

  // ---- The buffer and the reader ----

  class LineBuf {
    var n: nat
    var lines: seq<string>
    var full: bool
    var pump: Pump
    ghost var scanned: seq<string>
    ghost var popped: seq<string>

    ghost function Abs(): State
      reads this
    {
      State(n, lines, full, pump, scanned, popped)
    }

    ghost predicate Valid()
      reads this
    {
      Inv(Abs())
    }

    constructor ()
      ensures Valid() && Abs() == INIT
    {
      n, lines, full, pump, scanned, popped := 0, [], false, Ready, [], [];
    }

    /** pump: put the line in, or fall asleep with it. */
    method PumpLine(line: string)
      requires Valid() && pump.Ready?
      modifies this
      ensures Valid() && Abs() == Next(old(Abs()), Scan(line))
    {
      NextInv(Abs(), Scan(line));
      scanned := scanned + [line];
      if n >= LINE_BUF_MAX {
        full, pump := true, Asleep(line);
      } else {
        lines, n := lines + [line], n + 1;
      }
    }

    /** pump, back from the condition: check again. */
    method PumpResume()
      requires Valid() && pump.Woken?
      modifies this
      ensures Valid() && Abs() == Next(old(Abs()), Resume)
    {
      NextInv(Abs(), Resume);
      if n >= LINE_BUF_MAX {
        full, pump := true, Asleep(pump.line);
      } else {
        lines, n, pump := lines + [pump.line], n + 1, Ready;
      }
    }

    method PopLine() returns (line: Option<string>)
      requires Valid()
      modifies this
      ensures Valid() && Abs() == Next(old(Abs()), Pop)
      ensures line == if old(lines) == [] then None else Some(old(lines)[0])
    {
      NextInv(Abs(), Pop);
      if n == 0 {
        return None;
      }
      line := Some(lines[0]);
      popped := popped + [lines[0]];
      lines, n := lines[1..], n - 1;
      if full {
        full, pump := false, Signal(pump);
      }
    }
  }

  lemma {:induction false} ReadMore(lines: seq<string>, line: string, marker: string)
    requires ReadLines(lines, marker).code.None?
    ensures var split := SplitLine(line, marker);
            ReadLines(lines + [line], marker) == Reading(ReadLines(lines, marker).output + split.written, split.code)
  {
    if lines == [] {
      assert [line][1..] == [];
    } else {
      assert (lines + [line])[1..] == lines[1..] + [line];
      ReadMore(lines[1..], line, marker);
    }
  }

  lemma TakeOne(all: seq<string>, taken: nat, output: string, marker: string)
    requires taken < |all| && ReadLines(all[..taken], marker) == Reading(output, None)
    ensures var split := SplitLine(all[taken], marker);
            && ReadLines(all[..taken + 1], marker) == Reading(output + split.written, split.code)
            && (split.code.Some? ==> ReadLines(all, marker) == ReadLines(all[..taken + 1], marker))
  {
    ReadMore(all[..taken], all[taken], marker);
    assert all[..taken + 1] == all[..taken] + [all[taken]];
    if SplitLine(all[taken], marker).code.Some? {
      EndedStays(all[..taken + 1], all[taken + 1..], marker);
      assert all == all[..taken + 1] + all[taken + 1..];
    }
  }

  /** readUntil's loop over a buffer nobody else touches meanwhile: it takes the
      lines up to the first with the marker, and no more, or all there are. */
  method ReadUntil(buf: LineBuf, marker: string) returns (r: Reading, ghost taken: nat)
    requires buf.Valid()
    modifies buf
    ensures buf.Valid() && taken <= |old(buf.lines)| && buf.lines == old(buf.lines)[taken..]
    ensures r == ReadLines(old(buf.lines), marker) == ReadLines(old(buf.lines)[..taken], marker)
    ensures taken > 0 ==> ReadLines(old(buf.lines)[..taken - 1], marker).code.None?
    ensures r.code.None? ==> buf.lines == []
  {
    var output := "";
    ghost var all := buf.lines;
    taken := 0;
    while true
      invariant buf.Valid() && taken <= |all| && buf.lines == all[taken..]
      invariant ReadLines(all[..taken], marker) == Reading(output, None)
      invariant taken > 0 ==> ReadLines(all[..taken - 1], marker).code.None?
      decreases |buf.lines|
    {
      var line := buf.PopLine();
      match line {
        case None =>
          assert all[..taken] == all;
          return Reading(output, None), taken;
        case Some(text) =>
          var split := SplitLine(text, marker);
          TakeOne(all, taken, output, marker);
          output := output + split.written;
          taken := taken + 1;
          if split.code.Some? { return Reading(output, split.code), taken; }
      }
    }
  }
}
