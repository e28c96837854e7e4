/** What the events of a run say of a job's output stream: its settings, when it
    reports, what it holds in memory, and what its lines are. */
module StreamHistory {
  import opened JobOutput
  import opened Strings
  import opened Wrappers

  lemma RunSnoc(re: Option<Pattern>, s: State, events: seq<Event>, e: Event)
    ensures Run(re, s, events + [e]) == Next(re, Run(re, s, events), e)
  {
    RunConcat(re, s, events, [e]);
    assert [e][1..] == [];
  }

  // ---- Settings ----

  /** The last threshold and mute that were set. */
  function TunedTo(events: seq<Event>): (int, bool) {
    if events == [] then (0, false)
    else
      var e := events[|events| - 1];
      if e.Tune? then (e.bufferBytes, e.ignore) else TunedTo(events[..|events| - 1])
  }

  lemma SettingsStep(re: Option<Pattern>, s: State, e: Event)
    ensures var n := Next(re, s, e);
            && (n.bufferBytes, n.ignore) == (if e.Tune? then (e.bufferBytes, e.ignore) else (s.bufferBytes, s.ignore))
            && (n.promoted <==> s.promoted || e.Promote?) && (n.done <==> s.done || e.Finish?)
  {}

  predicate Promoting(events: seq<Event>) { exists i :: 0 <= i < |events| && events[i].Promote? }

  predicate Finishing(events: seq<Event>) { exists i :: 0 <= i < |events| && events[i].Finish? }

  lemma SeenMore(events: seq<Event>, e: Event)
    ensures Promoting(events + [e]) <==> Promoting(events) || e.Promote?
    ensures Finishing(events + [e]) <==> Finishing(events) || e.Finish?
  {
    var all := events + [e];
    assert all[|events|] == e;
    if i :| 0 <= i < |events| && events[i].Promote? { assert all[i].Promote?; }
    if i :| 0 <= i < |events| && events[i].Finish? { assert all[i].Finish?; }
    if i :| 0 <= i < |all| && all[i].Promote? { assert i < |events| ==> events[i].Promote?; }
    if i :| 0 <= i < |all| && all[i].Finish? { assert i < |events| ==> events[i].Finish?; }
  }

  ghost predicate AsTold(s: State, events: seq<Event>) {
    && s.bufferBytes == TunedTo(events).0 && s.ignore == TunedTo(events).1
    && (s.promoted <==> Promoting(events)) && (s.done <==> Finishing(events))
  }

  lemma ToldLater(re: Option<Pattern>, s: State, events: seq<Event>, e: Event)
    requires AsTold(s, events)
    ensures AsTold(Next(re, s, e), events + [e])
  {
    SeenMore(events, e);
    SettingsStep(re, s, e);
    assert (events + [e])[..|events|] == events;
  }

  lemma {:induction false} RunAsTold(re: Option<Pattern>, s: State, before: seq<Event>, events: seq<Event>)
    requires AsTold(s, before)
    ensures AsTold(Run(re, s, events), before + events)
    decreases |events|
  {
    if events == [] {
      assert before + events == before;
    } else {
      ToldLater(re, s, before, events[0]);
      RunAsTold(re, Next(re, s, events[0]), before + [events[0]], events[1..]);
      assert before + [events[0]] + events[1..] == before + events;
    }
  }

  /** In every run the threshold and the mute are the last that were set, and the job
      is promoted, or done, once it was. */
  lemma SettingsAreTold(re: Option<Pattern>, events: seq<Event>)
    ensures var s := Run(re, INIT, events);
            && (s.bufferBytes, s.ignore) == TunedTo(events)
            && (s.promoted <==> Promoting(events)) && (s.done <==> Finishing(events))
  {
    RunAsTold(re, INIT, [], events);
    assert [] + events == events;
  }

  // ---- When it reports ----

  /** In every run, a write reports, and then everything pending, exactly when the
      monitor is not muted and has a threshold, and what is pending with the write's
      own lines has reached it. */
  lemma ReportsIff(re: Option<Pattern>, events: seq<Event>, p: string)
    ensures var s := Run(re, INIT, events);
            var n := Next(re, s, Write(p));
            var pending := s.pending + Kept(re, Lines(s.partial + p));
            var (bytes, muted) := TunedTo(events);
            var due := !muted && bytes > 0 && |pending| >= bytes;
            && n.drained == (if due then s.drained + pending else s.drained)
            && n.pending == (if due then "" else pending)
  {
    SettingsAreTold(re, events);
  }

  /** Reading a job drains what is pending, whatever the settings. */
  lemma AskDrains(re: Option<Pattern>, events: seq<Event>)
    ensures var s := Run(re, INIT, events);
            var n := Next(re, s, Ask);
            n.drained == s.drained + s.pending && n.pending == ""
  {}

  // ---- What it holds in memory ----

  predicate Unopened(e: Event) { e != Promote(true) }

  /** Without a log, output is kept in memory until there is EARLY_MAX of it, and no
      more after: the whole of a beginning of the run's output. */
  lemma EarlyStops(re: Option<Pattern>, before: seq<Event>, after: seq<Event>)
    requires forall i :: 0 <= i < |before| ==> Unopened(before[i])
    requires forall i :: 0 <= i < |after| ==> Unopened(after[i])
    ensures |Output(before)| >= 0x10_0000 ==>
              Run(re, INIT, before + after).early == Run(re, INIT, before).early
              && |Run(re, INIT, before).early| >= 0x10_0000
    ensures |Output(before)| < 0x10_0000 ==> Run(re, INIT, before).early == Output(before)
  {
    EarlyIs(re, before);
    RunConcat(re, INIT, before, after);
    if |Output(before)| >= 0x10_0000 { FullStays(re, Run(re, INIT, before), after); }
  }

  lemma {:induction false} OutputMore(events: seq<Event>, e: Event)
    ensures Output(events + [e]) == Output(events) + Text(e)
  {
    if events == [] {
      assert events + [e] == [e] && [e][1..] == [];
      assert Output([e]) == Text(e) + "" == Text(e);
    } else {
      assert (events + [e])[1..] == events[1..] + [e];
      OutputMore(events[1..], e);
      ConcatAssociates(Text(events[0]), Output(events[1..]), Text(e));
    }
  }

  lemma EarlyStep(re: Option<Pattern>, s: State, e: Event)
    requires s.log.None? && Unopened(e)
    ensures var n := Next(re, s, e);
            n.log.None? && n.early == if |s.early| < 0x10_0000 then s.early + Text(e) else s.early
  {
    assert s.early + "" == s.early;
  }

  /** Kept so far, of so much output. */
  predicate EarlyOf(early: string, out: string) {
    early <= out && if |out| < 0x10_0000 then early == out else |early| >= 0x10_0000
  }

  lemma EarlyMore(early: string, out: string, p: string)
    requires EarlyOf(early, out)
    ensures EarlyOf(if |early| < 0x10_0000 then early + p else early, out + p)
  {}

  lemma EarlyLater(re: Option<Pattern>, s: State, out: string, e: Event)
    requires s.log.None? && EarlyOf(s.early, out) && Unopened(e)
    ensures Next(re, s, e).log.None? && EarlyOf(Next(re, s, e).early, out + Text(e))
  {
    EarlyStep(re, s, e);
    EarlyMore(s.early, out, Text(e));
  }

  lemma {:induction false} EarlyIs(re: Option<Pattern>, events: seq<Event>)
    requires forall i :: 0 <= i < |events| ==> Unopened(events[i])
    ensures Run(re, INIT, events).log.None? && EarlyOf(Run(re, INIT, events).early, Output(events))
    decreases |events|
  {
    if events != [] {
      var init, e := events[..|events| - 1], events[|events| - 1];
      EarlyIs(re, init);
      assert events == init + [e];
      RunSnoc(re, INIT, init, e);
      OutputMore(init, e);
      EarlyLater(re, Run(re, INIT, init), Output(init), e);
    }
  }

  lemma {:induction false} FullStays(re: Option<Pattern>, s: State, events: seq<Event>)
    requires s.log.None? && |s.early| >= 0x10_0000 && forall i :: 0 <= i < |events| ==> Unopened(events[i])
    ensures Run(re, s, events).early == s.early
    decreases |events|
  {
    if events != [] {
      assert Unopened(events[0]);
      FullStays(re, Next(re, s, events[0]), events[1..]);
    }
  }

  /** A log that opens takes over what was in memory, and ends with the line about a
      kill, if there is one. */
  lemma LogOpensAndEnds(re: Option<Pattern>, events: seq<Event>, note: string)
    ensures var s := Run(re, INIT, events);
            var n := Next(re, s, Promote(true));
            n.log == Some(s.early) && n.early == "" && n.head == s.early && n.from == Some(|s.total|)
    ensures var s := Run(re, INIT, events);
            var n := Next(re, s, Finish(note));
            s.log.Some? ==> n.file == s.log.value + note && n.log == None
    ensures Next(re, Run(re, INIT, events), Promote(false)).log == Run(re, INIT, events).log
  {}

  // ---- Lines ----

  lemma {:induction false} PiecesHaveNoBreak(s: string)
    ensures forall i :: 0 <= i < |Pieces(s)| ==> '\n' !in Pieces(s)[i]
  {
    if s != "" { PiecesHaveNoBreak(s[1..]); }
  }

  /** The lines of a text, and what follows them, make it up; each line ends in its
      only newline, and what follows has none. */
  lemma LinesAre(s: string)
    ensures Joined(Lines(s)) + Tail(s) == s && '\n' !in Tail(s)
    ensures forall i :: 0 <= i < |Lines(s)| ==>
              var l := Lines(s)[i]; l != "" && l[|l| - 1] == '\n' && '\n' !in l[..|l| - 1]
  {
    JoinedLines(s);
    PiecesHaveNoBreak(s);
    forall i | 0 <= i < |Lines(s)|
      ensures var l := Lines(s)[i]; l != "" && l[|l| - 1] == '\n' && '\n' !in l[..|l| - 1]
    {
      var l := Lines(s)[i];
      assert l == Pieces(s)[i] + "\n" && l[..|l| - 1] == Pieces(s)[i];
    }
  }

  /** What is kept of some lines is those the pattern matches, or all. */
  lemma {:induction false} KeptAre(re: Option<Pattern>, ls: seq<string>)
    ensures ls == [] ==> Kept(re, ls) == ""
    ensures ls != [] ==> Kept(re, ls) == (if re.None? || re.value(ls[0]) then ls[0] else "") + Kept(re, ls[1..])
  {}

  /** Line i is not blank, and those after it are. */
  predicate LastNotBlank(ls: seq<string>, i: nat) {
    i < |ls| && TrimSpace(ls[i]) != "" && forall k :: i < k < |ls| ==> TrimSpace(ls[k]) == ""
  }

  /** The last line is that of the latest of some lines that is not blank, trimmed. */
  lemma {:induction false} LastIs(ls: seq<string>)
    ensures LastNonBlank(ls) == "" ==> forall i :: 0 <= i < |ls| ==> TrimSpace(ls[i]) == ""
    ensures LastNonBlank(ls) != "" ==> exists i: nat :: LastNotBlank(ls, i) && LastNonBlank(ls) == TrimSpace(ls[i])
  {
    if ls != [] && TrimSpace(Last(ls)) == "" {
      LastIs(Front(ls));
      forall i | 0 <= i < |ls| - 1 ensures Front(ls)[i] == ls[i] {}
      if i: nat :| LastNotBlank(Front(ls), i) && LastNonBlank(Front(ls)) == TrimSpace(Front(ls)[i]) {
        assert LastNotBlank(ls, i);
      }
    } else if ls != [] {
      assert LastNotBlank(ls, |ls| - 1);
    }
  }
}
