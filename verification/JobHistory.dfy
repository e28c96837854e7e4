/** What the events of a run say of each job: who reported it, how it ended, and what
    its waiters and the harness's counts are, read off the events alone. */
module JobHistory {
  import opened JobProtocol
  import opened Wrappers

  lemma {:induction false} RunConcat(s: State, a: seq<Event>, b: seq<Event>)
    requires IsRun(s, a + b)
    ensures IsRun(s, a) && IsRun(Run(s, a), b) && Run(s, a + b) == Run(Run(s, a), b)
    decreases |a|
  {
    if a == [] {
      assert a + b == b;
    } else {
      assert (a + b)[1..] == a[1..] + b;
      RunConcat(Next(s, a[0]), a[1..], b);
    }
  }

  /** A run, less its last event. */
  lemma RunLast(events: seq<Event>)
    requires events != [] && IsRun(INIT, events)
    ensures var init, e := events[..|events| - 1], events[|events| - 1];
            IsRun(INIT, init) && Enabled(Run(INIT, init), e) && Run(INIT, events) == Next(Run(INIT, init), e)
  {
    var init, e := events[..|events| - 1], events[|events| - 1];
    assert events == init + [e] && [e][1..] == [];
    RunConcat(INIT, init, [e]);
  }

  /** A job, or what it is before it is made. */
  function JobAt(s: State, j: nat): Job { if j < |s.jobs| then s.jobs[j] else NEW_JOB }

  // ---- The events of one job ----

  predicate Ends(e: Event, j: nat) { e.MarkDone? && e.job == j }

  /** The command has ended. */
  predicate EndedIn(events: seq<Event>, j: nat) {
    exists i :: 0 <= i < |events| && Ends(events[i], j)
  }

  /** A settle came when the command had not ended. */
  predicate SettledEarly(events: seq<Event>, j: nat) {
    exists k :: 0 <= k < |events| && events[k] == Settle(j) && !EndedIn(events[..k], j)
  }

  function Settles(events: seq<Event>, j: nat): nat {
    if events == [] then 0
    else Settles(events[..|events| - 1], j) + if events[|events| - 1] == Settle(j) then 1 else 0
  }

  lemma EndedMore(events: seq<Event>, e: Event, j: nat)
    ensures EndedIn(events + [e], j) <==> EndedIn(events, j) || Ends(e, j)
  {
    var all := events + [e];
    if i :| 0 <= i < |events| && Ends(events[i], j) { assert Ends(all[i], j); }
    if Ends(e, j) { assert Ends(all[|events|], j); }
  }

  lemma SettledEarlyMore(events: seq<Event>, e: Event, j: nat)
    ensures SettledEarly(events + [e], j) <==> SettledEarly(events, j) || (e == Settle(j) && !EndedIn(events, j))
  {
    var all := events + [e];
    forall k | 0 <= k <= |events| ensures all[..k] == events[..k] {}
    assert events[..|events|] == events;
    if k :| 0 <= k < |events| && events[k] == Settle(j) && !EndedIn(events[..k], j) {
      assert all[k] == Settle(j) && !EndedIn(all[..k], j);
    }
    if e == Settle(j) && !EndedIn(events, j) { assert all[|events|] == Settle(j) && !EndedIn(all[..|events|], j); }
    if k :| 0 <= k < |all| && all[k] == Settle(j) && !EndedIn(all[..k], j) {
      assert k < |events| ==> events[k] == Settle(j) && !EndedIn(events[..k], j);
    }
  }

  /** Who reports, as the events have it. */
  ghost predicate SettleTold(events: seq<Event>, j: nat, job: Job) {
    && (job.done <==> EndedIn(events, j))
    && (job.settled <==> Settle(j) in events)
    && (job.bg <==> SettledEarly(events, j))
    && job.inlineAnswers == (if job.bg then 0 else Settles(events, j))
  }

  lemma {:induction false} SettleIsTold(events: seq<Event>, j: nat)
    requires IsRun(INIT, events)
    ensures SettleTold(events, j, JobAt(Run(INIT, events), j))
    decreases |events|
  {
    if events != [] {
      var init, e := events[..|events| - 1], events[|events| - 1];
      RunLast(events);
      SettleIsTold(init, j);
      assert events == init + [e];
      EndedMore(init, e, j);
      SettledEarlyMore(init, e, j);
      SettlesIn(init, j);
      StepTold(init, e, Run(INIT, init), j);
    }
  }

  lemma {:induction false} SettlesIn(events: seq<Event>, j: nat)
    ensures Settles(events, j) > 0 <==> Settle(j) in events
  {
    if events != [] {
      SettlesIn(events[..|events| - 1], j);
      assert events == events[..|events| - 1] + [events[|events| - 1]];
    }
  }

  lemma StepTold(init: seq<Event>, e: Event, s: State, j: nat)
    requires Enabled(s, e) && SettleTold(init, j, JobAt(s, j))
    requires EndedIn(init + [e], j) <==> EndedIn(init, j) || Ends(e, j)
    requires SettledEarly(init + [e], j) <==> SettledEarly(init, j) || (e == Settle(j) && !EndedIn(init, j))
    requires Settles(init, j) > 0 <==> Settle(j) in init
    ensures SettleTold(init + [e], j, JobAt(Next(s, e), j))
  {
    if j < |s.jobs| { StepJob(s, e, j); }
    assert (init + [e])[..|init|] == init;
  }

  /** The first settle of a job. */
  predicate FirstSettle(events: seq<Event>, j: nat, k: nat) {
    k < |events| && events[k] == Settle(j) && Settle(j) !in events[..k]
  }

  lemma EndedLater(events: seq<Event>, j: nat, k: nat, m: nat)
    requires k <= m <= |events|
    ensures EndedIn(events[..k], j) ==> EndedIn(events[..m], j)
  {
    if i :| 0 <= i < k && Ends(events[..k][i], j) { assert Ends(events[..m][i], j); }
  }

  /** In every run, the first settle of a job decides who reports it: the tool call
      if the command has ended by then, and otherwise the background job. */
  lemma FirstSettleDecides(events: seq<Event>, j: nat, k: nat)
    requires IsRun(INIT, events) && FirstSettle(events, j, k)
    ensures j < |Run(INIT, events).jobs|
    ensures var job := Run(INIT, events).jobs[j];
            && job.settled
            && (job.inlineAnswers > 0 <==> EndedIn(events[..k], j))
            && (job.bg <==> !EndedIn(events[..k], j))
  {
    SettleIsTold(events, j);
    SettlesIn(events, j);
    if !EndedIn(events[..k], j) {
      assert SettledEarly(events, j);
    } else {
      forall m | 0 <= m < |events| && events[m] == Settle(j) ensures EndedIn(events[..m], j) {
        EndedLater(events, j, k, m);
      }
    }
  }

  // ---- How it ended ----

  /** Who asked first to end it, while it ran. */
  function FirstKill(events: seq<Event>, j: nat): Option<string> {
    if events == [] then None
    else
      var init, e := events[..|events| - 1], events[|events| - 1];
      if FirstKill(init, j).None? && e.Kill? && e.job == j && !EndedIn(init, j) then Some(e.who) else FirstKill(init, j)
  }

  /** Whether the last word on it was to mute it. */
  function MutedBy(events: seq<Event>, j: nat): bool {
    if events == [] then false
    else
      var e := events[|events| - 1];
      if e.Mute? && e.job == j then e.on else MutedBy(events[..|events| - 1], j)
  }

  /** The rest of what the events say of one job. */
  ghost predicate EndTold(events: seq<Event>, j: nat, job: Job) {
    && job.killedBy == FirstKill(events, j)
    && (job.failed <==> MarkDone(j, true) in events)
    && job.muted == MutedBy(events, j)
  }

  /** How far finish and the two channels have come. */
  ghost predicate StageTold(events: seq<Event>, j: nat, job: Job) {
    && (job.promoteClosed <==> ClosePromote(j) in events)
    && (job.doneClosed <==> CloseDone(j) in events)
    && (job.stage in {Running, MarkedDone} <==> LeaveLive(j) !in events)
    && (TakenOff(job) <==> DecRun(j) in events)
    && (job.atDecision.Saw? <==> Decide(j) in events)
  }

  lemma InMore(events: seq<Event>, e: Event, x: Event)
    ensures x in events + [e] <==> x in events || x == e
  {}

  lemma DoneByEnd(events: seq<Event>, j: nat)
    ensures MarkDone(j, true) in events ==> EndedIn(events, j)
  {
    if MarkDone(j, true) in events {
      var i :| 0 <= i < |events| && events[i] == MarkDone(j, true);
      assert Ends(events[i], j);
    }
  }

  lemma {:induction false} EndIsTold(events: seq<Event>, j: nat)
    requires IsRun(INIT, events)
    ensures EndTold(events, j, JobAt(Run(INIT, events), j))
    decreases |events|
  {
    if events != [] {
      var init, e := events[..|events| - 1], events[|events| - 1];
      RunLast(events);
      EndIsTold(init, j);
      SettleIsTold(init, j);
      assert events == init + [e];
      DoneByEnd(init, j);
      InvAt(init, j);
      StepEndTold(init, e, Run(INIT, init), j);
    }
  }

  lemma EndFields(s: State, e: Event, j: nat)
    requires Enabled(s, e)
    ensures var b, a := JobAt(s, j), JobAt(Next(s, e), j);
            && a.killedBy == (if e.Kill? && e.job == j && !b.done && b.killedBy.None? then Some(e.who) else b.killedBy)
            && a.failed == (if Ends(e, j) then e.failed else b.failed)
            && a.muted == (if e.Mute? && e.job == j then e.on else b.muted)
  {
    if j < |s.jobs| { StepJob(s, e, j); }
  }

  lemma StepEndTold(init: seq<Event>, e: Event, s: State, j: nat)
    requires Enabled(s, e) && EndTold(init, j, JobAt(s, j)) && JobAt(s, j).done == EndedIn(init, j)
    requires Ends(e, j) ==> !JobAt(s, j).done
    requires MarkDone(j, true) in init ==> EndedIn(init, j)
    ensures EndTold(init + [e], j, JobAt(Next(s, e), j))
  {
    EndFields(s, e, j);
    InMore(init, e, MarkDone(j, true));
    assert (init + [e])[..|init|] == init;
  }

  lemma StageFields(s: State, e: Event, j: nat)
    requires Enabled(s, e) && JobInv(JobAt(s, j))
    ensures var b, a := JobAt(s, j), JobAt(Next(s, e), j);
            && (a.promoteClosed <==> b.promoteClosed || e == ClosePromote(j))
            && (a.doneClosed <==> b.doneClosed || e == CloseDone(j))
            && (a.stage !in {Running, MarkedDone} <==> b.stage !in {Running, MarkedDone} || e == LeaveLive(j))
            && (TakenOff(a) <==> TakenOff(b) || e == DecRun(j))
            && (a.atDecision.Saw? <==> b.atDecision.Saw? || e == Decide(j))
  {
    if j < |s.jobs| { StepJob(s, e, j); }
  }

  /** finish has taken the job off bgRun. */
  predicate TakenOff(job: Job) { job.bgAtDone && job.stage in {Decremented, Decided, Closed} }

  lemma InvAt(events: seq<Event>, j: nat)
    requires IsRun(INIT, events)
    ensures JobInv(JobAt(Run(INIT, events), j))
  {
    RunInv(events);
  }

  lemma StepStageTold(init: seq<Event>, e: Event, j: nat, b: Job, a: Job)
    requires StageTold(init, j, b)
    requires a.promoteClosed <==> b.promoteClosed || e == ClosePromote(j)
    requires a.doneClosed <==> b.doneClosed || e == CloseDone(j)
    requires a.stage !in {Running, MarkedDone} <==> b.stage !in {Running, MarkedDone} || e == LeaveLive(j)
    requires TakenOff(a) <==> TakenOff(b) || e == DecRun(j)
    requires a.atDecision.Saw? <==> b.atDecision.Saw? || e == Decide(j)
    ensures StageTold(init + [e], j, a)
  {}

  lemma {:induction false} StageIsTold(events: seq<Event>, j: nat)
    requires IsRun(INIT, events)
    ensures StageTold(events, j, JobAt(Run(INIT, events), j))
    decreases |events|
  {
    if events != [] {
      var init, e := events[..|events| - 1], events[|events| - 1];
      RunLast(events);
      StageIsTold(init, j);
      InvAt(init, j);
      StageFields(Run(INIT, init), e, j);
      assert events == init + [e];
      StepStageTold(init, e, j, JobAt(Run(INIT, init), j), JobAt(Run(INIT, events), j));
    }
  }

  // ---- Waiters and the notice ----

  predicate FinishStep(e: Event, j: nat) {
    Ends(e, j) || e in {LeaveLive(j), DecRun(j), Decide(j), CloseDone(j)}
  }

  /** finish never gets stuck: until doneCh is closed, some step of it may come next,
      and then none. */
  lemma FinishGoesOn(events: seq<Event>, j: nat)
    requires IsRun(INIT, events) && j < |Run(INIT, events).jobs|
    ensures CloseDone(j) !in events <==> exists e :: FinishStep(e, j) && Enabled(Run(INIT, events), e)
  {
    InvAt(events, j);
    StageIsTold(events, j);
    var s := Run(INIT, events);
    assert FinishStep(MarkDone(j, true), j) && FinishStep(LeaveLive(j), j) && FinishStep(DecRun(j), j);
    assert FinishStep(Decide(j), j) && FinishStep(CloseDone(j), j);
  }

  /** Who came to wait for a command that had not ended, and how each left: with its
      outcome, if it had by then. */
  function WaitersOf(events: seq<Event>): seq<Waiter> {
    if events == [] then []
    else
      var init, e := events[..|events| - 1], events[|events| - 1];
      var ws := WaitersOf(init);
      if e.Wait? && !EndedIn(init, e.job) then ws + [Waiter(e.job, Waiting)]
      else if e.Leave? && e.waiter < |ws| then
        var j := ws[e.waiter].job;
        ws[e.waiter := Waiter(j, if EndedIn(init, j) then LeftWithOutcome else LeftEarly)]
      else ws
  }

  lemma {:induction false} WaitersAreTold(events: seq<Event>)
    requires IsRun(INIT, events)
    ensures Run(INIT, events).waiters == WaitersOf(events)
    decreases |events|
  {
    if events != [] {
      var init, e := events[..|events| - 1], events[|events| - 1];
      RunLast(events);
      WaitersAreTold(init);
      if e.Wait? { SettleIsTold(init, e.job); }
      if e.Leave? {
        LeaversKnown(init, e.waiter);
        SettleIsTold(init, Run(INIT, init).waiters[e.waiter].job);
      }
    }
  }

  lemma LeaversKnown(events: seq<Event>, w: nat)
    requires IsRun(INIT, events) && w < |Run(INIT, events).waiters|
    ensures Run(INIT, events).waiters[w].job < |Run(INIT, events).jobs|
  {
    RunInv(events);
  }

  /** When its notice was decided, the job was not muted and nobody waited for it. */
  ghost predicate NoticeDue(events: seq<Event>, j: nat) {
    exists k :: 0 <= k < |events| && events[k] == Decide(j) && NobodyLooks(events[..k], j)
  }

  ghost predicate NobodyLooks(events: seq<Event>, j: nat) {
    !MutedBy(events, j) && forall w :: 0 <= w < |WaitersOf(events)| ==> WaitersOf(events)[w] != Waiter(j, Waiting)
  }

  lemma NoticeDueMore(events: seq<Event>, e: Event, j: nat)
    ensures NoticeDue(events + [e], j) <==> NoticeDue(events, j) || (e == Decide(j) && NobodyLooks(events, j))
  {
    var all := events + [e];
    forall k | 0 <= k <= |events| ensures all[..k] == events[..k] {}
    assert events[..|events|] == events;
    if k :| 0 <= k < |events| && events[k] == Decide(j) && NobodyLooks(events[..k], j) {
      assert all[k] == Decide(j) && NobodyLooks(all[..k], j);
    }
    if e == Decide(j) && NobodyLooks(events, j) {
      assert all[|events|] == Decide(j) && NobodyLooks(all[..|events|], j);
    }
    if k :| 0 <= k < |all| && all[k] == Decide(j) && NobodyLooks(all[..k], j) {
      assert k < |events| ==> events[k] == Decide(j) && NobodyLooks(events[..k], j);
    }
  }

  lemma NoticeField(s: State, e: Event, j: nat)
    requires Enabled(s, e) && JobInv(JobAt(s, j))
    ensures var b, a := JobAt(s, j), JobAt(Next(s, e), j);
            a.notice <==> b.notice || (e == Decide(j) && !b.muted && WaitingOn(s, j) == {})
  {
    if j < |s.jobs| { StepJob(s, e, j); }
  }

  lemma NobodyWaits(waiters: seq<Waiter>, j: nat)
    ensures WaitingIn(waiters, j) == {} <==>
            forall w :: 0 <= w < |waiters| ==> waiters[w] != Waiter(j, Waiting)
  {
    forall w | 0 <= w < |waiters| && waiters[w] == Waiter(j, Waiting) ensures w in WaitingIn(waiters, j) {}
  }

  /** In every run, the notice of a job goes out exactly if, when it was decided, the
      job was not muted and nobody waited for it. */
  lemma {:induction false} NoticeIsTold(events: seq<Event>, j: nat)
    requires IsRun(INIT, events)
    ensures JobAt(Run(INIT, events), j).notice <==> NoticeDue(events, j)
    decreases |events|
  {
    if events != [] {
      var init, e := events[..|events| - 1], events[|events| - 1];
      RunLast(events);
      NoticeIsTold(init, j);
      assert events == init + [e];
      NoticeDueMore(init, e, j);
      InvAt(init, j);
      NoticeField(Run(INIT, init), e, j);
      EndIsTold(init, j);
      WaitersAreTold(init);
      NobodyWaits(WaitersOf(init), j);
    }
  }

  // ---- The harness's numbers and counts ----

  function Made(events: seq<Event>): nat {
    if events == [] then 0 else Made(events[..|events| - 1]) + if events[|events| - 1].NewJob? then 1 else 0
  }

  /** What each number went to: a spilled output, or a job that was settled, for the
      first time, before its command ended. */
  function NumbersOf(events: seq<Event>): seq<Number> {
    if events == [] then []
    else
      var init, e := events[..|events| - 1], events[|events| - 1];
      NumbersOf(init) +
      if e.Spill? then [OfSpill]
      else if e.Settle? && Settle(e.job) !in init && !EndedIn(init, e.job) then [OfJob(e.job)]
      else []
  }

  /** The promoted jobs that finish has not taken off the count. */
  ghost function RunningIn(events: seq<Event>): set<nat> {
    set j | 0 <= j < Made(events) && SettledEarly(events, j) && DecRun(j) !in events
  }

  lemma {:induction false} NumbersAreTold(events: seq<Event>)
    requires IsRun(INIT, events)
    ensures var s := Run(INIT, events); s.issued == NumbersOf(events) && |s.jobs| == Made(events)
    decreases |events|
  {
    if events != [] {
      var init, e := events[..|events| - 1], events[|events| - 1];
      RunLast(events);
      NumbersAreTold(init);
      if e.Settle? { SettleIsTold(init, e.job); }
    }
  }

  lemma {:induction false} CountIsSet(jobs: seq<Job>, ids: set<nat>, from: nat)
    requires forall j :: j in ids <==> from <= j < from + |jobs| && Counted(jobs[j - from])
    ensures CountRunning(jobs) == |ids|
  {
    if jobs == [] {
      assert ids == {};
    } else {
      var rest := ids - {from};
      forall j ensures j in rest <==> from + 1 <= j < from + 1 + |jobs[1..]| && Counted(jobs[1..][j - from - 1]) {}
      CountIsSet(jobs[1..], rest, from + 1);
      if from in ids { assert ids == rest + {from}; } else { assert ids == rest; }
    }
  }

  /** In every run: the numbers given are these, a promoted job has the one it was
      given and is found under it, as is no other; bgRun counts those still running,
      and bgLive holds the jobs that have not left it. */
  lemma CountsAreTold(events: seq<Event>)
    requires IsRun(INIT, events)
    ensures var s := Run(INIT, events);
            && s.bgSeq == |NumbersOf(events)|
            && s.bgRun == |RunningIn(events)|
            && s.bgLive == (set j | 0 <= j < Made(events) && LeaveLive(j) !in events)
            && (forall j :: 0 <= j < |s.jobs| && s.jobs[j].bg ==>
                  0 < s.jobs[j].id <= s.bgSeq && NumbersOf(events)[s.jobs[j].id - 1] == OfJob(j)
                  && s.jobs[j].id in s.bgJobs && s.bgJobs[s.jobs[j].id] == j)
            && (forall n :: n in s.bgJobs ==> 0 < n <= s.bgSeq && NumbersOf(events)[n - 1] == OfJob(s.bgJobs[n]))
  {
    var s := Run(INIT, events);
    RunInv(events);
    NumbersAreTold(events);
    forall j | 0 <= j < |s.jobs|
      ensures (Counted(s.jobs[j]) <==> j in RunningIn(events)) && (Live(s.jobs[j]) <==> LeaveLive(j) !in events)
    {
      SettleIsTold(events, j);
      StageIsTold(events, j);
      assert JobInv(s.jobs[j]);
    }
    CountIsSet(s.jobs, RunningIn(events), 0);
    forall j | 0 <= j < |s.jobs| && s.jobs[j].bg ensures HasNumber(s, j) {}
  }
}
