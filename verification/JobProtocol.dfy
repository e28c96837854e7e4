/** Who reports a command: the provisional job of bgjob.go, raced by its tool
    call, its own end, kills and waiters (bgkill.go, jobs.go).

    Every event is one critical section, so a run is any interleaving. finish is
    five of them: mark done, leave bgLive, decrement bgRun, decide the notice,
    close doneCh. settle's section holds the job's lock and, inside it, the
    harness's. Jobs and waiters are named by the order they came in. */
module JobProtocol {
  import opened Wrappers

  /** How far finish has come. */
  datatype Stage = Running | MarkedDone | LeftLive | Decremented | Decided | Closed

  datatype Job = Job(
    done: bool, settled: bool, bg: bool, id: nat, muted: bool,
    killedBy: Option<string>, failed: bool, verdict: Option<string>,
    stage: Stage,
    bgAtDone: bool,          // finish's local bg
    promoteDue: bool,        // settle has promoted and is about to close promoteCh
    promoteClosed: bool, doneClosed: bool,   // the two channels
    inlineAnswers: nat,      // history: settles that returned the result
    notice: bool,            // history: the completion notice was sent
    atDecision: Decision)    // history: what completionNote saw

  /** The mute flag, the waiters counted, and whether one had left with the
      outcome, when the notice was decided. */
  datatype Decision = Undecided | Saw(muted: bool, waiting: set<nat>, oneLeft: bool)

  datatype Where = Waiting | LeftWithOutcome | LeftEarly

  datatype Waiter = Waiter(job: nat, at: Where)

  datatype Number = OfJob(job: nat) | OfSpill

  datatype State = State(
    jobs: seq<Job>, waiters: seq<Waiter>,
    bgSeq: nat, bgRun: int, bgJobs: map<nat, nat>, bgLive: set<nat>,
    issued: seq<Number>)     // history: what each number 1, 2, ... was given to

  const INIT := State([], [], 0, 0, map[], {}, [])

  const NEW_JOB := Job(false, false, false, 0, false, None, false, None, Running, false,
                       false, false, false, 0, false, Undecided)

  datatype Event =
    | NewJob
    | Settle(job: nat)
    | ClosePromote(job: nat)
    | MarkDone(job: nat, failed: bool)
    | LeaveLive(job: nat)
    | DecRun(job: nat)
    | Decide(job: nat)
    | CloseDone(job: nat)
    | Kill(job: nat, who: string)
    | Wait(job: nat)
    | Leave(waiter: nat)
    | Mute(job: nat, on: bool)
    | Spill

  predicate Enabled(s: State, e: Event) {
    match e
    case NewJob => true
    case Settle(j) => j < |s.jobs|
    case ClosePromote(j) => j < |s.jobs| && s.jobs[j].promoteDue
    case MarkDone(j, _) => j < |s.jobs| && s.jobs[j].stage == Running
    case LeaveLive(j) => j < |s.jobs| && s.jobs[j].stage == MarkedDone
    case DecRun(j) => j < |s.jobs| && s.jobs[j].stage == LeftLive && s.jobs[j].bgAtDone
    case Decide(j) => j < |s.jobs| && s.jobs[j].stage == Decremented
    case CloseDone(j) =>
      j < |s.jobs| && ((s.jobs[j].stage == LeftLive && !s.jobs[j].bgAtDone) || s.jobs[j].stage == Decided)
    case Kill(j, _) => j < |s.jobs|
    case Wait(j) => j < |s.jobs|
    case Leave(w) => w < |s.waiters| && s.waiters[w].at == Waiting
    case Mute(j, _) => j < |s.jobs|
    case Spill => true
  }

  // ---- What each event does ----

  function WaitingOn(s: State, j: nat): set<nat> {
    WaitingIn(s.waiters, j)
  }

  function WaitingIn(waiters: seq<Waiter>, j: nat): set<nat> {
    set w | 0 <= w < |waiters| && waiters[w] == Waiter(j, Waiting)
  }

  predicate OneLeft(s: State, j: nat) {
    exists w :: 0 <= w < |s.waiters| && s.waiters[w] == Waiter(j, LeftWithOutcome)
  }

  /** settle, on the job alone. */
  function Settled(job: Job, number: nat): Job {
    if Promotes(job) then Promoted(job, number) else if Answers(job) then Answered(job) else job
  }

  function Promoted(job: Job, number: nat): Job {
    job.(settled := true, bg := true, id := number, promoteDue := true)
  }

  function Answered(job: Job): Job {
    job.(settled := true, inlineAnswers := job.inlineAnswers + 1)
  }

  predicate Promotes(job: Job) { !job.settled && !job.done }

  predicate Answers(job: Job) { if job.settled then !job.bg else job.done }

  function Marked(job: Job, failed: bool): Job {
    job.(done := true, stage := MarkedDone, bgAtDone := job.bg, failed := failed,
         verdict := if failed then job.killedBy else None)
  }

  function Noticed(s: State, j: nat): Job
    requires j < |s.jobs|
  {
    var job := s.jobs[j];
    job.(stage := Decided, notice := !job.muted && WaitingOn(s, j) == {},
         atDecision := Saw(job.muted, WaitingOn(s, j), OneLeft(s, j)))
  }

  function Put(s: State, j: nat, job: Job): State {
    if j < |s.jobs| then s.(jobs := s.jobs[j := job]) else s
  }

  function Numbered(s: State, j: nat): State {
    s.(bgSeq := s.bgSeq + 1, bgRun := s.bgRun + 1, bgJobs := s.bgJobs[s.bgSeq + 1 := j],
      issued := s.issued + [OfJob(j)])
  }

  /** The job an event works on. */
  function Subject(e: Event): Option<nat> {
    match e
    case Settle(j) => Some(j)
    case ClosePromote(j) => Some(j)
    case MarkDone(j, _) => Some(j)
    case LeaveLive(j) => Some(j)
    case DecRun(j) => Some(j)
    case Decide(j) => Some(j)
    case CloseDone(j) => Some(j)
    case Kill(j, _) => Some(j)
    case Mute(j, _) => Some(j)
    case _ => None
  }

  /** What it makes of that job. */
  function Became(s: State, e: Event): Job
    requires Enabled(s, e) && Subject(e).Some?
  {
    var job := s.jobs[e.job];
    match e
    case Settle(_) => Settled(job, s.bgSeq + 1)
    case ClosePromote(_) => job.(promoteDue := false, promoteClosed := true)
    case MarkDone(_, failed) => Marked(job, failed)
    case LeaveLive(_) => job.(stage := LeftLive)
    case DecRun(_) => job.(stage := Decremented)
    case Decide(j) => Noticed(s, j)
    case CloseDone(_) => job.(stage := Closed, doneClosed := true)
    case Kill(_, who) => if job.done || job.killedBy.Some? then job else job.(killedBy := Some(who))
    case Mute(_, on) => job.(muted := on)
  }

  function Next(s: State, e: Event): State
    requires Enabled(s, e)
  {
    match e
    case NewJob => s.(jobs := s.jobs + [NEW_JOB], bgLive := s.bgLive + {|s.jobs|})
    case Wait(j) => if s.jobs[j].done then s else s.(waiters := s.waiters + [Waiter(j, Waiting)])
    case Leave(w) =>
      var j := s.waiters[w].job;
      s.(waiters := s.waiters[w := Waiter(j, if j < |s.jobs| && s.jobs[j].done then LeftWithOutcome else LeftEarly)])
    case Spill => s.(bgSeq := s.bgSeq + 1, issued := s.issued + [OfSpill])
    case Settle(j) => if Promotes(s.jobs[j]) then Numbered(Put(s, j, Became(s, e)), j) else Put(s, j, Became(s, e))
    case LeaveLive(j) => Put(s, j, Became(s, e)).(bgLive := s.bgLive - {j})
    case DecRun(j) => Put(s, j, Became(s, e)).(bgRun := s.bgRun - 1)
    case _ => Put(s, e.job, Became(s, e))
  }

  /** No other job changes. */
  lemma StepJob(s: State, e: Event, j: nat)
    requires Enabled(s, e) && j < |s.jobs|
    ensures j < |Next(s, e).jobs|
    ensures Next(s, e).jobs[j] == if Subject(e) == Some(j) then Became(s, e) else s.jobs[j]
  {}

  ghost predicate IsRun(s: State, events: seq<Event>)
    decreases |events|
  {
    events == [] || (Enabled(s, events[0]) && IsRun(Next(s, events[0]), events[1..]))
  }

  function Run(s: State, events: seq<Event>): State
    requires IsRun(s, events)
    decreases |events|
  {
    if events == [] then s else Run(Next(s, events[0]), events[1..])
  }

  // ---- One job ----

  /** One of the two reports, and the two flags say which: the tool call that got
      the result, or the background job. A promoted job's promoteCh is closed or
      about to be, not both, and it alone has a number. */
  predicate Reported(job: Job) {
    && (job.settled <==> job.bg || job.inlineAnswers > 0)
    && !(job.bg && job.inlineAnswers > 0)
    && (job.inlineAnswers > 0 ==> job.done)
    && (job.promoteDue || job.promoteClosed <==> job.bg) && !(job.promoteDue && job.promoteClosed)
    && (job.bg <==> job.id != 0)
  }

  predicate Finishing(job: Job) {
    && (job.done <==> job.stage != Running)
    && (job.done ==> job.bgAtDone == job.bg)
    && (job.stage in {Decremented, Decided} ==> job.bg)
    && (job.doneClosed <==> job.stage == Closed)
    && job.verdict == (if job.done && job.failed then job.killedBy else None)
  }

  /** The notice goes out exactly to an unmuted job nobody waits for. */
  predicate Notices(job: Job) {
    && (job.atDecision.Saw? <==> job.bg && job.stage in {Decided, Closed})
    && job.notice == (job.atDecision.Saw? && !job.atDecision.muted && job.atDecision.waiting == {})
  }

  ghost predicate JobsInv(s: State) {
    forall j :: 0 <= j < |s.jobs| ==> JobInv(s.jobs[j])
  }

  predicate JobInv(job: Job) {
    Reported(job) && Finishing(job) && Notices(job)
  }

  lemma SettledInv(job: Job, number: nat)
    requires JobInv(job) && number > 0
    ensures JobInv(Settled(job, number))
  {}

  lemma FinishInv(s: State, j: nat, failed: bool)
    requires j < |s.jobs| && JobInv(s.jobs[j])
    ensures s.jobs[j].stage == Running ==> JobInv(Marked(s.jobs[j], failed))
    ensures s.jobs[j].stage == Decremented ==> JobInv(Noticed(s, j))
  {}

  lemma NextJobsInv(s: State, e: Event)
    requires JobsInv(s) && Enabled(s, e)
    ensures JobsInv(Next(s, e))
  {
    match e
    case Settle(j) => SettledInv(s.jobs[j], s.bgSeq + 1);
    case MarkDone(j, failed) => FinishInv(s, j, failed);
    case Decide(j) => FinishInv(s, j, false);
    case _ =>
  }

  // ---- Numbers ----

  /** Numbers are given once, 1, 2, 3, ...; a promoted job has the one it was
      given, and is found under it. */
  ghost predicate NumbersInv(s: State) {
    && s.bgSeq == |s.issued|
    && (forall j :: 0 <= j < |s.jobs| && s.jobs[j].bg ==> HasNumber(s, j))
    && (forall n :: 0 <= n < |s.issued| && s.issued[n].OfJob? ==>
          s.issued[n].job < |s.jobs| && s.jobs[s.issued[n].job].bg && s.jobs[s.issued[n].job].id == n + 1)
    && (forall n :: n in s.bgJobs ==> 0 < n <= |s.issued| && s.issued[n - 1] == OfJob(s.bgJobs[n]))
  }

  predicate HasNumber(s: State, j: nat)
    requires j < |s.jobs|
  {
    && 0 < s.jobs[j].id <= |s.issued| && s.issued[s.jobs[j].id - 1] == OfJob(j)
    && s.jobs[j].id in s.bgJobs && s.bgJobs[s.jobs[j].id] == j
  }

  lemma SameNumbers(s: State, n: State)
    requires NumbersInv(s) && n.bgSeq == s.bgSeq && n.issued == s.issued && n.bgJobs == s.bgJobs
    requires |n.jobs| >= |s.jobs| && forall j :: 0 <= j < |s.jobs| ==>
             n.jobs[j].bg == s.jobs[j].bg && n.jobs[j].id == s.jobs[j].id
    requires forall j :: |s.jobs| <= j < |n.jobs| ==> !n.jobs[j].bg
    ensures NumbersInv(n)
  {
    forall j | 0 <= j < |n.jobs| && n.jobs[j].bg ensures HasNumber(n, j) {
      assert HasNumber(s, j);
    }
  }

  lemma PromoteNumbers(s: State, j: nat)
    requires NumbersInv(s) && j < |s.jobs| && Promotes(s.jobs[j]) && !s.jobs[j].bg
    ensures NumbersInv(Next(s, Settle(j)))
  {
    var n := Next(s, Settle(j));
    forall i | 0 <= i < |n.jobs| && n.jobs[i].bg ensures HasNumber(n, i) {
      if i != j { assert HasNumber(s, i); }
    }
  }

  lemma SpillNumbers(s: State)
    requires NumbersInv(s)
    ensures NumbersInv(Next(s, Spill))
  {
    var n := Next(s, Spill);
    forall i | 0 <= i < |n.jobs| && n.jobs[i].bg ensures HasNumber(n, i) {
      assert HasNumber(s, i);
    }
  }

  /** An event that neither promotes nor spills gives no number. */
  lemma OtherNumbers(s: State, e: Event)
    requires NumbersInv(s) && Enabled(s, e) && !e.Spill? && !(e.Settle? && Promotes(s.jobs[e.job]))
    ensures NumbersInv(Next(s, e))
  {
    var n := Next(s, e);
    assert n.bgSeq == s.bgSeq && n.issued == s.issued && n.bgJobs == s.bgJobs;
    assert |n.jobs| == |s.jobs| + if e.NewJob? then 1 else 0;
    SameNumbers(s, n);
  }

  lemma NextNumbersInv(s: State, e: Event)
    requires JobsInv(s) && NumbersInv(s) && Enabled(s, e)
    ensures NumbersInv(Next(s, e))
  {
    if e.Settle? && Promotes(s.jobs[e.job]) {
      assert JobInv(s.jobs[e.job]);
      PromoteNumbers(s, e.job);
    } else if e.Spill? {
      SpillNumbers(s);
    } else {
      OtherNumbers(s, e);
    }
  }

  // ---- The count of running jobs ----

  predicate Counted(job: Job) {
    job.bg && job.stage in {Running, MarkedDone, LeftLive}
  }

  function CountRunning(jobs: seq<Job>): nat {
    if jobs == [] then 0 else (if Counted(jobs[0]) then 1 else 0) + CountRunning(jobs[1..])
  }

  predicate Live(job: Job) { job.stage in {Running, MarkedDone} }

  /** bgRun counts the promoted jobs finish has not taken off it, so it is never
      negative; bgLive holds the jobs finish has not left. */
  ghost predicate CountInv(s: State) {
    && s.bgRun == CountRunning(s.jobs)
    && s.bgLive == set j | 0 <= j < |s.jobs| && Live(s.jobs[j])
  }

  lemma {:induction false} CountPut(jobs: seq<Job>, j: nat, job: Job)
    requires j < |jobs|
    ensures CountRunning(jobs[j := job]) ==
            CountRunning(jobs) - (if Counted(jobs[j]) then 1 else 0) + (if Counted(job) then 1 else 0)
  {
    if j == 0 {
      assert jobs[0 := job][1..] == jobs[1..];
    } else {
      assert jobs[j := job][1..] == jobs[1..][j - 1 := job];
      CountPut(jobs[1..], j - 1, job);
    }
  }

  lemma {:induction false} CountAppend(jobs: seq<Job>, job: Job)
    ensures CountRunning(jobs + [job]) == CountRunning(jobs) + (if Counted(job) then 1 else 0)
  {
    if jobs == [] {
      assert [job][1..] == [];
    } else {
      assert (jobs + [job])[1..] == jobs[1..] + [job];
      CountAppend(jobs[1..], job);
    }
  }

  lemma PutCountInv(s: State, j: nat, job: Job, run: int, live: set<nat>)
    requires CountInv(s) && j < |s.jobs|
    requires run == s.bgRun - (if Counted(s.jobs[j]) then 1 else 0) + (if Counted(job) then 1 else 0)
    requires live == if Live(job) then s.bgLive + {j} else s.bgLive - {j}
    ensures CountInv(Put(s, j, job).(bgRun := run, bgLive := live))
  {
    CountPut(s.jobs, j, job);
  }

  /** The job an event changes, and what it makes of it. */
  function Changed(s: State, e: Event): Option<(nat, Job)>
    requires Enabled(s, e)
  {
    match e
    case Settle(j) => Some((j, Settled(s.jobs[j], s.bgSeq + 1)))
    case MarkDone(j, failed) => Some((j, Marked(s.jobs[j], failed)))
    case Decide(j) => Some((j, Noticed(s, j)))
    case ClosePromote(j) => Some((j, Next(s, e).jobs[j]))
    case LeaveLive(j) => Some((j, Next(s, e).jobs[j]))
    case DecRun(j) => Some((j, Next(s, e).jobs[j]))
    case CloseDone(j) => Some((j, Next(s, e).jobs[j]))
    case Kill(j, _) => Some((j, Next(s, e).jobs[j]))
    case Mute(j, _) => Some((j, Next(s, e).jobs[j]))
    case _ => None
  }

  lemma ChangedCounts(s: State, e: Event)
    requires JobsInv(s) && Enabled(s, e) && Changed(s, e).Some? && CountInv(s)
    ensures var (j, job) := Changed(s, e).value;
            var n := Next(s, e);
            && j < |s.jobs| && n.jobs == s.jobs[j := job]
            && n.bgRun == s.bgRun - (if Counted(s.jobs[j]) then 1 else 0) + (if Counted(job) then 1 else 0)
            && n.bgLive == if Live(job) then s.bgLive + {j} else s.bgLive - {j}
  {
    var (j, job) := Changed(s, e).value;
    assert JobInv(s.jobs[j]);
    assert s.jobs[j := s.jobs[j]] == s.jobs;
  }

  lemma NextCountInv(s: State, e: Event)
    requires JobsInv(s) && CountInv(s) && Enabled(s, e)
    ensures CountInv(Next(s, e))
  {
    if Changed(s, e).Some? {
      var (j, job) := Changed(s, e).value;
      ChangedCounts(s, e);
      PutCountInv(s, j, job, Next(s, e).bgRun, Next(s, e).bgLive);
    } else if e.NewJob? {
      CountAppend(s.jobs, NEW_JOB);
    }
  }

  // ---- Waiters ----

  /** A waiter that left with the outcome left a finished job; those counted when
      the notice was decided wait on, or left with the outcome. */
  ghost predicate WaitersInv(s: State) {
    && (forall w :: 0 <= w < |s.waiters| ==> s.waiters[w].job < |s.jobs|)
    && (forall w :: 0 <= w < |s.waiters| && s.waiters[w].at == LeftWithOutcome ==> s.jobs[s.waiters[w].job].done)
    && (forall j :: 0 <= j < |s.jobs| && s.jobs[j].atDecision.Saw? ==> SawTruly(s, j))
  }

  ghost predicate SawTruly(s: State, j: nat)
    requires j < |s.jobs| && s.jobs[j].atDecision.Saw?
  {
    var saw := s.jobs[j].atDecision;
    && (forall w :: w in saw.waiting ==> w < |s.waiters| && s.waiters[w].job == j && s.waiters[w].at != LeftEarly)
    && (forall w :: 0 <= w < |s.waiters| && s.waiters[w] == Waiter(j, Waiting) ==> w in saw.waiting)
    && (saw.waiting == {} ==> (OneLeft(s, j) <==> saw.oneLeft))
  }

  /** An event that touches no waiter and decides nothing. */
  lemma SameWaiters(s: State, n: State)
    requires WaitersInv(s) && n.waiters == s.waiters && |s.jobs| <= |n.jobs|
    requires forall j :: 0 <= j < |s.jobs| ==>
             n.jobs[j].atDecision == s.jobs[j].atDecision && (s.jobs[j].done ==> n.jobs[j].done)
    requires forall j :: |s.jobs| <= j < |n.jobs| ==> n.jobs[j].atDecision == Undecided
    ensures WaitersInv(n)
  {
    forall j | 0 <= j < |n.jobs| && n.jobs[j].atDecision.Saw? ensures SawTruly(n, j) {
      assert SawTruly(s, j);
    }
  }

  lemma DecideWaiters(s: State, j: nat)
    requires WaitersInv(s) && Enabled(s, Decide(j))
    ensures WaitersInv(Next(s, Decide(j)))
  {
    var n := Next(s, Decide(j));
    forall i | 0 <= i < |n.jobs| && n.jobs[i].atDecision.Saw? ensures SawTruly(n, i) {
      if i != j { assert SawTruly(s, i); }
    }
  }

  lemma WaitWaiters(s: State, j: nat)
    requires JobsInv(s) && WaitersInv(s) && j < |s.jobs| && !s.jobs[j].done
    ensures WaitersInv(Next(s, Wait(j)))
  {
    var n := Next(s, Wait(j));
    forall i | 0 <= i < |n.jobs| && n.jobs[i].atDecision.Saw? ensures SawTruly(n, i) {
      assert SawTruly(s, i) && JobInv(s.jobs[i]);
      assert i != j;
      if w :| 0 <= w < |s.waiters| && s.waiters[w] == Waiter(i, LeftWithOutcome) {
        assert n.waiters[w] == Waiter(i, LeftWithOutcome);
      }
    }
  }

  lemma LeaveWaiters(s: State, w: nat)
    requires JobsInv(s) && WaitersInv(s) && Enabled(s, Leave(w))
    ensures WaitersInv(Next(s, Leave(w)))
  {
    var n := Next(s, Leave(w));
    forall i | 0 <= i < |n.jobs| && n.jobs[i].atDecision.Saw? ensures SawTruly(n, i) {
      assert SawTruly(s, i) && JobInv(s.jobs[i]);
      if s.jobs[i].atDecision.waiting == {} {
        assert s.waiters[w].job != i;
        if v :| 0 <= v < |s.waiters| && s.waiters[v] == Waiter(i, LeftWithOutcome) {
          assert n.waiters[v] == Waiter(i, LeftWithOutcome);
        }
      }
    }
  }

  lemma NextWaitersInv(s: State, e: Event)
    requires JobsInv(s) && WaitersInv(s) && Enabled(s, e)
    ensures WaitersInv(Next(s, e))
  {
    match e
    case Decide(j) => DecideWaiters(s, j);
    case Wait(j) => if !s.jobs[j].done { WaitWaiters(s, j); }
    case Leave(w) => LeaveWaiters(s, w);
    case _ => SameWaiters(s, Next(s, e));
  }

  // ---- Every run ----

  ghost predicate Inv(s: State) {
    JobsInv(s) && NumbersInv(s) && CountInv(s) && WaitersInv(s)
  }

  lemma {:induction false} InvKept(s: State, events: seq<Event>)
    requires Inv(s) && IsRun(s, events)
    ensures Inv(Run(s, events))
    decreases |events|
  {
    if events != [] {
      NextJobsInv(s, events[0]);
      NextNumbersInv(s, events[0]);
      NextCountInv(s, events[0]);
      NextWaitersInv(s, events[0]);
      InvKept(Next(s, events[0]), events[1..]);
    }
  }

  /** In every run from the start. */
  lemma RunInv(events: seq<Event>)
    requires IsRun(INIT, events)
    ensures Inv(Run(INIT, events))
  {
    InvKept(INIT, events);
  }

  /** Exactly one of the two speaks: in every run a command that is done and
      settled is reported inline or by the background job, never both. */
  lemma ExactlyOneReporter(events: seq<Event>, j: nat)
    requires IsRun(INIT, events) && j < |Run(INIT, events).jobs|
    ensures var job := Run(INIT, events).jobs[j];
            && (job.settled ==> (job.bg <==> job.inlineAnswers == 0))
            && (job.inlineAnswers > 0 ==> job.done && !job.notice && job.id == 0)
            && (job.promoteClosed ==> job.bg && !job.promoteDue)
  {
    RunInv(events);
    assert JobInv(Run(INIT, events).jobs[j]);
  }

  /** Neither channel is ever closed twice, which would panic. */
  lemma ClosedOnce(events: seq<Event>, e: Event)
    requires IsRun(INIT, events) && Enabled(Run(INIT, events), e)
    ensures var s := Run(INIT, events);
            && (e.ClosePromote? ==> !s.jobs[e.job].promoteClosed)
            && (e.CloseDone? ==> !s.jobs[e.job].doneClosed)
  {
    RunInv(events);
    ClosedOnceHere(Run(INIT, events), e);
  }

  lemma ClosedOnceHere(s: State, e: Event)
    requires JobsInv(s) && Enabled(s, e)
    ensures e.ClosePromote? ==> !s.jobs[e.job].promoteClosed
    ensures e.CloseDone? ==> !s.jobs[e.job].doneClosed
  {
    if e.ClosePromote? || e.CloseDone? { assert JobInv(s.jobs[e.job]); }
  }

  lemma StepSettled(s: State, e: Event, j: nat)
    requires Enabled(s, e) && j < |s.jobs| && s.jobs[j].settled
    ensures var n := Next(s, e);
            j < |n.jobs| && n.jobs[j].settled && n.jobs[j].bg == s.jobs[j].bg && n.jobs[j].id == s.jobs[j].id
  {
    StepJob(s, e, j);
  }

  /** Who reports is decided once: no later settle, finish or kill changes it. */
  lemma {:induction false} SettledForever(s: State, events: seq<Event>, j: nat)
    requires IsRun(s, events) && j < |s.jobs| && s.jobs[j].settled
    ensures var n := Run(s, events);
            j < |n.jobs| && n.jobs[j].settled && n.jobs[j].bg == s.jobs[j].bg && n.jobs[j].id == s.jobs[j].id
    decreases |events|
  {
    if events != [] {
      StepSettled(s, events[0], j);
      SettledForever(Next(s, events[0]), events[1..], j);
    }
  }

  lemma NumbersDiffer(s: State, i: nat, j: nat, n: nat)
    requires NumbersInv(s) && i < |s.jobs| && j < |s.jobs| && s.jobs[i].bg
    ensures i != j && s.jobs[j].bg ==> s.jobs[i].id != s.jobs[j].id
    ensures n < |s.issued| && s.issued[n] == OfSpill ==> s.jobs[i].id != n + 1
  {
    assert HasNumber(s, i) && (s.jobs[j].bg ==> HasNumber(s, j));
  }

  /** Two promoted jobs never share a number, nor does one have the number of a
      spilled output, and the count of running jobs is never negative. */
  lemma NumbersAreUnique(events: seq<Event>, i: nat, j: nat, n: nat)
    requires IsRun(INIT, events)
    ensures var s := Run(INIT, events);
            && s.bgRun >= 0
            && (i < |s.jobs| && j < |s.jobs| && i != j && s.jobs[i].bg && s.jobs[j].bg ==> s.jobs[i].id != s.jobs[j].id)
            && (i < |s.jobs| && s.jobs[i].bg && n < |s.issued| && s.issued[n] == OfSpill ==> s.jobs[i].id != n + 1)
  {
    RunInv(events);
    var s := Run(INIT, events);
    if i < |s.jobs| && s.jobs[i].bg { NumbersDiffer(s, i, if j < |s.jobs| then j else i, n); }
  }

  /** A number given later is larger than every number given before. */
  lemma {:induction false} NumbersIncrease(s: State, events: seq<Event>)
    requires IsRun(s, events)
    ensures s.issued <= Run(s, events).issued
            && (s.bgSeq == |s.issued| ==> Run(s, events).bgSeq == |Run(s, events).issued|)
    decreases |events|
  {
    if events != [] { NumbersIncrease(Next(s, events[0]), events[1..]); }
  }

  lemma DecisionKeeps(s: State, j: nat)
    requires Inv(s) && j < |s.jobs| && s.jobs[j].atDecision.Saw? && !s.jobs[j].atDecision.muted
    ensures s.jobs[j].notice
            || (exists w :: 0 <= w < |s.waiters| && s.waiters[w].job == j && s.waiters[w].at != LeftEarly)
    ensures WaitingOn(s, j) == {} ==> s.jobs[j].notice || OneLeft(s, j)
  {
    assert JobInv(s.jobs[j]) && SawTruly(s, j);
    if !s.jobs[j].notice {
      var w :| w in s.jobs[j].atDecision.waiting;
      assert s.waiters[w].job == j && s.waiters[w].at != LeftEarly;
      if WaitingOn(s, j) == {} {
        assert w !in WaitingOn(s, j);
        assert s.waiters[w] == Waiter(j, LeftWithOutcome);
      }
    }
  }

  /** No outcome is lost: a finished background job has had its notice decided,
      and if it was not muted then, either the notice was sent, or some waiter
      counted then still waits or has left with the outcome. When nobody waits
      any more, one of the two has spoken. */
  lemma NoOutcomeLost(events: seq<Event>, j: nat)
    requires IsRun(INIT, events) && j < |Run(INIT, events).jobs|
    ensures var s := Run(INIT, events);
            var job := s.jobs[j];
            && (job.bg && job.stage in {Decided, Closed} <==> job.atDecision.Saw?)
            && (job.atDecision.Saw? && !job.atDecision.muted ==>
                  && (|| job.notice
                      || exists w :: 0 <= w < |s.waiters| && s.waiters[w].job == j && s.waiters[w].at != LeftEarly)
                  && (WaitingOn(s, j) == {} ==> job.notice || OneLeft(s, j)))
  {
    RunInv(events);
    var s := Run(INIT, events);
    assert JobInv(s.jobs[j]);
    if s.jobs[j].atDecision.Saw? && !s.jobs[j].atDecision.muted { DecisionKeeps(s, j); }
  }

  /** A wait that stopped early never kept a notice from being sent. */
  lemma EarlyStopSuppressesNothing(events: seq<Event>, w: nat, j: nat)
    requires IsRun(INIT, events) && w < |Run(INIT, events).waiters| && Run(INIT, events).waiters[w].at == LeftEarly
    requires j < |Run(INIT, events).jobs| && Run(INIT, events).jobs[j].atDecision.Saw?
    ensures w !in Run(INIT, events).jobs[j].atDecision.waiting
  {
    RunInv(events);
    assert SawTruly(Run(INIT, events), j);
  }

  /** At least once is all it is: the notice and a waiter both speak exactly when
      the job was unmuted, nobody waited any more when the notice was decided,
      and someone who had waited left between the end and that decision. */
  lemma BothSpeak(events: seq<Event>, j: nat)
    requires IsRun(INIT, events) && j < |Run(INIT, events).jobs| && Run(INIT, events).jobs[j].atDecision.Saw?
    ensures var s := Run(INIT, events);
            var saw := s.jobs[j].atDecision;
            s.jobs[j].notice && OneLeft(s, j) <==> !saw.muted && saw.waiting == {} && saw.oneLeft
  {
    RunInv(events);
    assert JobInv(Run(INIT, events).jobs[j]) && SawTruly(Run(INIT, events), j);
  }

  lemma AnswerThenNotice(s: State) returns (events: seq<Event>)
    requires |s.jobs| == 1 && s.waiters == [Waiter(0, Waiting)]
    requires var job := s.jobs[0]; job.stage == Running && job.bg && !job.muted
    ensures IsRun(s, events) && |Run(s, events).jobs| == 1 && Run(s, events).jobs[0].notice
            && OneLeft(Run(s, events), 0)
  {
    var s4 := Next(s, MarkDone(0, false));
    var s5 := Next(s4, Leave(0));
    var s6 := Next(s5, LeaveLive(0));
    var s7 := Next(s6, DecRun(0));
    assert s7.waiters[0] == Waiter(0, LeftWithOutcome);
    events := [];
    Prefix(s7, Decide(0), events);
    events := [Decide(0)] + events;
    Prefix(s6, DecRun(0), events);
    events := [DecRun(0)] + events;
    Prefix(s5, LeaveLive(0), events);
    events := [LeaveLive(0)] + events;
    Prefix(s4, Leave(0), events);
    events := [Leave(0)] + events;
    Prefix(s, MarkDone(0, false), events);
    events := [MarkDone(0, false)] + events;
  }

  /** Such a run. */
  lemma BothDoSpeak() returns (events: seq<Event>)
    ensures IsRun(INIT, events) && |Run(INIT, events).jobs| == 1
    ensures Run(INIT, events).jobs[0].notice && OneLeft(Run(INIT, events), 0)
  {
    var s1 := Next(INIT, NewJob);
    var s2 := Next(s1, Settle(0));
    var s3 := Next(s2, Wait(0));
    events := AnswerThenNotice(s3);
    Prefix(s2, Wait(0), events);
    events := [Wait(0)] + events;
    Prefix(s1, Settle(0), events);
    events := [Settle(0)] + events;
    Prefix(INIT, NewJob, events);
    events := [NewJob] + events;
  }

  lemma Prefix(s: State, e: Event, events: seq<Event>)
    requires Enabled(s, e) && IsRun(Next(s, e), events)
    ensures IsRun(s, [e] + events) && Run(s, [e] + events) == Run(Next(s, e), events)
  {
    assert ([e] + events)[1..] == events;
  }

  /** A kill is the verdict of a failed command that was still running when it
      came, and of no other; the first to ask is the one it names. */
  lemma KillVerdict(events: seq<Event>, j: nat)
    requires IsRun(INIT, events) && j < |Run(INIT, events).jobs|
    ensures var job := Run(INIT, events).jobs[j];
            job.verdict == if job.done && job.failed then job.killedBy else None
  {
    RunInv(events);
    assert JobInv(Run(INIT, events).jobs[j]);
  }

  lemma StepKill(s: State, e: Event, j: nat)
    requires Enabled(s, e) && j < |s.jobs| && (s.jobs[j].killedBy.Some? || s.jobs[j].done)
    ensures var n := Next(s, e);
            j < |n.jobs| && n.jobs[j].killedBy == s.jobs[j].killedBy && (n.jobs[j].done || !s.jobs[j].done)
  {
    StepJob(s, e, j);
  }

  lemma {:induction false} FirstKillStands(s: State, events: seq<Event>, j: nat)
    requires IsRun(s, events) && j < |s.jobs| && (s.jobs[j].killedBy.Some? || s.jobs[j].done)
    ensures j < |Run(s, events).jobs| && Run(s, events).jobs[j].killedBy == s.jobs[j].killedBy
    decreases |events|
  {
    if events != [] {
      StepKill(s, events[0], j);
      FirstKillStands(Next(s, events[0]), events[1..], j);
    }
  }

  // ---- The two objects ----

  class BgJob {
    ghost const index: nat
    var done: bool
    var settled: bool
    var bg: bool
    var id: nat
    var ignore: bool
    var killedBy: Option<string>
    var failed: bool
    var killed: Option<string>
    var waiters: nat
    var promoteClosed: bool
    var doneClosed: bool
    ghost var past: Job

    constructor (ghost index: nat)
      ensures this.index == index && Rec() == NEW_JOB && waiters == 0
    {
      this.index := index;
      done, settled, bg, id, ignore := false, false, false, 0, false;
      killedBy, failed, killed, waiters := None, false, None, 0;
      promoteClosed, doneClosed := false, false;
      past := NEW_JOB;
    }

    /** The fields, with the history. */
    ghost function Rec(): Job
      reads this
    {
      past.(done := done, settled := settled, bg := bg, id := id, muted := ignore,
            killedBy := killedBy, failed := failed, verdict := killed,
            promoteClosed := promoteClosed, doneClosed := doneClosed)
    }

    /** settle's two ends: the answer is in hand, or the job gets a number. */
    method Answer()
      modifies this`settled, this`past
      ensures Rec() == Answered(old(Rec()))
    {
      settled := true;
      past := past.(inlineAnswers := past.inlineAnswers + 1);
    }

    method Promote(number: nat)
      modifies this`settled, this`bg, this`id, this`past
      ensures Rec() == Promoted(old(Rec()), number)
    {
      settled, bg, id := true, true, number;
      past := past.(promoteDue := true);
    }

    /** finish's first section: of a job that was asked to end, the verdict names the
        killer, if the command failed. */
    method MarkDone(failure: bool)
      modifies this`failed, this`killed, this`done, this`past
      ensures Rec() == Marked(old(Rec()), failure)
    {
      failed := failure;
      killed := if failure then killedBy else None;
      done := true;
      past := past.(stage := MarkedDone, bgAtDone := bg);
    }

    /** completionNote. */
    method Note(ghost saw: Decision) returns (send: bool)
      requires saw.Saw? && saw.muted == ignore && waiters == |saw.waiting|
      modifies this`past
      ensures send <==> !ignore && saw.waiting == {}
      ensures Rec() == old(Rec()).(stage := Decided, notice := send, atDecision := saw)
    {
      send := !(ignore || waiters > 0);
      past := past.(stage := Decided, notice := send, atDecision := saw);
    }

    /** kill: false when the job had already finished. */
    method Kill(who: string) returns (ok: bool)
      modifies this`killedBy
      ensures ok <==> !done
      ensures Rec() == if !ok || old(killedBy).Some? then old(Rec()) else old(Rec()).(killedBy := Some(who))
    {
      if done { return false; }
      if killedBy == None { killedBy := Some(who); }
      ok := true;
    }
  }

  class Harness {
    var bgSeq: nat
    var bgRun: int
    var bgJobs: map<nat, BgJob>
    var bgLive: set<BgJob>
    ghost var made: seq<BgJob>
    ghost var waiting: seq<Waiter>
    ghost var issued: seq<Number>

    /** The fields agree; a job's waiters field counts the waiters blocked on it. */
    ghost predicate Valid()
      reads this, made
    {
      && (forall i :: 0 <= i < |made| ==> made[i].index == i)
      && (forall n :: n in bgJobs ==> Made(bgJobs[n]))
      && (forall j :: j in bgLive ==> Made(j))
      && (forall w :: 0 <= w < |waiting| ==> waiting[w].job < |made|)
      && (forall i :: 0 <= i < |made| ==> made[i].waiters == |WaitingIn(waiting, i)|)
    }

    ghost predicate Made(job: BgJob)
      reads this
    {
      job.index < |made| && made[job.index] == job
    }

    ghost function Abs(): State
      reads this, made
    {
      State(seq(|made|, i requires 0 <= i < |made| reads this, made => made[i].Rec()), waiting, bgSeq, bgRun,
            map n | n in bgJobs :: bgJobs[n].index, Indexes(bgLive), issued)
    }

    static ghost function Indexes(jobs: set<BgJob>): set<nat> {
      set j | j in jobs :: j.index
    }

    constructor ()
      ensures Valid() && Abs() == INIT
    {
      bgSeq, bgRun, bgJobs, bgLive, made, waiting, issued := 0, 0, map[], {}, [], [], [];
    }

    /** newJob. */
    method NewJob() returns (job: BgJob)
      requires Valid()
      modifies this
      ensures Valid() && Made(job) && fresh(job)
      ensures Abs() == Next(old(Abs()), Event.NewJob)
    {
      ghost var before := Abs();
      job := new BgJob(|made|);
      NobodyWaits(job.index);
      made := made + [job];
      bgLive := bgLive + {job};
      assert Abs().jobs == before.jobs + [NEW_JOB];
      assert Indexes(bgLive) == before.bgLive + {job.index};
    }

    lemma NobodyWaits(j: nat)
      requires Valid() && j >= |made|
      ensures |WaitingIn(waiting, j)| == 0
    {
      assert WaitingIn(waiting, j) == {};
    }

    /** settle's part under the harness's mutex. */
    method Number(job: BgJob)
      requires Valid() && Made(job)
      modifies this`bgSeq, this`bgRun, this`bgJobs, this`issued
      ensures Valid() && Abs() == Numbered(old(Abs()), job.index)
    {
      ghost var before := Abs();
      bgSeq := bgSeq + 1;
      bgRun := bgRun + 1;
      bgJobs := bgJobs[bgSeq := job];
      issued := issued + [OfJob(job.index)];
      assert Abs().jobs == before.jobs;
      assert Abs().bgJobs == before.bgJobs[bgSeq := job.index];
    }

    method Answer(job: BgJob)
      requires Valid() && Made(job)
      modifies job`settled, job`past
      ensures Valid() && Abs() == Put(old(Abs()), job.index, Answered(old(job.Rec())))
      ensures job.settled
    {
      ghost var before := Abs();
      job.Answer();
      assert Abs().jobs == before.jobs[job.index := job.Rec()];
    }

    method Promote(job: BgJob)
      requires Valid() && Made(job)
      modifies job`settled, job`bg, job`id, job`past
      modifies this`bgSeq, this`bgRun, this`bgJobs, this`issued
      ensures Valid()
              && Abs() == Numbered(Put(old(Abs()), job.index, Promoted(old(job.Rec()), old(bgSeq) + 1)), job.index)
      ensures job.settled && job.bg
    {
      ghost var before := Abs();
      job.Promote(bgSeq + 1);
      assert Abs().jobs == before.jobs[job.index := job.Rec()];
      Number(job);
    }

    /** settle, under the job's mutex: whether the result is in hand. */
    method Settle(job: BgJob) returns (inHand: bool)
      requires Valid() && Made(job)
      modifies job`settled, job`bg, job`id, job`past
      modifies this`bgSeq, this`bgRun, this`bgJobs, this`issued
      ensures Valid() && Abs() == Next(old(Abs()), Event.Settle(job.index))
      ensures inHand <==> if old(job.settled) then !old(job.bg) else old(job.done)
      ensures job.settled && (Reported(old(job.Rec())) ==> (inHand <==> !job.bg))
    {
      if job.settled {
        inHand := !job.bg;
        if inHand { Answer(job); }
      } else if job.done {
        inHand := true;
        Answer(job);
      } else {
        inHand := false;
        Promote(job);
      }
    }

    /** close(promoteCh), which panics on a closed one. */
    method ClosePromote(job: BgJob)
      requires Valid() && Made(job) && job.Rec().promoteDue && !job.promoteClosed
      modifies job
      ensures Valid() && Abs() == Next(old(Abs()), Event.ClosePromote(job.index))
    {
      ghost var before := Abs();
      job.promoteClosed := true;
      job.past := job.past.(promoteDue := false);
      assert Abs().jobs == before.jobs[job.index := job.Rec()];
    }

    /** finish's sections, in their order. */
    method MarkDone(job: BgJob, failed: bool) returns (bg: bool)
      requires Valid() && Made(job) && job.Rec().stage == Running
      modifies job
      ensures Valid() && Abs() == Next(old(Abs()), Event.MarkDone(job.index, failed))
      ensures bg == job.Rec().bgAtDone
    {
      ghost var before := Abs();
      job.MarkDone(failed);
      bg := job.bg;
      assert Abs().jobs == before.jobs[job.index := job.Rec()];
    }

    method LeaveLive(job: BgJob)
      requires Valid() && Made(job) && job.Rec().stage == MarkedDone
      modifies this`bgLive, job
      ensures Valid() && Abs() == Next(old(Abs()), Event.LeaveLive(job.index))
    {
      ghost var before := Abs();
      job.past := job.past.(stage := LeftLive);
      bgLive := bgLive - {job};
      assert Abs().jobs == before.jobs[job.index := job.Rec()];
      assert Indexes(bgLive) == before.bgLive - {job.index};
    }

    method DecRun(job: BgJob)
      requires Valid() && Made(job) && job.Rec().stage == LeftLive && job.Rec().bgAtDone
      modifies this`bgRun, job
      ensures Valid() && Abs() == Next(old(Abs()), Event.DecRun(job.index))
    {
      ghost var before := Abs();
      job.past := job.past.(stage := Decremented);
      bgRun := bgRun - 1;
      assert Abs().jobs == before.jobs[job.index := job.Rec()];
    }

    /** completionNote: whether there is a notice to send. */
    method Decide(job: BgJob) returns (send: bool)
      requires Valid() && Made(job) && job.Rec().stage == Decremented
      modifies job
      ensures Valid() && Abs() == Next(old(Abs()), Event.Decide(job.index))
      ensures send == job.Rec().notice
    {
      ghost var before := Abs();
      send := job.Note(Saw(job.ignore, WaitingOn(before, job.index), OneLeft(before, job.index)));
      assert Abs().jobs == before.jobs[job.index := job.Rec()];
    }

    /** close(doneCh). */
    method CloseDone(job: BgJob)
      requires Valid() && Made(job) && Enabled(Abs(), Event.CloseDone(job.index)) && !job.doneClosed
      modifies job
      ensures Valid() && Abs() == Next(old(Abs()), Event.CloseDone(job.index))
    {
      ghost var before := Abs();
      job.doneClosed := true;
      job.past := job.past.(stage := Closed);
      assert Abs().jobs == before.jobs[job.index := job.Rec()];
    }

    method Kill(job: BgJob, who: string) returns (ok: bool)
      requires Valid() && Made(job)
      modifies job
      ensures Valid() && Abs() == Next(old(Abs()), Event.Kill(job.index, who))
      ensures ok <==> !job.Rec().done
    {
      ghost var before := Abs();
      ok := job.Kill(who);
      assert Abs().jobs == before.jobs[job.index := job.Rec()];
    }

    /** wait's first section: whether the caller blocks. */
    method Wait(job: BgJob) returns (blocks: bool)
      requires Valid() && Made(job)
      modifies this`waiting, job
      ensures Valid() && Abs() == Next(old(Abs()), Event.Wait(job.index))
      ensures blocks <==> !job.Rec().done
    {
      if job.done { return false; }
      ghost var before := Abs();
      WaitingAdd(waiting, job.index);
      job.waiters := job.waiters + 1;
      waiting := waiting + [Waiter(job.index, Waiting)];
      blocks := true;
      assert Abs().jobs == before.jobs;
    }

    /** wait's second section: whether it returns the outcome. */
    method Leave(job: BgJob, ghost w: nat) returns (outcome: bool)
      requires Valid() && Made(job) && w < |waiting| && waiting[w] == Waiter(job.index, Waiting)
      modifies this`waiting, job
      ensures Valid() && Abs() == Next(old(Abs()), Event.Leave(w))
      ensures outcome <==> waiting[w].at == LeftWithOutcome
    {
      ghost var before := Abs();
      WaitingDrop(waiting, w, if job.done then LeftWithOutcome else LeftEarly);
      job.waiters := job.waiters - 1;
      outcome := job.done;
      waiting := waiting[w := Waiter(job.index, if outcome then LeftWithOutcome else LeftEarly)];
      assert Abs().jobs == before.jobs;
    }

    /** tuneJob's ignore. */
    method Mute(job: BgJob, on: bool)
      requires Valid() && Made(job)
      modifies job
      ensures Valid() && Abs() == Next(old(Abs()), Event.Mute(job.index, on))
    {
      ghost var before := Abs();
      job.ignore := on;
      assert Abs().jobs == before.jobs[job.index := job.Rec()];
    }

    /** spillExec's number. */
    method Spill() returns (number: nat)
      requires Valid()
      modifies this`bgSeq, this`issued
      ensures Valid() && Abs() == Next(old(Abs()), Event.Spill)
      ensures number == bgSeq
    {
      bgSeq := bgSeq + 1;
      number := bgSeq;
      issued := issued + [OfSpill];
    }
  }

  lemma WaitingAdd(waiters: seq<Waiter>, j: nat)
    ensures forall i: nat ::
              |WaitingIn(waiters + [Waiter(j, Waiting)], i)| == |WaitingIn(waiters, i)| + if i == j then 1 else 0
  {
    forall i: nat
      ensures |WaitingIn(waiters + [Waiter(j, Waiting)], i)| == |WaitingIn(waiters, i)| + if i == j then 1 else 0
    {
      if i == j {
        assert WaitingIn(waiters + [Waiter(j, Waiting)], i) == WaitingIn(waiters, i) + {|waiters|};
      } else {
        assert WaitingIn(waiters + [Waiter(j, Waiting)], i) == WaitingIn(waiters, i);
      }
    }
  }

  lemma WaitingDrop(waiters: seq<Waiter>, w: nat, at: Where)
    requires w < |waiters| && waiters[w].at == Waiting && at != Waiting
    ensures forall i: nat ::
              |WaitingIn(waiters[w := Waiter(waiters[w].job, at)], i)| ==
              |WaitingIn(waiters, i)| - if i == waiters[w].job then 1 else 0
  {
    forall i: nat
      ensures |WaitingIn(waiters[w := Waiter(waiters[w].job, at)], i)| ==
              |WaitingIn(waiters, i)| - if i == waiters[w].job then 1 else 0
    {
      if i == waiters[w].job {
        assert WaitingIn(waiters[w := Waiter(waiters[w].job, at)], i) == WaitingIn(waiters, i) - {w};
      } else {
        assert WaitingIn(waiters[w := Waiter(waiters[w].job, at)], i) == WaitingIn(waiters, i);
      }
    }
  }
}
