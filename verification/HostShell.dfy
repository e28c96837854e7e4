/** One persistent shell for every command, and its donation to a command that
    outlives its caller: exec.go's HostShell.

    A call is a thread of RunPromotable. It holds the lock from its first step to
    its promotion or return, so its steps under the lock are one event; deaths,
    cancellations and promotions come at any time. Whether a process starts and
    whether a write succeeds is part of the event. */
module HostShell {
  import opened Wrappers
  import Sentinel
  import Strings

  /** owner is the call the shell was given to; killed says its process group was
      sent a signal. */
  datatype Shell = Shell(alive: bool, owner: Option<nat>, killed: bool)

  datatype Stage = Waiting | Locked | Reading(shell: nat) | Returned

  datatype Call = Call(
    stage: Stage, donated: bool, cancelled: bool, seqno: nat,
    unlocks: nat)            // history: how often the call released the lock

  datatype State = State(
    lock: Option<nat>, p: Option<nat>, seqno: nat,
    shells: seq<Shell>, calls: seq<Call>,
    order: seq<nat>)         // history: the call each number 1, 2, ... went to

  const INIT := State(None, None, 0, [], [], [])

  const NEW_SHELL := Shell(true, None, false)
  const NEW_CALL := Call(Waiting, false, false, 0, 0)

  /** Whether the shell starts, and is written to; and the same for the retry. */
  datatype Outcome = Outcome(starts: bool, writes: bool, restarts: bool, rewrites: bool)

  datatype Event =
    | Arrive
    | Acquire(call: nat)
    | Begin(call: nat, outcome: Outcome)
    | Promote(call: nat)
    | Cancel(call: nat)
    | Return(call: nat)
    | Die(shell: nat)
    | Close

  predicate Enabled(s: State, e: Event) {
    match e
    case Arrive => true
    case Acquire(t) => t < |s.calls| && s.calls[t].stage == Waiting && s.lock.None?
    case Begin(t, _) => t < |s.calls| && s.calls[t].stage == Locked
    case Promote(t) => t < |s.calls| && s.calls[t].stage.Reading? && !s.calls[t].donated
    case Cancel(t) => t < |s.calls| && s.calls[t].stage != Returned
    case Return(t) => t < |s.calls| && s.calls[t].stage.Reading?
    case Die(k) => k < |s.shells|
    case Close => s.lock.None?
  }

  function PutCall(s: State, t: nat, c: Call): State {
    if t < |s.calls| then s.(calls := s.calls[t := c]) else s
  }

  function PutShell(s: State, k: nat, x: Shell): State {
    if k < |s.shells| then s.(shells := s.shells[k := x]) else s
  }

  function Killed(s: State, k: nat): State {
    if k < |s.shells| then PutShell(s, k, s.shells[k].(killed := true)) else s
  }

  /** teardown. */
  function Torn(s: State): State {
    if s.p.Some? then Killed(s, s.p.value).(p := None) else s
  }

  /** start, when it succeeds. */
  function Started(s: State): State {
    var n := Torn(s);
    n.(shells := n.shells + [NEW_SHELL], p := Some(|n.shells|))
  }

  predicate Exited(s: State, k: nat) { k < |s.shells| && !s.shells[k].alive }

  /** The return of a call that holds the lock. */
  function Leave(s: State, t: nat): State
    requires t < |s.calls|
  {
    PutCall(s, t, s.calls[t].(stage := Returned, unlocks := s.calls[t].unlocks + 1)).(lock := None)
  }

  function Numbered(s: State, t: nat): State
    requires t < |s.calls|
  {
    PutCall(s, t, s.calls[t].(seqno := s.seqno + 1)).(seqno := s.seqno + 1, order := s.order + [t])
  }

  /** The script is in the shell's input. */
  function Fed(s: State, t: nat): State
    requires t < |s.calls|
  {
    PutCall(s, t, s.calls[t].(stage := Reading(s.p.GetOr(0))))
  }

  predicate HasShell(s: State) { s.p.Some? && !Exited(s, s.p.value) }

  function Wrote(s: State, t: nat, o: Outcome): State
    requires t < |s.calls|
  {
    if o.writes then Fed(s, t)
    else if !o.restarts then Leave(Torn(s), t)
    else if o.rewrites then Fed(Started(Torn(s)), t)
    else Leave(Started(Torn(s)), t)
  }

  function Begun(s: State, t: nat, o: Outcome): State
    requires t < |s.calls|
  {
    if HasShell(s) then Wrote(Numbered(s, t), t, o)
    else if o.starts then Wrote(Numbered(Started(s), t), t, o)
    else Leave(Torn(s), t)
  }

  function Promoted(s: State, t: nat, k: nat): State
    requires t < |s.calls| && k < |s.shells|
  {
    PutCall(PutShell(s, k, s.shells[k].(owner := Some(t))), t,
            s.calls[t].(donated := true, unlocks := s.calls[t].unlocks + 1)).(p := None, lock := None)
  }

  function Ended(s: State, t: nat, k: nat): State
    requires t < |s.calls| && k < |s.shells|
  {
    var c := s.calls[t];
    if c.donated then PutCall(Killed(s, k), t, c.(stage := Returned))
    else if c.cancelled then
      Leave(PutShell(s, k, s.shells[k].(killed := s.shells[k].killed || s.shells[k].alive)).(p := None), t)
    else if Exited(s, k) then Leave(Torn(s), t)
    else Leave(s, t)
  }

  function Next(s: State, e: Event): State
    requires Enabled(s, e)
  {
    match e
    case Arrive => s.(calls := s.calls + [NEW_CALL])
    case Acquire(t) => PutCall(s, t, s.calls[t].(stage := Locked)).(lock := Some(t))
    case Begin(t, o) => Begun(s, t, o)
    case Promote(t) => var k := s.calls[t].stage.shell; if k < |s.shells| then Promoted(s, t, k) else s
    case Cancel(t) => PutCall(s, t, s.calls[t].(cancelled := true))
    case Return(t) => var k := s.calls[t].stage.shell; if k < |s.shells| then Ended(s, t, k) else s
    case Die(k) => PutShell(s, k, s.shells[k].(alive := false))
    case Close => Torn(s)
  }

  ghost predicate IsRun(s: State, events: seq<Event>)
    decreases |events|
  {
    events == [] || (Enabled(s, events[0]) && IsRun(Next(s, events[0]), events[1..]))
  }

  function Run(s: State, events: seq<Event>): State
    requires IsRun(s, events)
    decreases |events|
  {
    if events == [] then s else Run(Next(s, events[0]), events[1..])
  }

  // ---- The invariant ----

  predicate Holds(c: Call) { (c.stage == Locked || c.stage.Reading?) && !c.donated }

  /** A call holds the lock exactly from Acquire to its promotion or return, and
      releases it once. */
  predicate LockInv(s: State, t: nat)
    requires t < |s.calls|
  {
    var c := s.calls[t];
    && (s.lock == Some(t) <==> Holds(c))
    && (c.donated ==> c.stage.Reading? || c.stage == Returned)
    && c.unlocks == (if c.donated || c.stage == Returned then 1 else 0)
  }

  /** A reader reads the current shell, or one that was given to it. */
  predicate ReaderInv(s: State, t: nat)
    requires t < |s.calls|
  {
    var c := s.calls[t];
    c.stage.Reading? ==>
      && c.stage.shell < |s.shells|
      && (if c.donated then s.shells[c.stage.shell].owner == Some(t) else s.p == Some(c.stage.shell))
  }

  /** The current shell was not given away. */
  predicate CurrentInv(s: State) {
    s.p.Some? ==> s.p.value < |s.shells| && s.shells[s.p.value].owner == None
  }

  ghost predicate CallsInv(s: State) {
    forall t :: 0 <= t < |s.calls| ==> LockInv(s, t) && ReaderInv(s, t)
  }

  ghost predicate NumbersInv(s: State) {
    && |s.order| == s.seqno
    && (forall t :: 0 <= t < |s.calls| && s.calls[t].seqno > 0 ==>
          s.calls[t].seqno <= s.seqno && s.order[s.calls[t].seqno - 1] == t)
    && (forall t :: 0 <= t < |s.calls| && (s.calls[t].stage == Waiting || s.calls[t].stage == Locked) ==>
      s.calls[t].seqno == 0)
  }

  ghost predicate Inv(s: State) {
    && (s.lock.Some? ==> s.lock.value < |s.calls|)
    && CurrentInv(s) && CallsInv(s) && NumbersInv(s)
  }

  // ---- Steps of the call that holds the lock ----

  /** Shells are only added, and an owner stays. */
  ghost predicate ShellsKept(s: State, n: State) {
    && |s.shells| <= |n.shells|
    && forall k :: 0 <= k < |s.shells| ==>
         s.shells[k].owner.Some? ==> n.shells[k].owner == s.shells[k].owner
  }

  ghost predicate OthersKept(s: State, n: State, t: nat) {
    |n.calls| == |s.calls| && forall u :: 0 <= u < |s.calls| && u != t ==> n.calls[u] == s.calls[u]
  }

  lemma OtherCall(s: State, n: State, t: nat, u: nat)
    requires u < |s.calls| && u < |n.calls| && u != t && n.calls[u] == s.calls[u]
    requires LockInv(s, u) && ReaderInv(s, u) && s.lock == Some(t) && ShellsKept(s, n) && n.lock in {Some(t), None}
    ensures LockInv(n, u) && ReaderInv(n, u)
  {}

  lemma HolderStep(s: State, n: State, t: nat)
    requires CallsInv(s) && t < |s.calls| && s.lock == Some(t)
    requires ShellsKept(s, n) && OthersKept(s, n, t) && n.lock in {Some(t), None}
    requires LockInv(n, t) && ReaderInv(n, t)
    ensures CallsInv(n)
  {
    forall u | 0 <= u < |n.calls| ensures LockInv(n, u) && ReaderInv(n, u) {
      if u != t { OtherCall(s, n, t, u); }
    }
  }

  /** What beginning a call leaves: it reads the current shell, or it has failed
      and released the lock; and it has the next number, or none. */
  ghost predicate AfterBegin(s: State, n: State, t: nat)
    requires t < |s.calls|
  {
    && ShellsKept(s, n) && OthersKept(s, n, t) && CurrentInv(n)
    && n.calls[t] == s.calls[t].(stage := n.calls[t].stage, seqno := n.calls[t].seqno, unlocks := n.calls[t].unlocks)
    && (|| (&& n.p.Some? && n.calls[t].stage == Reading(n.p.value)
            && n.lock == s.lock && n.calls[t].unlocks == s.calls[t].unlocks)
        || (n.calls[t].stage == Returned && n.lock == None && n.calls[t].unlocks == s.calls[t].unlocks + 1))
    && (|| (n.seqno == s.seqno && n.order == s.order && n.calls[t].seqno == s.calls[t].seqno)
        || (n.seqno == s.seqno + 1 && n.order == s.order + [t] && n.calls[t].seqno == n.seqno))
  }

  lemma TornKeeps(s: State)
    requires CurrentInv(s)
    ensures ShellsKept(s, Torn(s)) && Torn(s).p == None && |Torn(s).shells| == |s.shells|
    ensures Torn(s) == s.(shells := Torn(s).shells, p := None)
  {}

  lemma StartedKeeps(s: State)
    requires CurrentInv(s)
    ensures ShellsKept(s, Started(s)) && CurrentInv(Started(s)) && HasShell(Started(s))
    ensures Started(s) == s.(shells := Started(s).shells, p := Some(|s.shells|))
  {
    TornKeeps(s);
  }

  lemma WroteResult(s: State, t: nat, o: Outcome)
    requires t < |s.calls| && CurrentInv(s) && s.p.Some?
    ensures var n := Wrote(s, t, o);
            && ShellsKept(s, n) && OthersKept(s, n, t) && CurrentInv(n) && n.seqno == s.seqno && n.order == s.order
            && n.calls[t] == s.calls[t].(stage := n.calls[t].stage, unlocks := n.calls[t].unlocks)
            && (|| (&& n.p.Some? && n.calls[t].stage == Reading(n.p.value)
                    && n.lock == s.lock && n.calls[t].unlocks == s.calls[t].unlocks)
                || (n.calls[t].stage == Returned && n.lock == None && n.calls[t].unlocks == s.calls[t].unlocks + 1))
  {
    TornKeeps(s);
    StartedKeeps(Torn(s));
  }

  lemma BeginResult(s: State, t: nat, o: Outcome)
    requires t < |s.calls| && CurrentInv(s)
    ensures AfterBegin(s, Begun(s, t, o), t)
  {
    TornKeeps(s);
    StartedKeeps(s);
    if HasShell(s) {
      WroteResult(Numbered(s, t), t, o);
    } else if o.starts {
      WroteResult(Numbered(Started(s), t), t, o);
    }
  }

  lemma BeginNumbers(s: State, n: State, t: nat)
    requires NumbersInv(s) && t < |s.calls| && s.calls[t].stage == Locked && AfterBegin(s, n, t)
    ensures NumbersInv(n)
  {}

  lemma BeginInv(s: State, t: nat, o: Outcome)
    requires Inv(s) && Enabled(s, Begin(t, o))
    ensures Inv(Next(s, Begin(t, o)))
  {
    var n := Begun(s, t, o);
    assert LockInv(s, t);
    BeginResult(s, t, o);
    HolderStep(s, n, t);
    BeginNumbers(s, n, t);
  }

  lemma PromoteInv(s: State, t: nat)
    requires Inv(s) && Enabled(s, Promote(t))
    ensures Inv(Next(s, Promote(t)))
  {
    assert LockInv(s, t) && ReaderInv(s, t);
    HolderStep(s, Next(s, Promote(t)), t);
  }

  lemma ReturnHeldInv(s: State, t: nat)
    requires Inv(s) && Enabled(s, Return(t)) && !s.calls[t].donated
    ensures Inv(Next(s, Return(t)))
  {
    assert LockInv(s, t) && ReaderInv(s, t);
    TornKeeps(s);
    HolderStep(s, Next(s, Return(t)), t);
  }

  // ---- The other steps ----

  /** A step that leaves the lock and the current shell, and changes no other call. */
  lemma FreeStep(s: State, n: State, t: nat)
    requires Inv(s) && ShellsKept(s, n) && OthersKept(s, n, t) && n.p == s.p && n.lock == s.lock && CurrentInv(n)
    requires t < |s.calls| ==> LockInv(n, t) && ReaderInv(n, t)
    requires n.seqno == s.seqno && n.order == s.order
    requires t < |s.calls| ==>
             && n.calls[t].seqno == s.calls[t].seqno
             && (n.calls[t].stage in {Waiting, Locked} ==> s.calls[t].stage == n.calls[t].stage)
    ensures Inv(n)
  {
    forall u | 0 <= u < |n.calls| ensures LockInv(n, u) && ReaderInv(n, u) {
      if u != t { assert LockInv(s, u) && ReaderInv(s, u); }
    }
  }

  lemma ReturnDonatedInv(s: State, t: nat)
    requires Inv(s) && Enabled(s, Return(t)) && s.calls[t].donated
    ensures Inv(Next(s, Return(t)))
  {
    assert LockInv(s, t) && ReaderInv(s, t);
    FreeStep(s, Next(s, Return(t)), t);
  }

  lemma CancelInv(s: State, t: nat)
    requires Inv(s) && Enabled(s, Cancel(t))
    ensures Inv(Next(s, Cancel(t)))
  {
    assert LockInv(s, t) && ReaderInv(s, t);
    FreeStep(s, Next(s, Cancel(t)), t);
  }

  lemma AcquireInv(s: State, t: nat)
    requires Inv(s) && Enabled(s, Acquire(t))
    ensures Inv(Next(s, Acquire(t)))
  {
    var n := Next(s, Acquire(t));
    assert LockInv(s, t) && ReaderInv(s, t);
    forall u | 0 <= u < |n.calls| ensures LockInv(n, u) && ReaderInv(n, u) {
      assert LockInv(s, u) && ReaderInv(s, u);
    }
  }

  lemma ArriveInv(s: State)
    requires Inv(s)
    ensures Inv(Next(s, Arrive))
  {
    var n := Next(s, Arrive);
    forall u | 0 <= u < |n.calls| ensures LockInv(n, u) && ReaderInv(n, u) {
      if u < |s.calls| { assert LockInv(s, u) && ReaderInv(s, u); }
    }
  }

  lemma CloseInv(s: State)
    requires Inv(s) && s.lock.None?
    ensures Inv(Next(s, Close))
  {
    var n := Next(s, Close);
    TornKeeps(s);
    forall u | 0 <= u < |n.calls| ensures LockInv(n, u) && ReaderInv(n, u) {
      assert LockInv(s, u) && ReaderInv(s, u);
    }
  }

  lemma NextInv(s: State, e: Event)
    requires Inv(s) && Enabled(s, e)
    ensures Inv(Next(s, e))
  {
    match e
    case Arrive => ArriveInv(s);
    case Acquire(t) => AcquireInv(s, t);
    case Begin(t, o) => BeginInv(s, t, o);
    case Promote(t) => PromoteInv(s, t);
    case Cancel(t) => CancelInv(s, t);
    case Return(t) => if s.calls[t].donated { ReturnDonatedInv(s, t); } else { ReturnHeldInv(s, t); }
    case Die(k) => FreeStep(s, Next(s, e), |s.calls|);
    case Close => CloseInv(s);
  }

  lemma {:induction false} InvKept(s: State, events: seq<Event>)
    requires Inv(s) && IsRun(s, events)
    ensures Inv(Run(s, events))
    decreases |events|
  {
    if events != [] {
      NextInv(s, events[0]);
      InvKept(Next(s, events[0]), events[1..]);
    }
  }

  lemma RunInv(events: seq<Event>)
    requires IsRun(INIT, events)
    ensures Inv(Run(INIT, events))
  {
    InvKept(INIT, events);
  }

  // ---- No shell is left behind ----

  /** A shell that runs and was not signalled is the current one, or its owner
      still reads it. */
  predicate InUse(s: State, k: nat)
    requires k < |s.shells|
  {
    var x := s.shells[k];
    || x.killed || !x.alive || s.p == Some(k)
    || (x.owner.Some? && x.owner.value < |s.calls| && s.calls[x.owner.value].stage == Reading(k))
  }

  ghost predicate NoLeak(s: State) {
    forall k :: 0 <= k < |s.shells| ==> InUse(s, k)
  }

  ghost predicate ReadersKept(s: State, n: State) {
    |s.calls| <= |n.calls| && forall u :: 0 <= u < |s.calls| && s.calls[u].stage.Reading? ==>
      n.calls[u].stage == s.calls[u].stage
  }

  lemma TornNoLeak(s: State)
    requires NoLeak(s)
    ensures NoLeak(Torn(s))
  {
    var n := Torn(s);
    forall k | 0 <= k < |n.shells| ensures InUse(n, k) { assert InUse(s, k); }
  }

  lemma StartedNoLeak(s: State)
    requires NoLeak(s)
    ensures NoLeak(Started(s))
  {
    TornNoLeak(s);
    var n := Started(s);
    forall k | 0 <= k < |n.shells| ensures InUse(n, k) { if k < |s.shells| { assert InUse(Torn(s), k); } }
  }

  lemma CallsNoLeak(s: State, n: State)
    requires NoLeak(s) && n.shells == s.shells && n.p == s.p && ReadersKept(s, n)
    ensures NoLeak(n)
  {
    forall k | 0 <= k < |n.shells| ensures InUse(n, k) { assert InUse(s, k); }
  }

  lemma WroteNoLeak(s: State, t: nat, o: Outcome)
    requires NoLeak(s) && t < |s.calls| && s.calls[t].stage == Locked
    ensures NoLeak(Wrote(s, t, o))
  {
    TornNoLeak(s);
    StartedNoLeak(Torn(s));
    var m := if o.writes then s else if o.restarts then Started(Torn(s)) else Torn(s);
    CallsNoLeak(m, Wrote(s, t, o));
  }

  lemma BegunNoLeak(s: State, t: nat, o: Outcome)
    requires NoLeak(s) && t < |s.calls| && s.calls[t].stage == Locked
    ensures NoLeak(Begun(s, t, o))
  {
    TornNoLeak(s);
    StartedNoLeak(s);
    if HasShell(s) || o.starts {
      var m := if HasShell(s) then s else Started(s);
      CallsNoLeak(m, Numbered(m, t));
      WroteNoLeak(Numbered(m, t), t, o);
    } else {
      CallsNoLeak(Torn(s), Leave(Torn(s), t));
    }
  }

  lemma ReaderNoLeak(s: State, e: Event)
    requires Inv(s) && NoLeak(s) && Enabled(s, e) && (e.Promote? || e.Return?)
    ensures NoLeak(Next(s, e))
  {
    var n := Next(s, e);
    assert ReaderInv(s, e.call);
    forall k | 0 <= k < |n.shells| ensures InUse(n, k) { assert InUse(s, k); }
  }

  lemma NextNoLeak(s: State, e: Event)
    requires Inv(s) && NoLeak(s) && Enabled(s, e)
    ensures NoLeak(Next(s, e))
  {
    match e
    case Begin(t, o) => BegunNoLeak(s, t, o);
    case Promote(_) => ReaderNoLeak(s, e);
    case Return(_) => ReaderNoLeak(s, e);
    case Die(k) => forall i | 0 <= i < |s.shells| ensures InUse(Next(s, e), i) { assert InUse(s, i); }
    case Close => TornNoLeak(s);
    case _ => CallsNoLeak(s, Next(s, e));
  }

  lemma {:induction false} NoLeakKept(s: State, events: seq<Event>)
    requires Inv(s) && NoLeak(s) && IsRun(s, events)
    ensures NoLeak(Run(s, events))
    decreases |events|
  {
    if events != [] {
      NextInv(s, events[0]);
      NextNoLeak(s, events[0]);
      NoLeakKept(Next(s, events[0]), events[1..]);
    }
  }

  /** In every run, every shell that is alive and was not sent a signal is the
      current one, or is read by the call it was given to. */
  lemma NoShellLeaks(events: seq<Event>, k: nat)
    requires IsRun(INIT, events) && k < |Run(INIT, events).shells|
    ensures var s := Run(INIT, events);
            var x := s.shells[k];
            || x.killed || !x.alive || s.p == Some(k)
            || (x.owner.Some? && x.owner.value < |s.calls| && s.calls[x.owner.value].stage == Reading(k))
  {
    NoLeakKept(INIT, events);
    assert InUse(Run(INIT, events), k);
  }

  // ---- What every run keeps ----

  /** No two commands are ever in flight in one shell. */
  lemma OneCommandPerShell(events: seq<Event>, t: nat, u: nat)
    requires IsRun(INIT, events) && t < |Run(INIT, events).calls| && u < |Run(INIT, events).calls| && t != u
    ensures var s := Run(INIT, events);
            s.calls[t].stage.Reading? ==> s.calls[u].stage != s.calls[t].stage
  {
    RunInv(events);
    var s := Run(INIT, events);
    assert LockInv(s, t) && LockInv(s, u) && ReaderInv(s, t) && ReaderInv(s, u);
  }

  /** A call holds the lock until its promotion or its return, whichever is first,
      and releases it exactly once. */
  lemma LockReleasedOnce(events: seq<Event>, t: nat)
    requires IsRun(INIT, events) && t < |Run(INIT, events).calls|
    ensures var s := Run(INIT, events);
            var c := s.calls[t];
            && c.unlocks == (if c.donated || c.stage == Returned then 1 else 0)
            && (s.lock == Some(t) <==> c.stage != Waiting && c.unlocks == 0)
  {
    RunInv(events);
    assert LockInv(Run(INIT, events), t);
  }

  /** The shell was made, and is not the current one. */
  predicate Dropped(s: State, k: nat) {
    k < |s.shells| && s.p != Some(k)
  }

  predicate Reads(s: State, u: nat, k: nat) {
    u < |s.calls| && s.calls[u].stage == Reading(k)
  }

  lemma BeginDropped(s: State, t: nat, o: Outcome, k: nat, u: nat)
    requires Inv(s) && Enabled(s, Begin(t, o)) && Dropped(s, k)
    ensures Dropped(Begun(s, t, o), k) && (Reads(Begun(s, t, o), u, k) ==> Reads(s, u, k))
  {
    BeginResult(s, t, o);
  }

  lemma StepDropped(s: State, e: Event, k: nat, u: nat)
    requires Inv(s) && Enabled(s, e) && Dropped(s, k)
    ensures Dropped(Next(s, e), k) && (Reads(Next(s, e), u, k) ==> Reads(s, u, k))
  {
    match e
    case Begin(t, o) => BeginDropped(s, t, o, k, u);
    case _ =>
  }

  /** A shell that is no longer the current one never is again, and no call that was
      not reading it ever does. */
  lemma {:induction false} NeverReused(s: State, events: seq<Event>, k: nat, u: nat)
    requires Inv(s) && IsRun(s, events) && Dropped(s, k)
    ensures Run(s, events).p != Some(k)
    ensures Reads(Run(s, events), u, k) ==> Reads(s, u, k)
    decreases |events|
  {
    if events != [] {
      NextInv(s, events[0]);
      StepDropped(s, events[0], k, u);
      NeverReused(Next(s, events[0]), events[1..], k, u);
    }
  }

  /** After a promotion the next call gets the lock and, if a shell starts, a new
      shell, while the promoted command runs on in the one it had. */
  lemma NextCallProceeds(s: State, t: nat, u: nat, o: Outcome)
    requires Inv(s) && Enabled(s, Promote(t)) && u < |s.calls| && s.calls[u].stage == Waiting && o.starts && o.writes
    ensures var s1 := Next(s, Promote(t));
            && Enabled(s1, Acquire(u))
            && var s3 := Next(Next(s1, Acquire(u)), Begin(u, o));
               && s3.calls[u].stage == Reading(|s.shells|)
               && s3.calls[t].stage == s.calls[t].stage == Reading(s.p.GetOr(0)) && s.p.GetOr(0) < |s.shells|
  {
    assert LockInv(s, t) && ReaderInv(s, t) && LockInv(s, u);
  }

  /** A command that ended normally leaves its shell, and so what it exported, to
      the next call. */
  lemma StateCarriesOver(s: State, t: nat, u: nat, o: Outcome)
    requires Inv(s) && Enabled(s, Return(t)) && u < |s.calls| && s.calls[u].stage == Waiting && o.writes
    requires !s.calls[t].donated && !s.calls[t].cancelled && !Exited(s, s.calls[t].stage.shell)
    ensures var s1 := Next(s, Return(t));
            && Enabled(s1, Acquire(u))
            && Next(Next(s1, Acquire(u)), Begin(u, o)).calls[u].stage == s.calls[t].stage
  {
    assert LockInv(s, t) && ReaderInv(s, t) && LockInv(s, u);
  }

  /** Two calls that wrote a script have different numbers, so the line that ends
      the one with the smaller number never ends the other's wait. */
  lemma StaleMarkerNeverMatches(events: seq<Event>, t: nat, u: nat, text: string, code: nat)
    requires IsRun(INIT, events) && t < |Run(INIT, events).calls| && u < |Run(INIT, events).calls| && t != u
    requires var s := Run(INIT, events); 0 < s.calls[t].seqno <= s.calls[u].seqno
    requires !Strings.Contains(text, Sentinel.Marker(Run(INIT, events).calls[u].seqno))
    ensures var s := Run(INIT, events);
            !Strings.Contains(Sentinel.MarkerLine(text, s.calls[t].seqno, code), Sentinel.Marker(s.calls[u].seqno))
  {
    RunInv(events);
    var s := Run(INIT, events);
    assert s.order[s.calls[t].seqno - 1] == t && s.order[s.calls[u].seqno - 1] == u;
    Sentinel.EarlierNeverMatches(text, s.calls[t].seqno, code, s.calls[u].seqno);
  }

  // ---- The objects ----

  class ShellProc {
    ghost const index: nat
    var exited: bool
    var killed: bool
    ghost var owner: Option<nat>

    constructor (ghost index: nat)
      ensures this.index == index && Rec() == NEW_SHELL
    {
      this.index, exited, killed, owner := index, false, false, None;
    }

    ghost function Rec(): Shell
      reads this
    {
      Shell(!exited, owner, killed)
    }
  }

  /** One call of RunPromotable: its local variables. */
  class Running {
    ghost const index: nat
    var unlocked: bool
    var donated: bool
    var canceled: bool
    var p: ShellProc?
    ghost var stage: Stage
    ghost var number: nat
    ghost var unlocks: nat

    constructor (ghost index: nat)
      ensures this.index == index && Rec() == NEW_CALL && !unlocked && p == null
    {
      this.index, unlocked, donated, canceled, p := index, false, false, false, null;
      stage, number, unlocks := Waiting, 0, 0;
    }

    ghost function Rec(): Call
      reads this
    {
      Call(stage, donated, canceled, number, unlocks)
    }
  }

  class HostShell {
    var p: ShellProc?
    var seqno: nat
    var locked: bool
    ghost var holder: Option<nat>
    ghost var shells: seq<ShellProc>
    ghost var calls: seq<Running>
    ghost var order: seq<nat>

    ghost predicate Known(k: ShellProc)
      reads this
    {
      k.index < |shells| && shells[k.index] == k
    }

    ghost predicate Called(c: Running)
      reads this
    {
      c.index < |calls| && calls[c.index] == c
    }

    /** The fields agree: a call's unlocked says whether it has released the lock,
        and its p is the shell it reads. */
    ghost predicate Valid()
      reads this, shells, calls
    {
      && (forall i :: 0 <= i < |shells| ==> shells[i].index == i)
      && (forall i :: 0 <= i < |calls| ==> calls[i].index == i && CallValid(calls[i]))
      && (p != null ==> Known(p))
      && (locked <==> holder.Some?)
    }

    ghost predicate CallValid(c: Running)
      reads this, c
    {
      && c.unlocked == (c.unlocks > 0)
      && (c.stage.Reading? ==> c.p != null && Known(c.p) && c.stage.shell == c.p.index)
    }

    ghost function Abs(): State
      reads this, shells, calls
    {
      State(holder, if p == null then None else Some(p.index), seqno,
            seq(|shells|, i requires 0 <= i < |shells| reads this, shells => shells[i].Rec()),
            seq(|calls|, i requires 0 <= i < |calls| reads this, calls => calls[i].Rec()), order)
    }

    constructor ()
      ensures Valid() && Abs() == INIT
    {
      p, seqno, locked, holder, shells, calls, order := null, 0, false, None, [], [], [];
    }

    /** kill. */
    method Kill(k: ShellProc)
      requires Valid() && Known(k)
      modifies k`killed
      ensures Valid() && Abs() == Killed(old(Abs()), k.index)
    {
      ghost var before := Abs();
      k.killed := true;
      assert Abs().shells == before.shells[k.index := k.Rec()];
    }

    /** teardown. */
    method Teardown()
      requires Valid()
      modifies this`p, p
      ensures Valid() && Abs() == Torn(old(Abs())) && p == null
    {
      if p != null {
        Kill(p);
        p := null;
      }
    }

    /** start; starts is whether the process could be made. */
    method Start(starts: bool) returns (ok: bool)
      requires Valid()
      modifies this`p, this`shells, p
      ensures Valid() && ok == starts
      ensures Abs() == if starts then Started(old(Abs())) else Torn(old(Abs()))
      ensures ok ==> p != null && fresh(p)
    {
      Teardown();
      ok := starts;
      if starts {
        ghost var torn := Abs();
        var k := new ShellProc(|shells|);
        shells := shells + [k];
        p := k;
        assert Abs().shells == torn.shells + [NEW_SHELL] && Abs().calls == torn.calls;
      }
    }

    method Arrive() returns (c: Running)
      requires Valid()
      modifies this`calls
      ensures Valid() && Called(c) && fresh(c)
      ensures Abs() == Next(old(Abs()), Event.Arrive)
    {
      ghost var before := Abs();
      c := new Running(|calls|);
      calls := calls + [c];
      assert Abs().shells == before.shells && Abs().calls == before.calls + [NEW_CALL];
    }

    /** h.mu.Lock, once it is free. */
    method Acquire(c: Running)
      requires Valid() && Called(c) && c.stage == Waiting && !locked
      modifies this`locked, this`holder, c`stage
      ensures Valid() && Abs() == Next(old(Abs()), Event.Acquire(c.index))
    {
      ghost var before := Abs();
      locked, holder := true, Some(c.index);
      c.stage := Locked;
      assert Abs().shells == before.shells && Abs().calls == before.calls[c.index := c.Rec()];
    }

    /** The unlock closure, which releases the lock once. */
    method Unlock(c: Running)
      requires Valid() && Called(c)
      modifies this`locked, this`holder, c`unlocked, c`unlocks
      ensures Valid() && c.unlocked && c.unlocks == if old(c.unlocked) then old(c.unlocks) else old(c.unlocks) + 1
      ensures Abs() == if old(c.unlocked) then old(Abs())
                       else PutCall(old(Abs()), c.index, old(c.Rec()).(unlocks := old(c.unlocks) + 1)).(lock := None)
    {
      ghost var before := Abs();
      if !c.unlocked {
        c.unlocked := true;
        c.unlocks := c.unlocks + 1;
        locked, holder := false, None;
      }
      assert Abs().shells == before.shells && Abs().calls == before.calls[c.index := c.Rec()];
    }

    /** The return that releases the lock. */
    method Exit(c: Running)
      requires Valid() && Called(c) && !c.unlocked
      modifies this`locked, this`holder, c`unlocked, c`unlocks, c`stage
      ensures Valid() && Abs() == Leave(old(Abs()), c.index)
    {
      ghost var before := Abs();
      Unlock(c);
      c.stage := Returned;
      assert Abs().shells == before.shells && Abs().calls == before.calls[c.index := c.Rec()];
    }

    method TakeNumber(c: Running)
      requires Valid() && Called(c)
      modifies this`seqno, this`order, c`number
      ensures Valid() && Abs() == Numbered(old(Abs()), c.index)
    {
      ghost var before := Abs();
      seqno := seqno + 1;
      c.number, order := seqno, order + [c.index];
      assert Abs().shells == before.shells && Abs().calls == before.calls[c.index := c.Rec()];
    }

    method Feed(c: Running)
      requires Valid() && Called(c) && p != null
      modifies c`p, c`stage
      ensures Valid() && Abs() == Fed(old(Abs()), c.index) && c.p == p
    {
      ghost var before := Abs();
      c.p := p;
      c.stage := Reading(p.index);
      assert Abs().shells == before.shells && Abs().calls == before.calls[c.index := c.Rec()];
    }

    /** RunPromotable's writing of the script, with its one retry. */
    method WriteScript(c: Running, o: Outcome) returns (ok: bool)
      requires Valid() && Called(c) && p != null && !c.unlocked
      modifies this, p, c
      ensures Valid() && Abs() == Wrote(old(Abs()), c.index, o)
    {
      if o.writes {
        Feed(c);
        return true;
      }
      Teardown();
      ok := Start(o.restarts);
      if !ok {
        Exit(c);
      } else if o.rewrites {
        Feed(c);
      } else {
        Exit(c);
        ok := false;
      }
    }

    /** RunPromotable up to its wait. */
    method Begin(c: Running, o: Outcome) returns (ok: bool)
      requires Valid() && Called(c) && c.stage == Locked && !c.unlocked
      modifies this, p, c
      ensures Valid() && Abs() == Next(old(Abs()), Event.Begin(c.index, o))
    {
      if p == null || p.exited {
        ok := Start(o.starts);
        if !ok {
          Exit(c);
          return;
        }
      }
      TakeNumber(c);
      ok := WriteScript(c, o);
    }

    /** onPromote's h.p = nil, and readUntil's donated. */
    method GiveAway(c: Running)
      requires Valid() && Called(c) && c.p != null && Known(c.p)
      modifies this`p, c.p`owner, c`donated
      ensures Valid() && c.donated && p == null
      ensures var s := PutShell(old(Abs()), c.p.index, old(c.p.Rec()).(owner := Some(c.index)));
              Abs() == PutCall(s, c.index, old(c.Rec()).(donated := true)).(p := None)
    {
      ghost var before := Abs();
      c.donated := true;
      c.p.owner := Some(c.index);
      p := null;
      assert Abs().shells == before.shells[c.p.index := c.p.Rec()];
      assert Abs().calls == before.calls[c.index := c.Rec()];
    }

    /** readUntil's promotion: onPromote drops the shell and unlocks. */
    method OnPromote(c: Running)
      requires Valid() && Called(c) && c.stage.Reading? && !c.donated && !c.unlocked
      modifies this`p, this`locked, this`holder, c, c.p
      ensures Valid() && Abs() == Next(old(Abs()), Event.Promote(c.index))
    {
      ghost var before := Abs();
      assert CallValid(c);
      GiveAway(c);
      Unlock(c);
      assert Abs().calls == before.calls[c.index := c.Rec()];
    }

    /** RunPromotable after its wait. */
    method Return(c: Running)
      requires Valid() && Called(c) && c.stage.Reading? && (c.unlocked <==> c.donated)
      requires !c.donated && c.p.exited ==> p == c.p
      modifies this`p, this`locked, this`holder, c, c.p, p
      ensures Valid() && Abs() == Next(old(Abs()), Event.Return(c.index))
    {
      if c.donated {
        Kill(c.p);
        MarkReturned(c);
      } else if c.canceled {
        CutOff(c.p);
        Exit(c);
      } else {
        if c.p.exited {
          Teardown();
        }
        Exit(c);
      }
    }

    method MarkReturned(c: Running)
      requires Valid() && Called(c)
      modifies c`stage
      ensures Valid() && Abs() == PutCall(old(Abs()), c.index, old(c.Rec()).(stage := Returned))
    {
      ghost var before := Abs();
      c.stage := Returned;
      assert Abs().shells == before.shells && Abs().calls == before.calls[c.index := c.Rec()];
    }

    /** A cancelled call's shell: signalled if it still runs, and forgotten. */
    method CutOff(k: ShellProc)
      requires Valid() && Known(k)
      modifies this`p, k
      ensures Valid()
      ensures var x := old(k.Rec());
              Abs() == PutShell(old(Abs()), k.index, x.(killed := x.killed || x.alive)).(p := None)
    {
      ghost var before := Abs();
      p := null;
      if !k.exited { k.killed := true; }
      assert Abs().calls == before.calls && Abs().shells == before.shells[k.index := k.Rec()];
    }

    method Cancel(c: Running)
      requires Valid() && Called(c) && c.stage != Returned
      modifies c`canceled
      ensures Valid() && Abs() == Next(old(Abs()), Event.Cancel(c.index))
    {
      ghost var before := Abs();
      c.canceled := true;
      assert Abs().shells == before.shells && Abs().calls == before.calls[c.index := c.Rec()];
    }

    /** A shell's process ends: p.dead is closed. */
    method Die(k: ShellProc)
      requires Valid() && Known(k)
      modifies k`exited
      ensures Valid() && Abs() == Next(old(Abs()), Event.Die(k.index))
    {
      ghost var before := Abs();
      k.exited := true;
      assert Abs().calls == before.calls && Abs().shells == before.shells[k.index := k.Rec()];
    }

    method Close()
      requires Valid() && !locked
      modifies this`p, p
      ensures Valid() && Abs() == Next(old(Abs()), Event.Close)
    {
      Teardown();
    }
  }
}
