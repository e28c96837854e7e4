/** What the events of a run say of each call and each shell. */
module ShellHistory {
  import opened HostShell
  import opened Wrappers

  lemma {:induction false} RunConcat(s: State, a: seq<Event>, b: seq<Event>)
    requires IsRun(s, a + b)
    ensures IsRun(s, a) && IsRun(Run(s, a), b) && Run(s, a + b) == Run(Run(s, a), b)
    decreases |a|
  {
    if a == [] {
      assert a + b == b;
    } else {
      assert (a + b)[1..] == a[1..] + b;
      RunConcat(Next(s, a[0]), a[1..], b);
    }
  }

  lemma RunOne(s: State, e: Event)
    requires IsRun(s, [e])
    ensures Enabled(s, e) && Run(s, [e]) == Next(s, e)
  {
    assert [e][1..] == [];
  }

  /** A run, less its last event. */
  lemma RunLast(events: seq<Event>)
    requires events != [] && IsRun(INIT, events)
    ensures var init, e := events[..|events| - 1], events[|events| - 1];
            IsRun(INIT, init) && Enabled(Run(INIT, init), e) && Run(INIT, events) == Next(Run(INIT, init), e)
  {
    var init, e := events[..|events| - 1], events[|events| - 1];
    assert events == init + [e];
    RunConcat(INIT, init, [e]);
    RunOne(Run(INIT, init), e);
  }

  // ---- Calls and shells ----

  function CallAt(s: State, t: nat): Call { if t < |s.calls| then s.calls[t] else NEW_CALL }

  function Arrivals(events: seq<Event>): nat {
    if events == [] then 0 else Arrivals(events[..|events| - 1]) + if events[|events| - 1].Arrive? then 1 else 0
  }

  predicate Begins(e: Event, t: nat) { e.Begin? && e.call == t }

  predicate HasBegun(events: seq<Event>, t: nat) { exists i :: 0 <= i < |events| && Begins(events[i], t) }

  lemma HasBegunMore(events: seq<Event>, e: Event, t: nat)
    ensures HasBegun(events + [e], t) <==> HasBegun(events, t) || Begins(e, t)
  {
    var all := events + [e];
    if i :| 0 <= i < |events| && Begins(events[i], t) { assert Begins(all[i], t); }
    if Begins(e, t) { assert Begins(all[|events|], t); }
  }

  /** How far a call has come. */
  ghost predicate CallTold(events: seq<Event>, t: nat, c: Call) {
    && (c.cancelled <==> Cancel(t) in events)
    && (c.donated <==> Promote(t) in events)
    && (c.stage == Waiting <==> Acquire(t) !in events)
    && (c.stage in {Waiting, Locked} <==> !HasBegun(events, t))
    && (Return(t) in events ==> c.stage == Returned)
  }

  /** What a begun call keeps of itself and of the others. */
  ghost predicate CallsKept(s: State, n: State, t: nat)
    requires t < |s.calls|
  {
    && |n.calls| == |s.calls| && n.calls[t].stage !in {Waiting, Locked}
    && n.calls[t].cancelled == s.calls[t].cancelled && n.calls[t].donated == s.calls[t].donated
    && forall u :: 0 <= u < |s.calls| && u != t ==> n.calls[u] == s.calls[u]
  }

  lemma BeginFields(s: State, t: nat, o: Outcome)
    requires t < |s.calls| && CurrentInv(s)
    ensures CallsKept(s, Begun(s, t, o), t)
  {
    BeginResult(s, t, o);
  }

  lemma CallFields(s: State, e: Event, t: nat)
    requires Inv(s) && Enabled(s, e)
    ensures var b, a := CallAt(s, t), CallAt(Next(s, e), t);
            && (a.cancelled <==> b.cancelled || e == Cancel(t))
            && (a.donated <==> b.donated || e == Promote(t))
            && (a.stage != Waiting <==> b.stage != Waiting || e == Acquire(t))
            && (a.stage !in {Waiting, Locked} <==> b.stage !in {Waiting, Locked} || Begins(e, t))
            && (b.stage == Returned || e == Return(t) ==> a.stage == Returned)
  {
    if e.Begin? { BeginFields(s, e.call, e.outcome); }
    if e.Return? || e.Promote? { assert ReaderInv(s, e.call) && LockInv(s, e.call); }
  }

  lemma {:induction false} CallIsTold(events: seq<Event>, t: nat)
    requires IsRun(INIT, events)
    ensures CallTold(events, t, CallAt(Run(INIT, events), t))
    decreases |events|
  {
    if events != [] {
      var init, e := events[..|events| - 1], events[|events| - 1];
      RunLast(events);
      CallIsTold(init, t);
      RunInv(init);
      CallFields(Run(INIT, init), e, t);
      assert events == init + [e];
      HasBegunMore(init, e, t);
    }
  }

  lemma ArrivalStep(s: State, e: Event)
    requires Inv(s) && Enabled(s, e)
    ensures |Next(s, e).calls| == |s.calls| + if e.Arrive? then 1 else 0
  {
    if e.Begin? { BeginFields(s, e.call, e.outcome); }
    if e.Return? || e.Promote? { assert ReaderInv(s, e.call); }
  }

  /** The calls are those that arrived. */
  lemma {:induction false} ArrivalsAreTold(events: seq<Event>)
    requires IsRun(INIT, events)
    ensures |Run(INIT, events).calls| == Arrivals(events)
    decreases |events|
  {
    if events != [] {
      var init, e := events[..|events| - 1], events[|events| - 1];
      RunLast(events);
      ArrivalsAreTold(init);
      RunInv(init);
      ArrivalStep(Run(INIT, init), e);
    }
  }

  /** The lock is a call's from the time it took it until it was promoted or returned. */
  lemma LockIsTold(events: seq<Event>, t: nat)
    requires IsRun(INIT, events) && t < Arrivals(events)
    ensures var s := Run(INIT, events);
            t < |s.calls| &&
            (s.lock == Some(t) <==> Acquire(t) in events && Promote(t) !in events && s.calls[t].stage != Returned)
  {
    ArrivalsAreTold(events);
    CallIsTold(events, t);
    RunInv(events);
    assert LockInv(Run(INIT, events), t);
  }

  /** A call's own next step may come. */
  ghost predicate GoesOn(s: State, t: nat) {
    Enabled(s, Acquire(t)) || Enabled(s, Return(t)) || forall o :: Enabled(s, Begin(t, o))
  }

  /** No call is ever stuck: one that has arrived and not returned can go on, or waits
      for the lock of one that can. */
  lemma NoneIsStuck(events: seq<Event>, t: nat)
    requires IsRun(INIT, events) && t < Arrivals(events)
    ensures var s := Run(INIT, events);
            t < |s.calls| &&
            (|| s.calls[t].stage == Returned || GoesOn(s, t)
             || (s.lock.Some? && s.lock.value != t && GoesOn(s, s.lock.value)))
  {
    ArrivalsAreTold(events);
    RunInv(events);
    var s := Run(INIT, events);
    assert LockInv(s, t);
    if s.lock.Some? { assert LockInv(s, s.lock.value); }
  }

  predicate AliveAt(s: State, k: nat) { k < |s.shells| ==> s.shells[k].alive }

  ghost predicate SameLife(s: State, n: State) { forall k: nat :: AliveAt(n, k) <==> AliveAt(s, k) }

  lemma TornLife(s: State)
    requires CurrentInv(s)
    ensures SameLife(s, Torn(s))
  {}

  lemma StartedLife(s: State)
    requires CurrentInv(s)
    ensures SameLife(s, Started(s))
  {
    TornLife(s);
  }

  lemma BegunLife(s: State, t: nat, o: Outcome)
    requires t < |s.calls| && CurrentInv(s)
    ensures SameLife(s, Begun(s, t, o))
  {
    TornLife(s);
    StartedKeeps(s);
    StartedLife(s);
    if HasShell(s) || o.starts {
      WroteLife(Numbered(if HasShell(s) then s else Started(s), t), t, o);
    }
  }

  lemma WroteLife(s: State, t: nat, o: Outcome)
    requires t < |s.calls| && CurrentInv(s)
    ensures SameLife(s, Wrote(s, t, o))
  {
    TornLife(s);
    TornKeeps(s);
    StartedLife(Torn(s));
  }

  lemma AliveField(s: State, e: Event, k: nat)
    requires Inv(s) && Enabled(s, e)
    ensures AliveAt(Next(s, e), k) <==> AliveAt(s, k) && e != Die(k)
  {
    match e
    case Begin(t, o) => BegunLife(s, t, o);
    case Return(t) => assert ReaderInv(s, t);
    case Promote(t) => assert ReaderInv(s, t);
    case Close => TornLife(s);
    case _ =>
  }

  /** A shell runs until it dies. */
  lemma {:induction false} AliveIsTold(events: seq<Event>, k: nat)
    requires IsRun(INIT, events)
    ensures AliveAt(Run(INIT, events), k) <==> Die(k) !in events
    decreases |events|
  {
    if events != [] {
      var init, e := events[..|events| - 1], events[|events| - 1];
      RunLast(events);
      AliveIsTold(init, k);
      RunInv(init);
      AliveField(Run(INIT, init), e, k);
      assert events == init + [e];
    }
  }

  // ---- Where a call reads ----

  /** There is a current shell, and it runs. */
  predicate ShellRuns(s: State) { s.p.Some? && s.p.value < |s.shells| && s.shells[s.p.value].alive }

  predicate KilledAt(s: State, k: nat) { k < |s.shells| && s.shells[k].killed }

  /** The call reads from a new shell, which runs. */
  predicate ReadsNew(s: State, n: State, t: nat) {
    && t < |n.calls| && n.calls[t].stage.Reading? && |s.shells| <= n.calls[t].stage.shell < |n.shells|
    && n.shells[n.calls[t].stage.shell].alive && n.p == Some(n.calls[t].stage.shell)
  }

  lemma WroteComesTo(s: State, t: nat, o: Outcome)
    requires t < |s.calls| && CurrentInv(s) && s.p.Some?
    ensures var n := Wrote(s, t, o);
            && (o.writes ==> n.calls[t].stage == Reading(s.p.value) && n.shells == s.shells && n.p == s.p)
            && (!o.writes && o.restarts && o.rewrites ==> ReadsNew(s, n, t))
            && (!o.writes && !(o.restarts && o.rewrites) ==> n.calls[t].stage == Returned && n.lock == None)
            && (n.p != s.p ==> KilledAt(n, s.p.value)) && n.seqno == s.seqno && n.calls[t].seqno == s.calls[t].seqno
  {
    TornKeeps(s);
    StartedKeeps(Torn(s));
  }

  lemma BegunComesTo(s: State, t: nat, o: Outcome)
    requires t < |s.calls| && CurrentInv(s)
    ensures BeginIs(s, Begun(s, t, o), t, o)
  {
    TornKeeps(s);
    StartedKeeps(s);
    if ShellRuns(s) || o.starts {
      WroteComesTo(Numbered(if ShellRuns(s) then s else Started(s), t), t, o);
    }
  }

  ghost predicate BeginIs(s: State, n: State, t: nat, o: Outcome)
    requires t < |s.calls|
  {
    var has := ShellRuns(s) || o.starts;
    && t < |n.calls|
    && (ShellRuns(s) && o.writes ==> n.calls[t].stage == Reading(s.p.value) && n.shells == s.shells && n.p == s.p)
    && (has && !(ShellRuns(s) && o.writes) && (o.writes || (o.restarts && o.rewrites)) ==> ReadsNew(s, n, t))
    && (!(has && (o.writes || (o.restarts && o.rewrites))) ==> n.calls[t].stage == Returned && n.lock == None)
    && (s.p.Some? && n.p != s.p ==> KilledAt(n, s.p.value))
    && (n.calls[t].stage.Reading? ==> n.calls[t].seqno == s.seqno + 1 == n.seqno)
  }

  /** In every run, what Begin comes to: the call reads from the current shell if that
      runs and takes the script, or else from a new one; and if none takes it the call
      returns, and the lock is free. Whatever shell was current and no longer is was
      sent a signal, and a call that reads has the next number. */
  lemma BeginComesTo(events: seq<Event>, t: nat, o: Outcome)
    requires IsRun(INIT, events) && Enabled(Run(INIT, events), Begin(t, o))
    ensures BeginIs(Run(INIT, events), Next(Run(INIT, events), Begin(t, o)), t, o)
  {
    RunInv(events);
    BegunComesTo(Run(INIT, events), t, o);
  }

  // ---- How a call leaves its shell ----

  /** In every run: a promoted call's shell is signalled when it returns, and nothing
      else changes; a cancelled call's is forgotten, and signalled if it runs; one that
      died is forgotten; and any other stays for the next call. */
  lemma ReturnLeaves(events: seq<Event>, t: nat, k: nat)
    requires IsRun(INIT, events) && Enabled(Run(INIT, events), Return(t)) && Reads(Run(INIT, events), t, k)
    ensures var s := Run(INIT, events);
            var n := Next(s, Return(t));
            && k < |s.shells| == |n.shells| && n.calls[t].stage == Returned
            && (Promote(t) in events ==> n.shells[k].killed && n.p == s.p && n.lock == s.lock)
            && (Promote(t) !in events ==> n.lock == None)
            && (Promote(t) !in events && Cancel(t) in events ==>
                  n.p == None && (n.shells[k].killed || Die(k) in events))
            && (Promote(t) !in events && Cancel(t) !in events && Die(k) in events ==>
                  n.p == None && n.shells[k].killed)
            && (Promote(t) !in events && Cancel(t) !in events && Die(k) !in events ==>
                  n.p == Some(k) && n.shells == s.shells)
  {
    RunInv(events);
    var s := Run(INIT, events);
    assert ReaderInv(s, t);
    CallIsTold(events, t);
    AliveIsTold(events, k);
  }

  /** A shell in which a call was cancelled is forgotten with the call's return, and
      signalled if it runs; it never is the current one again, and no call ever reads
      from it. */
  lemma CancelledShellIsGone(before: seq<Event>, t: nat, after: seq<Event>, k: nat, u: nat)
    requires IsRun(INIT, before + ([Return(t)] + after)) && IsRun(INIT, before) && Reads(Run(INIT, before), t, k)
    requires Cancel(t) in before && Promote(t) !in before
    ensures Enabled(Run(INIT, before), Return(t))
    ensures var n := Next(Run(INIT, before), Return(t));
            n.p == None && k < |n.shells| && (!n.shells[k].alive || n.shells[k].killed)
    ensures var z := Run(INIT, before + ([Return(t)] + after)); z.p != Some(k) && !Reads(z, u, k)
  {
    var s := Run(INIT, before);
    RunConcat(INIT, before, [Return(t)] + after);
    RunConcat(s, [Return(t)], after);
    RunOne(s, Return(t));
    ReturnLeaves(before, t, k);
    AliveIsTold(before, k);
    var n := Next(s, Return(t));
    RunInv(before);
    NextInv(s, Return(t));
    ReadsAlone(s, t, k, u);
    AliveField(s, Return(t), k);
    NeverReused(n, after, k, u);
  }

  /** Once its reader returns, nobody reads from a shell. */
  lemma ReadsAlone(s: State, t: nat, k: nat, u: nat)
    requires Inv(s) && Enabled(s, Return(t)) && Reads(s, t, k)
    ensures !Reads(Next(s, Return(t)), u, k)
  {
    assert ReaderInv(s, t) && LockInv(s, t);
    if u < |s.calls| { assert ReaderInv(s, u) && LockInv(s, u); }
  }

  /** A promotion gives the shell to the call that reads it, which reads on, and frees
      the lock; no other shell changes. */
  lemma PromoteLeaves(events: seq<Event>, t: nat, k: nat)
    requires IsRun(INIT, events) && Enabled(Run(INIT, events), Promote(t)) && Reads(Run(INIT, events), t, k)
    ensures var s := Run(INIT, events);
            var n := Next(s, Promote(t));
            && k < |s.shells| && n.shells == s.shells[k := s.shells[k].(owner := Some(t))]
            && n.p == None && n.lock == None && Reads(n, t, k)
  {
    RunInv(events);
    assert ReaderInv(Run(INIT, events), t);
  }

  /** The end of the backend signals its shell and forgets it. */
  lemma CloseLeaves(events: seq<Event>)
    requires IsRun(INIT, events) && Enabled(Run(INIT, events), Close)
    ensures var s := Run(INIT, events);
            var n := Next(s, Close);
            n.p == None && n.calls == s.calls && (s.p.Some? ==> KilledAt(n, s.p.value))
  {
    RunInv(events);
  }

  // ---- Which shells are signalled ----

  /** The current shell was not, nor one that a call reads from. */
  predicate Unsignalled(s: State, k: nat) { k < |s.shells| ==> !s.shells[k].killed }

  ghost predicate QuietInv(s: State) {
    && (s.p.Some? ==> Unsignalled(s, s.p.value))
    && forall t :: 0 <= t < |s.calls| && s.calls[t].stage.Reading? ==>
         Unsignalled(s, s.calls[t].stage.shell) && s.calls[t].seqno > 0
  }

  /** Beginning a call signals no shell but the one that was current. */
  ghost predicate OnlyCurrent(s: State, n: State) {
    |s.shells| <= |n.shells| && forall k :: 0 <= k < |s.shells| && s.p != Some(k) ==> n.shells[k] == s.shells[k]
  }

  lemma WroteQuiet(s: State, t: nat, o: Outcome)
    requires t < |s.calls| && CurrentInv(s) && s.p.Some? && Unsignalled(s, s.p.value)
    ensures var n := Wrote(s, t, o); OnlyCurrent(s, n) && (n.p.Some? ==> Unsignalled(n, n.p.value))
  {
    TornKeeps(s);
    StartedKeeps(Torn(s));
  }

  lemma BegunQuiet(s: State, t: nat, o: Outcome)
    requires t < |s.calls| && CurrentInv(s) && (s.p.Some? ==> Unsignalled(s, s.p.value))
    ensures var n := Begun(s, t, o); OnlyCurrent(s, n) && (n.p.Some? ==> Unsignalled(n, n.p.value))
  {
    TornKeeps(s);
    StartedKeeps(s);
    if HasShell(s) || o.starts {
      var m := if HasShell(s) then s else Started(s);
      WroteQuiet(Numbered(m, t), t, o);
    }
  }

  lemma BeginQuiet(s: State, t: nat, o: Outcome)
    requires Inv(s) && QuietInv(s) && Enabled(s, Begin(t, o))
    ensures QuietInv(Next(s, Begin(t, o)))
  {
    var n := Begun(s, t, o);
    BegunQuiet(s, t, o);
    BegunComesTo(s, t, o);
    BeginResult(s, t, o);
    assert LockInv(s, t);
    forall u | 0 <= u < |n.calls| && n.calls[u].stage.Reading?
      ensures Unsignalled(n, n.calls[u].stage.shell) && n.calls[u].seqno > 0
    {
      if u != t { assert LockInv(s, u) && ReaderInv(s, u); }
    }
  }

  lemma ReturnQuiet(s: State, t: nat)
    requires Inv(s) && QuietInv(s) && Enabled(s, Return(t))
    ensures QuietInv(Next(s, Return(t)))
  {
    var n := Next(s, Return(t));
    assert LockInv(s, t) && ReaderInv(s, t);
    forall u | 0 <= u < |n.calls| && n.calls[u].stage.Reading?
      ensures Unsignalled(n, n.calls[u].stage.shell) && n.calls[u].seqno > 0
    {
      assert LockInv(s, u) && ReaderInv(s, u);
    }
  }

  lemma NextQuiet(s: State, e: Event)
    requires Inv(s) && QuietInv(s) && Enabled(s, e)
    ensures QuietInv(Next(s, e))
  {
    match e
    case Begin(t, o) => BeginQuiet(s, t, o);
    case Return(t) => ReturnQuiet(s, t);
    case Promote(t) => assert ReaderInv(s, t);
    case Close =>
      var n := Next(s, Close);
      forall u | 0 <= u < |n.calls| && n.calls[u].stage.Reading? ensures Unsignalled(n, n.calls[u].stage.shell) {
        assert LockInv(s, u) && ReaderInv(s, u);
      }
    case _ =>
  }

  lemma {:induction false} QuietKept(s: State, events: seq<Event>)
    requires Inv(s) && QuietInv(s) && IsRun(s, events)
    ensures QuietInv(Run(s, events))
    decreases |events|
  {
    if events != [] {
      NextInv(s, events[0]);
      NextQuiet(s, events[0]);
      QuietKept(Next(s, events[0]), events[1..]);
    }
  }

  /** In every run, no signal was sent to the current shell, nor to one that a call
      reads from; and every call that reads has a number. */
  lemma NoneSignalledInUse(events: seq<Event>, t: nat)
    requires IsRun(INIT, events)
    ensures var s := Run(INIT, events);
            && (s.p.Some? ==> Unsignalled(s, s.p.value))
            && (t < |s.calls| && s.calls[t].stage.Reading? ==>
                  Unsignalled(s, s.calls[t].stage.shell) && s.calls[t].seqno > 0)
  {
    QuietKept(INIT, events);
  }
}
