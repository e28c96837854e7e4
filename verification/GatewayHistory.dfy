/** What the events of a run say of the gateway's clients, upstreams and timers. */
module GatewayHistory {
  import opened Gateway
  import opened Wrappers

  /** A run, less its last event. */
  lemma RunLast(events: seq<Event>)
    requires events != [] && IsRun(INIT, events)
    ensures var init, e := events[..|events| - 1], events[|events| - 1];
            IsRun(INIT, init) && Enabled(Run(INIT, init), e) && Run(INIT, events) == Next(Run(INIT, init), e)
  {
    var init, e := events[..|events| - 1], events[|events| - 1];
    assert events == init + [e] && [e][1..] == [];
    RunConcat(INIT, init, [e]);
    RunOne(Run(INIT, init), e);
  }

  // ---- Clients ----

  /** What ends a client: its release, a drop of its key's current upstream, or the
      end of the gateway. */
  predicate EndsClient(s: State, e: Event, bearer: Bearer, key: Key) {
    e == Release(bearer) || e == Close || (e.Drop? && Current(s, e.up) && s.recs[e.up].key == key)
  }

  /** The bearer was given out to this client, and nothing has ended it since. */
  ghost predicate ClientSince(events: seq<Event>, bearer: Bearer, client: Client) {
    exists i :: 0 <= i < |events| && events[i] == Share(bearer, client) && LastsFrom(events, i, bearer, client)
  }

  ghost predicate LastsFrom(events: seq<Event>, i: nat, bearer: Bearer, client: Client) {
    forall k :: i < k < |events| ==> !EndsClient(Run(INIT, events[..k]), events[k], bearer, client.key)
  }

  lemma LastsMore(events: seq<Event>, e: Event, i: nat, bearer: Bearer, client: Client)
    requires i < |events|
    ensures LastsFrom(events + [e], i, bearer, client) <==>
            LastsFrom(events, i, bearer, client) && !EndsClient(Run(INIT, events), e, bearer, client.key)
  {
    var all := events + [e];
    forall k | 0 <= k <= |events| ensures all[..k] == events[..k] {}
    assert events[..|events|] == events && all[|events|] == e;
    if LastsFrom(all, i, bearer, client) {
      forall k | i < k < |events| ensures !EndsClient(Run(INIT, events[..k]), events[k], bearer, client.key) {
        assert all[k] == events[k];
      }
    }
  }

  lemma ClientMore(events: seq<Event>, e: Event, bearer: Bearer, client: Client)
    ensures ClientSince(events + [e], bearer, client) <==>
            || e == Share(bearer, client)
            || (ClientSince(events, bearer, client) && !EndsClient(Run(INIT, events), e, bearer, client.key))
  {
    var all := events + [e];
    if e == Share(bearer, client) {
      assert all[|events|] == e && LastsFrom(all, |events|, bearer, client);
    }
    if i: nat :| 0 <= i < |events| && events[i] == Share(bearer, client) && LastsFrom(events, i, bearer, client) {
      LastsMore(events, e, i, bearer, client);
      assert all[i] == events[i];
    }
    if i: nat :| 0 <= i < |all| && all[i] == Share(bearer, client) && LastsFrom(all, i, bearer, client) {
      if i < |events| { LastsMore(events, e, i, bearer, client); }
    }
  }

  predicate IsClient(s: State, bearer: Bearer, client: Client) {
    bearer in s.clients && s.clients[bearer] == client
  }

  lemma ClientStep(s: State, e: Event, bearer: Bearer, client: Client)
    requires Enabled(s, e)
    ensures IsClient(Next(s, e), bearer, client) <==>
            || e == Share(bearer, client)
            || (IsClient(s, bearer, client) && !EndsClient(s, e, bearer, client.key))
  {}

  /** In every run, a bearer is a client's exactly if it was given out to it and
      nothing has ended it since. */
  lemma {:induction false} ClientIsTold(events: seq<Event>, bearer: Bearer, client: Client)
    requires IsRun(INIT, events)
    ensures IsClient(Run(INIT, events), bearer, client) <==> ClientSince(events, bearer, client)
    decreases |events|
  {
    if events != [] {
      var init, e := events[..|events| - 1], events[|events| - 1];
      RunLast(events);
      ClientIsTold(init, bearer, client);
      assert events == init + [e];
      ClientMore(init, e, bearer, client);
      ClientStep(Run(INIT, init), e, bearer, client);
    }
  }

  // ---- What a share gives ----

  /** Right after a share, in every run, the client holds its key, whose upstream has
      not failed and has no timer: the one that ran, or else a new one. */
  lemma ShareGives(events: seq<Event>, bearer: Bearer, client: Client)
    requires IsRun(INIT, events) && Enabled(Run(INIT, events), Share(bearer, client))
    ensures var s := Run(INIT, events);
            var n := Next(s, Share(bearer, client));
            && client.key in n.ups && n.ups[client.key] < |n.recs| && Holds(n, bearer, client, n.ups[client.key])
            && !n.recs[n.ups[client.key]].failed && n.recs[n.ups[client.key]].timer == None
            && (if client.key in s.ups then n.ups == s.ups else n.ups == s.ups[client.key := |s.recs|])
  {
    RunInv(events);
    WithUpInv(Run(INIT, events), client.key);
  }

  /** So what a share gives a client is its own until it gives it back: in every run,
      its upstream is the same one, whatever others do and whatever timers fire. */
  lemma SharedStays(before: seq<Event>, bearer: Bearer, client: Client, after: seq<Event>, u: nat)
    requires IsRun(INIT, before + ([Share(bearer, client)] + after)) && IsRun(INIT, before)
    requires var n := Next(Run(INIT, before), Share(bearer, client)); client.key in n.ups && n.ups[client.key] == u
    requires forall i :: 0 <= i < |after| ==> Spares(after[i], u, bearer)
    ensures Holds(Run(INIT, before + ([Share(bearer, client)] + after)), bearer, client, u)
  {
    var s, e := Run(INIT, before), Share(bearer, client);
    RunConcat(INIT, before, [e] + after);
    RunConcat(s, [e], after);
    RunOne(s, e);
    assert [e][0] == e;
    ShareGives(before, bearer, client);
    RunInv(before);
    NextInv(s, e);
    HoldingStays(Next(s, e), after, bearer, client, u);
  }

  // ---- Starts ----

  predicate Starts(events: seq<Event>, u: nat) { StartDone(u, true) in events || StartDone(u, false) in events }

  function RecAt(s: State, u: nat): Up { if u < |s.recs| then s.recs[u] else Up("", false, false, None) }

  lemma StartFields(s: State, e: Event, u: nat)
    requires Inv(s) && Enabled(s, e) && (RecAt(s, u).failed ==> RecAt(s, u).ready)
    ensures var b, a := RecAt(s, u), RecAt(Next(s, e), u);
            && (a.ready <==> b.ready || e == StartDone(u, true) || e == StartDone(u, false))
            && (a.failed <==> b.failed || e == StartDone(u, false))
            && (u < |s.recs| ==> u < |Next(s, e).recs| && a.key == b.key)
  {
    if e.Share? { WithUpInv(s, e.client.key); }
  }

  /** A start has ended, or failed, exactly as the events say. */
  lemma {:induction false} StartIsTold(events: seq<Event>, u: nat)
    requires IsRun(INIT, events)
    ensures var rec := RecAt(Run(INIT, events), u);
            (rec.ready <==> Starts(events, u)) && (rec.failed <==> StartDone(u, false) in events)
    decreases |events|
  {
    if events != [] {
      var init, e := events[..|events| - 1], events[|events| - 1];
      RunLast(events);
      StartIsTold(init, u);
      RunInv(init);
      StartFields(Run(INIT, init), e, u);
      assert events == init + [e];
    }
  }

  // ---- Upstreams ----

  /** What takes a key's upstream away: its failed start, a drop of it, the gateway's
      end, or its grace callback while nobody holds the key. */
  predicate TakesAway(s: State, e: Event, k: Key)
    requires k in s.ups
  {
    || e == StartDone(s.ups[k], false) || e == Drop(s.ups[k]) || e == Close
    || (e.Callback? && e.timer < |s.timers| && s.timers[e.timer].up == s.ups[k] && Unheld(s.clients, k))
  }

  lemma UpstreamStays(s: State, e: Event, k: Key)
    requires Inv(s) && Enabled(s, e) && k in s.ups
    ensures TakesAway(s, e, k) && !e.Share? ==> k !in Next(s, e).ups
    ensures !TakesAway(s, e, k) ==> k in Next(s, e).ups && Next(s, e).ups[k] == s.ups[k]
  {
    if e.Share? { WithUpInv(s, e.client.key); }
  }

  lemma UpstreamMade(s: State, e: Event, k: Key)
    requires Inv(s) && Enabled(s, e) && k !in s.ups
    ensures k in Next(s, e).ups <==> e.Share? && e.client.key == k
  {
    if e.Share? { WithUpInv(s, e.client.key); }
  }

  /** A key has an upstream after a step exactly if it had one that the step does not
      take away, which it keeps, or the step shares it. */
  lemma UpstreamIff(events: seq<Event>, e: Event, k: Key)
    requires IsRun(INIT, events) && Enabled(Run(INIT, events), e)
    ensures var s := Run(INIT, events);
            && (k in Next(s, e).ups <==> (k in s.ups && !TakesAway(s, e, k)) || (e.Share? && e.client.key == k))
            && (k in s.ups && k in Next(s, e).ups ==> Next(s, e).ups[k] == s.ups[k])
  {
    RunInv(events);
    var s := Run(INIT, events);
    if k in s.ups { UpstreamStays(s, e, k); } else { UpstreamMade(s, e, k); }
  }

  // ---- Timers ----

  /** While a client holds a key, its upstream has no timer. */
  ghost predicate HeldInv(s: State) {
    forall k :: k in s.ups && s.ups[k] < |s.recs| && !Unheld(s.clients, k) ==> s.recs[s.ups[k]].timer == None
  }

  lemma ShareHeld(s: State, bearer: Bearer, client: Client)
    requires Inv(s) && HeldInv(s) && Enabled(s, Share(bearer, client))
    ensures HeldInv(Next(s, Share(bearer, client)))
  {
    var n := Next(s, Share(bearer, client));
    WithUpInv(s, client.key);
    forall k | k in n.ups && n.ups[k] < |n.recs| && !Unheld(n.clients, k) ensures n.recs[n.ups[k]].timer == None {
      if k != client.key {
        var b :| b in n.clients && n.clients[b].key == k;
        assert b in s.clients && s.clients[b].key == k;
        assert !Unheld(s.clients, k);
      }
    }
  }

  lemma StartDoneHeld(s: State, u: nat, ok: bool)
    requires Inv(s) && HeldInv(s) && Enabled(s, StartDone(u, ok))
    ensures HeldInv(Next(s, StartDone(u, ok)))
  {
    var n := Next(s, StartDone(u, ok));
    forall k | k in n.ups && n.ups[k] < |n.recs| && !Unheld(n.clients, k) ensures n.recs[n.ups[k]].timer == None {
      assert k in s.ups && !Unheld(s.clients, k);
    }
  }

  lemma ReleaseHeld(s: State, bearer: Bearer)
    requires Inv(s) && HeldInv(s)
    ensures HeldInv(Next(s, Release(bearer)))
  {
    var n := Next(s, Release(bearer));
    forall k | k in n.ups && n.ups[k] < |n.recs| && !Unheld(n.clients, k) ensures n.recs[n.ups[k]].timer == None {
      var b :| b in n.clients && n.clients[b].key == k;
      assert b in s.clients && s.clients[b].key == k;
      assert !Unheld(s.clients, k);
    }
  }

  lemma DropHeld(s: State, u: nat)
    requires Inv(s) && HeldInv(s) && u < |s.recs|
    ensures HeldInv(Next(s, Drop(u)))
  {
    var n := Next(s, Drop(u));
    forall k | k in n.ups && n.ups[k] < |n.recs| && !Unheld(n.clients, k) ensures n.recs[n.ups[k]].timer == None {
      var b :| b in n.clients && n.clients[b].key == k;
      assert b in s.clients && s.clients[b].key == k;
      assert !Unheld(s.clients, k);
    }
  }

  lemma NextHeld(s: State, e: Event)
    requires Inv(s) && HeldInv(s) && Enabled(s, e)
    ensures HeldInv(Next(s, e))
  {
    match e
    case Share(bearer, client) => ShareHeld(s, bearer, client);
    case StartDone(u, ok) => StartDoneHeld(s, u, ok);
    case Release(bearer) => ReleaseHeld(s, bearer);
    case Drop(u) => DropHeld(s, u);
    case _ =>
  }

  lemma {:induction false} HeldKept(s: State, events: seq<Event>)
    requires Inv(s) && HeldInv(s) && IsRun(s, events)
    ensures HeldInv(Run(s, events))
    decreases |events|
  {
    if events != [] {
      NextInv(s, events[0]);
      NextHeld(s, events[0]);
      HeldKept(Next(s, events[0]), events[1..]);
    }
  }

  /** In every run, while a client holds a key no timer of its upstream is armed; so
      every grace period is a whole one, from the moment nobody holds it. */
  lemma HeldIsNotTimed(events: seq<Event>, k: Key, t: nat)
    requires IsRun(INIT, events)
    ensures var s := Run(INIT, events);
            k in s.ups && !Unheld(s.clients, k) ==>
              && s.ups[k] < |s.recs| && s.recs[s.ups[k]].timer == None
              && (t < |s.timers| && s.timers[t].up == s.ups[k] ==> s.timers[t].status != Armed)
  {
    HeldKept(INIT, events);
    RunInv(events);
    var s := Run(INIT, events);
    if t < |s.timers| { assert HeldIfArmed(s, t); }
  }

  /** The end of the gateway stops the timers of all its upstreams. */
  lemma CloseStops(events: seq<Event>, k: Key, t: nat)
    requires IsRun(INIT, events) && k in Run(INIT, events).ups
    ensures var s := Run(INIT, events);
            var n := Next(s, Close);
            && n.ups == map[] && n.clients == map[]
            && (t < |n.timers| && n.timers[t].up == s.ups[k] ==> n.timers[t].status != Armed)
  {
    RunInv(events);
    var s := Run(INIT, events);
    if t < |s.timers| {
      assert HeldIfArmed(s, t);
      if s.timers[t].status == Armed && s.timers[t].up == s.ups[k] { assert t in HeldBy(s, s.ups.Keys); }
    }
  }

  /** A timer fired, and its callback ran, exactly as the events say. */
  lemma {:induction false} TimerIsTold(events: seq<Event>, t: nat)
    requires IsRun(INIT, events)
    ensures var s := Run(INIT, events);
            && (Fire(t) in events <==> t < |s.timers| && s.timers[t].status in {Fired, Ran})
            && (Callback(t) in events <==> t < |s.timers| && s.timers[t].status == Ran)
    decreases |events|
  {
    if events != [] {
      var init, e := events[..|events| - 1], events[|events| - 1];
      RunLast(events);
      TimerIsTold(init, t);
      TimerStep(Run(INIT, init), e, t);
      assert events == init + [e];
    }
  }

  predicate StatusIn(s: State, t: nat, those: set<Status>) { t < |s.timers| && s.timers[t].status in those }

  lemma TimerStep(s: State, e: Event, t: nat)
    requires Enabled(s, e)
    ensures StatusIn(Next(s, e), t, {Fired, Ran}) <==> StatusIn(s, t, {Fired, Ran}) || e == Fire(t)
    ensures StatusIn(Next(s, e), t, {Ran}) <==> StatusIn(s, t, {Ran}) || e == Callback(t)
  {}
}
