/** dund's MCP gateway: gateway.go's upstreams, their clients, and the grace
    timers that stop an upstream nobody holds.

    Every event is one critical section under the gateway's mutex, or the firing
    of a timer, so a run is any interleaving of askers, starts, releases, timers
    and drops. An upstream is named by the order it was made in, as the program
    tells two of them apart by their address. */
module Gateway {
  import opened Wrappers

  type Key = string
  type Bearer = string

  /** failed is what up.failed() answers: the start ended, with an error. */
  datatype Up = Up(key: Key, ready: bool, failed: bool, timer: Option<nat>)

  /** A timer made by time.AfterFunc: it fires once unless stopped first, and its
      callback runs some time after it fired. */
  datatype Status = Armed | Stopped | Fired | Ran

  datatype Timer = Timer(up: nat, status: Status)

  datatype Client = Client(key: Key, engine: nat)

  datatype State = State(
    ups: map<Key, nat>,           // the current upstream of each key
    recs: seq<Up>,                // every upstream ever made
    clients: map<Bearer, Client>,
    timers: seq<Timer>)           // every timer ever made

  const INIT := State(map[], [], map[], [])

  datatype Event =
    | Share(bearer: Bearer, client: Client)
    | StartDone(up: nat, ok: bool)
    | Release(bearer: Bearer)
    | Fire(timer: nat)
    | Callback(timer: nat)
    | Drop(up: nat)
    | Close

  predicate Enabled(s: State, e: Event) {
    match e
    case Share(bearer, _) => bearer !in s.clients   // a new random bearer
    case StartDone(u, _) => u < |s.recs| && !s.recs[u].ready
    case Release(_) => true                          // given up, closed, engine gone: any time
    case Fire(t) => t < |s.timers| && s.timers[t].status == Armed
    case Callback(t) => t < |s.timers| && s.timers[t].status == Fired
    case Drop(u) => u < |s.recs|
    case Close => true
  }

  // ---- What each event does ----

  /** clientsOf(key) == 0. */
  predicate Unheld(clients: map<Bearer, Client>, key: Key) {
    forall b :: b in clients ==> clients[b].key != key
  }

  predicate Current(s: State, u: nat) {
    u < |s.recs| && s.recs[u].key in s.ups && s.ups[s.recs[u].key] == u
  }

  function Stop(ts: seq<Timer>, t: nat): seq<Timer> {
    if t < |ts| && ts[t].status == Armed then ts[t := ts[t].(status := Stopped)] else ts
  }

  function StopTimerOf(s: State, u: nat): seq<Timer> {
    if u < |s.recs| && s.recs[u].timer.Some? then Stop(s.timers, s.recs[u].timer.value) else s.timers
  }

  function GraceStop(s: State, u: nat): State
    requires u < |s.recs|
  {
    var ts := StopTimerOf(s, u);
    s.(timers := ts + [Timer(u, Armed)], recs := s.recs[u := s.recs[u].(timer := Some(|ts|))])
  }

  function Forget(s: State, u: nat): State {
    if Current(s, u) then s.(ups := s.ups - {s.recs[u].key}) else s
  }

  function Running(s: State, key: Key): Option<nat> {
    if key in s.ups && s.ups[key] < |s.recs| && !s.recs[s.ups[key]].failed then Some(s.ups[key]) else None
  }

  /** Share's upstream for key, made now if none runs. */
  function WithUp(s: State, key: Key): State {
    if Running(s, key).Some? then s
    else s.(ups := s.ups[key := |s.recs|], recs := s.recs + [Up(key, false, false, None)])
  }

  function ClearTimer(s: State, u: nat): State {
    if u < |s.recs| && s.recs[u].timer.Some?
    then s.(timers := StopTimerOf(s, u), recs := s.recs[u := s.recs[u].(timer := None)]) else s
  }

  function Next(s: State, e: Event): State {
    match e
    case Share(bearer, client) =>
      var s' := WithUp(s, client.key);
      ClearTimer(s', s'.ups[client.key]).(clients := s.clients[bearer := client])
    case StartDone(u, ok) =>
      if u >= |s.recs| then s
      else
        var s' := s.(recs := s.recs[u := s.recs[u].(ready := true, failed := !ok)]);
        if !ok then Forget(s', u)
        else if Unheld(s.clients, s.recs[u].key) then GraceStop(s', u) else s'
    case Release(bearer) =>
      if bearer !in s.clients then s
      else
        var key := s.clients[bearer].key;
        var s' := s.(clients := s.clients - {bearer});
        (match Running(s, key)
         case None => s'
         case Some(u) => if Unheld(s'.clients, key) && s.recs[u].ready then GraceStop(s', u) else s')
    case Fire(t) =>
      if t < |s.timers| then s.(timers := s.timers[t := s.timers[t].(status := Fired)]) else s
    case Callback(t) =>
      if t >= |s.timers| then s
      else
        var u := s.timers[t].up;
        var s' := s.(timers := s.timers[t := s.timers[t].(status := Ran)]);
        if Current(s, u) && Unheld(s.clients, s.recs[u].key) then Forget(s', u) else s'
    case Drop(u) =>
      if Current(s, u) then
        var key := s.recs[u].key;
        Forget(s, u).(clients := Without(s.clients, key))
      else s
    case Close =>
      s.(ups := map[], clients := map[], timers := StopEach(s.timers, HeldBy(s, s.ups.Keys)))
  }

  /** The timers the current upstreams of some keys hold. */
  function HeldBy(s: State, keys: set<Key>): set<nat> {
    set k | k in keys && k in s.ups && s.ups[k] < |s.recs| && s.recs[s.ups[k]].timer.Some? ::
      s.recs[s.ups[k]].timer.value
  }

  function StopEach(ts: seq<Timer>, ids: set<nat>): seq<Timer> {
    seq(|ts|, t requires 0 <= t < |ts| =>
      if ts[t].status == Armed && t in ids then ts[t].(status := Stopped) else ts[t])
  }

  ghost predicate IsRun(s: State, events: seq<Event>)
    decreases |events|
  {
    events == [] || (Enabled(s, events[0]) && IsRun(Next(s, events[0]), events[1..]))
  }

  function Run(s: State, events: seq<Event>): State
    decreases |events|
  {
    if events == [] then s else Run(Next(s, events[0]), events[1..])
  }

  // ---- Safety ----

  /** The timer of an upstream, if it can still stop it. */
  predicate Pending(s: State, u: nat) {
    && u < |s.recs| && s.recs[u].timer.Some?
    && s.recs[u].timer.value < |s.timers|
    && s.timers[s.recs[u].timer.value].status in {Armed, Fired}
  }

  /** A started current upstream nobody holds will be looked at again. */
  ghost predicate NoLeak(s: State) {
    forall k :: k in s.ups && s.ups[k] < |s.recs| && s.recs[s.ups[k]].ready && Unheld(s.clients, k) ==>
      Pending(s, s.ups[k])
  }

  /** The keys' upstreams are theirs, and none that failed is current. */
  ghost predicate KeysInv(s: State) {
    && (forall k :: k in s.ups ==> s.ups[k] < |s.recs|)
    && (forall k :: k in s.ups ==> s.recs[s.ups[k]].key == k && !s.recs[s.ups[k]].failed)
  }

  /** Only started upstreams have timers, each its own, and an armed timer is the
      one its upstream holds. */
  ghost predicate TimersInv(s: State) {
    && (forall t :: 0 <= t < |s.timers| ==> s.timers[t].up < |s.recs|)
    && (forall u :: 0 <= u < |s.recs| ==> OwnsTimer(s, u))
    && (forall t :: 0 <= t < |s.timers| ==> HeldIfArmed(s, t))
  }

  predicate OwnsTimer(s: State, u: nat)
    requires u < |s.recs|
  {
    s.recs[u].timer.Some? ==>
      s.recs[u].ready && s.recs[u].timer.value < |s.timers| && s.timers[s.recs[u].timer.value].up == u
  }

  predicate HeldIfArmed(s: State, t: nat)
    requires t < |s.timers| && s.timers[t].up < |s.recs|
  {
    s.timers[t].status == Armed ==> s.recs[s.timers[t].up].timer == Some(t)
  }

  ghost predicate Inv(s: State) {
    KeysInv(s) && TimersInv(s) && NoLeak(s)
  }

  lemma GraceStopInv(s: State, u: nat)
    requires KeysInv(s) && TimersInv(s) && u < |s.recs| && s.recs[u].ready
    ensures KeysInv(GraceStop(s, u)) && TimersInv(GraceStop(s, u)) && Pending(GraceStop(s, u), u)
    ensures forall v :: 0 <= v < |s.recs| && v != u && Pending(s, v) ==> Pending(GraceStop(s, u), v)
  {
    GraceStopTimers(s, u);
    GraceStopOthers(s, u);
  }

  lemma GraceStopTimers(s: State, u: nat)
    requires TimersInv(s) && u < |s.recs| && s.recs[u].ready
    ensures TimersInv(GraceStop(s, u))
  {
    var n := GraceStop(s, u);
    forall v | 0 <= v < |n.recs| ensures OwnsTimer(n, v) { assert OwnsTimer(s, v); }
    forall t | 0 <= t < |n.timers| ensures HeldIfArmed(n, t) {
      if t < |s.timers| { assert HeldIfArmed(s, t) && OwnsTimer(s, u); }
    }
  }

  lemma GraceStopOthers(s: State, u: nat)
    requires KeysInv(s) && TimersInv(s) && u < |s.recs| && s.recs[u].ready
    ensures Pending(GraceStop(s, u), u)
    ensures forall v :: 0 <= v < |s.recs| && v != u && Pending(s, v) ==> Pending(GraceStop(s, u), v)
  {
    assert OwnsTimer(s, u);
    forall v | 0 <= v < |s.recs| && v != u && Pending(s, v) ensures Pending(GraceStop(s, u), v) {
      assert OwnsTimer(s, v);
    }
  }

  lemma WithUpInv(s: State, key: Key)
    requires KeysInv(s) && TimersInv(s)
    ensures var s' := WithUp(s, key);
            && KeysInv(s') && TimersInv(s') && key in s'.ups
            && s'.timers == s.timers && s.recs <= s'.recs
            && (forall k :: k != key ==> (k in s'.ups <==> k in s.ups) && (k in s.ups ==> s'.ups[k] == s.ups[k]))
  {
    var s' := WithUp(s, key);
    forall v | 0 <= v < |s'.recs| ensures OwnsTimer(s', v) { if v < |s.recs| { assert OwnsTimer(s, v); } }
    forall t | 0 <= t < |s'.timers| ensures HeldIfArmed(s', t) { assert HeldIfArmed(s, t); }
  }

  lemma ClearTimerInv(s: State, u: nat)
    requires KeysInv(s) && TimersInv(s) && u < |s.recs|
    ensures KeysInv(ClearTimer(s, u)) && TimersInv(ClearTimer(s, u))
    ensures forall v :: 0 <= v < |s.recs| && v != u && Pending(s, v) ==> Pending(ClearTimer(s, u), v)
  {
    ClearTimerTimers(s, u);
    ClearTimerOthers(s, u);
  }

  lemma ClearTimerTimers(s: State, u: nat)
    requires TimersInv(s) && u < |s.recs|
    ensures TimersInv(ClearTimer(s, u))
  {
    var n := ClearTimer(s, u);
    forall v | 0 <= v < |n.recs| ensures OwnsTimer(n, v) { assert OwnsTimer(s, v); }
    forall t | 0 <= t < |n.timers| ensures HeldIfArmed(n, t) { assert HeldIfArmed(s, t) && OwnsTimer(s, u); }
  }

  lemma ClearTimerOthers(s: State, u: nat)
    requires TimersInv(s) && u < |s.recs|
    ensures forall v :: 0 <= v < |s.recs| && v != u && Pending(s, v) ==> Pending(ClearTimer(s, u), v)
  {
    forall v | 0 <= v < |s.recs| && v != u && Pending(s, v) ensures Pending(ClearTimer(s, u), v) {
      assert OwnsTimer(s, v) && OwnsTimer(s, u);
    }
  }

  lemma ShareInv(s: State, bearer: Bearer, client: Client)
    requires Inv(s) && bearer !in s.clients
    ensures Inv(Next(s, Share(bearer, client)))
  {
    WithUpInv(s, client.key);
    var s' := WithUp(s, client.key);
    ClearTimerInv(s', s'.ups[client.key]);
    SameTimers(ClearTimer(s', s'.ups[client.key]), Next(s, Share(bearer, client)));
    ShareNoLeak(s, bearer, client);
  }

  /** What the clients are does not matter to timers, nor which upstreams are current. */
  lemma SameTimers(s: State, n: State)
    requires TimersInv(s) && n.recs == s.recs && n.timers == s.timers
    ensures TimersInv(n)
  {
    forall u | 0 <= u < |n.recs| ensures OwnsTimer(n, u) { assert OwnsTimer(s, u); }
    forall t | 0 <= t < |n.timers| ensures HeldIfArmed(n, t) { assert HeldIfArmed(s, t); }
  }

  lemma ShareNoLeak(s: State, bearer: Bearer, client: Client)
    requires Inv(s) && bearer !in s.clients
    ensures NoLeak(Next(s, Share(bearer, client)))
  {
    WithUpInv(s, client.key);
    var s' := WithUp(s, client.key);
    var u := s'.ups[client.key];
    ClearTimerInv(s', u);
    var n := Next(s, Share(bearer, client));
    forall k | k in n.ups && n.recs[n.ups[k]].ready && Unheld(n.clients, k) ensures Pending(n, n.ups[k]) {
      assert n.clients[bearer].key != k;
      UnheldBefore(s.clients, bearer, client, k);
      assert Pending(s, s.ups[k]);
      assert Pending(s', s.ups[k]);
    }
  }

  lemma UnheldBefore(clients: map<Bearer, Client>, bearer: Bearer, client: Client, k: Key)
    requires Unheld(clients[bearer := client], k) && bearer !in clients
    ensures Unheld(clients, k)
  {
    forall b | b in clients ensures clients[b].key != k {
      assert clients[bearer := client][b].key != k;
    }
  }

  /** The start of u has ended. */
  function Ended(s: State, u: nat, ok: bool): State
    requires u < |s.recs|
  {
    s.(recs := s.recs[u := s.recs[u].(ready := true, failed := !ok)])
  }

  lemma EndedTimers(s: State, u: nat, ok: bool)
    requires TimersInv(s) && u < |s.recs|
    ensures TimersInv(Ended(s, u, ok))
  {
    var n := Ended(s, u, ok);
    forall v | 0 <= v < |n.recs| ensures OwnsTimer(n, v) { assert OwnsTimer(s, v); }
    forall t | 0 <= t < |n.timers| ensures HeldIfArmed(n, t) { assert HeldIfArmed(s, t); }
  }

  lemma StartDoneInv(s: State, u: nat, ok: bool)
    requires Inv(s) && Enabled(s, StartDone(u, ok))
    ensures Inv(Next(s, StartDone(u, ok)))
  {
    EndedTimers(s, u, ok);
    if ok { StartedInv(s, u); } else { StartFailedInv(s, u); }
  }

  lemma StartFailedInv(s: State, u: nat)
    requires Inv(s) && Enabled(s, StartDone(u, false)) && TimersInv(Ended(s, u, false))
    ensures Inv(Next(s, StartDone(u, false)))
  {
    SameTimers(Ended(s, u, false), Next(s, StartDone(u, false)));
  }

  lemma StartedInv(s: State, u: nat)
    requires Inv(s) && Enabled(s, StartDone(u, true)) && TimersInv(Ended(s, u, true))
    ensures Inv(Next(s, StartDone(u, true)))
  {
    var s' := Ended(s, u, true);
    assert KeysInv(s');
    GraceStopInv(s', u);
    forall k | k in s.ups && s.ups[k] == u ensures k == s.recs[u].key {}
  }

  lemma ReleaseInv(s: State, bearer: Bearer)
    requires Inv(s) && bearer in s.clients
    ensures Inv(Next(s, Release(bearer)))
  {
    var key := s.clients[bearer].key;
    var s' := s.(clients := s.clients - {bearer});
    SameTimers(s, s');
    assert KeysInv(s');
    if Running(s, key).Some? && s.recs[s.ups[key]].ready { GraceStopInv(s', s.ups[key]); }
    ReleaseNoLeak(s, bearer);
  }

  lemma ReleaseNoLeak(s: State, bearer: Bearer)
    requires Inv(s) && bearer in s.clients
    ensures NoLeak(Next(s, Release(bearer)))
  {
    var key := s.clients[bearer].key;
    var s', n := s.(clients := s.clients - {bearer}), Next(s, Release(bearer));
    SameTimers(s, s');
    if Running(s, key).Some? && s.recs[s.ups[key]].ready { GraceStopOthers(s', s.ups[key]); }
    forall k | k in n.ups && n.recs[n.ups[k]].ready && Unheld(n.clients, k) ensures Pending(n, n.ups[k]) {
      if k != key {
        UnheldWithout(s.clients, bearer, k);
        assert Pending(s, s.ups[k]);
        assert Pending(s', s.ups[k]);
      }
    }
  }

  lemma UnheldWithout(clients: map<Bearer, Client>, bearer: Bearer, k: Key)
    requires bearer in clients && clients[bearer].key != k && Unheld(clients - {bearer}, k)
    ensures Unheld(clients, k)
  {
    forall b | b in clients ensures clients[b].key != k {
      if b != bearer { assert (clients - {bearer})[b].key != k; }
    }
  }

  /** A timer that was armed or fired, and now is not armed. */
  lemma TimerGoesOn(s: State, t: nat, status: Status)
    requires TimersInv(s) && t < |s.timers| && status != Armed
    ensures TimersInv(s.(timers := s.timers[t := s.timers[t].(status := status)]))
  {
    var n := s.(timers := s.timers[t := s.timers[t].(status := status)]);
    forall u | 0 <= u < |n.recs| ensures OwnsTimer(n, u) { assert OwnsTimer(s, u); }
    forall i | 0 <= i < |n.timers| ensures HeldIfArmed(n, i) { assert HeldIfArmed(s, i); }
  }

  lemma FireInv(s: State, t: nat)
    requires Inv(s) && Enabled(s, Fire(t))
    ensures Inv(Next(s, Fire(t)))
  {
    TimerGoesOn(s, t, Fired);
    var n := Next(s, Fire(t));
    forall k | k in n.ups && n.recs[n.ups[k]].ready && Unheld(n.clients, k) ensures Pending(n, n.ups[k]) {
      assert Pending(s, s.ups[k]);
    }
  }

  lemma CallbackInv(s: State, t: nat)
    requires Inv(s) && Enabled(s, Callback(t))
    ensures Inv(Next(s, Callback(t)))
  {
    var s' := s.(timers := s.timers[t := s.timers[t].(status := Ran)]);
    TimerGoesOn(s, t, Ran);
    SameTimers(s', Next(s, Callback(t)));
    CallbackNoLeak(s, t);
  }

  lemma CallbackNoLeak(s: State, t: nat)
    requires Inv(s) && Enabled(s, Callback(t))
    ensures NoLeak(Next(s, Callback(t)))
  {
    var n := Next(s, Callback(t));
    forall k | k in n.ups && n.recs[n.ups[k]].ready && Unheld(n.clients, k) ensures Pending(n, n.ups[k]) {
      assert Pending(s, s.ups[k]) && OwnsTimer(s, s.ups[k]);
    }
  }

  lemma DropInv(s: State, u: nat)
    requires Inv(s) && Current(s, u)
    ensures Inv(Next(s, Drop(u)))
  {
    var key := s.recs[u].key;
    var n := Next(s, Drop(u));
    SameTimers(s, n);
    forall k | k in n.ups && Unheld(n.clients, k) ensures Unheld(s.clients, k) {
      forall b | b in s.clients ensures s.clients[b].key != k {
        if s.clients[b].key != key { assert n.clients[b].key != k; }
      }
    }
  }

  lemma CloseInv(s: State)
    requires Inv(s)
    ensures Inv(Next(s, Close))
  {
    var n := Next(s, Close);
    forall u | 0 <= u < |n.recs| ensures OwnsTimer(n, u) { assert OwnsTimer(s, u); }
    forall t | 0 <= t < |n.timers| ensures HeldIfArmed(n, t) { assert HeldIfArmed(s, t); }
  }

  lemma NextInv(s: State, e: Event)
    requires Inv(s) && Enabled(s, e)
    ensures Inv(Next(s, e))
  {
    match e
    case Share(bearer, client) => ShareInv(s, bearer, client);
    case StartDone(u, ok) => StartDoneInv(s, u, ok);
    case Release(bearer) => if bearer in s.clients { ReleaseInv(s, bearer); }
    case Fire(t) => FireInv(s, t);
    case Callback(t) => CallbackInv(s, t);
    case Drop(u) => if Current(s, u) { DropInv(s, u); }
    case Close => CloseInv(s);
  }

  lemma {:induction false} InvKept(s: State, events: seq<Event>)
    requires Inv(s) && IsRun(s, events)
    ensures Inv(Run(s, events))
    decreases |events|
  {
    if events != [] {
      NextInv(s, events[0]);
      InvKept(Next(s, events[0]), events[1..]);
    }
  }

  /** Over every interleaving from the start: keys are consistent, timers belong
      to started upstreams, and no started upstream that nobody holds is left
      without a timer armed or a callback still to run. */
  lemma RunInv(events: seq<Event>)
    requires IsRun(INIT, events)
    ensures Inv(Run(INIT, events))
  {
    InvKept(INIT, events);
  }

  /** What can take a key's upstream away: its own failed start, a drop of it,
      the gateway's end, or a grace callback of it while nobody holds the key.
      A Share never replaces it. */
  lemma OnlyTheseRemove(s: State, e: Event, k: Key)
    requires Inv(s) && Enabled(s, e) && k in s.ups
    requires !(k in Next(s, e).ups && Next(s, e).ups[k] == s.ups[k])
    ensures
      || e == StartDone(s.ups[k], false) || e == Drop(s.ups[k]) || e == Close
      || (e.Callback? && s.timers[e.timer].up == s.ups[k] && Unheld(s.clients, k))
  {}

  predicate Spares(e: Event, u: nat, bearer: Bearer) {
    e != Release(bearer) && e != StartDone(u, false) && e != Drop(u) && e != Close
  }

  lemma StepHeld(s: State, e: Event, bearer: Bearer)
    requires Inv(s) && Enabled(s, e) && bearer in s.clients
    requires s.clients[bearer].key in s.ups && Spares(e, s.ups[s.clients[bearer].key], bearer)
    ensures var n := Next(s, e);
            && bearer in n.clients && n.clients[bearer] == s.clients[bearer]
            && n.clients[bearer].key in n.ups && n.ups[n.clients[bearer].key] == s.ups[s.clients[bearer].key]
  {
    var k := s.clients[bearer].key;
    if e.Callback? { assert !Unheld(s.clients, k); }
    if !(k in Next(s, e).ups && Next(s, e).ups[k] == s.ups[k]) { OnlyTheseRemove(s, e, k); }
  }

  /** The client holds its key, whose upstream is u. */
  predicate Holds(s: State, bearer: Bearer, client: Client, u: nat) {
    bearer in s.clients && s.clients[bearer] == client && client.key in s.ups && s.ups[client.key] == u
  }

  lemma {:induction false} HoldingStays(s: State, events: seq<Event>, bearer: Bearer, client: Client, u: nat)
    requires Inv(s) && IsRun(s, events) && Holds(s, bearer, client, u)
    requires forall i :: 0 <= i < |events| ==> Spares(events[i], u, bearer)
    ensures Holds(Run(s, events), bearer, client, u)
    decreases |events|
  {
    if events != [] {
      assert Spares(events[0], u, bearer);
      StepHeld(s, events[0], bearer);
      NextInv(s, events[0]);
      HoldingStays(Next(s, events[0]), events[1..], bearer, client, u);
    }
  }

  lemma {:induction false} RunConcat(s: State, a: seq<Event>, b: seq<Event>)
    ensures Run(s, a + b) == Run(Run(s, a), b)
    ensures IsRun(s, a + b) <==> IsRun(s, a) && IsRun(Run(s, a), b)
    decreases |a|
  {
    if a == [] {
      assert a + b == b;
    } else {
      assert (a + b)[1..] == a[1..] + b;
      RunConcat(Next(s, a[0]), a[1..], b);
    }
  }

  /** In every run, while a client holds its key, whatever other clients do and
      whatever timers fire, its upstream is the same one. */
  lemma HeldStays(before: seq<Event>, after: seq<Event>, bearer: Bearer, client: Client, u: nat)
    requires IsRun(INIT, before + after) && Holds(Run(INIT, before), bearer, client, u)
    requires forall i :: 0 <= i < |after| ==> Spares(after[i], u, bearer)
    ensures Holds(Run(INIT, before + after), bearer, client, u)
  {
    RunConcat(INIT, before, after);
    RunInv(before);
    HoldingStays(Run(INIT, before), after, bearer, client, u);
  }

  predicate Shares(e: Event, bearer: Bearer) { e.Share? && e.bearer == bearer }

  lemma {:induction false} StaysGone(s: State, events: seq<Event>, bearer: Bearer)
    requires IsRun(s, events) && bearer !in s.clients && forall i :: 0 <= i < |events| ==> !Shares(events[i], bearer)
    ensures bearer !in Run(s, events).clients
    decreases |events|
  {
    if events != [] {
      assert !Shares(events[0], bearer);
      StaysGone(Next(s, events[0]), events[1..], bearer);
    }
  }

  lemma {:induction false} ReleasedIsGone(s: State, events: seq<Event>, bearer: Bearer)
    requires IsRun(s, events) && Release(bearer) in events
    requires forall i :: 0 <= i < |events| ==> !Shares(events[i], bearer)
    ensures bearer !in Run(s, events).clients
    decreases |events|
  {
    if events[0] == Release(bearer) {
      StaysGone(Next(s, events[0]), events[1..], bearer);
    } else {
      assert events == [events[0]] + events[1..];
      ReleasedIsGone(Next(s, events[0]), events[1..], bearer);
    }
  }

  /** ReleaseEngine releases each client of an engine in a section of its own:
      whatever comes between, none of them is left after the last. A bearer is
      never given out again. */
  lemma EngineReleased(s: State, events: seq<Event>, engine: nat)
    requires IsRun(s, events)
    requires forall b :: b in s.clients && s.clients[b].engine == engine ==> Release(b) in events
    requires forall b, i :: b in s.clients && 0 <= i < |events| ==> !Shares(events[i], b)
    ensures forall b :: b in s.clients && s.clients[b].engine == engine ==> b !in Run(s, events).clients
  {
    forall b | b in s.clients && s.clients[b].engine == engine ensures b !in Run(s, events).clients {
      ReleasedIsGone(s, events, b);
    }
  }

  /** The timer that NoLeak promises does stop the upstream, if no client comes. */
  lemma Reclaimed(s: State, k: Key) returns (events: seq<Event>)
    requires Inv(s) && k in s.ups && s.recs[s.ups[k]].ready && Unheld(s.clients, k)
    ensures IsRun(s, events) && |events| <= 2 && k !in Run(s, events).ups
    ensures forall e :: e in events ==> e.Fire? || e.Callback?
  {
    var u := s.ups[k];
    assert Pending(s, u) && OwnsTimer(s, u);
    var t := s.recs[u].timer.value;
    if s.timers[t].status == Armed {
      var s' := Next(s, Fire(t));
      assert Current(s', u);
      events := [Fire(t), Callback(t)];
      assert events[1..] == [Callback(t)];
      RunOne(s', Callback(t));
    } else {
      assert Current(s, u);
      events := [Callback(t)];
      RunOne(s, Callback(t));
    }
  }

  lemma RunOne(s: State, e: Event)
    ensures Run(s, [e]) == Next(s, e) && (Enabled(s, e) ==> IsRun(s, [e]))
  {
    assert [e][1..] == [];
    assert Run(Next(s, e), []) == Next(s, e);
    assert IsRun(Next(s, e), []);
  }

  /** An upstream that is no longer current never is again. */
  lemma {:induction false} GoneStaysGone(s: State, events: seq<Event>, u: nat)
    requires Inv(s) && IsRun(s, events) && u < |s.recs| && !Current(s, u)
    ensures u < |Run(s, events).recs| && !Current(Run(s, events), u)
    decreases |events|
  {
    if events != [] {
      var n := Next(s, events[0]);
      StepGone(s, events[0], u);
      NextInv(s, events[0]);
      GoneStaysGone(n, events[1..], u);
    }
  }

  lemma StepGone(s: State, e: Event, u: nat)
    requires Inv(s) && Enabled(s, e) && u < |s.recs| && !Current(s, u)
    ensures u < |Next(s, e).recs| && !Current(Next(s, e), u)
  {
    if e.Share? { WithUpInv(s, e.client.key); }
  }

  // ---- The gateway ----

  class Upstream {
    const id: nat
    const key: Key
    var ready: bool
    var failed: bool
    var timer: Option<nat>

    constructor (id: nat, key: Key)
      ensures this.id == id && this.key == key && !ready && !failed && timer == None
    {
      this.id, this.key, ready, failed, timer := id, key, false, false, None;
    }

    function Rec(): Up
      reads this
    {
      Up(key, ready, failed, timer)
    }
  }

  class Hub {
    var ups: map<Key, Upstream>
    var clients: map<Bearer, Client>
    var timers: seq<Timer>
    var made: seq<Upstream>

    /** The fields agree. What a run keeps true of the state itself is Inv, proved
        of Next. */
    ghost predicate Valid()
      reads this, made
    {
      && (forall i :: 0 <= i < |made| ==> made[i].id == i)
      && (forall k :: k in ups ==> ups[k].id < |made| && made[ups[k].id] == ups[k])
      && (forall t :: 0 <= t < |timers| ==> timers[t].up < |made|)
    }

    ghost function Abs(): State
      reads this, made
    {
      State(map k | k in ups :: ups[k].id,
            seq(|made|, i requires 0 <= i < |made| reads this, made => made[i].Rec()),
            clients, timers)
    }

    constructor ()
      ensures Valid() && Abs() == INIT && made == []
    {
      ups, clients, timers, made := map[], map[], [], [];
    }

    /** clientsOf. */
    method ClientsOf(key: Key) returns (n: nat)
      ensures n == |Holders(clients.Keys, clients, key)|
      ensures n == 0 <==> Unheld(clients, key)
    {
      n := 0;
      var left := clients.Keys;
      ghost var seen: set<Bearer> := {};
      while left != {}
        invariant left !! seen && left + seen == clients.Keys
        invariant n == |Holders(seen, clients, key)|
        decreases |left|
      {
        var b :| b in left;
        HoldersAdd(seen, clients, key, b);
        if clients[b].key == key {
          n := n + 1;
        }
        left, seen := left - {b}, seen + {b};
      }
      assert seen == clients.Keys;
      NoHolders(clients, key);
    }

    /** up.timer.Stop(), if it has one. */
    method StopTimer(up: Upstream)
      requires Valid() && up.id < |made| && made[up.id] == up
      modifies this`timers
      ensures Valid() && Abs() == old(Abs()).(timers := StopTimerOf(old(Abs()), up.id))
    {
      if up.timer.Some? {
        var t := up.timer.value;
        if t < |timers| && timers[t].status == Armed {
          timers := timers[t := timers[t].(status := Stopped)];
        }
      }
    }

    /** graceStop. */
    method ArmGrace(up: Upstream)
      requires Valid() && up.id < |made| && made[up.id] == up
      modifies this`timers, up
      ensures Valid() && Abs() == GraceStop(old(Abs()), up.id)
    {
      StopTimer(up);
      up.timer := Some(|timers|);
      timers := timers + [Timer(up.id, Armed)];
    }
  
    method MakeUp(key: Key) returns (up: Upstream)
      requires Valid()
      modifies this`ups, this`made
      ensures Valid() && fresh(up) && key in ups && up == ups[key]
      ensures Abs().ups == old(Abs()).ups[key := |old(Abs()).recs|]
      ensures Abs().recs == old(Abs()).recs + [Up(key, false, false, None)]
      ensures Abs().clients == old(Abs()).clients && Abs().timers == old(Abs()).timers
    {
      up := new Upstream(|made|, key);
      made := made + [up];
      ups := ups[key := up];
    }

    /** Share's upstream for the key, made now if none runs. */
    method FindOrMake(key: Key) returns (up: Upstream)
      requires Valid()
      modifies this`ups, this`made
      ensures Valid() && Abs() == WithUp(old(Abs()), key)
      ensures key in ups && up == ups[key]
      ensures up in old(made) || fresh(up)
    {
      if key in ups && !ups[key].failed {
        up := ups[key];
      } else {
        up := MakeUp(key);
      }
    }

    /** Share's stop of a grace timer. */
    method CancelGrace(up: Upstream)
      requires Valid() && up.id < |made| && made[up.id] == up
      modifies this`timers, up
      ensures Valid() && Abs() == ClearTimer(old(Abs()), up.id)
    {
      if up.timer.Some? {
        StopTimer(up);
        up.timer := None;
      }
    }

    /** Share, under the mutex: the upstream the asker then waits for. */
    method Share(bearer: Bearer, client: Client) returns (up: Upstream)
      requires Valid() && bearer !in clients
      modifies this, made
      ensures Valid() && Abs() == Next(old(Abs()), Event.Share(bearer, client))
      ensures client.key in ups && up == ups[client.key]
    {
      up := FindOrMake(client.key);
      CancelGrace(up);
      clients := clients[bearer := client];
    }

    /** The end of start: up's handshake is done, or failed. */
    method StartDone(up: Upstream, ok: bool)
      requires Valid() && up.id < |made| && made[up.id] == up && !up.ready
      modifies this, made
      ensures Valid() && Abs() == Next(old(Abs()), Event.StartDone(up.id, ok))
    {
      ghost var before := Abs();
      up.ready, up.failed := true, !ok;
      assert Abs() == before.(recs := before.recs[up.id := before.recs[up.id].(ready := true, failed := !ok)]);
      if !ok {
        ForgetUp(up);
      } else {
        var n := ClientsOf(up.key);
        if n == 0 {
          ArmGrace(up);
        }
      }
    }

    /** Delete up from the current upstreams, if it is one. */
    method ForgetUp(up: Upstream)
      requires Valid() && up.id < |made| && made[up.id] == up
      modifies this`ups
      ensures Valid() && Abs() == Forget(old(Abs()), up.id)
    {
      if up.key in ups && ups[up.key] == up {
        ups := ups - {up.key};
      }
    }

    /** Release. */
    method Release(bearer: Bearer)
      requires Valid()
      modifies this, made
      ensures Valid() && Abs() == Next(old(Abs()), Event.Release(bearer))
      ensures made == old(made) && clients == old(clients) - {bearer}
    {
      ghost var before := Abs();
      if bearer !in clients {
        return;
      }
      var key := clients[bearer].key;
      clients := clients - {bearer};
      assert Abs() == before.(clients := before.clients - {bearer});
      if key in ups && !ups[key].failed {
        var up := ups[key];
        var n := ClientsOf(key);
        if n == 0 && up.ready {
          ArmGrace(up);
        }
      }
    }

    /** ReleaseEngine: every client of an engine that exited, one at a time. */
    method ReleaseEngine(engine: nat)
      requires Valid()
      modifies this, made
      ensures Valid() && made == old(made)
      ensures forall b :: b in clients <==> b in old(clients) && old(clients)[b].engine != engine
      ensures forall b :: b in clients ==> clients[b] == old(clients)[b]
    {
      var bearers := set b | b in clients && clients[b].engine == engine;
      ghost var all := clients;
      while bearers != {}
        invariant Valid() && made == old(made)
        invariant forall b :: b in bearers ==> b in all && all[b].engine == engine
        invariant forall b :: b in clients <==> b in all && (b in bearers || all[b].engine != engine)
        invariant forall b :: b in clients ==> clients[b] == all[b]
        decreases |bearers|
      {
        var b :| b in bearers;
        Release(b);
        bearers := bearers - {b};
      }
    }

    /** A timer's time is up. */
    method FireTimer(t: nat)
      requires Valid() && t < |timers| && timers[t].status == Armed
      modifies this`timers
      ensures Valid() && Abs() == Next(old(Abs()), Fire(t))
    {
      timers := timers[t := timers[t].(status := Fired)];
    }

    /** graceStop's callback; stop is whether the upstream's process is stopped. */
    method GraceOver(t: nat) returns (stop: bool)
      requires Valid() && t < |timers| && timers[t].status == Fired
      modifies this`timers, this`ups
      ensures Valid() && Abs() == Next(old(Abs()), Callback(t))
      ensures stop <==>
              Current(old(Abs()), old(timers)[t].up) && Unheld(clients, old(Abs()).recs[old(timers)[t].up].key)
    {
      ghost var before := Abs();
      var up := made[timers[t].up];
      timers := timers[t := timers[t].(status := Ran)];
      var n := ClientsOf(up.key);
      stop := up.key in ups && ups[up.key] == up && n == 0;
      if stop {
        ups := ups - {up.key};
      }
    }

    /** drop's loop over the clients. */
    method ForgetClients(key: Key)
      modifies this`clients
      ensures clients == Without(old(clients), key)
    {
      var left := clients.Keys;
      while left != {}
        invariant left <= old(clients).Keys
        invariant forall b :: b in clients <==> b in old(clients) && (b in left || old(clients)[b].key != key)
        invariant forall b :: b in clients ==> clients[b] == old(clients)[b]
        decreases |left|
      {
        var b :| b in left;
        if clients[b].key == key {
          clients := clients - {b};
        }
        left := left - {b};
      }
    }

    /** drop: forget an upstream that is gone, and its clients. */
    method Drop(up: Upstream)
      requires Valid() && up.id < |made| && made[up.id] == up
      modifies this`ups, this`clients
      ensures Valid() && Abs() == Next(old(Abs()), Event.Drop(up.id))
    {
      if !(up.key in ups && ups[up.key] == up) {
        return;
      }
      ups := ups - {up.key};
      ForgetClients(up.key);
    }

    lemma HeldHere(ids: set<nat>)
      requires Valid() && ids == set k | k in ups && ups[k].timer.Some? :: ups[k].timer.value
      ensures ids == HeldBy(Abs(), Abs().ups.Keys)
    {
      var s := Abs();
      forall t | t in ids ensures t in HeldBy(s, s.ups.Keys) {
        var k :| k in ups && ups[k].timer == Some(t);
        assert s.recs[s.ups[k]].timer == Some(t);
      }
      forall t | t in HeldBy(s, s.ups.Keys) ensures t in ids {
        var k :| k in s.ups && s.recs[s.ups[k]].timer == Some(t);
        assert ups[k].timer == Some(t);
      }
    }

    /** Close, under the mutex: every current upstream's timer is stopped. */
    method Close()
      requires Valid()
      modifies this`ups, this`clients, this`timers
      ensures Valid() && Abs() == Next(old(Abs()), Event.Close)
    {
      var ids := set k | k in ups && ups[k].timer.Some? :: ups[k].timer.value;
      HeldHere(ids);
      timers := StopEach(timers, ids);
      ups, clients := map[], map[];
    }
  }

  function Without(clients: map<Bearer, Client>, key: Key): map<Bearer, Client> {
    map b | b in clients && clients[b].key != key :: clients[b]
  }

  function Holders(bearers: set<Bearer>, clients: map<Bearer, Client>, key: Key): set<Bearer> {
    set b | b in bearers && b in clients && clients[b].key == key
  }

  lemma HoldersAdd(bearers: set<Bearer>, clients: map<Bearer, Client>, key: Key, b: Bearer)
    requires b in clients && b !in bearers
    ensures |Holders(bearers + {b}, clients, key)| == |Holders(bearers, clients, key)|
            + if clients[b].key == key then 1 else 0
  {
    if clients[b].key == key {
      assert Holders(bearers + {b}, clients, key) == Holders(bearers, clients, key) + {b};
    } else {
      assert Holders(bearers + {b}, clients, key) == Holders(bearers, clients, key);
    }
  }

  lemma NoHolders(clients: map<Bearer, Client>, key: Key)
    ensures |Holders(clients.Keys, clients, key)| == 0 <==> Unheld(clients, key)
  {
    var hs := Holders(clients.Keys, clients, key);
    if Unheld(clients, key) {
      assert hs == {};
    } else {
      var b :| b in clients && clients[b].key == key;
      assert b in hs;
    }
  }
}
