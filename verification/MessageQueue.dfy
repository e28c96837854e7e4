/** The buffer between news and the model: queue.go and the producers of
    peers.go.

    An event is one critical section under noteMu, or one access to the atomic
    interrupting flag, so a run is a sequence of events, in any order. A lift is
    two of them: it tests the flag first, without the mutex, and drains later.
    An item's fate is settled when it leaves the buffer; what a flush does with it
    comes after. Each item carries the number of its enqueue, which the program
    does not store: it tells equal messages apart here. */
module MessageQueue {
  import opened Strings
  import opened Wrappers

  datatype Kind = Notification | User | Aside | Peer | PeerQuiet | Service | Unlisted(n: nat)

  datatype EntryKind = NotificationEntry | UserEntry

  datatype Policy = Policy(prefix: string, entryKind: EntryKind, causesTurn: bool)

  /** queuedPolicies, and policy's fallback for a kind the table does not list. */
  function PolicyOf(k: Kind): Policy
    decreases k.Unlisted?
  {
    match k
    case Notification => Policy("[background] ", NotificationEntry, true)
    case User => Policy("[user] ", UserEntry, true)
    case Aside => Policy("[session] ", NotificationEntry, false)
    case Peer => Policy("[peer] ", NotificationEntry, true)
    case PeerQuiet => Policy("[peer] ", NotificationEntry, false)
    case Service => Policy("[dun] ", NotificationEntry, true)
    case Unlisted(_) => PolicyOf(Notification)
  }

  datatype Item = Item(number: nat, kind: Kind, text: string)

  /** The ways an item leaves the buffer; cut says that interrupting was set when
      a lift took it. */
  datatype Fate = Lifted(cut: bool) | Published | AppendedSilently | TakenBack

  /** A call of liftQueued: past its test of the flag, turned away by it, or done. */
  datatype LiftCall = Passed | Refused | Done

  datatype Delivery = Delivery(item: Item, fate: Fate)

  /** A channel is a number; 0 is closedCh. */
  type Channel = nat

  const CLOSED_CH: Channel := 0

  datatype State = State(
    queue: seq<Item>,
    interrupting: bool,
    lifts: seq<LiftCall>,        // the calls of liftQueued, in the order of their tests
    userWaitCh: Option<Channel>,
    channels: nat,               // channels made so far: 1..channels, and closedCh
    closed: set<Channel>,
    enqueued: seq<Item>,         // history: every item, in order of arrival
    delivered: seq<Delivery>)    // history: every item that left, in order

  const INIT := State([], false, [], None, 0, {CLOSED_CH}, [], [])

  datatype Event =
    | Enqueue(kind: Kind, text: string)
    | LiftCheck
    | LiftDrain(lift: nat)
    | FlushQueued
    | FlushSilent
    | Unqueue
    | UserWaiting
    | Interrupt(on: bool)

  // ---- What each event does ----

  function Taken(items: seq<Item>, pred: Kind -> bool): seq<Item> {
    if items == [] then [] else (if pred(items[0].kind) then [items[0]] else []) + Taken(items[1..], pred)
  }

  function Left(items: seq<Item>, pred: Kind -> bool): seq<Item> {
    if items == [] then [] else (if pred(items[0].kind) then [] else [items[0]]) + Left(items[1..], pred)
  }

  function Deliver(items: seq<Item>, fate: Fate): seq<Delivery> {
    seq(|items|, i requires 0 <= i < |items| => Delivery(items[i], fate))
  }

  function Drained(s: State, pred: Kind -> bool, fate: Fate): State {
    s.(queue := Left(s.queue, pred), delivered := s.delivered + Deliver(Taken(s.queue, pred), fate))
  }

  function Anything(k: Kind): bool { true }
  function CausesTurn(k: Kind): bool { PolicyOf(k).causesTurn }
  function NoTurn(k: Kind): bool { !PolicyOf(k).causesTurn }
  function FromUser(k: Kind): bool { k == User }

  /** The kinds whose arrival frees a blocked tool call, and those userWaiting
      looks for when it is asked. */
  predicate Frees(k: Kind) { k == User || k == Peer || k == Service }
  predicate Waits(k: Kind) { k == User || k == Peer }

  predicate SomeoneWaits(items: seq<Item>) {
    exists i :: 0 <= i < |items| && Waits(items[i].kind)
  }

  function CloseWait(s: State): State {
    match s.userWaitCh
    case None => s
    case Some(c) => s.(closed := s.closed + {c}, userWaitCh := None)
  }

  /** A lift drains once, and only after its test has passed. */
  predicate MayDrain(s: State, l: nat) {
    l < |s.lifts| && s.lifts[l] == Passed
  }

  function Next(s: State, e: Event): State {
    match e
    case Enqueue(kind, text) =>
      var item := Item(|s.enqueued|, kind, text);
      var s' := s.(queue := s.queue + [item], enqueued := s.enqueued + [item]);
      if Frees(kind) then CloseWait(s') else s'
    case LiftCheck => s.(lifts := s.lifts + [if s.interrupting then Refused else Passed])
    case LiftDrain(l) =>
      if MayDrain(s, l) then Drained(s, Anything, Lifted(s.interrupting)).(lifts := s.lifts[l := Done]) else s
    case FlushQueued => Drained(s, CausesTurn, Published)
    case FlushSilent => Drained(s, NoTurn, AppendedSilently)
    case Unqueue => Drained(s, FromUser, TakenBack)
    case UserWaiting =>
      if SomeoneWaits(s.queue) || s.userWaitCh.Some? then s
      else s.(channels := s.channels + 1, userWaitCh := Some(s.channels + 1))
    case Interrupt(on) => s.(interrupting := on)
  }

  /** The channel userWaiting answers with. */
  function Answered(s: State): Channel {
    if SomeoneWaits(s.queue) then CLOSED_CH else Next(s, UserWaiting).userWaitCh.GetOr(CLOSED_CH)
  }

  function Run(s: State, events: seq<Event>): State
    decreases |events|
  {
    if events == [] then s else Run(Next(s, events[0]), events[1..])
  }

  // ---- Exactly once, in order ----

  function Items(ds: seq<Delivery>): seq<Item> {
    seq(|ds|, i requires 0 <= i < |ds| => ds[i].item)
  }

  function OfKind(items: seq<Item>, k: Kind): seq<Item> {
    if items == [] then [] else (if items[0].kind == k then [items[0]] else []) + OfKind(items[1..], k)
  }

  lemma {:induction false} OfKindAppend(a: seq<Item>, b: seq<Item>, k: Kind)
    ensures OfKind(a + b, k) == OfKind(a, k) + OfKind(b, k)
  {
    if a == [] {
      assert a + b == b;
    } else {
      assert (a + b)[1..] == a[1..] + b;
      OfKindAppend(a[1..], b, k);
    }
  }

  /** A drain takes all of a kind or none of it. */
  lemma {:induction false} TakenByKind(items: seq<Item>, pred: Kind -> bool, k: Kind)
    ensures OfKind(Taken(items, pred), k) == if pred(k) then OfKind(items, k) else []
  {
    if items != [] {
      TakenByKind(items[1..], pred, k);
      OfKindAppend(if pred(items[0].kind) then [items[0]] else [], Taken(items[1..], pred), k);
    }
  }

  lemma {:induction false} LeftByKind(items: seq<Item>, pred: Kind -> bool, k: Kind)
    ensures OfKind(Left(items, pred), k) == if pred(k) then [] else OfKind(items, k)
  {
    if items != [] {
      LeftByKind(items[1..], pred, k);
      OfKindAppend(if pred(items[0].kind) then [] else [items[0]], Left(items[1..], pred), k);
    }
  }

  /** Within each kind, what left followed by what waits is what arrived. */
  ghost predicate InOrder(s: State, k: Kind) {
    OfKind(Items(s.delivered), k) + OfKind(s.queue, k) == OfKind(s.enqueued, k)
  }

  lemma DeliveredItems(ds: seq<Delivery>, items: seq<Item>, fate: Fate)
    ensures Items(ds + Deliver(items, fate)) == Items(ds) + items
  {}

  /** What a drain takes goes after what left before, and the rest stays. */
  lemma DrainKeepsOrder(before: seq<Item>, items: seq<Item>, pred: Kind -> bool, k: Kind)
    ensures OfKind(before + Taken(items, pred), k) + OfKind(Left(items, pred), k) ==
            OfKind(before, k) + OfKind(items, k)
  {
    OfKindAppend(before, Taken(items, pred), k);
    TakenByKind(items, pred, k);
    LeftByKind(items, pred, k);
    if pred(k) {
      assert OfKind(before, k) + OfKind(items, k) + [] == OfKind(before, k) + OfKind(items, k);
    } else {
      assert OfKind(before, k) + [] == OfKind(before, k);
    }
  }

  lemma DrainedInOrder(s: State, pred: Kind -> bool, fate: Fate, k: Kind)
    requires InOrder(s, k)
    ensures InOrder(Drained(s, pred, fate), k)
  {
    DeliveredItems(s.delivered, Taken(s.queue, pred), fate);
    DrainKeepsOrder(Items(s.delivered), s.queue, pred, k);
  }

  lemma NextInOrder(s: State, e: Event, k: Kind)
    requires InOrder(s, k)
    ensures InOrder(Next(s, e), k)
  {
    match e
    case Enqueue(kind, text) =>
      var item := Item(|s.enqueued|, kind, text);
      OfKindAppend(s.queue, [item], k);
      OfKindAppend(s.enqueued, [item], k);
      var a, b, c := OfKind(Items(s.delivered), k), OfKind(s.queue, k), OfKind([item], k);
      assert a + (b + c) == a + b + c;
    case LiftCheck =>
    case LiftDrain(_) => DrainedInOrder(s, Anything, Lifted(s.interrupting), k);
    case FlushQueued => DrainedInOrder(s, CausesTurn, Published, k);
    case FlushSilent => DrainedInOrder(s, NoTurn, AppendedSilently, k);
    case Unqueue => DrainedInOrder(s, FromUser, TakenBack, k);
    case UserWaiting =>
    case Interrupt(_) =>
  }

  lemma {:induction false} OrderKept(s: State, events: seq<Event>, k: Kind)
    requires InOrder(s, k)
    ensures InOrder(Run(s, events), k)
    decreases |events|
  {
    if events != [] {
      NextInOrder(s, events[0], k);
      OrderKept(Next(s, events[0]), events[1..], k);
    }
  }

  /** In every run from the start, each kind leaves in the order it arrived, nothing
      lost, nothing repeated. */
  lemma RunInOrder(events: seq<Event>, k: Kind)
    ensures InOrder(Run(INIT, events), k)
  {
    OrderKept(INIT, events, k);
  }

  lemma {:induction false} CountedByKind(items: seq<Item>, x: Item)
    ensures multiset(items)[x] == multiset(OfKind(items, x.kind))[x]
  {
    if items != [] {
      CountedByKind(items[1..], x);
      assert items == [items[0]] + items[1..];
    }
  }

  ghost predicate Numbered(s: State) {
    forall i :: 0 <= i < |s.enqueued| ==> s.enqueued[i].number == i
  }

  lemma {:induction false} RunNumbered(s: State, events: seq<Event>)
    requires Numbered(s)
    ensures Numbered(Run(s, events))
    decreases |events|
  {
    if events != [] { RunNumbered(Next(s, events[0]), events[1..]); }
  }

  /** Over any run from the start, every item that arrived is either still
      waiting or was delivered, and only once: the two together hold what
      arrived, whose numbers are all different. */
  lemma ExactlyOnce(events: seq<Event>)
    ensures var s := Run(INIT, events);
            && multiset(Items(s.delivered)) + multiset(s.queue) == multiset(s.enqueued)
            && Numbered(s)
  {
    var s := Run(INIT, events);
    RunNumbered(INIT, events);
    var both := Items(s.delivered) + s.queue;
    assert multiset(both) == multiset(Items(s.delivered)) + multiset(s.queue);
    forall x ensures multiset(both)[x] == multiset(s.enqueued)[x] {
      RunInOrder(events, x.kind);
      OfKindAppend(Items(s.delivered), s.queue, x.kind);
      CountedByKind(both, x);
      CountedByKind(s.enqueued, x);
    }
  }

  /** What a way out is allowed to carry. */
  predicate Allowed(s: State, d: Delivery) {
    match d.fate
    case Lifted(cut) => cut == s.interrupting
    case Published => PolicyOf(d.item.kind).causesTurn
    case AppendedSilently => !PolicyOf(d.item.kind).causesTurn
    case TakenBack => d.item.kind == User
  }

  lemma {:induction false} TakenMatch(items: seq<Item>, pred: Kind -> bool)
    ensures forall x :: x in Taken(items, pred) ==> pred(x.kind)
    ensures forall x :: x in Left(items, pred) ==> !pred(x.kind)
  {
    if items != [] { TakenMatch(items[1..], pred); }
  }

  /** Each step only adds to what was delivered, and only what its way out may
      carry: no quiet kind is ever published, no turn-causing one appended
      silently, only the user's taken back, and a lift says what the flag was. */
  lemma StepDelivers(s: State, e: Event)
    ensures s.delivered <= Next(s, e).delivered
    ensures forall i :: |s.delivered| <= i < |Next(s, e).delivered| ==> Allowed(s, Next(s, e).delivered[i])
  {
    TakenMatch(s.queue, CausesTurn);
    TakenMatch(s.queue, NoTurn);
    TakenMatch(s.queue, FromUser);
  }

  lemma {:induction false} LeftTwice(items: seq<Item>)
    ensures Left(Left(items, CausesTurn), NoTurn) == []
  {
    if items != [] {
      LeftTwice(items[1..]);
      var rest := Left(items[1..], CausesTurn);
      assert ([items[0]] + rest)[1..] == rest && [] + rest == rest;
    }
  }

  /** The two flushes are complements: one after the other leaves nothing. */
  lemma FlushesEmpty(s: State)
    ensures Run(s, [FlushQueued, FlushSilent]).queue == []
  {
    assert [FlushQueued, FlushSilent][1..] == [FlushSilent];
    assert [FlushSilent][1..] == [];
    LeftTwice(s.queue);
  }

  // ---- Lifting into a cut turn ----

  lemma {:induction false} RunConcat(s: State, a: seq<Event>, b: seq<Event>)
    ensures Run(s, a + b) == Run(Run(s, a), b)
    decreases |a|
  {
    if a == [] {
      assert a + b == b;
    } else {
      assert (a + b)[1..] == a[1..] + b;
      RunConcat(Next(s, a[0]), a[1..], b);
    }
  }

  /** What the last Interrupt of a run sets the flag to, or what it was. */
  function FlagAfter(flag: bool, events: seq<Event>): bool
    decreases |events|
  {
    if events == [] then flag
    else FlagAfter(if events[0].Interrupt? then events[0].on else flag, events[1..])
  }

  lemma {:induction false} FlagIs(s: State, events: seq<Event>)
    ensures Run(s, events).interrupting == FlagAfter(s.interrupting, events)
    decreases |events|
  {
    if events != [] { FlagIs(Next(s, events[0]), events[1..]); }
  }

  /** Event i is the test of lift l, and it passed. */
  ghost predicate PassesAt(events: seq<Event>, i: nat, l: nat) {
    && i < |events| && events[i] == LiftCheck
    && |Run(INIT, events[..i]).lifts| == l && !Run(INIT, events[..i]).interrupting
  }

  lemma StepPassed(s: State, e: Event, l: nat)
    requires MayDrain(Next(s, e), l)
    ensures MayDrain(s, l) || (e == LiftCheck && |s.lifts| == l && !s.interrupting)
  {}

  /** A lift that may drain has passed its test. */
  lemma {:induction false} PassedBefore(events: seq<Event>, l: nat) returns (i: nat)
    requires MayDrain(Run(INIT, events), l)
    ensures PassesAt(events, i, l)
    decreases |events|
  {
    if events == [] {
      assert false;
    } else {
      var init, e := events[..|events| - 1], events[|events| - 1];
      assert events == init + [e];
      RunConcat(INIT, init, [e]);
      RunOne(Run(INIT, init), e);
      StepPassed(Run(INIT, init), e, l);
      i := |init|;
      if MayDrain(Run(INIT, init), l) {
        i := PassedBefore(init, l);
        assert events[..i] == init[..i];
      }
    }
  }

  lemma RunOne(s: State, e: Event)
    ensures Run(s, [e]) == Next(s, e)
  {
    assert [e][1..] == [];
  }

  /** Between its test, event i, and event j, a lift is overtaken: the last change
      of the flag between them sets it. */
  predicate Overtaken(events: seq<Event>, i: nat, j: nat) {
    i < j <= |events| && FlagAfter(false, events[i + 1..j])
  }

  lemma FlagSince(events: seq<Event>, i: nat, j: nat, l: nat)
    requires PassesAt(events, i, l) && i < j <= |events|
    ensures Run(INIT, events[..j]).interrupting <==> Overtaken(events, i, j)
  {
    var s := Run(INIT, events[..i]);
    assert events[..i + 1] == events[..i] + [LiftCheck];
    RunConcat(INIT, events[..i], [LiftCheck]);
    RunOne(s, LiftCheck);
    assert events[..j] == events[..i + 1] + events[i + 1..j];
    RunConcat(INIT, events[..i + 1], events[i + 1..j]);
    FlagIs(Next(s, LiftCheck), events[i + 1..j]);
  }

  /** Event j lifts x: its lift's test, event i, passed, and x is still there. */
  ghost predicate LiftsAt(events: seq<Event>, i: nat, j: nat, x: Item) {
    && i < j < |events| && events[j].LiftDrain?
    && PassesAt(events, i, events[j].lift) && MayDrain(Run(INIT, events[..j]), events[j].lift)
    && x in Run(INIT, events[..j]).queue
  }

  ghost predicate LiftedCut(s: State, x: Item) {
    exists d :: d in s.delivered && d == Delivery(x, Lifted(true))
  }

  lemma {:induction false} TakenAll(items: seq<Item>)
    ensures Taken(items, Anything) == items
  {
    if items != [] { TakenAll(items[1..]); }
  }

  lemma DeliverHas(items: seq<Item>, fate: Fate, d: Delivery)
    ensures d in Deliver(items, fate) <==> d.fate == fate && d.item in items
  {
    if d.fate == fate && d.item in items {
      var i :| 0 <= i < |items| && items[i] == d.item;
      assert Deliver(items, fate)[i] == d;
    }
  }

  /** One step adds an item lifted into a cut turn exactly when it is a drain with
      the flag set. */
  lemma StepLiftedCut(s: State, e: Event, x: Item)
    ensures LiftedCut(Next(s, e), x) <==>
            LiftedCut(s, x) || (e.LiftDrain? && MayDrain(s, e.lift) && s.interrupting && x in s.queue)
  {
    var d := Delivery(x, Lifted(true));
    TakenAll(s.queue);
    DeliverHas(s.queue, Lifted(s.interrupting), d);
    DeliverHas(Taken(s.queue, CausesTurn), Published, d);
    DeliverHas(Taken(s.queue, NoTurn), AppendedSilently, d);
    DeliverHas(Taken(s.queue, FromUser), TakenBack, d);
    assert LiftedCut(s, x) <==> d in s.delivered;
    assert LiftedCut(Next(s, e), x) <==> d in Next(s, e).delivered;
  }

  ghost predicate LiftsAcross(events: seq<Event>, x: Item) {
    exists i, j :: LiftsAt(events, i, j, x) && Overtaken(events, i, j)
  }

  lemma LiftsAtFront(events: seq<Event>, e: Event, i: nat, j: nat, x: Item)
    ensures j < |events| ==> (LiftsAt(events + [e], i, j, x) <==> LiftsAt(events, i, j, x))
    ensures j < |events| ==> (Overtaken(events + [e], i, j) <==> Overtaken(events, i, j))
  {
    if i < j < |events| {
      assert (events + [e])[..j] == events[..j] && (events + [e])[..i] == events[..i];
      assert (events + [e])[i + 1..j] == events[i + 1..j];
    }
  }

  /** The last event lifts x into a cut turn exactly when its lift was overtaken. */
  lemma LastLifts(events: seq<Event>, e: Event, x: Item)
    ensures var s := Run(INIT, events);
            (e.LiftDrain? && MayDrain(s, e.lift) && s.interrupting && x in s.queue) <==>
            exists i :: LiftsAt(events + [e], i, |events|, x) && Overtaken(events + [e], i, |events|)
  {
    var s, all, n := Run(INIT, events), events + [e], |events|;
    assert all[..n] == events;
    if e.LiftDrain? && MayDrain(s, e.lift) && s.interrupting && x in s.queue {
      var i := PassedBefore(events, e.lift);
      assert all[..i] == events[..i];
      FlagSince(all, i, n, e.lift);
      assert LiftsAt(all, i, n, x) && Overtaken(all, i, n);
    }
    if i: nat :| LiftsAt(all, i, n, x) && Overtaken(all, i, n) {
      FlagSince(all, i, n, e.lift);
    }
  }

  /** In every run, an item is lifted into a turn that is being cut exactly when
      the flag was set between some lift's test and its drain, was not cleared in
      between, and the item was there at the drain. */
  lemma {:induction false} LiftedIntoCutTurnIff(events: seq<Event>, x: Item)
    ensures LiftedCut(Run(INIT, events), x) <==> LiftsAcross(events, x)
    decreases |events|
  {
    if events != [] {
      var init, e := events[..|events| - 1], events[|events| - 1];
      assert events == init + [e];
      RunConcat(INIT, init, [e]);
      RunOne(Run(INIT, init), e);
      LiftedIntoCutTurnIff(init, x);
      StepLiftedCut(Run(INIT, init), e, x);
      LastLifts(init, e, x);
      LiftsAcrossSplit(init, e, x);
    }
  }

  lemma LiftsAcrossSplit(init: seq<Event>, e: Event, x: Item)
    ensures LiftsAcross(init + [e], x) <==>
            LiftsAcross(init, x) || exists i :: LiftsAt(init + [e], i, |init|, x) && Overtaken(init + [e], i, |init|)
  {
    if i: nat, j: nat :| LiftsAt(init, i, j, x) && Overtaken(init, i, j) {
      LiftsAtFront(init, e, i, j, x);
      assert LiftsAt(init + [e], i, j, x) && Overtaken(init + [e], i, j);
    }
    if i: nat, j: nat :| LiftsAt(init + [e], i, j, x) && Overtaken(init + [e], i, j) {
      LiftsAtFront(init, e, i, j, x);
      assert j < |init| ==> LiftsAt(init, i, j, x) && Overtaken(init, i, j);
    }
  }

  /** Such a run: the user writes, a lift passes its test, the turn is interrupted,
      the lift drains. */
  lemma LiftedIntoCutTurn()
    ensures LiftedCut(Run(INIT, [Enqueue(User, "stop"), LiftCheck, Interrupt(true), LiftDrain(0)]),
            Item(0, User, "stop"))
  {
    var x := Item(0, User, "stop");
    var s1 := Next(INIT, Enqueue(User, "stop"));
    var s2 := Next(s1, LiftCheck);
    var s3 := Next(s2, Interrupt(true));
    StepLiftedCut(s3, LiftDrain(0), x);
    RunFour(INIT, Enqueue(User, "stop"), LiftCheck, Interrupt(true), LiftDrain(0));
  }

  lemma RunFour(s: State, a: Event, b: Event, c: Event, d: Event)
    ensures Run(s, [a, b, c, d]) == Next(Next(Next(Next(s, a), b), c), d)
  {
    assert [a, b, c, d] == [a] + ([b] + ([c] + [d]));
    RunConcat(s, [a], [b] + ([c] + [d]));
    RunConcat(Next(s, a), [b], [c] + [d]);
    RunConcat(Next(Next(s, a), b), [c], [d]);
    RunOne(s, a);
    RunOne(Next(s, a), b);
    RunOne(Next(Next(s, a), b), c);
    RunOne(Next(Next(Next(s, a), b), c), d);
  }

  // ---- No missed wake ----

  /** Whoever was handed a channel while a message waits finds it closed; at most
      one channel handed out is open, and it is the one the harness keeps. */
  ghost predicate NoMissedWake(s: State) {
    && CLOSED_CH in s.closed
    && (SomeoneWaits(s.queue) ==> forall c :: 0 < c <= s.channels ==> c in s.closed)
    && (forall c :: 0 < c <= s.channels && c !in s.closed ==> s.userWaitCh == Some(c))
    && (s.userWaitCh.Some? ==> 0 < s.userWaitCh.value <= s.channels && s.userWaitCh.value !in s.closed)
    && (forall c :: c in s.closed ==> c <= s.channels)
  }

  lemma {:induction false} LeftWaits(items: seq<Item>, pred: Kind -> bool)
    ensures SomeoneWaits(Left(items, pred)) ==> SomeoneWaits(items)
  {
    if SomeoneWaits(Left(items, pred)) {
      LeftFrom(items, pred);
      var i :| 0 <= i < |Left(items, pred)| && Waits(Left(items, pred)[i].kind);
      assert Left(items, pred)[i] in items;
    }
  }

  lemma {:induction false} LeftFrom(items: seq<Item>, pred: Kind -> bool)
    ensures forall x :: x in Left(items, pred) ==> x in items
  {
    if items != [] { LeftFrom(items[1..], pred); }
  }

  lemma StepNoMissedWake(s: State, e: Event)
    requires NoMissedWake(s)
    ensures NoMissedWake(Next(s, e))
  {
    match e
    case Enqueue(kind, text) =>
      var q := s.queue + [Item(|s.enqueued|, kind, text)];
      if SomeoneWaits(q) && !Waits(kind) {
        var i :| 0 <= i < |q| && Waits(q[i].kind);
        assert s.queue[i] == q[i];
      }
    case LiftCheck =>
    case LiftDrain(_) => LeftWaits(s.queue, Anything);
    case FlushQueued => LeftWaits(s.queue, CausesTurn);
    case FlushSilent => LeftWaits(s.queue, NoTurn);
    case Unqueue => LeftWaits(s.queue, FromUser);
    case UserWaiting =>
    case Interrupt(_) =>
  }

  lemma {:induction false} NoMissedWakeKept(s: State, events: seq<Event>)
    requires NoMissedWake(s)
    ensures NoMissedWake(Run(s, events))
    decreases |events|
  {
    if events != [] {
      StepNoMissedWake(s, events[0]);
      NoMissedWakeKept(Next(s, events[0]), events[1..]);
    }
  }

  /** In every run from the start no wake is missed. */
  lemma RunNoMissedWake(events: seq<Event>)
    ensures NoMissedWake(Run(INIT, events))
  {
    NoMissedWakeKept(INIT, events);
  }

  lemma WakesAtOnce(s: State)
    requires NoMissedWake(s)
    ensures Answered(s) in Next(s, UserWaiting).closed <==> SomeoneWaits(s.queue)
  {}

  /** And what userWaiting would answer is closed exactly when a message waits that it
      looks for. */
  lemma AnswerIsReady(events: seq<Event>)
    ensures var s := Run(INIT, events); Answered(s) in Next(s, UserWaiting).closed <==> SomeoneWaits(s.queue)
  {
    RunNoMissedWake(events);
    WakesAtOnce(Run(INIT, events));
  }

  // ---- The text of a lift ----

  function Labelled(item: Item): string {
    PolicyOf(item.kind).prefix + item.text
  }

  /** liftQueued's builder: each item after a blank line, unless it comes first. */
  function WriteItems(b: string, items: seq<Item>): string
    decreases |items|
  {
    if items == [] then b
    else WriteItems(b + (if b != "" then "\n\n" else "") + Labelled(items[0]), items[1..])
  }

  function LiftText(result: string, items: seq<Item>): string {
    if items == [] then result else WriteItems(TrimNewlines(result), items)
  }

  /** liftQueued's builder loop. */
  method WriteLift(result: string, items: seq<Item>) returns (out: string)
    ensures out == LiftText(result, items)
  {
    if |items| == 0 {
      return result;
    }
    out := TrimNewlines(result);
    var i := 0;
    while i < |items|
      invariant 0 <= i <= |items|
      invariant WriteItems(out, items[i..]) == WriteItems(TrimNewlines(result), items)
    {
      assert items[i..][1..] == items[i + 1..];
      if |out| > 0 {
        out := out + "\n\n";
      }
      out := out + Labelled(items[i]);
      i := i + 1;
    }
  }

  // ---- The harness ----

  class Harness {
    var queue: seq<Item>
    var interrupting: bool
    ghost var lifts: seq<LiftCall>
    var userWaitCh: Option<Channel>
    var channels: nat
    var closed: set<Channel>
    ghost var enqueued: seq<Item>
    ghost var delivered: seq<Delivery>
    var arrivals: nat

    ghost predicate Valid()
      reads this
    {
      arrivals == |enqueued| && NoMissedWake(Abs())
    }

    ghost function Abs(): State
      reads this
    {
      State(queue, interrupting, lifts, userWaitCh, channels, closed, enqueued, delivered)
    }

    constructor ()
      ensures Valid() && Abs() == INIT
    {
      queue, interrupting, userWaitCh, channels, closed := [], false, None, 0, {CLOSED_CH};
      lifts, enqueued, delivered, arrivals := [], [], [], 0;
    }

    /** What Notify, Say, Aside, PeerMessage and ServiceNotice do under noteMu:
        append, and for the kinds that free a blocked call, close and forget the
        wait channel. */
    method Put(kind: Kind, text: string)
      requires Valid()
      modifies this
      ensures Valid() && Abs() == Next(old(Abs()), Enqueue(kind, text))
    {
      StepNoMissedWake(Abs(), Enqueue(kind, text));
      queue := queue + [Item(arrivals, kind, text)];
      enqueued := enqueued + [Item(arrivals, kind, text)];
      arrivals := arrivals + 1;
      if Frees(kind) && userWaitCh.Some? {
        closed := closed + {userWaitCh.value};
        userWaitCh := None;
      }
    }

    method Notify(text: string)
      requires Valid()
      modifies this
      ensures Valid() && Abs() == Next(old(Abs()), Enqueue(Notification, text))
    {
      Put(Notification, text);
    }

    method Say(text: string)
      requires Valid()
      modifies this
      ensures Valid() && Abs() == Next(old(Abs()), Enqueue(User, text))
    {
      Put(User, text);
    }

    method Aside(text: string)
      requires Valid()
      modifies this
      ensures Valid() && Abs() == Next(old(Abs()), Enqueue(Kind.Aside, text))
    {
      Put(Kind.Aside, text);
    }

    /** PeerMessage; text is what PeerLabel makes of the message. */
    method PeerMessage(text: string, wake: bool)
      requires Valid()
      modifies this
      ensures Valid() && Abs() == Next(old(Abs()), Enqueue(if wake then Peer else PeerQuiet, text))
    {
      Put(if wake then Peer else PeerQuiet, text);
    }

    method ServiceNotice(text: string)
      requires Valid()
      modifies this
      ensures Valid() && Abs() == Next(old(Abs()), Enqueue(Service, text))
    {
      Put(Service, text);
    }

    method SetInterrupting(on: bool)
      requires Valid()
      modifies this
      ensures Valid() && Abs() == Next(old(Abs()), Interrupt(on))
    {
      interrupting := on;
    }

    /** userWaiting: the channel a blocking tool adds to its select. */
    method UserWaiting() returns (c: Channel)
      requires Valid()
      modifies this
      ensures Valid() && Abs() == Next(old(Abs()), Event.UserWaiting)
      ensures c == Answered(old(Abs())) && (c in closed <==> SomeoneWaits(old(queue)))
    {
      StepNoMissedWake(Abs(), Event.UserWaiting);
      WakesAtOnce(Abs());
      var i := 0;
      while i < |queue|
        invariant 0 <= i <= |queue|
        invariant forall k :: 0 <= k < i ==> !Waits(queue[k].kind)
      {
        if Waits(queue[i].kind) {
          return CLOSED_CH;
        }
        i := i + 1;
      }
      if userWaitCh.None? {
        channels := channels + 1;
        userWaitCh := Some(channels);
      }
      return userWaitCh.value;
    }

    /** drain: one partition under one lock. */
    method Drain(pred: Kind -> bool, ghost fate: Fate) returns (taken: seq<Item>)
      modifies this`queue, this`delivered
      ensures taken == Taken(old(queue), pred)
      ensures Abs() == Drained(old(Abs()), pred, fate)
    {
      taken := [];
      var keep: seq<Item> := [];
      var i := 0;
      while i < |queue|
        invariant Abs() == old(Abs()) && 0 <= i <= |queue|
        invariant taken + Taken(queue[i..], pred) == Taken(queue, pred)
        invariant keep + Left(queue[i..], pred) == Left(queue, pred)
      {
        DrainStep(queue, i, pred, taken, keep);
        if pred(queue[i].kind) {
          taken := taken + [queue[i]];
        } else {
          keep := keep + [queue[i]];
        }
        i := i + 1;
      }
      assert queue[i..] == [];
      assert taken + [] == taken && keep + [] == keep;
      delivered := delivered + Deliver(taken, fate);
      queue := keep;
    }

    /** liftQueued's test of the flag, without the mutex: whether it goes on. */
    method LiftTest() returns (pass: bool, ghost lift: nat)
      requires Valid()
      modifies this`lifts
      ensures Valid() && Abs() == Next(old(Abs()), LiftCheck)
      ensures lift == |old(lifts)| && pass == !interrupting && (pass ==> MayDrain(Abs(), lift))
    {
      StepNoMissedWake(Abs(), LiftCheck);
      pass, lift := !interrupting, |lifts|;
      lifts := lifts + [if interrupting then Refused else Passed];
    }

    /** liftQueued from its drain on, whatever the flag is by then. */
    method LiftTake(result: string, ghost lift: nat) returns (out: string)
      requires Valid() && MayDrain(Abs(), lift)
      modifies this`queue, this`delivered, this`lifts
      ensures Valid() && Abs() == Next(old(Abs()), LiftDrain(lift))
      ensures out == LiftText(result, old(queue))
    {
      StepNoMissedWake(Abs(), LiftDrain(lift));
      TakenAll(queue);
      lifts := lifts[lift := Done];
      var items := Drain(Anything, Lifted(interrupting));
      out := WriteLift(result, items);
    }

    /** liftQueued, when nothing comes between its two sections. */
    method LiftQueued(result: string) returns (out: string)
      requires Valid()
      modifies this`queue, this`delivered, this`lifts
      ensures Valid()
      ensures Abs() == if old(interrupting) then Next(old(Abs()), LiftCheck)
                       else Next(Next(old(Abs()), LiftCheck), LiftDrain(|old(lifts)|))
      ensures out == if old(interrupting) then result else LiftText(result, old(queue))
    {
      var pass, lift := LiftTest();
      if !pass {
        return result;
      }
      out := LiftTake(result, lift);
    }

    /** flushQueued, less what becomes of the published entries. */
    method FlushQueued() returns (published: seq<Item>)
      requires Valid()
      modifies this
      ensures Valid() && Abs() == Next(old(Abs()), Event.FlushQueued)
      ensures published == Taken(old(queue), CausesTurn)
    {
      StepNoMissedWake(Abs(), Event.FlushQueued);
      published := Drain(CausesTurn, Published);
    }

    method FlushSilent() returns (appended: seq<Item>)
      requires Valid()
      modifies this
      ensures Valid() && Abs() == Next(old(Abs()), Event.FlushSilent)
      ensures appended == Taken(old(queue), NoTurn)
    {
      StepNoMissedWake(Abs(), Event.FlushSilent);
      appended := Drain(NoTurn, AppendedSilently);
    }

    method Unqueue() returns (back: seq<Item>)
      requires Valid()
      modifies this
      ensures Valid() && Abs() == Next(old(Abs()), Event.Unqueue)
      ensures back == Taken(old(queue), FromUser)
    {
      StepNoMissedWake(Abs(), Event.Unqueue);
      back := Drain(FromUser, TakenBack);
    }

    /** Queued, and the buffered part of Pending: how many items flushQueued
        would publish. */
    method Queued() returns (n: nat)
      ensures n == |Taken(queue, CausesTurn)|
    {
      n := 0;
      var i := 0;
      while i < |queue|
        invariant 0 <= i <= |queue|
        invariant n + |Taken(queue[i..], CausesTurn)| == |Taken(queue, CausesTurn)|
      {
        assert queue[i..][1..] == queue[i + 1..];
        if PolicyOf(queue[i].kind).causesTurn {
          n := n + 1;
        }
        i := i + 1;
      }
    }
  }

  lemma DrainStep(q: seq<Item>, i: nat, pred: Kind -> bool, taken: seq<Item>, keep: seq<Item>)
    requires i < |q|
    ensures taken + Taken(q[i..], pred) == (if pred(q[i].kind) then taken + [q[i]] else taken) + Taken(q[i + 1..], pred)
    ensures keep + Left(q[i..], pred) == (if pred(q[i].kind) then keep else keep + [q[i]]) + Left(q[i + 1..], pred)
  {
    assert q[i..][1..] == q[i + 1..];
  }
}
