/** What becomes of each kind of news: which flush takes it, under which label it is
    lifted, and whether it wakes a blocked call. */
module QueueHistory {
  import opened MessageQueue
  import opened Wrappers

  /** The kinds that begin a turn, and those that do not. */
  predicate Turning(k: Kind) { k in {Notification, User, Peer, Service} || k.Unlisted? }

  predicate Quiet(k: Kind) { k in {Kind.Aside, PeerQuiet} }

  lemma KindsSplit(k: Kind)
    ensures Turning(k) <==> !Quiet(k)
    ensures CausesTurn(k) <==> Turning(k)
    ensures NoTurn(k) <==> Quiet(k)
  {
    assert PolicyOf(Notification).causesTurn;
  }

  /** The label that each kind of item is lifted under, and the entry it becomes. */
  lemma Labels(item: Item)
    ensures item.kind == Notification || item.kind.Unlisted? ==> Labelled(item) == "[background] " + item.text
    ensures item.kind == User ==> Labelled(item) == "[user] " + item.text
    ensures item.kind == Kind.Aside ==> Labelled(item) == "[session] " + item.text
    ensures item.kind == Peer || item.kind == PeerQuiet ==> Labelled(item) == "[peer] " + item.text
    ensures item.kind == Service ==> Labelled(item) == "[dun] " + item.text
    ensures PolicyOf(item.kind).entryKind == if item.kind == User then UserEntry else NotificationEntry
  {
    assert PolicyOf(Notification) == Policy("[background] ", NotificationEntry, true);
  }

  lemma RunLast(events: seq<Event>)
    requires events != []
    ensures Run(INIT, events) == Next(Run(INIT, events[..|events| - 1]), events[|events| - 1])
  {
    assert events == events[..|events| - 1] + [events[|events| - 1]];
    RunSnoc(INIT, events[..|events| - 1], events[|events| - 1]);
  }

  lemma RunSnoc(s: State, events: seq<Event>, e: Event)
    ensures Run(s, events + [e]) == Next(Run(s, events), e)
  {
    RunConcat(s, events, [e]);
    RunOne(Run(s, events), e);
  }

  // ---- Ways out ----

  /** What each way out may carry. */
  predicate CarriedBy(k: Kind, fate: Fate) {
    match fate
    case Lifted(_) => true
    case Published => Turning(k)
    case AppendedSilently => Quiet(k)
    case TakenBack => k == User
  }

  /** In every run, what flushQueued published began a turn, what flushSilent appended
      did not, and only the user's own messages were taken back. */
  lemma {:induction false} DeliveredBy(events: seq<Event>)
    ensures forall d :: d in Run(INIT, events).delivered ==> CarriedBy(d.item.kind, d.fate)
    decreases |events|
  {
    if events != [] {
      var init, e := events[..|events| - 1], events[|events| - 1];
      RunLast(events);
      DeliveredBy(init);
      StepCarries(Run(INIT, init), e);
    }
  }

  lemma StepCarries(s: State, e: Event)
    requires forall d :: d in s.delivered ==> CarriedBy(d.item.kind, d.fate)
    ensures forall d :: d in Next(s, e).delivered ==> CarriedBy(d.item.kind, d.fate)
  {
    StepDelivers(s, e);
    var n := Next(s, e);
    forall d | d in n.delivered ensures CarriedBy(d.item.kind, d.fate) {
      var i :| 0 <= i < |n.delivered| && n.delivered[i] == d;
      if i < |s.delivered| { assert s.delivered[i] == d; } else { KindsSplit(d.item.kind); }
    }
  }

  /** After a flush, a taking back or a lift, nothing of the kinds it takes is left, and
      everything else is, in its order. */
  lemma TakesAll(events: seq<Event>, k: Kind)
    ensures var s := Run(INIT, events);
            && OfKind(Next(s, FlushQueued).queue, k) == (if Turning(k) then [] else OfKind(s.queue, k))
            && OfKind(Next(s, FlushSilent).queue, k) == (if Quiet(k) then [] else OfKind(s.queue, k))
            && OfKind(Next(s, Unqueue).queue, k) == (if k == User then [] else OfKind(s.queue, k))
            && forall l :: MayDrain(s, l) ==> OfKind(Next(s, LiftDrain(l)).queue, k) == []
  {
    var s := Run(INIT, events);
    KindsSplit(k);
    LeftByKind(s.queue, CausesTurn, k);
    LeftByKind(s.queue, NoTurn, k);
    LeftByKind(s.queue, FromUser, k);
    LeftByKind(s.queue, Anything, k);
  }

  // ---- Lifts ----

  /** A lift's test, in every run: it passes exactly if the last change of the flag did
      not set it; and only a lift that passed, and has not drained, drains. */
  lemma TestIsTold(events: seq<Event>)
    ensures var s := Run(INIT, events);
            Next(s, LiftCheck).lifts == s.lifts + [if FlagAfter(false, events) then Refused else Passed]
    ensures forall l :: !MayDrain(Run(INIT, events), l) ==> Next(Run(INIT, events), LiftDrain(l)) == Run(INIT, events)
  {
    FlagIs(INIT, events);
  }

  // ---- Waking ----

  /** A user message, a waking peer's and a service notice free whoever waits; the rest
      leave the channel that was handed out as it is. */
  lemma ArrivalFrees(events: seq<Event>, kind: Kind, text: string)
    ensures var s := Run(INIT, events);
            var n := Next(s, Enqueue(kind, text));
            && n.queue == s.queue + [Item(|s.enqueued|, kind, text)]
            && (kind in {User, Peer, Service} ==>
                  n.userWaitCh == None && forall c :: 0 < c <= n.channels ==> c in n.closed)
            && (kind !in {User, Peer, Service} ==> n.userWaitCh == s.userWaitCh && n.closed == s.closed)
  {
    RunNoMissedWake(events);
  }

  /** Asking whether to wait is answered at once exactly if a message of the user's or a
      waking peer's is in the queue. */
  lemma AskedAtOnce(events: seq<Event>)
    ensures var s := Run(INIT, events);
            Answered(s) in Next(s, UserWaiting).closed <==>
            exists i :: 0 <= i < |s.queue| && s.queue[i].kind in {User, Peer}
  {
    AnswerIsReady(events);
  }
}
