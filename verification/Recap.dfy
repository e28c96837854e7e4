/** Which entries of a session a recap replaces: recap.go's planRecap and its
    helpers. store.recap, which applies the plan, is not part of this model. */
module Recap {
  import opened Strings
  import opened Wrappers
  import Lifted
  import MessageQueue

  datatype Kind = UserEntry | AssistantEntry | ToolCall | ToolResult | Citation | OtherKind(n: nat)

  datatype Entry = Entry(kind: Kind, id: string, toolCallId: string, toolName: string, content: string)

  datatype Error = BeforeTheTurn | NoSuchEntry | NothingToRecap

  datatype Result<T> = Ok(value: T) | Err(error: Error)

  /** start is the anchor's index, -1 for the start of the session. */
  datatype Span = Span(
    start: int, kept: seq<Entry>, subsumes: seq<Entry>, chars: nat,
    said: seq<string>, unmatched: seq<string>, keptCalls: seq<string>)

  // ---- The live call and the turn ----

  function AnsweredIds(es: seq<Entry>): set<string> {
    set i | 0 <= i < |es| && es[i].kind == ToolResult :: es[i].toolCallId
  }

  /** The last of the first n entries that is a call without a result, or -1. */
  function LastUnanswered(es: seq<Entry>, n: nat): (i: int)
    requires n <= |es|
    ensures -1 <= i < n
    ensures i >= 0 ==> es[i].kind == ToolCall && es[i].toolCallId !in AnsweredIds(es)
    ensures forall k :: i < k < n && es[k].kind == ToolCall ==> es[k].toolCallId in AnsweredIds(es)
  {
    if n == 0 then -1
    else if es[n - 1].kind == ToolCall && es[n - 1].toolCallId !in AnsweredIds(es) then n - 1
    else LastUnanswered(es, n - 1)
  }

  function LiveId(es: seq<Entry>): string {
    var i := LastUnanswered(es, |es|);
    if i < 0 then "" else es[i].toolCallId
  }

  predicate IsCall(e: Entry, id: string) { e.kind == ToolCall && e.toolCallId == id }

  /** The first call of that id from a position on, or the length. */
  function FirstCall(es: seq<Entry>, id: string, i: nat): (r: nat)
    requires i <= |es|
    ensures i <= r <= |es| && (r < |es| ==> IsCall(es[r], id))
    ensures forall k :: i <= k < r ==> !IsCall(es[k], id)
    decreases |es| - i
  {
    if i == |es| || IsCall(es[i], id) then i else FirstCall(es, id, i + 1)
  }

  /** Where the search for the anchor ends. */
  function Limit(es: seq<Entry>): (r: nat)
    ensures r <= |es|
  {
    if LiveId(es) == "" then |es| else FirstCall(es, LiveId(es), 0)
  }

  /** The latest user entry below n, or -1. */
  function TurnStart(es: seq<Entry>, n: nat): (i: int)
    requires n <= |es|
    ensures -1 <= i < n && (i >= 0 ==> es[i].kind == UserEntry)
    ensures forall k :: i < k < n ==> es[k].kind != UserEntry
  {
    if n == 0 then -1 else if es[n - 1].kind == UserEntry then n - 1 else TurnStart(es, n - 1)
  }

  /** The latest entry below n and above lo that quotes the phrase, or lo. */
  function LastQuoting(es: seq<Entry>, phrase: string, lo: int, n: nat): (i: int)
    requires -1 <= lo <= n <= |es|
    ensures lo <= i && (i > lo ==> i < n && Has(es[i].content, phrase))
    ensures forall k :: i < k < n ==> !Has(es[k].content, phrase)
    decreases n - lo
  {
    if n <= lo + 1 then lo
    else if Has(es[n - 1].content, phrase) then n - 1
    else LastQuoting(es, phrase, lo, n - 1)
  }

  /** The anchor. */
  function Anchor(es: seq<Entry>, from: string): Result<int> {
    var limit := Limit(es);
    var turn := TurnStart(es, limit);
    var phrase := TrimSpace(from);
    if phrase == "" || (turn >= 0 && Has(es[turn].content, phrase)) then Ok(turn)
    else
      var i := LastQuoting(es, phrase, turn, limit);
      if i > turn then Ok(i)
      else if turn > 0 && LastQuoting(es, phrase, -1, turn) >= 0 then Err(BeforeTheTurn)
      else Err(NoSuchEntry)
  }

  // ---- What keep names ----

  /** A call other than the live one, after the anchor. */
  predicate Keepable(es: seq<Entry>, start: int, i: int) {
    0 <= i < |es| && i > start && es[i].kind == ToolCall && es[i].toolCallId != LiveId(es)
  }

  predicate NamesATool(es: seq<Entry>, start: int, term: string) {
    exists i :: 0 <= i < |es| && Keepable(es, start, i) && es[i].toolName == term
  }

  predicate Hit(e: Entry, term: string, byName: bool) {
    e.toolCallId == term || Has(e.content, term) || (byName && e.toolName == term)
  }

  /** The most recent call of a named tool ends the search for that name. */
  predicate Stops(e: Entry, term: string, byName: bool) {
    byName && e.toolName == term && !Has(e.content, term)
  }

  /** The calls below n one term keeps, the latest first. */
  function Hits(es: seq<Entry>, start: int, term: string, byName: bool, n: nat): seq<nat>
    requires n <= |es|
  {
    if n == 0 then []
    else if !Keepable(es, start, n - 1) || !Hit(es[n - 1], term, byName) then Hits(es, start, term, byName, n - 1)
    else if Stops(es[n - 1], term, byName) then [n - 1]
    else [n - 1] + Hits(es, start, term, byName, n - 1)
  }

  function HitsOf(es: seq<Entry>, start: int, term: string): seq<nat> {
    if term == "" then [] else Hits(es, start, term, NamesATool(es, start, term), |es|)
  }

  /** All that the terms keep, in the order the terms were walked. */
  function AllHits(es: seq<Entry>, start: int, keep: seq<string>): seq<nat> {
    if keep == [] then [] else AllHits(es, start, keep[..|keep| - 1]) + HitsOf(es, start, keep[|keep| - 1])
  }

  function Unmatched(es: seq<Entry>, start: int, keep: seq<string>): seq<string> {
    if keep == [] then []
    else
      var term := keep[|keep| - 1];
      Unmatched(es, start, keep[..|keep| - 1]) + if term != "" && HitsOf(es, start, term) == [] then [term] else []
  }

  lemma {:induction false} HitsAre(es: seq<Entry>, start: int, term: string, byName: bool, n: nat)
    requires n <= |es|
    ensures forall i :: i in Hits(es, start, term, byName, n) ==>
            i < n && Keepable(es, start, i) && Hit(es[i], term, byName)
  {
    if n > 0 { HitsAre(es, start, term, byName, n - 1); }
  }

  lemma {:induction false} AllHitsAre(es: seq<Entry>, start: int, keep: seq<string>)
    ensures forall i :: i in AllHits(es, start, keep) ==> Keepable(es, start, i)
  {
    if keep != [] {
      var term := keep[|keep| - 1];
      AllHitsAre(es, start, keep[..|keep| - 1]);
      HitsAre(es, start, term, NamesATool(es, start, term), |es|);
    }
  }

  // ---- The partition ----

  /** What the partition goes by: the live call's id, the ids kept, and the id of
      the entry before the live call. */
  datatype Rule = Rule(live: string, keeping: set<string>, pending: Option<string>)

  datatype Fate = Cited | Kept | Subsumed

  function FateOf(e: Entry, r: Rule): Fate {
    if e.kind == Citation then Cited
    else if e.toolCallId != "" && (e.toolCallId in r.keeping || e.toolCallId == r.live) then Kept
    else if e.kind == AssistantEntry && r.pending == Some(e.id) then Kept
    else Subsumed
  }

  function PendingId(es: seq<Entry>): Option<string> {
    if LiveId(es) == "" || es == [] then None
    else
      var i := FirstCall(es, LiveId(es), 1);
      if i < |es| then Some(es[i - 1].id) else None
  }

  /** The ids of the calls at those places. */
  function IdsAt(es: seq<Entry>, hits: seq<nat>): set<string> {
    set i | i in hits && i < |es| :: es[i].toolCallId
  }

  function RuleOf(es: seq<Entry>, start: int, keep: seq<string>): Rule {
    Rule(LiveId(es), IdsAt(es, AllHits(es, start, keep)), PendingId(es))
  }

  /** The entries of one fate, in order. */
  function Pick(es: seq<Entry>, r: Rule, f: Fate): seq<Entry> {
    if es == [] then []
    else Pick(es[..|es| - 1], r, f) + if FateOf(es[|es| - 1], r) == f then [es[|es| - 1]] else []
  }

  function Chars(es: seq<Entry>): nat {
    if es == [] then 0 else Chars(es[..|es| - 1]) + |es[|es| - 1].content|
  }

  function WordsIn(e: Entry): seq<string> {
    if e.kind == ToolResult then Lifted.UserWords(Lifted.Parse(e.content)) else []
  }

  /** What the user typed mid-turn in these entries, in order. */
  function Said(es: seq<Entry>): seq<string> {
    if es == [] then [] else Said(es[..|es| - 1]) + WordsIn(es[|es| - 1])
  }

  function NamesAt(es: seq<Entry>, hits: seq<nat>): seq<string> {
    seq(|hits|, k requires 0 <= k < |hits| => if hits[k] < |es| then es[hits[k]].toolName else "")
  }

  function After(es: seq<Entry>, start: int): seq<Entry> {
    if -1 <= start < |es| then es[start + 1..] else []
  }

  /** The plan for an anchor. */
  function SpanAt(es: seq<Entry>, start: int, keep: seq<string>): Span {
    var rule := RuleOf(es, start, keep);
    var subsumes := Pick(After(es, start), rule, Subsumed);
    Span(start, Pick(After(es, start), rule, Kept), subsumes, Chars(subsumes), Said(subsumes),
         Unmatched(es, start, keep), NamesAt(es, AllHits(es, start, keep)))
  }

  /** planRecap. */
  function Plan(es: seq<Entry>, from: string, keep: seq<string>): Result<Span> {
    match Anchor(es, from)
    case Err(e) => Err(e)
    case Ok(start) =>
      var sp := SpanAt(es, start, keep);
      if sp.subsumes == [] then Err(NothingToRecap) else Ok(sp)
  }

  // ---- The span is split, in order ----

  lemma {:induction false} PickIn(es: seq<Entry>, r: Rule, f: Fate, e: Entry)
    ensures e in Pick(es, r, f) <==> e in es && FateOf(e, r) == f
  {
    if es != [] {
      PickIn(es[..|es| - 1], r, f, e);
      assert es == es[..|es| - 1] + [es[|es| - 1]];
    }
  }

  lemma {:induction false} PickConcat(a: seq<Entry>, b: seq<Entry>, r: Rule, f: Fate)
    ensures Pick(a + b, r, f) == Pick(a, r, f) + Pick(b, r, f)
  {
    if b == [] {
      assert a + b == a;
    } else {
      assert (a + b)[..|a + b| - 1] == a + b[..|b| - 1];
      PickConcat(a, b[..|b| - 1], r, f);
    }
  }

  lemma {:induction false} PickCount(es: seq<Entry>, r: Rule, f: Fate, x: Entry)
    ensures multiset(Pick(es, r, f))[x] == if FateOf(x, r) == f then multiset(es)[x] else 0
  {
    if es != [] {
      PickCount(es[..|es| - 1], r, f, x);
      assert es == es[..|es| - 1] + [es[|es| - 1]];
    }
  }

  lemma PickConserves(es: seq<Entry>, r: Rule)
    ensures multiset(Pick(es, r, Kept)) + multiset(Pick(es, r, Subsumed)) == multiset(es) - multiset(Pick(es, r, Cited))
  {
    var whole, parts := multiset(es) - multiset(Pick(es, r, Cited)),
      multiset(Pick(es, r, Kept)) + multiset(Pick(es, r, Subsumed));
    forall x: Entry ensures parts[x] == whole[x] {
      PickCount(es, r, Cited, x);
      PickCount(es, r, Kept, x);
      PickCount(es, r, Subsumed, x);
    }
  }

  lemma AnchorBounds(es: seq<Entry>, from: string)
    ensures Anchor(es, from).Ok? ==> TurnStart(es, Limit(es)) <= Anchor(es, from).value < Limit(es)
  {}

  lemma PlanIs(es: seq<Entry>, from: string, keep: seq<string>, sp: Span)
    requires Plan(es, from, keep) == Ok(sp)
    ensures Anchor(es, from) == Ok(sp.start) && sp == SpanAt(es, sp.start, keep)
  {}

  lemma SpanParts(es: seq<Entry>, start: int, keep: seq<string>)
    ensures var sp := SpanAt(es, start, keep);
            && sp.kept == Pick(After(es, start), RuleOf(es, start, keep), Kept)
            && sp.subsumes == Pick(After(es, start), RuleOf(es, start, keep), Subsumed)
            && sp.said == Said(sp.subsumes)
  {}

  lemma SpanBounds(es: seq<Entry>, from: string, keep: seq<string>, sp: Span)
    requires Plan(es, from, keep) == Ok(sp)
    ensures -1 <= sp.start < Limit(es)
    ensures TurnStart(es, Limit(es)) <= sp.start
  {
    PlanIs(es, from, keep, sp);
    AnchorBounds(es, from);
  }

  lemma SpanFacts(es: seq<Entry>, from: string, keep: seq<string>, sp: Span)
    requires Plan(es, from, keep) == Ok(sp)
    ensures sp.kept == Pick(After(es, sp.start), RuleOf(es, sp.start, keep), Kept)
    ensures sp.subsumes == Pick(After(es, sp.start), RuleOf(es, sp.start, keep), Subsumed)
    ensures sp.said == Said(sp.subsumes)
  {
    PlanIs(es, from, keep, sp);
    SpanParts(es, sp.start, keep);
  }

  /** A plan splits what follows the anchor, minus earlier citations, into what
      stays and what goes, each entry once. */
  lemma PlanSplits(es: seq<Entry>, from: string, keep: seq<string>, sp: Span)
    requires Plan(es, from, keep) == Ok(sp)
    ensures var span := After(es, sp.start);
            multiset(sp.kept) + multiset(sp.subsumes) ==
              multiset(span) - multiset(Pick(span, RuleOf(es, sp.start, keep), Cited))
  {
    SpanBounds(es, from, keep, sp);
    SpanFacts(es, from, keep, sp);
    PickConserves(After(es, sp.start), RuleOf(es, sp.start, keep));
  }

  /** And each part is in its order: cut the span anywhere, and what stays and
      what goes is that of the first piece, then that of the second. */
  lemma PlanInOrder(es: seq<Entry>, from: string, keep: seq<string>, sp: Span, a: seq<Entry>, b: seq<Entry>)
    requires Plan(es, from, keep) == Ok(sp) && After(es, sp.start) == a + b
    ensures var rule := RuleOf(es, sp.start, keep);
            && sp.kept == Pick(a, rule, Kept) + Pick(b, rule, Kept)
            && sp.subsumes == Pick(a, rule, Subsumed) + Pick(b, rule, Subsumed)
  {
    SpanBounds(es, from, keep, sp);
    SpanFacts(es, from, keep, sp);
    var rule := RuleOf(es, sp.start, keep);
    PickConcat(a, b, rule, Kept);
    PickConcat(a, b, rule, Subsumed);
  }

  lemma AfterIn(es: seq<Entry>, start: int, e: Entry)
    requires -1 <= start < |es|
    ensures e in After(es, start) <==> exists i :: start < i < |es| && es[i] == e
  {
    if i :| start < i < |es| && es[i] == e {
      assert After(es, start)[i - start - 1] == e;
    }
    if e in After(es, start) {
      var k :| 0 <= k < |After(es, start)| && After(es, start)[k] == e;
      assert es[start + 1 + k] == e;
    }
  }

  lemma SubsumedIn(es: seq<Entry>, from: string, keep: seq<string>, sp: Span, e: Entry)
    requires Plan(es, from, keep) == Ok(sp)
    ensures e in sp.subsumes <==>
            FateOf(e, RuleOf(es, sp.start, keep)) == Subsumed && exists i :: sp.start < i < |es| && es[i] == e
    ensures e in sp.kept <==>
            FateOf(e, RuleOf(es, sp.start, keep)) == Kept && exists i :: sp.start < i < |es| && es[i] == e
  {
    SpanBounds(es, from, keep, sp);
    SpanFacts(es, from, keep, sp);
    PickIn(After(es, sp.start), RuleOf(es, sp.start, keep), Subsumed, e);
    PickIn(After(es, sp.start), RuleOf(es, sp.start, keep), Kept, e);
    AfterIn(es, sp.start, e);
  }

  // ---- What is never subsumed ----

  /** A user's entry is in no tool call. */
  ghost predicate UserEntriesPlain(es: seq<Entry>) {
    forall i :: 0 <= i < |es| && es[i].kind == UserEntry ==> es[i].toolCallId == ""
  }

  /** No user entry is subsumed, unless one came after the live call. */
  lemma NoUserEntrySubsumed(es: seq<Entry>, from: string, keep: seq<string>, sp: Span)
    requires Plan(es, from, keep) == Ok(sp) && UserEntriesPlain(es)
    ensures (forall e :: e in sp.subsumes ==> e.kind != UserEntry)
       <==> (forall i :: Limit(es) <= i < |es| ==> es[i].kind != UserEntry)
  {
    SpanBounds(es, from, keep, sp);
    SpanFacts(es, from, keep, sp);
    if i :| Limit(es) <= i < |es| && es[i].kind == UserEntry {
      SubsumedIn(es, from, keep, sp, es[i]);
      assert es[i] in sp.subsumes;
    }
    forall e | e in sp.subsumes && e.kind == UserEntry
      ensures exists i :: Limit(es) <= i < |es| && es[i].kind == UserEntry
    {
      SubsumedIn(es, from, keep, sp, e);
      var i :| sp.start < i < |es| && es[i] == e;
      assert i >= Limit(es);
    }
  }

  lemma LiveFates(es: seq<Entry>, start: int, keep: seq<string>)
    requires LiveId(es) != ""
    ensures var n := Limit(es);
            && n < |es| && FateOf(es[n], RuleOf(es, start, keep)) == Kept
            && (n > 0 && es[n - 1].kind == AssistantEntry ==> FateOf(es[n - 1], RuleOf(es, start, keep)) == Kept)
  {
    var live := LastUnanswered(es, |es|);
    var n := Limit(es);
    assert IsCall(es[live], LiveId(es));
    if n > 0 { FirstIs(es, LiveId(es), n); }
  }

  /** The live call stays, and so does the assistant's entry right before it. */
  lemma LiveCallStays(es: seq<Entry>, from: string, keep: seq<string>, sp: Span)
    requires Plan(es, from, keep) == Ok(sp) && LiveId(es) != ""
    ensures var n := Limit(es);
            && n < |es| && es[n] in sp.kept && es[n] !in sp.subsumes
            && (n > 0 && es[n - 1].kind == AssistantEntry ==>
              (n - 1 <= sp.start || es[n - 1] in sp.kept) && es[n - 1] !in sp.subsumes)
  {
    SpanBounds(es, from, keep, sp);
    SpanFacts(es, from, keep, sp);
    var n := Limit(es);
    LiveFates(es, sp.start, keep);
    SubsumedIn(es, from, keep, sp, es[n]);
    if n > 0 { SubsumedIn(es, from, keep, sp, es[n - 1]); }
  }

  lemma FirstIs(es: seq<Entry>, id: string, n: nat)
    requires 1 <= n < |es| && IsCall(es[n], id) && forall k :: 0 <= k < n ==> !IsCall(es[k], id)
    ensures FirstCall(es, id, 1) == n
  {}

  // ---- Calls and their results ----

  predicate IsResult(e: Entry, id: string) { e.kind == ToolResult && e.toolCallId == id }

  predicate SameCallKind(a: Entry, b: Entry) {
    a.kind == b.kind && (a.kind == ToolCall || a.kind == ToolResult)
  }

  /** The history a recap is asked for in: every id is that of one call and at
      most one later result. Calls may be unanswered. */
  ghost predicate WellPaired(es: seq<Entry>) {
    && (forall i :: 0 <= i < |es| && (es[i].kind == ToolCall || es[i].kind == ToolResult) ==> es[i].toolCallId != "")
    && (forall i, j :: 0 <= i < j < |es| && SameCallKind(es[i], es[j]) ==> es[i].toolCallId != es[j].toolCallId)
    && (forall j :: 0 <= j < |es| && es[j].kind == ToolResult ==> CalledBefore(es, j))
  }

  ghost predicate CalledBefore(es: seq<Entry>, j: nat)
    requires j < |es|
  {
    exists i :: 0 <= i < j && IsCall(es[i], es[j].toolCallId)
  }

  /** What the model still sees of the entries: up to the anchor, and the kept. */
  function Remaining(es: seq<Entry>, sp: Span): seq<Entry> {
    if -1 <= sp.start < |es| then es[..sp.start + 1] + sp.kept else es
  }

  ghost predicate HasCall(h: seq<Entry>, id: string) { exists e :: e in h && IsCall(e, id) }
  ghost predicate HasResult(h: seq<Entry>, id: string) { exists e :: e in h && IsResult(e, id) }

  /** What is left of a history has no call without the result it had, and no result
      without its call. */
  ghost predicate PairsKept(es: seq<Entry>, h: seq<Entry>) {
    && (forall e :: e in h && e.kind == ToolCall && HasResult(es, e.toolCallId) ==> HasResult(h, e.toolCallId))
    && (forall e :: e in h && e.kind == ToolResult ==> HasCall(h, e.toolCallId))
  }

  predicate Straddles(es: seq<Entry>, start: int) {
    exists i, j :: 0 <= i < |es| && 0 <= j < |es| && i <= start < j && Answers(es[i], es[j])
  }

  predicate Answers(call: Entry, result: Entry) {
    call.kind == ToolCall && result.kind == ToolResult && call.toolCallId == result.toolCallId
  }

  predicate Stays(es: seq<Entry>, start: int, r: Rule, i: nat)
    requires i < |es|
  {
    i <= start || FateOf(es[i], r) == Kept
  }

  lemma FrontIn(es: seq<Entry>, start: int, e: Entry)
    requires -1 <= start < |es|
    ensures e in es[..start + 1] <==> exists i :: 0 <= i <= start && es[i] == e
  {
    if i :| 0 <= i <= start && es[i] == e { assert es[..start + 1][i] == e; }
  }

  /** An entry remains when it is at or before the anchor, or is kept. */
  lemma StaysOr(es: seq<Entry>, start: int, r: Rule, e: Entry)
    requires -1 <= start < |es|
    ensures (exists i :: 0 <= i < |es| && es[i] == e && Stays(es, start, r, i)) <==>
            (exists i :: 0 <= i <= start && es[i] == e)
              || (FateOf(e, r) == Kept && exists i :: start < i < |es| && es[i] == e)
  {}

  lemma RemainsOr(es: seq<Entry>, sp: Span, e: Entry)
    requires -1 <= sp.start < |es|
    ensures e in Remaining(es, sp) <==> e in sp.kept || exists i :: 0 <= i <= sp.start && es[i] == e
  {
    FrontIn(es, sp.start, e);
  }

  lemma RemainsAre(es: seq<Entry>, from: string, keep: seq<string>, sp: Span, e: Entry)
    requires Plan(es, from, keep) == Ok(sp)
    ensures e in Remaining(es, sp) <==>
            exists i :: 0 <= i < |es| && es[i] == e && Stays(es, sp.start, RuleOf(es, sp.start, keep), i)
  {
    SpanBounds(es, from, keep, sp);
    SubsumedIn(es, from, keep, sp, e);
    RemainsOr(es, sp, e);
    StaysOr(es, sp.start, RuleOf(es, sp.start, keep), e);
  }

  /** The ids kept are those of calls after the anchor. */
  lemma KeptIds(es: seq<Entry>, start: int, keep: seq<string>, id: string) returns (i: nat)
    requires id in RuleOf(es, start, keep).keeping
    ensures start < i < |es| && IsCall(es[i], id) && id != LiveId(es)
  {
    AllHitsAre(es, start, keep);
    i :| i in AllHits(es, start, keep) && i < |es| && es[i].toolCallId == id;
  }

  lemma LiveUnanswered(es: seq<Entry>, j: nat)
    requires j < |es| && es[j].kind == ToolResult && es[j].toolCallId != ""
    ensures es[j].toolCallId != LiveId(es)
  {
    assert es[j].toolCallId in AnsweredIds(es);
  }

  /** A call that stays has its result stay, when none is answered across the anchor. */
  lemma CallKeepsResult(es: seq<Entry>, start: int, keep: seq<string>, i: nat) returns (j: nat)
    requires WellPaired(es) && !Straddles(es, start) && i < |es| && es[i].kind == ToolCall
             && HasResult(es, es[i].toolCallId)
    requires Stays(es, start, RuleOf(es, start, keep), i)
    ensures j < |es| && IsResult(es[j], es[i].toolCallId) && Stays(es, start, RuleOf(es, start, keep), j)
  {
    j :| 0 <= j < |es| && IsResult(es[j], es[i].toolCallId);
    assert CalledBefore(es, j);
    assert Answers(es[i], es[j]);
  }

  lemma ResultKeepsCall(es: seq<Entry>, start: int, keep: seq<string>, j: nat) returns (i: nat)
    requires WellPaired(es) && j < |es| && es[j].kind == ToolResult
    requires Stays(es, start, RuleOf(es, start, keep), j)
    ensures i < |es| && IsCall(es[i], es[j].toolCallId) && Stays(es, start, RuleOf(es, start, keep), i)
  {
    if j <= start {
      assert CalledBefore(es, j);
      i :| 0 <= i < j && IsCall(es[i], es[j].toolCallId);
    } else {
      LiveUnanswered(es, j);
      i := KeptIds(es, start, keep, es[j].toolCallId);
    }
  }

  lemma NoStraddleKeepsPairs(es: seq<Entry>, from: string, keep: seq<string>, sp: Span)
    requires Plan(es, from, keep) == Ok(sp) && WellPaired(es) && !Straddles(es, sp.start)
    ensures PairsKept(es, Remaining(es, sp))
  {
    var h := Remaining(es, sp);
    forall e | e in h && e.kind == ToolCall && HasResult(es, e.toolCallId) ensures HasResult(h, e.toolCallId) {
      RemainsAre(es, from, keep, sp, e);
      var i :| 0 <= i < |es| && es[i] == e && Stays(es, sp.start, RuleOf(es, sp.start, keep), i);
      var j := CallKeepsResult(es, sp.start, keep, i);
      RemainsAre(es, from, keep, sp, es[j]);
    }
    forall e | e in h && e.kind == ToolResult ensures HasCall(h, e.toolCallId) {
      RemainsAre(es, from, keep, sp, e);
      var j :| 0 <= j < |es| && es[j] == e && Stays(es, sp.start, RuleOf(es, sp.start, keep), j);
      var i := ResultKeepsCall(es, sp.start, keep, j);
      RemainsAre(es, from, keep, sp, es[i]);
    }
  }

  lemma StraddleGoes(es: seq<Entry>, start: int, keep: seq<string>, i: nat, j: nat)
    requires WellPaired(es) && i < |es| && j < |es| && i <= start < j && Answers(es[i], es[j])
    ensures !Stays(es, start, RuleOf(es, start, keep), j)
    ensures forall k :: 0 <= k < |es| && IsResult(es[k], es[i].toolCallId) ==> k == j
  {
    LiveUnanswered(es, j);
    if es[j].toolCallId in RuleOf(es, start, keep).keeping {
      var k := KeptIds(es, start, keep, es[j].toolCallId);
      assert false;
    }
  }

  lemma StraddleBreaksPairs(es: seq<Entry>, from: string, keep: seq<string>, sp: Span)
    requires Plan(es, from, keep) == Ok(sp) && WellPaired(es) && Straddles(es, sp.start)
    ensures !PairsKept(es, Remaining(es, sp))
  {
    var h := Remaining(es, sp);
    var i, j :| 0 <= i < |es| && 0 <= j < |es| && i <= sp.start < j && Answers(es[i], es[j]);
    StraddleGoes(es, sp.start, keep, i, j);
    RemainsAre(es, from, keep, sp, es[i]);
    forall e | e in h && IsResult(e, es[i].toolCallId) ensures false {
      RemainsAre(es, from, keep, sp, e);
    }
    assert !HasResult(h, es[i].toolCallId);
    assert es[j] in es && IsResult(es[j], es[i].toolCallId);
  }

  /** Tool calls keep their pairs exactly when no call at or before the anchor is
      answered after it. planRecap does not check that, though recap.go:53-55 says
      such a span is refused. */
  lemma PairsKeptIff(es: seq<Entry>, from: string, keep: seq<string>, sp: Span)
    requires Plan(es, from, keep) == Ok(sp) && WellPaired(es)
    ensures PairsKept(es, Remaining(es, sp)) <==> !Straddles(es, sp.start)
  {
    if Straddles(es, sp.start) {
      StraddleBreaksPairs(es, from, keep, sp);
    } else {
      NoStraddleKeepsPairs(es, from, keep, sp);
    }
  }

  lemma NoPhrase(s: string, sub: string)
    requires |s| == 1 && |sub| == 1
    ensures Has(s, sub) <==> s == sub
  {
    if s == sub {
      assert s[0..1] == sub;
    } else {
      assert s[0..1] == s;
    }
  }

  /** A call that awaits its result, and whose id no other call has. */
  ghost predicate Awaits(es: seq<Entry>, i: nat) {
    && i < |es| && es[i].kind == ToolCall && es[i].toolCallId != "" && es[i].toolCallId !in AnsweredIds(es)
    && forall k :: 0 <= k < |es| && IsCall(es[k], es[i].toolCallId) ==> k == i
  }

  ghost predicate LastAwaiting(es: seq<Entry>, i: nat) {
    forall k :: i < k < |es| && es[k].kind == ToolCall ==> es[k].toolCallId in AnsweredIds(es)
  }

  lemma LiveIsLast(es: seq<Entry>, i: nat)
    requires Awaits(es, i)
    ensures LiveId(es) == es[i].toolCallId <==> LastAwaiting(es, i)
  {
    var last := LastUnanswered(es, |es|);
    assert last >= i;
    assert IsCall(es[last], es[last].toolCallId);
  }

  /** The recap call itself, or any other that awaits its result, remains exactly when
      it is not in the span, no call after it awaits one, or keep names it. The
      comment at recap.go:87-89 promises it of the recap call in every case. */
  lemma AwaitingCallRemains(es: seq<Entry>, from: string, keep: seq<string>, sp: Span, i: nat)
    requires Plan(es, from, keep) == Ok(sp) && Awaits(es, i)
    ensures es[i] in Remaining(es, sp) <==>
            i <= sp.start || LastAwaiting(es, i) || es[i].toolCallId in RuleOf(es, sp.start, keep).keeping
    ensures es[i] in sp.subsumes <==> es[i] !in Remaining(es, sp)
  {
    LiveIsLast(es, i);
    RemainsAre(es, from, keep, sp, es[i]);
    SubsumedIn(es, from, keep, sp, es[i]);
    forall k | 0 <= k < |es| && es[k] == es[i] ensures k == i { assert IsCall(es[k], es[i].toolCallId); }
  }

  lemma TwoAwaiting(es: seq<Entry>)
    requires |es| == 3 && es[0].kind == UserEntry && IsCall(es[1], "a") && IsCall(es[2], "b")
    ensures Awaits(es, 1) && !LastAwaiting(es, 1) && Anchor(es, "") == Ok(0)
  {
    assert AnsweredIds(es) == {};
    assert es[2].toolCallId !in AnsweredIds(es);
    assert LastUnanswered(es, 3) == 2 && Limit(es) == 2 && TurnStart(es, 2) == 0;
    assert TrimSpace("") == "";
  }

  /** A recap call with another after it that has no result yet is in its own span. */
  lemma RecapSubsumesItself() returns (es: seq<Entry>, i: nat)
    ensures Plan(es, "", []).Ok? && Awaits(es, i) && es[i].toolName == "recap"
    ensures es[i] in Plan(es, "", []).value.subsumes
  {
    var recap := Entry(ToolCall, "2", "a", "recap", "");
    es, i := [Entry(UserEntry, "1", "", "", "q"), recap, Entry(ToolCall, "3", "b", "exec", "")], 1;
    TwoAwaiting(es);
    LiveIsLast(es, i);
    var rule := RuleOf(es, 0, []);
    PickIn(After(es, 0), rule, Subsumed, recap);
    assert After(es, 0)[0] == recap;
  }

  /** Such a span is planned: the phrase is in a call's own arguments. */
  lemma StraddlingSpanIsPlanned() returns (es: seq<Entry>, from: string)
    ensures WellPaired(es) && Plan(es, from, []).Ok?
    ensures !PairsKept(es, Remaining(es, Plan(es, from, []).value))
  {
    var u := Entry(UserEntry, "1", "", "", "q");
    var c := Entry(ToolCall, "2", "a", "exec", "x");
    var r := Entry(ToolResult, "3", "a", "exec", "r");
    var live := Entry(ToolCall, "4", "b", "recap", "y");
    es, from := [u, c, r, live], "x";
    StraddlingHistory(es);
    assert TrimSpace(from) == "x";
    NoPhrase("q", "x");
    NoPhrase("r", "x");
    NoPhrase("x", "x");
    assert Limit(es) == 3 && TurnStart(es, 3) == 0;
    assert LastQuoting(es, "x", 0, 3) == 1;
    var rule := RuleOf(es, 1, []);
    assert After(es, 1) == [r, live];
    PickIn([r, live], rule, Subsumed, r);
    assert Answers(es[1], es[2]);
    PairsKeptIff(es, from, [], Plan(es, from, []).value);
  }

  lemma StraddlingHistory(es: seq<Entry>)
    requires |es| == 4 && es[0].kind == UserEntry && IsCall(es[1], "a") && IsResult(es[2], "a") && IsCall(es[3], "b")
    ensures WellPaired(es) && LiveId(es) == "b"
  {
    assert AnsweredIds(es) == {"a"};
    assert LastUnanswered(es, 4) == 3;
    assert IsCall(es[1], es[2].toolCallId);
    assert CalledBefore(es, 2);
  }

  // ---- The user's words ----

  lemma SaidLast(a: seq<Entry>, e: Entry)
    ensures Said(a + [e]) == Said(a) + WordsIn(e)
  {
    assert (a + [e])[..|a|] == a;
  }

  lemma {:induction false} SaidConcat(a: seq<Entry>, b: seq<Entry>)
    ensures Said(a + b) == Said(a) + Said(b)
  {
    if b == [] {
      assert a + b == a;
    } else {
      SaidConcat(a, b[..|b| - 1]);
      ConcatAssociates(a, b[..|b| - 1], [b[|b| - 1]]);
      ConcatAssociates(Said(a), Said(b[..|b| - 1]), WordsIn(b[|b| - 1]));
      assert b == b[..|b| - 1] + [b[|b| - 1]];
      SaidLast(a + b[..|b| - 1], b[|b| - 1]);
    }
  }

  lemma SaidOne(e: Entry)
    ensures Said([e]) == WordsIn(e)
  {
    assert [e][..0] == [];
  }

  lemma PickOne(e: Entry, r: Rule, f: Fate)
    ensures Pick([e], r, f) == if FateOf(e, r) == f then [e] else []
  {
    assert [e][..0] == [];
  }

  lemma SaidAround(a: seq<Entry>, e: Entry, b: seq<Entry>, r: Rule)
    requires FateOf(e, r) == Subsumed
    ensures Said(Pick(a + [e] + b, r, Subsumed)) == Said(Pick(a, r, Subsumed)) + WordsIn(e) + Said(Pick(b, r, Subsumed))
  {
    PickConcat(a + [e], b, r, Subsumed);
    PickConcat(a, [e], r, Subsumed);
    PickOne(e, r, Subsumed);
    SaidConcat(Pick(a, r, Subsumed) + [e], Pick(b, r, Subsumed));
    SaidConcat(Pick(a, r, Subsumed), [e]);
    SaidOne(e);
  }

  lemma AfterAround(es: seq<Entry>, start: int, i: nat)
    requires -1 <= start < i < |es|
    ensures After(es, start) == es[start + 1..i] + [es[i]] + es[i + 1..]
  {}

  lemma SubsumedWords(es: seq<Entry>, start: int, r: Rule, i: nat, result: string, items: seq<MessageQueue.Item>)
    requires -1 <= start < i < |es| && es[i].kind == ToolResult && FateOf(es[i], r) == Subsumed
    requires es[i].content == MessageQueue.LiftText(result, items)
    ensures Said(Pick(After(es, start), r, Subsumed))
         == Said(Pick(es[start + 1..i], r, Subsumed)) + WordsIn(es[i]) + Said(Pick(es[i + 1..], r, Subsumed))
    ensures WordsIn(es[i]) == Lifted.TextsOf(items) <==> Lifted.UserClean(TrimNewlines(result), items)
  {
    Lifted.UserWordsComeBack(result, items);
    AfterAround(es, start, i);
    SaidAround(es[start + 1..i], es[i], es[i + 1..], r);
  }

  /** No word of the user's is lost: a result of the span stays, or the words parsed
      from it are in Said, in their place; they are what was lifted into it, word for
      word, exactly when the lift is clean of user items but the user's own. */
  lemma UserWordsCarried(es: seq<Entry>, from: string, keep: seq<string>, sp: Span, i: nat,
      result: string, items: seq<MessageQueue.Item>)
    requires Plan(es, from, keep) == Ok(sp) && sp.start < i < |es| && es[i].kind == ToolResult
    requires es[i].content == MessageQueue.LiftText(result, items)
    ensures var rule := RuleOf(es, sp.start, keep);
            || es[i] in sp.kept
            || sp.said == Said(Pick(es[sp.start + 1..i], rule, Subsumed)) + WordsIn(es[i])
                        + Said(Pick(es[i + 1..], rule, Subsumed))
    ensures WordsIn(es[i]) == Lifted.TextsOf(items) <==> Lifted.UserClean(TrimNewlines(result), items)
  {
    SpanBounds(es, from, keep, sp);
    SpanFacts(es, from, keep, sp);
    var start := sp.start;
    SubsumedIn(es, from, keep, sp, es[i]);
    Lifted.UserWordsComeBack(result, items);
    if FateOf(es[i], RuleOf(es, start, keep)) != Kept {
      SubsumedWords(es, start, RuleOf(es, start, keep), i, result, items);
    }
  }

  // ---- What keep keeps ----

  lemma {:induction false} PhraseHits(es: seq<Entry>, start: int, term: string, n: nat, i: nat)
    requires n <= |es|
    ensures i in Hits(es, start, term, false, n) <==> i < n && Keepable(es, start, i) && Hit(es[i], term, false)
  {
    if n > 0 { PhraseHits(es, start, term, n - 1, i); }
  }

  /** A phrase, or an id, that is no tool's name keeps every call that has it. */
  lemma KeptByPhrase(es: seq<Entry>, start: int, term: string, i: nat)
    requires term != "" && !NamesATool(es, start, term)
    ensures i in HitsOf(es, start, term) <==>
            Keepable(es, start, i) && (es[i].toolCallId == term || Has(es[i].content, term))
  {
    PhraseHits(es, start, term, |es|, i);
  }

  lemma {:induction false} NameHits(es: seq<Entry>, start: int, term: string, n: nat, i: nat)
    requires i < n <= |es| && Keepable(es, start, i) && es[i].toolName == term
    requires forall k :: 0 <= k < |es| && Keepable(es, start, k) ==>
             es[k].toolCallId != term && !Has(es[k].content, term)
    requires forall k :: i < k < n && Keepable(es, start, k) ==> es[k].toolName != term
    ensures Hits(es, start, term, true, n) == [i]
  {
    if n - 1 > i { NameHits(es, start, term, n - 1, i); }
  }

  /** A bare tool name keeps that tool's most recent call alone. */
  lemma KeptByName(es: seq<Entry>, start: int, term: string, i: nat)
    requires term != "" && Keepable(es, start, i) && es[i].toolName == term
    requires forall k :: 0 <= k < |es| && Keepable(es, start, k) ==>
             es[k].toolCallId != term && !Has(es[k].content, term)
    requires forall k :: i < k < |es| && Keepable(es, start, k) ==> es[k].toolName != term
    ensures HitsOf(es, start, term) == [i]
  {
    assert NamesATool(es, start, term);
    NameHits(es, start, term, |es|, i);
  }

  // ---- The loops ----

  /** liveCallID. */
  method LiveCallID(es: seq<Entry>) returns (id: string)
    ensures id == LiveId(es)
  {
    var results: set<string> := {};
    for i := 0 to |es|
      invariant results == set k | 0 <= k < i && es[k].kind == ToolResult :: es[k].toolCallId
    {
      if es[i].kind == ToolResult {
        results := results + {es[i].toolCallId};
      }
    }
    assert results == AnsweredIds(es);
    var i := |es| - 1;
    while i >= 0
      invariant -1 <= i < |es|
      invariant LastUnanswered(es, i + 1) == LastUnanswered(es, |es|)
    {
      if es[i].kind == ToolCall && es[i].toolCallId !in results {
        return es[i].toolCallId;
      }
      i := i - 1;
    }
    id := "";
  }

  /** hasPendingCall. */
  method HasPendingCall(es: seq<Entry>, e: Entry) returns (pending: bool)
    ensures pending <==> PendingId(es) == Some(e.id)
  {
    var live := LiveCallID(es);
    if live == "" { return false; }
    var i := 0;
    while i < |es|
      invariant 0 <= i <= |es|
      invariant es != [] ==> FirstCall(es, live, if i < 1 then 1 else i) == FirstCall(es, live, 1)
    {
      if IsCall(es[i], live) && i > 0 {
        return es[i - 1].id == e.id;
      }
      i := i + 1;
    }
    pending := false;
  }

  /** planRecap's limit. */
  method FindLimit(es: seq<Entry>) returns (limit: nat)
    ensures limit == Limit(es)
  {
    limit := |es|;
    var live := LiveCallID(es);
    if live != "" {
      var i := 0;
      while i < |es|
        invariant 0 <= i <= |es| && FirstCall(es, live, i) == FirstCall(es, live, 0)
      {
        if IsCall(es[i], live) { return i; }
        i := i + 1;
      }
    }
  }

  /** turnStart, on the first n entries. */
  method FindTurnStart(es: seq<Entry>, n: nat) returns (i: int)
    requires n <= |es|
    ensures i == TurnStart(es, n)
  {
    i := n - 1;
    while i >= 0
      invariant -1 <= i < n && TurnStart(es, i + 1) == TurnStart(es, n)
    {
      if es[i].kind == UserEntry { return; }
      i := i - 1;
    }
  }

  /** planRecap's backward searches. */
  method FindQuoting(es: seq<Entry>, phrase: string, lo: int, n: nat) returns (i: int)
    requires -1 <= lo <= n <= |es|
    ensures i == LastQuoting(es, phrase, lo, n)
  {
    i := n - 1;
    while i > lo
      invariant lo - 1 <= i < n
      invariant i >= lo ==> LastQuoting(es, phrase, lo, i + 1) == LastQuoting(es, phrase, lo, n)
      invariant i < lo ==> n == lo
    {
      if Has(es[i].content, phrase) { return; }
      i := i - 1;
    }
    i := lo;
  }

  /** planRecap's choice of the anchor. */
  method FindAnchor(es: seq<Entry>, from: string) returns (r: Result<int>)
    ensures r == Anchor(es, from)
  {
    var limit := FindLimit(es);
    var turn := FindTurnStart(es, limit);
    var phrase := TrimSpace(from);
    if phrase == "" { return Ok(turn); }
    if turn >= 0 && Has(es[turn].content, phrase) { return Ok(turn); }
    var i := FindQuoting(es, phrase, turn, limit);
    if i > turn { return Ok(i); }
    if turn > 0 {
      var earlier := FindQuoting(es, phrase, -1, turn);
      if earlier >= 0 { return Err(BeforeTheTurn); }
    }
    r := Err(NoSuchEntry);
  }

  /** Whether a keep term is the name of a tool called after the anchor. */
  method ByName(es: seq<Entry>, start: int, live: string, term: string) returns (byName: bool)
    requires -1 <= start < |es| && live == LiveId(es)
    ensures byName <==> NamesATool(es, start, term)
  {
    byName := false;
    for i := start + 1 to |es|
      invariant byName <==> exists k :: start < k < i && Keepable(es, start, k) && es[k].toolName == term
    {
      if es[i].kind == ToolCall && es[i].toolName == term && es[i].toolCallId != live {
        assert Keepable(es, start, i);
        byName := true;
      }
    }
  }

  lemma HitsConcat(es: seq<Entry>, a: seq<nat>, b: seq<nat>)
    ensures IdsAt(es, a + b) == IdsAt(es, a) + IdsAt(es, b) && NamesAt(es, a + b) == NamesAt(es, a) + NamesAt(es, b)
  {}

  /** One keep term: the calls it keeps. */
  method KeepTerm(es: seq<Entry>, start: int, live: string, term: string) returns (hits: seq<nat>)
    requires -1 <= start < |es| && live == LiveId(es) && term != ""
    ensures hits == HitsOf(es, start, term)
  {
    var byName := ByName(es, start, live, term);
    hits := KeepCalls(es, start, live, term, byName);
  }

  /** What the search has still to find, going down from i. */
  function Left(es: seq<Entry>, start: int, term: string, byName: bool, i: int, last: bool): seq<nat>
    requires -1 <= i < |es|
  {
    if last then [] else Hits(es, start, term, byName, i + 1)
  }

  lemma NothingLeft(es: seq<Entry>, start: int, term: string, byName: bool, i: int, last: bool)
    requires -1 <= i < |es| && (last || i <= start)
    ensures Left(es, start, term, byName, i, last) == []
  {
    if !last { NoneBelow(es, start, term, byName, i + 1); }
  }

  method KeepCalls(es: seq<Entry>, start: int, live: string, term: string, byName: bool) returns (hits: seq<nat>)
    requires -1 <= start < |es| && live == LiveId(es)
    ensures hits == Hits(es, start, term, byName, |es|)
  {
    ghost var all := Hits(es, start, term, byName, |es|);
    hits := [];
    var i := |es| - 1;
    var last := false;
    while i > start && !last
      invariant start <= i < |es|
      invariant hits + Left(es, start, term, byName, i, last) == all
    {
      hits, last := KeepCall(es, start, live, term, byName, i, hits);
      i := i - 1;
    }
    NothingLeft(es, start, term, byName, i, last);
  }

  /** One entry looked at for a term; last says that it ends the search. */
  method KeepCall(es: seq<Entry>, start: int, live: string, term: string, byName: bool, i: int, before: seq<nat>)
      returns (hits: seq<nat>, last: bool)
    requires -1 <= start < i < |es| && live == LiveId(es)
    ensures before + Left(es, start, term, byName, i, false) == hits + Left(es, start, term, byName, i - 1, last)
  {
    HitsStep(es, start, term, byName, i, before);
    hits, last := before, false;
    if es[i].kind == ToolCall && es[i].toolCallId != live && Hit(es[i], term, byName) {
      hits := hits + [i];
      last := Stops(es[i], term, byName);
    }
  }

  lemma HitsStep(es: seq<Entry>, start: int, term: string, byName: bool, i: int, hits: seq<nat>)
    requires -1 <= start < i < |es|
    ensures Keepable(es, start, i) <==> es[i].kind == ToolCall && es[i].toolCallId != LiveId(es)
    ensures var found, rest := Keepable(es, start, i) && Hit(es[i], term, byName), Hits(es, start, term, byName, i + 1);
            && (!found ==> rest == Hits(es, start, term, byName, i))
            && (found && Stops(es[i], term, byName) ==> rest == [i])
            && (found && !Stops(es[i], term, byName) ==> hits + rest == (hits + [i]) + Hits(es, start, term, byName, i))
  {
    ConcatAssociates(hits, [i], Hits(es, start, term, byName, i));
  }

  lemma {:induction false} NoneBelow(es: seq<Entry>, start: int, term: string, byName: bool, n: nat)
    requires n <= |es| && n <= start + 1
    ensures Hits(es, start, term, byName, n) == []
  {
    if n > 0 { NoneBelow(es, start, term, byName, n - 1); }
  }

  /** planRecap's keep: the ids kept, the names for the confirmation, and the terms
      that named nothing. */
  method KeepTerms(es: seq<Entry>, start: int, live: string, keep: seq<string>)
      returns (keeping: set<string>, keptCalls: seq<string>, unmatched: seq<string>)
    requires -1 <= start < |es| && live == LiveId(es)
    ensures keeping == IdsAt(es, AllHits(es, start, keep))
    ensures keptCalls == NamesAt(es, AllHits(es, start, keep))
    ensures unmatched == Unmatched(es, start, keep)
  {
    keeping, keptCalls, unmatched := {}, [], [];
    for k := 0 to |keep|
      invariant keeping == IdsAt(es, AllHits(es, start, keep[..k]))
      invariant keptCalls == NamesAt(es, AllHits(es, start, keep[..k]))
      invariant unmatched == Unmatched(es, start, keep[..k])
    {
      assert keep[..k + 1][..k] == keep[..k];
      if keep[k] != "" {
        var hits := KeepTerm(es, start, live, keep[k]);
        HitsConcat(es, AllHits(es, start, keep[..k]), hits);
        keeping, keptCalls := keeping + IdsAt(es, hits), keptCalls + NamesAt(es, hits);
        if hits == [] {
          unmatched := unmatched + [keep[k]];
        }
      }
    }
    assert keep[..|keep|] == keep;
  }

  /** The partition of what follows the anchor. */
  method Partition(es: seq<Entry>, span: seq<Entry>, keeping: set<string>, live: string, order: seq<nat>)
      returns (kept: seq<Entry>, subsumes: seq<Entry>, chars: nat, said: seq<string>)
    requires live == LiveId(es) && forall k :: k in order <==> k < |Lifted.PREFIXES|
    ensures kept == Pick(span, Rule(live, keeping, PendingId(es)), Kept)
    ensures subsumes == Pick(span, Rule(live, keeping, PendingId(es)), Subsumed)
    ensures chars == Chars(subsumes) && said == Said(subsumes)
  {
    ghost var rule := Rule(live, keeping, PendingId(es));
    kept, subsumes, chars, said := [], [], 0, [];
    for i := 0 to |span|
      invariant kept == Pick(span[..i], rule, Kept)
      invariant subsumes == Pick(span[..i], rule, Subsumed)
      invariant chars == Chars(subsumes) && said == Said(subsumes)
    {
      var e := span[i];
      assert span[..i + 1][..i] == span[..i];
      var stays := e.toolCallId != "" && (e.toolCallId in keeping || e.toolCallId == live);
      if e.kind == AssistantEntry && !stays {
        stays := HasPendingCall(es, e);
      }
      if e.kind != Citation {
        if stays {
          kept := kept + [e];
        } else {
          var words := Words(e, order);
          SubsumeOne(subsumes, e);
          subsumes := subsumes + [e];
          chars, said := chars + |e.content|, said + words;
        }
      }
    }
    assert span[..|span|] == span;
  }

  lemma SubsumeOne(es: seq<Entry>, e: Entry)
    ensures Chars(es + [e]) == Chars(es) + |e.content| && Said(es + [e]) == Said(es) + WordsIn(e)
  {
    assert (es + [e])[..|es|] == es;
  }

  method Words(e: Entry, order: seq<nat>) returns (words: seq<string>)
    requires forall k :: k in order <==> k < |Lifted.PREFIXES|
    ensures words == WordsIn(e)
  {
    words := [];
    if e.kind == ToolResult {
      words := Lifted.LiftedUserWords(e.content, order);
    }
  }

  /** planRecap. */
  method PlanRecap(es: seq<Entry>, from: string, keep: seq<string>, order: seq<nat>) returns (r: Result<Span>)
    requires forall k :: k in order <==> k < |Lifted.PREFIXES|
    ensures r == Plan(es, from, keep)
  {
    var anchor := FindAnchor(es, from);
    if anchor.Err? { return Err(anchor.error); }
    var start := anchor.value;
    AnchorBounds(es, from);
    var live := LiveCallID(es);
    var keeping, keptCalls, unmatched := KeepTerms(es, start, live, keep);
    var kept, subsumes, chars, said := Partition(es, es[start + 1..], keeping, live, order);
    if |subsumes| == 0 { return Err(NothingToRecap); }
    r := Ok(Span(start, kept, subsumes, chars, said, unmatched, keptCalls));
  }
}
