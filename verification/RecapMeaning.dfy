/** What planRecap decides, in terms of the history and the words of the request. */
module RecapMeaning {
  import Lifted
  import opened Recap
  import opened Seqs
  import opened Strings
  import opened Wrappers

  // ---- The call that is running ----

  ghost predicate Answered(es: seq<Entry>, id: string) {
    exists j :: 0 <= j < |es| && es[j].kind == ToolResult && es[j].toolCallId == id
  }

  /** The last call that has no result. */
  ghost predicate LiveAt(es: seq<Entry>, i: nat) {
    && i < |es| && es[i].kind == ToolCall && !Answered(es, es[i].toolCallId)
    && forall k :: i < k < |es| && es[k].kind == ToolCall ==> Answered(es, es[k].toolCallId)
  }

  lemma AnsweredIs(es: seq<Entry>, id: string)
    ensures id in AnsweredIds(es) <==> Answered(es, id)
  {}

  /** The live call is the last one without a result; without one there is none. */
  lemma LiveIs(es: seq<Entry>)
    ensures forall i: nat :: LiveAt(es, i) ==> LiveId(es) == es[i].toolCallId
    ensures (forall i: nat :: !LiveAt(es, i)) ==> LiveId(es) == ""
  {
    var last := LastUnanswered(es, |es|);
    forall id ensures id in AnsweredIds(es) <==> Answered(es, id) { AnsweredIs(es, id); }
    if last >= 0 { assert LiveAt(es, last); }
  }

  // ---- The anchor ----

  ghost predicate Quotes(es: seq<Entry>, i: int, phrase: string) {
    0 <= i < |es| && Contains(es[i].content, phrase)
  }

  lemma HasIs(s: string, sub: string)
    ensures Has(s, sub) <==> Contains(s, sub)
  {
    var i := Index(s, sub, 0);
    if i >= 0 { assert At(s, i, sub); }
  }

  /** Where the turn begins: the latest user entry below n, or -1. */
  ghost predicate TurnAt(es: seq<Entry>, n: nat, t: int) {
    && n <= |es| && -1 <= t < n && (t >= 0 ==> es[t].kind == UserEntry)
    && forall k :: t < k < n ==> es[k].kind != UserEntry
  }

  /** The entry that the search ends before: the live call, if it has an id. */
  ghost predicate LimitAt(es: seq<Entry>, n: nat) {
    && n <= |es| && (n < |es| ==> LiveId(es) != "" && IsCall(es[n], LiveId(es)))
    && (LiveId(es) != "" ==> forall k :: 0 <= k < n ==> !IsCall(es[k], LiveId(es)))
  }

  lemma LimitIs(es: seq<Entry>, n: nat)
    requires LimitAt(es, n)
    ensures Limit(es) == n
  {}

  lemma TurnIs(es: seq<Entry>, n: nat, t: int)
    requires TurnAt(es, n, t)
    ensures TurnStart(es, n) == t
  {}

  lemma LatestIs(es: seq<Entry>, phrase: string, lo: int, n: nat)
    requires -1 <= lo <= n <= |es|
    ensures var i := LastQuoting(es, phrase, lo, n);
            && lo <= i && (i > lo ==> i < n && Quotes(es, i, phrase))
            && forall k :: i < k < n ==> !Quotes(es, k, phrase)
  {
    var i := LastQuoting(es, phrase, lo, n);
    if i > lo { HasIs(es[i].content, phrase); }
    forall k | i < k < n ensures !Quotes(es, k, phrase) { HasIs(es[k].content, phrase); }
  }

  /** What the search from the turn's beginning to the limit comes to. */
  ghost predicate AnchorFor(es: seq<Entry>, phrase: string, n: nat, t: int, r: Result<int>) {
    match r
    case Ok(a) =>
      if phrase == "" || Quotes(es, t, phrase) then a == t
      else t < a < n && Quotes(es, a, phrase) && forall k :: a < k < n ==> !Quotes(es, k, phrase)
    case Err(e) =>
      && phrase != "" && (forall k :: t <= k < n ==> !Quotes(es, k, phrase))
      && (e == BeforeTheTurn <==> t > 0 && exists k :: 0 <= k < t && Quotes(es, k, phrase))
      && (e == BeforeTheTurn || e == NoSuchEntry)
  }

  /** Anchor's branches, for the two searches' results. */
  lemma AnchorBranches(es: seq<Entry>, from: string, n: nat, t: int, i: int, j: int)
    requires Limit(es) == n && TurnStart(es, n) == t && LastQuoting(es, TrimSpace(from), t, n) == i
    requires t > 0 ==> LastQuoting(es, TrimSpace(from), -1, t) == j
    ensures Anchor(es, from) ==
            if TrimSpace(from) == "" || (t >= 0 && Has(es[t].content, TrimSpace(from))) then Ok(t)
            else if i > t then Ok(i)
            else if t > 0 && j >= 0 then Err(BeforeTheTurn)
            else Err(NoSuchEntry)
  {}

  lemma BranchesDecide(es: seq<Entry>, phrase: string, n: nat, t: int, i: int, j: int)
    requires -1 <= t < n <= |es| && t <= i && (i > t ==> i < n && Quotes(es, i, phrase))
    requires forall k :: i < k < n ==> !Quotes(es, k, phrase)
    requires t > 0 ==> -1 <= j && (j > -1 ==> j < t && Quotes(es, j, phrase))
    requires t > 0 ==> forall k :: j < k < t ==> !Quotes(es, k, phrase)
    ensures AnchorFor(es, phrase, n, t,
              if phrase == "" || Quotes(es, t, phrase) then Ok(t)
              else if i > t then Ok(i)
              else if t > 0 && j >= 0 then Err(BeforeTheTurn)
              else Err(NoSuchEntry))
  {}

  /** The anchor is where the turn begins when nothing is quoted or that is; else it is
      the latest entry since that quotes the phrase. When there is none, an earlier one
      is named, if the turn has a beginning. */
  lemma AnchorIs(es: seq<Entry>, from: string, n: nat, t: int)
    requires LimitAt(es, n) && TurnAt(es, n, t)
    ensures AnchorFor(es, TrimSpace(from), n, t, Anchor(es, from)) && Limit(es) == n
  {
    var phrase := TrimSpace(from);
    LimitIs(es, n);
    TurnIs(es, n, t);
    var i, j := LastQuoting(es, phrase, t, n), if t > 0 then LastQuoting(es, phrase, -1, t) else -1;
    LatestIs(es, phrase, t, n);
    if t > 0 { LatestIs(es, phrase, -1, t); }
    if t >= 0 { HasIs(es[t].content, phrase); }
    AnchorBranches(es, from, n, t, i, j);
    BranchesDecide(es, phrase, n, t, i, j);
  }

  // ---- What keep names ----

  /** A call of the span, other than the live one. */
  ghost predicate CanKeep(es: seq<Entry>, start: int, i: int) {
    0 <= i < |es| && start < i && es[i].kind == ToolCall && es[i].toolCallId != LiveId(es)
  }

  /** A term keeps a call by its id, by a phrase of its arguments, or by its tool's name;
      a call of that tool without the phrase is the last that is looked at. */
  ghost predicate KeptFor(es: seq<Entry>, start: int, term: string, i: int) {
    && term != "" && CanKeep(es, start, i)
    && (es[i].toolCallId == term || Quotes(es, i, term) || es[i].toolName == term)
    && forall k :: i < k && CanKeep(es, start, k) && es[k].toolName == term ==> Quotes(es, k, term)
  }

  lemma {:induction false} HitsAreKept(es: seq<Entry>, start: int, term: string, n: nat, i: nat)
    requires n <= |es| && term != ""
    ensures i in Hits(es, start, term, NamesATool(es, start, term), n) <==>
            && i < n && CanKeep(es, start, i)
            && (es[i].toolCallId == term || Quotes(es, i, term) || es[i].toolName == term)
            && forall k :: i < k < n && CanKeep(es, start, k) && es[k].toolName == term ==> Quotes(es, k, term)
  {
    if n > 0 {
      HitsAreKept(es, start, term, n - 1, i);
      HasIs(es[n - 1].content, term);
      assert CanKeep(es, start, n - 1) == Keepable(es, start, n - 1);
    }
  }

  lemma HitsOfAre(es: seq<Entry>, start: int, term: string, i: nat)
    ensures i in HitsOf(es, start, term) <==> KeptFor(es, start, term, i)
  {
    if term != "" { HitsAreKept(es, start, term, |es|, i); }
  }

  lemma {:induction false} AllHitsAreKept(es: seq<Entry>, start: int, keep: seq<string>, i: nat)
    ensures i in AllHits(es, start, keep) <==> exists t :: t in keep && KeptFor(es, start, t, i)
  {
    if keep != [] {
      var init, t := keep[..|keep| - 1], keep[|keep| - 1];
      AllHitsAreKept(es, start, init, i);
      HitsOfAre(es, start, t, i);
      assert keep == init + [t];
    }
  }

  lemma {:induction false} UnmatchedAre(es: seq<Entry>, start: int, keep: seq<string>)
    ensures Unmatched(es, start, keep) ==
            Filter(keep, (t: string) => t != "" && forall i :: 0 <= i < |es| ==> !KeptFor(es, start, t, i))
  {
    if keep != [] {
      var t := keep[|keep| - 1];
      UnmatchedAre(es, start, keep[..|keep| - 1]);
      forall i: nat ensures i in HitsOf(es, start, t) <==> KeptFor(es, start, t, i) { HitsOfAre(es, start, t, i); }
      if HitsOf(es, start, t) != [] { assert HitsOf(es, start, t)[0] in HitsOf(es, start, t); }
    }
  }

  // ---- What stays ----

  /** The id is that of a call that keep names. */
  ghost predicate Named(es: seq<Entry>, start: int, keep: seq<string>, id: string) {
    exists t, i :: t in keep && KeptFor(es, start, t, i) && es[i].toolCallId == id
  }

  /** The id is that of the entry right before the live call. */
  ghost predicate BeforeLive(es: seq<Entry>, id: string) {
    LiveId(es) != "" && exists i :: FirstLive(es, i) && es[i - 1].id == id
  }

  ghost predicate FirstLive(es: seq<Entry>, i: int) {
    1 <= i < |es| && IsCall(es[i], LiveId(es)) && forall k :: 1 <= k < i ==> !IsCall(es[k], LiveId(es))
  }

  /** The live call, a call that keep names, their results, and the assistant's entry
      before the live call. */
  ghost predicate MustStay(es: seq<Entry>, start: int, keep: seq<string>, e: Entry) {
    || (e.toolCallId != "" && (e.toolCallId == LiveId(es) || Named(es, start, keep, e.toolCallId)))
    || (e.kind == AssistantEntry && BeforeLive(es, e.id))
  }

  lemma NamedIs(es: seq<Entry>, start: int, keep: seq<string>, id: string)
    ensures id in IdsAt(es, AllHits(es, start, keep)) <==> Named(es, start, keep, id)
  {
    forall i: nat
      ensures i in AllHits(es, start, keep) <==> exists t :: t in keep && KeptFor(es, start, t, i)
    {
      AllHitsAreKept(es, start, keep, i);
    }
  }

  lemma PendingIs(es: seq<Entry>, id: string)
    ensures PendingId(es) == Some(id) <==> BeforeLive(es, id)
  {
    if LiveId(es) != "" && es != [] {
      var n := FirstCall(es, LiveId(es), 1);
      if n < |es| { assert FirstLive(es, n); }
    }
  }

  lemma FateIs(es: seq<Entry>, start: int, keep: seq<string>, e: Entry)
    ensures FateOf(e, RuleOf(es, start, keep)) ==
            if e.kind == Citation then Cited else if MustStay(es, start, keep, e) then Kept else Subsumed
  {
    NamedIs(es, start, keep, e.toolCallId);
    PendingIs(es, e.id);
  }

  lemma {:induction false} PickIsFilter(es: seq<Entry>, r: Rule, f: Fate)
    ensures Pick(es, r, f) == Filter(es, (e: Entry) => FateOf(e, r) == f)
  {
    if es != [] { PickIsFilter(es[..|es| - 1], r, f); }
  }

  // ---- The plan ----

  ghost function AllText(es: seq<Entry>): string {
    if es == [] then "" else AllText(es[..|es| - 1]) + es[|es| - 1].content
  }

  lemma {:induction false} CharsAre(es: seq<Entry>)
    ensures Chars(es) == |AllText(es)|
  {
    if es != [] { CharsAre(es[..|es| - 1]); }
  }

  /** The words the user had lifted into results, parsed back, in order. */
  ghost function WordsOf(results: seq<Entry>): seq<string> {
    if results == [] then []
    else WordsOf(results[..|results| - 1]) + Lifted.UserWords(Lifted.Parse(results[|results| - 1].content))
  }

  lemma {:induction false} SaidAre(es: seq<Entry>)
    ensures Said(es) == WordsOf(Filter(es, (e: Entry) => e.kind == ToolResult))
  {
    if es != [] {
      var init, e := es[..|es| - 1], es[|es| - 1];
      SaidAre(init);
      var results := Filter(init, (e: Entry) => e.kind == ToolResult);
      assert (results + [e])[..|results|] == results && results + [] == results;
    }
  }

  /** The entries after the anchor that stay, and those that go; citations do neither. */
  ghost function Staying(es: seq<Entry>, start: int, keep: seq<string>): seq<Entry>
    requires -1 <= start < |es|
  {
    Filter(es[start + 1..], (e: Entry) => e.kind != Citation && MustStay(es, start, keep, e))
  }

  ghost function Going(es: seq<Entry>, start: int, keep: seq<string>): seq<Entry>
    requires -1 <= start < |es|
  {
    Filter(es[start + 1..], (e: Entry) => e.kind != Citation && !MustStay(es, start, keep, e))
  }

  lemma SpanIs(es: seq<Entry>, start: int, keep: seq<string>)
    requires -1 <= start < |es|
    ensures var sp := SpanAt(es, start, keep);
            && sp.kept == Staying(es, start, keep) && sp.subsumes == Going(es, start, keep)
            && sp.chars == |AllText(sp.subsumes)|
            && sp.said == WordsOf(Filter(sp.subsumes, (e: Entry) => e.kind == ToolResult))
  {
    var r, rest := RuleOf(es, start, keep), After(es, start);
    forall e ensures FateOf(e, r) == if e.kind == Citation then Cited
                                     else if MustStay(es, start, keep, e) then Kept else Subsumed
    {
      FateIs(es, start, keep, e);
    }
    PickIsFilter(rest, r, Kept);
    PickIsFilter(rest, r, Subsumed);
    FilterSame(rest, (e: Entry) => FateOf(e, r) == Kept,
               (e: Entry) => e.kind != Citation && MustStay(es, start, keep, e));
    FilterSame(rest, (e: Entry) => FateOf(e, r) == Subsumed,
               (e: Entry) => e.kind != Citation && !MustStay(es, start, keep, e));
    CharsAre(Pick(rest, r, Subsumed));
    SaidAre(Pick(rest, r, Subsumed));
  }

  lemma KeptCallsAre(es: seq<Entry>, start: int, keep: seq<string>, name: string)
    ensures name in SpanAt(es, start, keep).keptCalls <==>
            exists t, i :: t in keep && KeptFor(es, start, t, i) && es[i].toolName == name
  {
    var hits, names := AllHits(es, start, keep), SpanAt(es, start, keep).keptCalls;
    forall i: nat ensures i in hits <==> exists t :: t in keep && KeptFor(es, start, t, i) {
      AllHitsAreKept(es, start, keep, i);
    }
    if t, i :| t in keep && KeptFor(es, start, t, i) && es[i].toolName == name {
      assert i in hits;
      var k :| 0 <= k < |hits| && hits[k] == i;
      assert names[k] == name;
    }
    if name in names {
      var k :| 0 <= k < |names| && names[k] == name;
      assert hits[k] in hits;
    }
  }

  /** planRecap: refused when the anchor is, or when nothing after it would go; else the
      plan is of what stays and what goes after the anchor, what the user had said in
      results that go, and what terms named nothing. */
  lemma PlanDecides(es: seq<Entry>, from: string, keep: seq<string>)
    ensures Anchor(es, from).Err? ==> Plan(es, from, keep) == Err(Anchor(es, from).error)
    ensures Anchor(es, from).Ok? ==>
            var start := Anchor(es, from).value;
            -1 <= start < |es| &&
            match Plan(es, from, keep)
            case Err(e) => e == NothingToRecap && Going(es, start, keep) == []
            case Ok(sp) =>
              && sp.start == start
              && sp.kept == Staying(es, start, keep) && sp.subsumes == Going(es, start, keep) != []
              && sp.chars == |AllText(sp.subsumes)|
              && sp.said == WordsOf(Filter(sp.subsumes, (e: Entry) => e.kind == ToolResult))
              && sp.unmatched == Filter(keep, (t: string) =>
                   t != "" && forall i :: 0 <= i < |es| ==> !KeptFor(es, start, t, i))
  {
    if Anchor(es, from).Ok? {
      AnchorBounds(es, from);
      var start := Anchor(es, from).value;
      SpanIs(es, start, keep);
      UnmatchedAre(es, start, keep);
    }
  }
}
