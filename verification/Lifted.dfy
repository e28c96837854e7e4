/** Reading a lifted tool result back: recap.go's liftedItems and
    liftedUserWords, against queue.go's liftQueued.

    A result holds an item wherever one of the prefixes stands at its very start
    or after a blank line. The text liftQueued writes is parsed back into the
    items it wrote exactly when neither the result it started from nor any
    item's text holds such a place of its own. */
module Lifted {
  import opened Strings
  import opened MessageQueue

  const PREFIXES: seq<string> := ["[background] ", "[user] ", "[session] ", "[peer] ", "[dun] "]

  predicate Prefixed(s: string, a: nat) {
    exists k :: 0 <= k < |PREFIXES| && At(s, a, PREFIXES[k])
  }

  /** An item starts at a. */
  predicate StartsAt(s: string, a: nat) {
    Prefixed(s, a) && (a == 0 || (a >= 2 && At(s, a - 2, "\n\n")))
  }

  /** The same, away from the very start of the text. */
  predicate BreaksAt(s: string, a: nat) {
    a >= 2 && At(s, a - 2, "\n\n") && Prefixed(s, a)
  }

  /** A text without an item break in it. */
  ghost predicate Unbroken(s: string) {
    forall a :: !BreaksAt(s, a)
  }

  /** A text in which no item starts. */
  ghost predicate Plain(s: string) {
    forall a :: !StartsAt(s, a)
  }

  lemma PrefixShape(k: nat)
    requires k < |PREFIXES|
    ensures 5 < |PREFIXES[k]| && PREFIXES[k][0] == '[' && '\n' !in PREFIXES[k]
  {
    assert PREFIXES[0] == "[background] " && PREFIXES[1] == "[user] " && PREFIXES[2] == "[session] ";
    assert PREFIXES[3] == "[peer] " && PREFIXES[4] == "[dun] ";
  }

  lemma PrefixOfKind(k: Kind) returns (i: nat)
    ensures i < |PREFIXES| && PolicyOf(k).prefix == PREFIXES[i]
  {
    match k
    case Notification => i := 0;
    case User => i := 1;
    case Aside => i := 2;
    case Peer => i := 3;
    case PeerQuiet => i := 3;
    case Service => i := 4;
    case Unlisted(_) => i := 0;
  }

  // ---- Where the items of b + sep + label + text start ----

  /** What stands in the front of a text stands there in the whole. */
  lemma AtFront(x: string, y: string, a: nat, r: string)
    requires a + |r| <= |x|
    ensures At(x + y, a, r) <==> At(x, a, r)
  {
    assert (x + y)[a..a + |r|] == x[a..a + |r|];
  }

  lemma AtBack(x: string, y: string, a: nat, r: string)
    ensures At(x + y, |x| + a, r) <==> At(y, a, r)
  {
    if a + |r| <= |y| {
      assert (x + y)[|x| + a..|x| + a + |r|] == y[a..a + |r|];
    }
  }

  /** A prefix that stands before a newline ends before it. */
  lemma PrefixStops(s: string, a: nat, k: nat, n: nat)
    requires k < |PREFIXES| && At(s, a, PREFIXES[k]) && a <= n < |s| && s[n] == '\n'
    ensures a + |PREFIXES[k]| <= n
  {
    PrefixShape(k);
    if n < a + |PREFIXES[k]| {
      AtChar(s, a, PREFIXES[k], n - a);
    }
  }

  /** What liftQueued puts before an item. */
  function Sep(b: string): string {
    if b != "" then "\n\n" else ""
  }

  lemma NewlinePair(s: string, a: nat)
    ensures At(s, a, "\n\n") <==> a + 2 <= |s| && s[a] == '\n' && s[a + 1] == '\n'
  {
    if a + 2 <= |s| { assert s[a..a + 2] == [s[a], s[a + 1]]; }
  }

  /** Inside b, the places are b's own. */
  lemma StartsInBase(b: string, rest: string, a: nat)
    requires a < |b| && rest != "" && rest[0] == '\n'
    ensures StartsAt(b + rest, a) <==> StartsAt(b, a)
  {
    var t := b + rest;
    if Prefixed(t, a) {
      var k :| 0 <= k < |PREFIXES| && At(t, a, PREFIXES[k]);
      PrefixStops(t, a, k, |b|);
      AtFront(b, rest, a, PREFIXES[k]);
    }
    if Prefixed(b, a) {
      var k :| 0 <= k < |PREFIXES| && At(b, a, PREFIXES[k]);
      AtFront(b, rest, a, PREFIXES[k]);
    }
    if a >= 2 { AtFront(b, rest, a - 2, "\n\n"); }
  }

  /** Inside the item's text, the places are the text's breaks. */
  lemma StartsInText(front: string, text: string, a: nat)
    requires front != "" && front[|front| - 1] != '\n' && a >= |front|
    ensures StartsAt(front + text, a) <==> BreaksAt(text, a - |front|)
  {
    var t := front + text;
    var i := a - |front|;
    forall k | 0 <= k < |PREFIXES| ensures At(t, a, PREFIXES[k]) <==> At(text, i, PREFIXES[k]) {
      AtBack(front, text, i, PREFIXES[k]);
    }
    if a >= 2 { NewlinePair(t, a - 2); }
    if i >= 2 { AtBack(front, text, i - 2, "\n\n"); }
  }

  lemma StartsHere(t: string, n: nat, k: nat)
    requires k < |PREFIXES| && At(t, n, PREFIXES[k]) && (n == 0 || (n >= 2 && t[n - 2] == t[n - 1] == '\n'))
    ensures StartsAt(t, n)
  {
    if n >= 2 { NewlinePair(t, n - 2); }
  }

  /** None starts inside a prefix. */
  lemma NoneInPrefix(t: string, n: nat, k: nat, a: nat)
    requires k < |PREFIXES| && At(t, n, PREFIXES[k]) && n < a < n + |PREFIXES[k]|
    ensures !StartsAt(t, a)
  {
    PrefixShape(k);
    AtChar(t, n, PREFIXES[k], a - 1 - n);
    if a >= 2 { NewlinePair(t, a - 2); }
  }

  /** Where an item is added, it starts, and nowhere else in the separator or its
      prefix does one. */
  lemma StartsInHead(b: string, head: nat, text: string, a: nat)
    requires head < |PREFIXES| && |b| <= a < |b| + |Sep(b)| + |PREFIXES[head]|
    ensures StartsAt(b + Sep(b) + PREFIXES[head] + text, a) <==> a == |b| + |Sep(b)|
  {
    var p, n := PREFIXES[head], |b| + |Sep(b)|;
    var t := b + Sep(b) + p + text;
    assert t[n..n + |p|] == p;
    if a == n {
      StartsHere(t, n, head);
    } else if a < n {
      NoPrefixAtNewline(t, a);
    } else {
      NoneInPrefix(t, n, head, a);
    }
  }

  function Added(b: string, head: nat, text: string): string
    requires head < |PREFIXES|
  {
    b + Sep(b) + PREFIXES[head] + text
  }

  /** The start of what Added adds, and of its text. */
  function HeadAt(b: string): nat { |b| + |Sep(b)| }
  function TextAt(b: string, head: nat): nat requires head < |PREFIXES| { HeadAt(b) + |PREFIXES[head]| }

  /** Adding an item adds its own start and its text's breaks, nothing else. */
  lemma StartsAdded(b: string, head: nat, text: string, a: nat)
    requires head < |PREFIXES|
    ensures StartsAt(Added(b, head, text), a) <==>
            || (a < |b| && StartsAt(b, a))
            || a == HeadAt(b)
            || (a >= TextAt(b, head) && BreaksAt(text, a - TextAt(b, head)))
  {
    var p := PREFIXES[head];
    var t := Added(b, head, text);
    PrefixShape(head);
    if a < |b| {
      assert t == b + (Sep(b) + p + text);
      StartsInBase(b, Sep(b) + p + text, a);
    } else if a < TextAt(b, head) {
      StartsInHead(b, head, text, a);
    } else {
      StartsInText(b + Sep(b) + p, text, a);
    }
  }

  // ---- Where the items of a lift start ----

  /** The places liftQueued writes its items at, after b. */
  function Heads(b: string, items: seq<Item>): seq<nat>
    decreases |items|
  {
    if items == [] then [] else [HeadAt(b)] + Heads(b + Sep(b) + Labelled(items[0]), items[1..])
  }

  lemma AddedIs(b: string, item: Item) returns (head: nat)
    ensures head < |PREFIXES| && b + Sep(b) + Labelled(item) == Added(b, head, item.text)
    ensures PREFIXES[head] == PolicyOf(item.kind).prefix
    ensures |b| < |Added(b, head, item.text)|
  {
    head := PrefixOfKind(item.kind);
    PrefixShape(head);
    ConcatAssociates(b + Sep(b), PolicyOf(item.kind).prefix, item.text);
    assert |Added(b, head, item.text)| == |b| + |Sep(b)| + |PREFIXES[head]| + |item.text|;
  }

  lemma {:induction false} HeadsBeyond(b: string, items: seq<Item>)
    ensures |Heads(b, items)| == |items|
    ensures forall h :: h in Heads(b, items) ==> h >= |b|
    ensures Increasing(Heads(b, items))
    decreases |items|
  {
    if items != [] {
      var head := AddedIs(b, items[0]);
      var b' := b + Sep(b) + Labelled(items[0]);
      HeadsBeyond(b', items[1..]);
      assert Heads(b, items)[1..] == Heads(b', items[1..]);
    }
  }

  /** With unbroken texts, the places are b's own and the heads. */
  lemma {:induction false} StartsWritten(b: string, items: seq<Item>, a: nat)
    requires forall i :: 0 <= i < |items| ==> Unbroken(items[i].text)
    ensures StartsAt(WriteItems(b, items), a) <==> (StartsAt(b, a) && a < |b|) || a in Heads(b, items)
    decreases |items|
  {
    if items == [] {
      StartInside(b, a);
    } else {
      var head := AddedIs(b, items[0]);
      var b' := b + Sep(b) + Labelled(items[0]);
      StartsAdded(b, head, items[0].text, a);
      StartsWritten(b', items[1..], a);
      StartInside(b', a);
    }
  }

  lemma StartInside(s: string, a: nat)
    ensures StartsAt(s, a) ==> a < |s|
  {
    if StartsAt(s, a) {
      var k :| 0 <= k < |PREFIXES| && At(s, a, PREFIXES[k]);
      PrefixShape(k);
    }
  }

  /** Whatever the texts, the places of b and the heads are places. */
  lemma {:induction false} StartsKept(b: string, items: seq<Item>, a: nat)
    requires (StartsAt(b, a) && a < |b|) || a in Heads(b, items)
    ensures StartsAt(WriteItems(b, items), a)
    decreases |items|
  {
    if items != [] {
      var head := AddedIs(b, items[0]);
      var b' := b + Sep(b) + Labelled(items[0]);
      StartsAdded(b, head, items[0].text, a);
      if StartsAt(b', a) { StartInside(b', a); }
      StartsKept(b', items[1..], a);
    }
  }

  lemma ExtraHere(b: string, item: Item) returns (a: nat)
    requires !Unbroken(item.text)
    ensures var b' := b + Sep(b) + Labelled(item); StartsAt(b', a) && HeadAt(b) < a < |b'|
  {
    var head := AddedIs(b, item);
    var k :| BreaksAt(item.text, k);
    a := TextAt(b, head) + k;
    StartsAdded(b, head, item.text, a);
    StartInside(Added(b, head, item.text), a);
  }

  /** A broken text makes a place that is none of the heads. */
  lemma {:induction false} ExtraStart(b: string, items: seq<Item>, i: nat) returns (a: nat)
    requires i < |items| && !Unbroken(items[i].text)
    ensures StartsAt(WriteItems(b, items), a) && a > HeadAt(b) && a !in Heads(b, items)
    decreases |items|
  {
    var b' := b + Sep(b) + Labelled(items[0]);
    HeadsBeyond(b', items[1..]);
    if i > 0 {
      a := ExtraStart(b', items[1..], i - 1);
    } else {
      a := ExtraHere(b, items[0]);
      StartsKept(b', items[1..], a);
    }
  }

  // ---- Sorted positions ----

  ghost predicate Increasing(xs: seq<nat>) {
    forall i, j :: 0 <= i < j < |xs| ==> xs[i] < xs[j]
  }

  /** An increasing list inside another of the same length is all of it. */
  lemma {:induction false} IncreasingInside(a: seq<nat>, b: seq<nat>)
    requires Increasing(a) && Increasing(b) && (forall x :: x in a ==> x in b)
    ensures |a| <= |b|
    ensures |a| == |b| ==> a == b
  {
    if a != [] {
      assert a[0] in b;
      var j :| 0 <= j < |b| && b[j] == a[0];
      forall x | x in a[1..] ensures x in b[j + 1..] {
        assert x in a && x > a[0];
        var i :| 0 <= i < |b| && b[i] == x;
        assert b[j + 1..][i - j - 1] == x;
      }
      IncreasingInside(a[1..], b[j + 1..]);
      if |a| == |b| { assert b == [b[0]] + b[1..] && a == [a[0]] + a[1..]; }
    }
  }

  lemma IncreasingUnique(a: seq<nat>, b: seq<nat>)
    requires Increasing(a) && Increasing(b) && forall x :: x in a <==> x in b
    ensures a == b
  {
    IncreasingInside(a, b);
    IncreasingInside(b, a);
  }

  // ---- Parsing ----

  /** Every place an item starts, from a on. */
  function StartsFrom(s: string, a: nat): (r: seq<nat>)
    requires a <= |s|
    decreases |s| - a
  {
    if a == |s| then [] else (if StartsAt(s, a) then [a] else []) + StartsFrom(s, a + 1)
  }

  function Slice(s: string, a: nat, b: nat): string {
    if a <= b <= |s| then s[a..b] else ""
  }

  /** An item runs to the blank line before the next, or to the end. */
  function EndBefore(s: string, later: seq<nat>): nat {
    if later != [] && later[0] >= 2 then later[0] - 2 else |s|
  }

  function ItemsAt(s: string, starts: seq<nat>): (r: seq<string>)
    ensures |r| == |starts|
  {
    if starts == [] then [] else [Slice(s, starts[0], EndBefore(s, starts[1..]))] + ItemsAt(s, starts[1..])
  }

  function Parse(s: string): seq<string> {
    ItemsAt(s, StartsFrom(s, 0))
  }

  function LabelledAll(items: seq<Item>): (r: seq<string>)
    ensures |r| == |items|
  {
    if items == [] then [] else [Labelled(items[0])] + LabelledAll(items[1..])
  }

  lemma IncreasingMore(a: nat, rest: seq<nat>)
    requires Increasing(rest) && forall x :: x in rest ==> a < x
    ensures Increasing([a] + rest)
  {
    assert forall i :: 0 <= i < |rest| ==> rest[i] in rest;
  }

  lemma {:induction false} StartsFromAre(s: string, a: nat)
    requires a <= |s|
    ensures forall x :: x in StartsFrom(s, a) <==> a <= x < |s| && StartsAt(s, x)
    ensures Increasing(StartsFrom(s, a))
    decreases |s| - a
  {
    if a < |s| {
      StartsFromAre(s, a + 1);
      IncreasingMore(a, StartsFrom(s, a + 1));
      assert [] + StartsFrom(s, a + 1) == StartsFrom(s, a + 1);
    }
  }

  lemma {:induction false} WriteExtends(b: string, items: seq<Item>)
    ensures b <= WriteItems(b, items)
    decreases |items|
  {
    if items != [] {
      var b' := b + Sep(b) + Labelled(items[0]);
      WriteExtends(b', items[1..]);
      assert b <= b + Sep(b) <= b';
    }
  }

  /** Cut at the heads, the text falls into the items. */
  lemma {:induction false} ItemsWritten(b: string, items: seq<Item>)
    ensures ItemsAt(WriteItems(b, items), Heads(b, items)) == LabelledAll(items)
    decreases |items|
  {
    if items != [] {
      var b' := b + Sep(b) + Labelled(items[0]);
      ItemsWritten(b', items[1..]);
      FirstItem(b, items);
      assert Heads(b, items)[1..] == Heads(b', items[1..]);
    }
  }

  lemma FirstItem(b: string, items: seq<Item>)
    requires items != []
    ensures var t, later := WriteItems(b, items), Heads(b + Sep(b) + Labelled(items[0]), items[1..]);
            Slice(t, HeadAt(b), EndBefore(t, later)) == Labelled(items[0])
  {
    var b' := b + Sep(b) + Labelled(items[0]);
    var t := WriteItems(b, items);
    var head := AddedIs(b, items[0]);
    WriteExtends(b', items[1..]);
    assert t[HeadAt(b)..|b'|] == b'[HeadAt(b)..] == Labelled(items[0]);
    if |items| > 1 {
      assert items[1..] != [];
      assert Heads(b', items[1..])[0] == |b'| + 2;
    }
  }

  /** No item starts in b, and no text has a break in it. */
  ghost predicate Clean(b: string, items: seq<Item>) {
    Plain(b) && forall i :: 0 <= i < |items| ==> Unbroken(items[i].text)
  }

  lemma CleanParses(b: string, items: seq<Item>)
    requires Clean(b, items)
    ensures StartsFrom(WriteItems(b, items), 0) == Heads(b, items)
  {
    var t := WriteItems(b, items);
    StartsFromAre(t, 0);
    HeadsBeyond(b, items);
    forall x ensures x in StartsFrom(t, 0) <==> x in Heads(b, items) {
      StartsWritten(b, items, x);
      StartInside(t, x);
    }
    IncreasingUnique(StartsFrom(t, 0), Heads(b, items));
  }

  /** Otherwise an item starts where liftQueued wrote none. */
  lemma StrayStart(b: string, items: seq<Item>) returns (x: nat)
    requires !Clean(b, items)
    ensures var t := WriteItems(b, items); x < |t| && StartsAt(t, x) && x !in Heads(b, items)
  {
    HeadsBeyond(b, items);
    if a :| StartsAt(b, a) {
      x := a;
      StartInside(b, a);
      StartsKept(b, items, a);
    } else {
      var i :| 0 <= i < |items| && !Unbroken(items[i].text);
      x := ExtraStart(b, items, i);
    }
    StartInside(WriteItems(b, items), x);
  }

  lemma UncleanMiscounts(b: string, items: seq<Item>)
    requires !Clean(b, items)
    ensures |StartsFrom(WriteItems(b, items), 0)| > |items|
  {
    var t := WriteItems(b, items);
    var starts, heads := StartsFrom(t, 0), Heads(b, items);
    StartsFromAre(t, 0);
    HeadsBeyond(b, items);
    forall h | h in heads ensures h in starts {
      StartsKept(b, items, h);
      StartInside(t, h);
    }
    IncreasingInside(heads, starts);
    var x := StrayStart(b, items);
  }

  /** The parse of what liftQueued wrote is what it was given exactly when no
      item starts in the result it wrote on and no item's text has a break. */
  lemma ParseInvertsWrite(b: string, items: seq<Item>)
    ensures Parse(WriteItems(b, items)) == LabelledAll(items) <==> Clean(b, items)
  {
    if Clean(b, items) {
      CleanParses(b, items);
      ItemsWritten(b, items);
    } else {
      UncleanMiscounts(b, items);
    }
  }

  // ---- liftedItems and liftedUserWords ----

  function InsertUnique(xs: seq<nat>, x: nat): (r: seq<nat>)
    requires Increasing(xs)
    ensures Increasing(r) && forall y :: y in r <==> y in xs || y == x
  {
    if xs == [] then [x]
    else if x < xs[0] then [x] + xs
    else if x == xs[0] then xs
    else
      var rest := InsertUnique(xs[1..], x);
      assert xs == [xs[0]] + xs[1..];
      assert forall i :: 0 <= i < |rest| ==> rest[i] in rest;
      [xs[0]] + rest
  }

  /** sort.Ints, then slices.Compact. */
  function SortCompact(xs: seq<nat>): (r: seq<nat>)
    ensures Increasing(r) && forall y :: y in r <==> y in xs
  {
    if xs == [] then [] else InsertUnique(SortCompact(xs[1..]), xs[0])
  }

  /** A prefix p stands at a, where an item can start. */
  predicate HeadOf(s: string, p: string, a: nat) {
    (a == 0 && At(s, 0, p)) || (a >= 2 && At(s, a - 2, "\n\n" + p))
  }

  lemma HeadsAreStarts(s: string, a: nat)
    ensures StartsAt(s, a) <==> exists k :: 0 <= k < |PREFIXES| && HeadOf(s, PREFIXES[k], a)
  {
    if a >= 2 {
      forall k | 0 <= k < |PREFIXES|
        ensures At(s, a - 2, "\n\n" + PREFIXES[k]) <==> At(s, a - 2, "\n\n") && At(s, a, PREFIXES[k])
      {
        AtSplit(s, a - 2, "\n\n", PREFIXES[k]);
      }
    }
    if StartsAt(s, a) {
      var k :| 0 <= k < |PREFIXES| && At(s, a, PREFIXES[k]);
      assert HeadOf(s, PREFIXES[k], a);
    }
  }

  /** Two breaks in a row do not overlap by one. */
  lemma NoOverlap(s: string, k: nat, j: nat)
    requires k < |PREFIXES| && At(s, j, "\n\n" + PREFIXES[k])
    ensures !At(s, j + 1, "\n\n" + PREFIXES[k])
  {
    PrefixShape(k);
    var w := "\n\n" + PREFIXES[k];
    AtChar(s, j, w, 2);
    if At(s, j + 1, w) { AtChar(s, j + 1, w, 1); }
  }

  /** liftedItems' search for one prefix. */
  method FindPrefix(s: string, k: nat) returns (found: seq<nat>)
    requires k < |PREFIXES|
    ensures forall a :: a in found <==> HeadOf(s, PREFIXES[k], a)
  {
    var w := "\n\n" + PREFIXES[k];
    found := [];
    var off := 0;
    while true
      invariant 0 <= off <= |s|
      invariant forall a :: a in found <==> a >= 2 && a - 2 < off && At(s, a - 2, w)
      decreases |s| - off
    {
      var i := Index(s, w, off);
      if i < 0 {
        break;
      }
      NoOverlap(s, k, i);
      found := found + [i + 2];
      off := i + 2;
    }
    if At(s, 0, PREFIXES[k]) {
      found := found + [0];
    }
  }

  lemma StartsApart(s: string, a: nat, b: nat)
    requires StartsAt(s, a) && StartsAt(s, b) && a < b
    ensures a <= b - 2 < |s|
  {
    var k :| 0 <= k < |PREFIXES| && At(s, a, PREFIXES[k]);
    PrefixShape(k);
    AtChar(s, a, PREFIXES[k], 0);
    NewlinePair(s, b - 2);
  }

  /** One of the prefixes order names up to n heads an item at a. */
  predicate Found(s: string, order: seq<nat>, n: nat, a: nat) {
    exists m :: 0 <= m < n && m < |order| && order[m] < |PREFIXES| && HeadOf(s, PREFIXES[order[m]], a)
  }

  lemma FoundAreStarts(s: string, order: seq<nat>, starts: seq<nat>)
    requires forall k :: k in order <==> k < |PREFIXES|
    requires forall a :: a in starts <==> Found(s, order, |order|, a)
    ensures SortCompact(starts) == StartsFrom(s, 0)
  {
    StartsFromAre(s, 0);
    forall a ensures a in starts <==> a in StartsFrom(s, 0) {
      HeadsAreStarts(s, a);
      StartInside(s, a);
      if StartsAt(s, a) {
        var k :| 0 <= k < |PREFIXES| && HeadOf(s, PREFIXES[k], a);
        assert k in order;
        var m :| 0 <= m < |order| && order[m] == k;
        assert HeadOf(s, PREFIXES[order[m]], a);
      }
    }
    IncreasingUnique(SortCompact(starts), StartsFrom(s, 0));
  }

  /** liftedItems' sorted starts. order is the order the table of kinds is walked
      in, which Go leaves open; it does not matter. */
  method ItemStarts(s: string, order: seq<nat>) returns (starts: seq<nat>)
    requires forall k :: k in order <==> k < |PREFIXES|
    ensures starts == StartsFrom(s, 0)
  {
    starts := [];
    var n := 0;
    while n < |order|
      invariant 0 <= n <= |order|
      invariant forall a :: a in starts <==> Found(s, order, n, a)
    {
      assert order[n] in order;
      var found := FindPrefix(s, order[n]);
      starts := starts + found;
      n := n + 1;
    }
    FoundAreStarts(s, order, starts);
    starts := SortCompact(starts);
  }

  lemma StartsInOrder(s: string, starts: seq<nat>, k: nat)
    requires starts == StartsFrom(s, 0) && k < |starts|
    ensures StartsAt(s, starts[k]) && (k + 1 < |starts| ==> StartsAt(s, starts[k + 1]) && starts[k] < starts[k + 1])
  {
    StartsFromAre(s, 0);
    assert starts[k] in starts;
    if k + 1 < |starts| { assert starts[k + 1] in starts; }
  }

  lemma EndsInOrder(s: string, starts: seq<nat>, k: nat)
    requires starts == StartsFrom(s, 0) && k < |starts|
    ensures starts[k] <= |s| && (k + 1 < |starts| ==> starts[k] <= starts[k + 1] - 2 < |s|)
  {
    StartsInOrder(s, starts, k);
    StartInside(s, starts[k]);
    if k + 1 < |starts| { StartsApart(s, starts[k], starts[k + 1]); }
  }

  /** Each start is within the text, and before the blank line of the next. */
  predicate Cuttable(s: string, starts: seq<nat>) {
    forall k :: 0 <= k < |starts| ==>
      starts[k] <= |s| && (k + 1 < |starts| ==> starts[k] <= starts[k + 1] - 2 < |s|)
  }

  method CutItems(s: string, starts: seq<nat>) returns (out: seq<string>)
    requires Cuttable(s, starts)
    ensures out == ItemsAt(s, starts)
  {
    out := [];
    var k := 0;
    assert starts[0..] == starts;
    while k < |starts|
      invariant 0 <= k <= |starts|
      invariant out + ItemsAt(s, starts[k..]) == ItemsAt(s, starts)
    {
      var b := |s|;
      if k + 1 < |starts| {
        b := starts[k + 1] - 2;
      }
      assert starts[k..][1..] == starts[k + 1..];
      ConcatAssociates(out, [s[starts[k]..b]], ItemsAt(s, starts[k + 1..]));
      out := out + [s[starts[k]..b]];
      k := k + 1;
    }
  }

  /** recap.go: liftedItems. */
  method LiftedItems(s: string, order: seq<nat>) returns (out: seq<string>)
    requires forall k :: k in order <==> k < |PREFIXES|
    ensures out == Parse(s)
  {
    var starts := ItemStarts(s, order);
    forall k: nat | k < |starts|
      ensures starts[k] <= |s| && (k + 1 < |starts| ==> starts[k] <= starts[k + 1] - 2 < |s|)
    {
      EndsInOrder(s, starts, k);
    }
    out := CutItems(s, starts);
  }

  const USER_PREFIX := PolicyOf(User).prefix

  /** What follows the user prefix, in each item that begins with it. */
  function UserWords(items: seq<string>): seq<string> {
    if items == [] then []
    else (if USER_PREFIX <= items[0] then [items[0][|USER_PREFIX|..]] else []) + UserWords(items[1..])
  }

  /** The loop of liftedUserWords over the items. */
  method CutUserPrefix(items: seq<string>) returns (out: seq<string>)
    ensures out == UserWords(items)
  {
    out := [];
    var i := 0;
    while i < |items|
      invariant 0 <= i <= |items|
      invariant out + UserWords(items[i..]) == UserWords(items)
    {
      assert items[i..][1..] == items[i + 1..];
      if USER_PREFIX <= items[i] {
        out := out + [items[i][|USER_PREFIX|..]];
      }
      i := i + 1;
    }
  }

  /** recap.go: liftedUserWords. */
  method LiftedUserWords(s: string, order: seq<nat>) returns (out: seq<string>)
    requires forall k :: k in order <==> k < |PREFIXES|
    ensures out == UserWords(Parse(s))
  {
    var items := LiftedItems(s, order);
    out := CutUserPrefix(items);
  }

  function TextsOf(items: seq<Item>): seq<string> {
    if items == [] then []
    else (if items[0].kind == User then [items[0].text] else []) + TextsOf(items[1..])
  }

  lemma UserLabel(item: Item)
    ensures USER_PREFIX <= Labelled(item) <==> item.kind == User
    ensures item.kind == User ==> Labelled(item)[|USER_PREFIX|..] == item.text
  {
    if item.kind != User {
      var i := PrefixOfKind(item.kind);
      assert Labelled(item)[1] == PolicyOf(item.kind).prefix[1] != USER_PREFIX[1];
    }
  }

  lemma {:induction false} UserWordsAre(items: seq<Item>)
    ensures UserWords(LabelledAll(items)) == TextsOf(items)
  {
    if items != [] {
      UserLabel(items[0]);
      UserWordsAre(items[1..]);
      assert LabelledAll(items)[1..] == LabelledAll(items[1..]);
    }
  }

  lemma NoPrefixAtNewline(s: string, a: nat)
    requires a < |s| && s[a] == '\n'
    ensures !Prefixed(s, a)
  {
    forall k | 0 <= k < |PREFIXES| ensures !At(s, a, PREFIXES[k]) {
      PrefixShape(k);
      AtChar(s, a, PREFIXES[k], 0);
    }
  }

  lemma PlainTrimmed(result: string)
    ensures Plain(result) <==> Plain(TrimNewlines(result))
  {
    var b := TrimNewlines(result);
    var rest := result[|b|..];
    assert result == b + rest;
    forall a: nat ensures StartsAt(result, a) <==> StartsAt(b, a) {
      StartInside(b, a);
      StartInside(result, a);
      if a < |b| {
        if rest != "" { StartsInBase(b, rest, a); } else { assert result == b; }
      } else if a < |result| {
        NoPrefixAtNewline(result, a);
      }
    }
  }

  /** Lifting and parsing are inverse exactly on clean input: whatever the
      result, however many items, the base empty or not, texts that end in
      newlines or not, and quiet or waking peers under one prefix. */
  lemma ParseInvertsLift(result: string, items: seq<Item>)
    ensures Parse(LiftText(result, items)) == LabelledAll(items) <==> Clean(TrimNewlines(result), items)
  {
    if items == [] {
      PlainTrimmed(result);
      ParseInvertsWrite(result, []);
    } else {
      ParseInvertsWrite(TrimNewlines(result), items);
    }
  }

  // ---- The user's words ----

  /** An item under the user's prefix starts at a. */
  predicate UserStart(s: string, a: nat) { StartsAt(s, a) && At(s, a, USER_PREFIX) }
  predicate UserBreak(s: string, a: nat) { BreaksAt(s, a) && At(s, a, USER_PREFIX) }

  /** Where the next item starts, or would after a blank line at the end. */
  function NextStart(s: string, a: nat): (n: nat)
    requires a <= |s|
    ensures n >= a && (a > 0 ==> n >= 2)
    decreases |s| - a
  {
    if a == |s| then |s| + 2 else if StartsAt(s, a) then a else NextStart(s, a + 1)
  }

  function WordAt(s: string, a: nat): string
    requires a < |s|
  {
    Slice(s, a + |USER_PREFIX|, NextStart(s, a + 1) - 2)
  }

  /** The words of the user's items that start from a on, before e. */
  function WordsIn(s: string, a: nat, e: nat): seq<string>
    requires a <= e <= |s|
    decreases e - a
  {
    if a == e then [] else (if UserStart(s, a) then [WordAt(s, a)] else []) + WordsIn(s, a + 1, e)
  }

  lemma {:induction false} NextIsFirst(s: string, a: nat)
    requires a <= |s|
    ensures NextStart(s, a) == if StartsFrom(s, a) == [] then |s| + 2 else StartsFrom(s, a)[0]
    decreases |s| - a
  {
    if a < |s| && !StartsAt(s, a) {
      NextIsFirst(s, a + 1);
      assert [] + StartsFrom(s, a + 1) == StartsFrom(s, a + 1);
    }
  }

  lemma {:induction false} NextIs(s: string, a: nat, n: nat)
    requires a <= n && a <= |s| && (n == |s| + 2 || StartsAt(s, n)) && forall x :: a <= x < n ==> !StartsAt(s, x)
    ensures NextStart(s, a) == n
    decreases |s| - a
  {
    StartInside(s, n);
    if a < |s| && a < n { NextIs(s, a + 1, n); }
  }

  lemma {:induction false} NextAtMost(s: string, a: nat, n: nat)
    requires a <= n && a <= |s| && StartsAt(s, n)
    ensures NextStart(s, a) <= n
    decreases |s| - a
  {
    StartInside(s, n);
    if a < |s| && a < n { NextAtMost(s, a + 1, n); }
  }

  lemma {:induction false} NextStarts(s: string, a: nat)
    requires a <= |s|
    ensures NextStart(s, a) == |s| + 2 || StartsAt(s, NextStart(s, a))
    decreases |s| - a
  {
    if a < |s| { NextStarts(s, a + 1); }
  }

  lemma SlicePrefix(s: string, a: nat, e: nat, p: string)
    requires a <= e <= |s|
    ensures p <= s[a..e] <==> At(s, a, p) && a + |p| <= e
    ensures p <= s[a..e] ==> s[a..e][|p|..] == Slice(s, a + |p|, e)
  {
    if a + |p| <= e { assert s[a..e][..|p|] == s[a..a + |p|]; }
  }

  /** An item ends after its prefix, and before the blank line of the next. */
  lemma ItemEnds(s: string, a: nat, n: nat, k: nat)
    requires StartsAt(s, a) && StartsAt(s, n) && a < n
    ensures a <= n - 2 <= |s| && (k < |PREFIXES| && At(s, a, PREFIXES[k]) ==> a + |PREFIXES[k]| <= n - 2)
  {
    StartInside(s, n);
    StartsApart(s, a, n);
    NewlinePair(s, n - 2);
    if k < |PREFIXES| && At(s, a, PREFIXES[k]) { PrefixStops(s, a, k, n - 2); }
  }

  /** An item under the user's prefix has it whole, and no other item does. */
  lemma ItemPrefix(s: string, a: nat)
    requires a < |s| && StartsAt(s, a)
    ensures var p := Slice(s, a, NextStart(s, a + 1) - 2);
            && (USER_PREFIX <= p <==> At(s, a, USER_PREFIX))
            && (USER_PREFIX <= p ==> p[|USER_PREFIX|..] == WordAt(s, a))
  {
    var n := NextStart(s, a + 1);
    NextStarts(s, a + 1);
    if n < |s| + 2 {
      assert USER_PREFIX == PREFIXES[1];
      ItemEnds(s, a, n, 1);
    }
    SlicePrefix(s, a, n - 2, USER_PREFIX);
  }

  lemma WordsMore(item: string, items: seq<string>)
    ensures UserWords([item] + items) ==
            (if USER_PREFIX <= item then [item[|USER_PREFIX|..]] else []) + UserWords(items)
  {
    assert ([item] + items)[1..] == items;
  }

  /** The words of the parsed items, place by place. */
  lemma {:induction false} ParsedWords(s: string, a: nat)
    requires a <= |s|
    ensures UserWords(ItemsAt(s, StartsFrom(s, a))) == WordsIn(s, a, |s|)
    decreases |s| - a
  {
    if a < |s| {
      var rest := StartsFrom(s, a + 1);
      ParsedWords(s, a + 1);
      if StartsAt(s, a) {
        FirstAt(s, a);
        ItemPrefix(s, a);
        WordsMore(Slice(s, a, NextStart(s, a + 1) - 2), ItemsAt(s, rest));
      } else {
        assert [] + rest == rest;
      }
    }
  }

  lemma FirstAt(s: string, a: nat)
    requires a < |s|
    ensures ItemsAt(s, [a] + StartsFrom(s, a + 1)) ==
            [Slice(s, a, NextStart(s, a + 1) - 2)] + ItemsAt(s, StartsFrom(s, a + 1))
  {
    var rest := StartsFrom(s, a + 1);
    NextIsFirst(s, a + 1);
    assert ([a] + rest)[1..] == rest;
  }

  lemma {:induction false} WordsSplit(s: string, a: nat, m: nat, e: nat)
    requires a <= m <= e <= |s|
    ensures WordsIn(s, a, e) == WordsIn(s, a, m) + WordsIn(s, m, e)
    decreases m - a
  {
    if a < m { WordsSplit(s, a + 1, m, e); }
  }

  lemma {:induction false} NoWords(s: string, a: nat, e: nat)
    requires a <= e <= |s|
    ensures WordsIn(s, a, e) == [] <==> forall x :: a <= x < e ==> !UserStart(s, x)
    decreases e - a
  {
    if a < e { NoWords(s, a + 1, e); }
  }

  lemma UserInBase(b: string, rest: string, a: nat)
    requires a < |b| && (rest != "" ==> rest[0] == '\n')
    ensures StartsAt(b + rest, a) <==> StartsAt(b, a)
    ensures UserStart(b + rest, a) <==> UserStart(b, a)
  {
    if rest == "" {
      assert b + rest == b;
    } else {
      StartsInBase(b, rest, a);
      assert USER_PREFIX == PREFIXES[1];
      if At(b + rest, a, USER_PREFIX) { PrefixStops(b + rest, a, 1, |b|); }
      if a + |USER_PREFIX| <= |b| { AtFront(b, rest, a, USER_PREFIX); }
    }
  }

  /** What comes after an item: nothing, or a blank line and the next item. */
  predicate Followed(t: string, n: nat) {
    n <= |t| && (n < |t| ==> t[n] == '\n' && At(t, n, "\n\n") && StartsAt(t, n + 2))
  }

  lemma NextFollows(t: string, a: nat, n: nat)
    requires Followed(t, n) && a <= n && forall x :: a <= x < n ==> !StartsAt(t, x)
    ensures NextStart(t, a) == n + 2
  {
    if n < |t| {
      NewlinePair(t, n);
      forall x | n <= x < n + 2 ensures !StartsAt(t, x) { NoPrefixAtNewline(t, x); }
    } else {
      forall x | a <= x < n + 2 ensures !StartsAt(t, x) { StartInside(t, x); }
    }
    NextIs(t, a, n + 2);
  }

  /** Whether an item leaves the user's words as they are: of the user's own texts,
      that they are unbroken; of others, that no user item starts in them. */
  ghost predicate Intact(item: Item) {
    if item.kind == User then Unbroken(item.text) else forall a :: !UserBreak(item.text, a)
  }

  predicate ItemStart(t: string, h: nat, n: nat, item: Item, a: nat) {
    && (StartsAt(t, a) <==> a == h || (a >= n && BreaksAt(item.text, a - n)))
    && (UserStart(t, a) <==> (a == h && item.kind == User) || (a >= n && UserBreak(item.text, a - n)))
  }

  lemma AddedStarts(b: string, item: Item, a: nat)
    requires |b| <= a < |b + Sep(b) + Labelled(item)|
    ensures ItemStart(b + Sep(b) + Labelled(item), HeadAt(b), HeadAt(b) + |PolicyOf(item.kind).prefix|, item, a)
  {
    var head := AddedIs(b, item);
    var front := b + Sep(b) + PolicyOf(item.kind).prefix;
    StartsAdded(b, head, item.text, a);
    if a >= |front| {
      assert b + Sep(b) + Labelled(item) == front + item.text;
      AtBack(front, item.text, a - |front|, USER_PREFIX);
    } else if a == HeadAt(b) {
      UserHead(b, item);
    }
  }

  /** The starts of one written item, in the text after it too. */
  lemma ItemStartsIn(b: string, item: Item, t: string, a: nat)
    requires var b' := b + Sep(b) + Labelled(item); b' <= t && Followed(t, |b'|) && |b| <= a < |b'|
    ensures ItemStart(t, HeadAt(b), HeadAt(b) + |PolicyOf(item.kind).prefix|, item, a)
  {
    var b' := b + Sep(b) + Labelled(item);
    assert t == b' + t[|b'|..];
    UserInBase(b', t[|b'|..], a);
    AddedStarts(b, item, a);
  }

  lemma UserHead(b: string, item: Item)
    ensures At(b + Sep(b) + Labelled(item), HeadAt(b), USER_PREFIX) <==> item.kind == User
  {
    var x, y := b + Sep(b), Labelled(item);
    UserLabel(item);
    AtBack(x, y, 0, USER_PREFIX);
    assert At(y, 0, USER_PREFIX) <==> USER_PREFIX <= y;
  }

  lemma BreakInside(text: string, k: nat)
    ensures BreaksAt(text, k) ==> 2 <= k < |text|
  {
    if BreaksAt(text, k) { StartInside(text, k); }
  }

  /** A written item, its prefix at h and its text at n: it starts there, and where
      its text breaks. */
  ghost predicate ItemAt(t: string, lo: nat, h: nat, n: nat, item: Item) {
    && lo <= h < n && n + |item.text| <= |t| && t[n..n + |item.text|] == item.text
    && forall a: nat :: lo <= a < n + |item.text| ==> ItemStart(t, h, n, item, a)
  }

  lemma ItemIsAt(b: string, item: Item, t: string)
    requires var b' := b + Sep(b) + Labelled(item); b' <= t && Followed(t, |b'|)
    ensures ItemAt(t, |b|, HeadAt(b), HeadAt(b) + |PolicyOf(item.kind).prefix|, item)
    ensures |b + Sep(b) + Labelled(item)| == HeadAt(b) + |PolicyOf(item.kind).prefix| + |item.text|
  {
    var b', n := b + Sep(b) + Labelled(item), HeadAt(b) + |PolicyOf(item.kind).prefix|;
    ItemTextAt(b, item, t);
    forall a: nat | |b| <= a < n + |item.text| ensures ItemStart(t, HeadAt(b), n, item, a) {
      ItemStartsIn(b, item, t, a);
    }
  }

  lemma ItemTextAt(b: string, item: Item, t: string)
    requires b + Sep(b) + Labelled(item) <= t
    ensures var b', n := b + Sep(b) + Labelled(item), HeadAt(b) + |PolicyOf(item.kind).prefix|;
            && |b'| == n + |item.text| <= |t| && t[n..|b'|] == item.text && HeadAt(b) < n
  {
    var b', n := b + Sep(b) + Labelled(item), HeadAt(b) + |PolicyOf(item.kind).prefix|;
    var head := AddedIs(b, item);
    PrefixShape(head);
    assert b' == b + Sep(b) + PolicyOf(item.kind).prefix + item.text;
    assert t[n..|b'|] == b'[n..|b'|];
  }

  /** A written item that is not the user's gives no words exactly when it is intact. */
  lemma OtherWords(t: string, lo: nat, h: nat, n: nat, item: Item)
    requires item.kind != User && ItemAt(t, lo, h, n, item)
    ensures WordsIn(t, lo, n + |item.text|) == [] <==> Intact(item)
  {
    NoWords(t, lo, n + |item.text|);
    forall k: nat ensures UserBreak(item.text, k) ==> k < |item.text| && UserStart(t, n + k) {
      BreakInside(item.text, k);
      assert k < |item.text| ==> ItemStart(t, h, n, item, n + k);
    }
    forall a | lo <= a < n + |item.text| ensures UserStart(t, a) ==> !Intact(item) {
      assert ItemStart(t, h, n, item, a);
    }
  }

  lemma NextAfterWhole(t: string, lo: nat, h: nat, n: nat, item: Item)
    requires ItemAt(t, lo, h, n, item) && Followed(t, n + |item.text|) && Unbroken(item.text)
    ensures NextStart(t, h + 1) == n + |item.text| + 2
  {
    forall a | h + 1 <= a < n + |item.text| ensures !StartsAt(t, a) { assert ItemStart(t, h, n, item, a); }
    NextFollows(t, h + 1, n + |item.text|);
  }

  lemma BreakStarts(t: string, h: nat, n: nat, item: Item, k: nat)
    requires ItemStart(t, h, n, item, n + k) && BreaksAt(item.text, k)
    ensures StartsAt(t, n + k)
  {}

  lemma NextInBroken(t: string, lo: nat, h: nat, n: nat, item: Item)
    requires ItemAt(t, lo, h, n, item) && !Unbroken(item.text)
    ensures NextStart(t, h + 1) < n + |item.text|
  {
    var k: nat :| BreaksAt(item.text, k);
    BreakInside(item.text, k);
    BreakStarts(t, h, n, item, k);
    NextAtMost(t, h + 1, n + k);
  }

  lemma ShortSlice(t: string, n: nat, e: nat, text: string)
    requires n + |text| <= |t| && t[n..n + |text|] == text && e <= n + |text|
    ensures Slice(t, n, e) == text <==> e == n + |text| || text == ""
  {}

  /** The user's gives its own text, exactly when that is unbroken. */
  lemma UserItemWord(t: string, lo: nat, h: nat, n: nat, item: Item)
    requires ItemAt(t, lo, h, n, item) && n == h + |USER_PREFIX| && Followed(t, n + |item.text|)
    ensures WordAt(t, h) == item.text <==> Unbroken(item.text)
  {
    var e := NextStart(t, h + 1) - 2;
    if Unbroken(item.text) {
      NextAfterWhole(t, lo, h, n, item);
      ShortSlice(t, n, e, item.text);
    } else {
      NextInBroken(t, lo, h, n, item);
      var k: nat :| BreaksAt(item.text, k);
      BreakInside(item.text, k);
      ShortSlice(t, n, e, item.text);
    }
  }

  /** The user's start comes first in its item. */
  lemma NoneBefore(t: string, lo: nat, h: nat, n: nat, item: Item)
    requires ItemAt(t, lo, h, n, item) && item.kind == User
    ensures WordsIn(t, lo, n + |item.text|) == [WordAt(t, h)] + WordsIn(t, h + 1, n + |item.text|)
  {
    assert ItemStart(t, h, n, item, h);
    NoWords(t, lo, h);
    forall a | lo <= a < h ensures !UserStart(t, a) { assert ItemStart(t, h, n, item, a); }
    WordsSplit(t, lo, h, n + |item.text|);
  }

  /** In an unbroken text it is the only one. */
  lemma NoneAfter(t: string, lo: nat, h: nat, n: nat, item: Item)
    requires ItemAt(t, lo, h, n, item) && Unbroken(item.text)
    ensures WordsIn(t, h + 1, n + |item.text|) == []
  {
    NoWords(t, h + 1, n + |item.text|);
    forall a | h + 1 <= a < n + |item.text| ensures !UserStart(t, a) {
      assert ItemStart(t, h, n, item, a);
      assert a >= n ==> !BreaksAt(item.text, a - n);
    }
  }

  lemma UserItemWords(t: string, lo: nat, h: nat, n: nat, item: Item)
    requires ItemAt(t, lo, h, n, item) && n == h + |USER_PREFIX| && Followed(t, n + |item.text|) && item.kind == User
    ensures var w := WordsIn(t, lo, n + |item.text|); w != [] && (w == [item.text] <==> Unbroken(item.text))
  {
    var word, more := WordAt(t, h), WordsIn(t, h + 1, n + |item.text|);
    NoneBefore(t, lo, h, n, item);
    UserItemWord(t, lo, h, n, item);
    if Unbroken(item.text) { NoneAfter(t, lo, h, n, item); }
    OneIs(word, more, item.text);
  }

  lemma OneIs<T>(x: T, more: seq<T>, y: T)
    ensures [x] + more == [y] <==> x == y && more == []
  {
    if [x] + more == [y] { assert ([x] + more)[0] == [y][0] && |[x] + more| == 1; }
  }

  /** From lo to hi stand the words of these items, or more, and just they exactly
      when every item is intact. */
  ghost predicate Tells(t: string, lo: nat, hi: nat, items: seq<Item>) {
    lo <= hi <= |t| &&
    var w := WordsIn(t, lo, hi);
    |w| >= |TextsOf(items)| && (w == TextsOf(items) <==> forall i :: 0 <= i < |items| ==> Intact(items[i]))
  }

  lemma UserTells(t: string, lo: nat, h: nat, n: nat, item: Item)
    requires ItemAt(t, lo, h, n, item) && n == h + |USER_PREFIX| && Followed(t, n + |item.text|) && item.kind == User
    ensures Tells(t, lo, n + |item.text|, [item])
  {
    UserItemWords(t, lo, h, n, item);
    assert TextsOf([item]) == [item.text] by { assert TextsOf([item][1..]) == []; }
    assert (forall i :: 0 <= i < |[item]| ==> Intact([item][i])) <==> Intact([item][0]);
  }

  lemma OtherTells(t: string, lo: nat, h: nat, n: nat, item: Item)
    requires ItemAt(t, lo, h, n, item) && item.kind != User
    ensures Tells(t, lo, n + |item.text|, [item])
  {
    OtherWords(t, lo, h, n, item);
    assert TextsOf([item]) == [] by { assert TextsOf([item][1..]) == []; }
    assert (forall i :: 0 <= i < |[item]| ==> Intact([item][i])) <==> Intact([item][0]);
  }

  lemma ItemTells(t: string, lo: nat, h: nat, n: nat, item: Item)
    requires ItemAt(t, lo, h, n, item) && n == h + |PolicyOf(item.kind).prefix| && Followed(t, n + |item.text|)
    ensures Tells(t, lo, n + |item.text|, [item])
  {
    if item.kind == User { UserTells(t, lo, h, n, item); } else { OtherTells(t, lo, h, n, item); }
  }

  lemma WrittenFollows(b: string, items: seq<Item>)
    requires b != "" || items == []
    ensures b <= WriteItems(b, items) && Followed(WriteItems(b, items), |b|)
  {
    var t := WriteItems(b, items);
    WriteExtends(b, items);
    if items != [] {
      assert Heads(b, items)[0] == |b| + 2;
      StartsKept(b, items, |b| + 2);
      StartInside(t, |b| + 2);
      NewlinePair(t, |b|);
    }
  }

  /** Of equal lists whose parts are at least as long, the parts are equal. */
  lemma PartsEqual<T>(a: seq<T>, b: seq<T>, c: seq<T>, d: seq<T>)
    requires |a| >= |c| && |b| >= |d|
    ensures a + b == c + d <==> a == c && b == d
  {
    if a + b == c + d {
      assert |a + b| == |c + d|;
      assert a == (a + b)[..|a|] && c == (c + d)[..|c|];
      assert b == (a + b)[|a|..] && d == (c + d)[|c|..];
    }
  }

  lemma TellsMore(t: string, lo: nat, mid: nat, hi: nat, item: Item, items: seq<Item>)
    requires Tells(t, lo, mid, [item]) && Tells(t, mid, hi, items)
    ensures Tells(t, lo, hi, [item] + items)
  {
    WordsSplit(t, lo, mid, hi);
    PartsEqual(WordsIn(t, lo, mid), WordsIn(t, mid, hi), TextsOf([item]), TextsOf(items));
    TextsMore(item, items);
    IntactMore(item, items);
  }

  lemma TextsMore(item: Item, items: seq<Item>)
    ensures TextsOf([item] + items) == TextsOf([item]) + TextsOf(items)
  {
    assert ([item] + items)[1..] == items && [item][1..] == [];
  }

  lemma IntactMore(item: Item, items: seq<Item>)
    ensures (forall i :: 0 <= i < |[item] + items| ==> Intact(([item] + items)[i])) <==>
            (forall i :: 0 <= i < |[item]| ==> Intact([item][i])) && forall i :: 0 <= i < |items| ==> Intact(items[i])
  {
    var all := [item] + items;
    assert all[0] == [item][0] == item && forall i :: 0 <= i < |items| ==> all[i + 1] == items[i];
    if forall i :: 0 <= i < |all| ==> Intact(all[i]) {
      forall i | 0 <= i < |items| ensures Intact(items[i]) { assert Intact(all[i + 1]); }
    }
  }

  /** The words of the items written after b: at least the user's, and those
      exactly when every item is intact. */
  lemma {:induction false} WrittenWords(b: string, items: seq<Item>)
    ensures Tells(WriteItems(b, items), |b|, |WriteItems(b, items)|, items)
    decreases |items|
  {
    if items != [] {
      var b', rest := b + Sep(b) + Labelled(items[0]), items[1..];
      WrittenWords(b', rest);
      FirstTells(b, items);
      TellsMore(WriteItems(b, items), |b|, |b'|, |WriteItems(b, items)|, items[0], rest);
      assert items == [items[0]] + rest;
    }
  }

  lemma FirstFollowed(b: string, items: seq<Item>)
    requires items != []
    ensures var b' := b + Sep(b) + Labelled(items[0]);
            b' <= WriteItems(b, items) && Followed(WriteItems(b, items), |b'|)
  {
    var head := AddedIs(b, items[0]);
    WrittenFollows(b + Sep(b) + Labelled(items[0]), items[1..]);
  }

  lemma FirstTells(b: string, items: seq<Item>)
    requires items != []
    ensures Tells(WriteItems(b, items), |b|, |b + Sep(b) + Labelled(items[0])|, [items[0]])
  {
    FirstFollowed(b, items);
    WrittenTells(b, items[0], WriteItems(b, items));
  }

  lemma WrittenTells(b: string, item: Item, t: string)
    requires var b' := b + Sep(b) + Labelled(item); b' <= t && Followed(t, |b'|)
    ensures Tells(t, |b|, |b + Sep(b) + Labelled(item)|, [item])
  {
    ItemIsAt(b, item, t);
    ItemTells(t, |b|, HeadAt(b), HeadAt(b) + |PolicyOf(item.kind).prefix|, item);
  }

  /** No item under the user's prefix starts in s. */
  ghost predicate NoUserStart(s: string) { forall a :: !UserStart(s, a) }

  /** What the user's words need of a lift: no user item starts in the result it was
      written on, the user's texts are unbroken, and no user item starts in others'. */
  ghost predicate UserClean(b: string, items: seq<Item>) {
    NoUserStart(b) && forall i :: 0 <= i < |items| ==> Intact(items[i])
  }

  lemma BaseWords(b: string, items: seq<Item>)
    requires b != "" || items == []
    ensures b <= WriteItems(b, items) && (WordsIn(WriteItems(b, items), 0, |b|) == [] <==> NoUserStart(b))
  {
    var t := WriteItems(b, items);
    WrittenFollows(b, items);
    NoWords(t, 0, |b|);
    assert t == b + t[|b|..];
    forall a: nat ensures UserStart(b, a) <==> a < |b| && UserStart(t, a) {
      StartInside(b, a);
      if a < |b| { UserInBase(b, t[|b|..], a); }
    }
  }

  lemma NothingBefore(items: seq<Item>)
    ensures WordsIn(WriteItems("", items), 0, 0) == [] && NoUserStart("")
  {
    forall a: nat ensures !UserStart("", a) { StartInside("", a); }
  }

  lemma UserWordsWritten(b: string, items: seq<Item>)
    ensures UserWords(Parse(WriteItems(b, items))) == TextsOf(items) <==> UserClean(b, items)
  {
    var t := WriteItems(b, items);
    ParsedWords(t, 0);
    WrittenWords(b, items);
    WordsSplit(t, 0, |b|, |t|);
    if b == "" { NothingBefore(items); } else { BaseWords(b, items); }
    PartsEqual(WordsIn(t, 0, |b|), WordsIn(t, |b|, |t|), [], TextsOf(items));
    assert [] + TextsOf(items) == TextsOf(items);
  }

  lemma NoUserStartTrimmed(result: string)
    ensures NoUserStart(result) <==> NoUserStart(TrimNewlines(result))
  {
    var b := TrimNewlines(result);
    var rest := result[|b|..];
    assert result == b + rest;
    forall a: nat ensures UserStart(result, a) <==> UserStart(b, a) {
      StartInside(b, a);
      StartInside(result, a);
      if a < |b| {
        UserInBase(b, rest, a);
      } else if a < |result| {
        NoPrefixAtNewline(result, a);
      }
    }
  }

  /** The user's words come back word for word, in order, and no others, exactly
      when the lift is clean of them in this sense. */
  lemma UserWordsComeBack(result: string, items: seq<Item>)
    ensures UserWords(Parse(LiftText(result, items))) == TextsOf(items) <==> UserClean(TrimNewlines(result), items)
  {
    if items == [] {
      NoUserStartTrimmed(result);
      UserWordsWritten(result, items);
    } else {
      UserWordsWritten(TrimNewlines(result), items);
    }
  }

  /** Other kinds' texts may quote any item but the user's. */
  lemma CleanIsUserClean(b: string, items: seq<Item>)
    requires Clean(b, items)
    ensures UserClean(b, items)
  {
    forall a ensures !UserStart(b, a) { assert !StartsAt(b, a); }
    forall i | 0 <= i < |items| ensures Intact(items[i]) {
      assert Unbroken(items[i].text);
      forall a ensures !UserBreak(items[i].text, a) { assert !BreaksAt(items[i].text, a); }
    }
  }

  /** A text that quotes an earlier lift does not come back as it went in. */
  lemma QuotedPrefixIsMisread()
    ensures var item := Item(0, Notification, "done\n\n[user] no");
            Parse(LiftText("", [item])) != LabelledAll([item])
  {
    var text := "done\n\n[user] no";
    assert text[4..6] == "\n\n" && text[6..6 + |PREFIXES[1]|] == PREFIXES[1];
    assert At(text, 4, "\n\n") && At(text, 6, PREFIXES[1]);
    assert BreaksAt(text, 6);
    ParseInvertsLift("", [Item(0, Notification, text)]);
  }
}
