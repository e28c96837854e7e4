/** Shell quoting and splitting: exec.go's shellQuote and extcmd.go's SplitShell.

    What a command line means is given by a grammar that does not look like the
    splitter: a line is a sequence of tokens, rendered one after the other, and
    its words are the texts of the maximal runs of tokens that are not blanks.
    SplitShell is proved to decide exactly that grammar. */
module ShellWords {
  import opened Strings

  datatype SplitResult = Words(words: seq<string>) | Unbalanced(quote: char) | TrailingBackslash

  // ---- The grammar ----

  /** One character between double quotes: itself, or behind a backslash. */
  datatype Quoted = Plain(c: char) | Slashed(c: char)

  datatype Token =
    | Blank(c: char)
    | Bare(c: char)
    | Escaped(c: char)
    | Single(text: string)
    | Double(items: seq<Quoted>)

  predicate IsBlank(c: char) { c == ' ' || c == '\t' || c == '\n' }

  /** The characters a backslash escapes between double quotes. */
  predicate Escapable(c: char) { c == '"' || c == '\\' || c == '$' || c == '`' }

  predicate ValidItems(items: seq<Quoted>) {
    items != [] ==>
      && (match items[0]
          case Slashed(c) => Escapable(c)
          case Plain(c) => c != '"' && (c == '\\' ==> !Escapable(RenderItems(items[1..])[0])))
      && ValidItems(items[1..])
  }

  predicate ValidToken(t: Token) {
    match t
    case Blank(c) => IsBlank(c)
    case Bare(c) => !IsBlank(c) && c != '\'' && c != '"' && c != '\\'
    case Escaped(_) => true
    case Single(text) => '\'' !in text
    case Double(items) => ValidItems(items)
  }

  predicate ValidLine(ts: seq<Token>) {
    forall i :: 0 <= i < |ts| ==> ValidToken(ts[i])
  }

  /** The items and the quote that closes them. */
  function RenderItems(items: seq<Quoted>): (s: string)
    ensures |s| > 0
  {
    if items == [] then "\""
    else (match items[0] case Plain(c) => [c] case Slashed(c) => ['\\', c]) + RenderItems(items[1..])
  }

  function Render(t: Token): string {
    match t
    case Blank(c) => [c]
    case Bare(c) => [c]
    case Escaped(c) => ['\\', c]
    case Single(text) => "'" + text + "'"
    case Double(items) => "\"" + RenderItems(items)
  }

  function RenderLine(ts: seq<Token>): string {
    if ts == [] then "" else Render(ts[0]) + RenderLine(ts[1..])
  }

  function ItemsText(items: seq<Quoted>): string {
    if items == [] then "" else [items[0].c] + ItemsText(items[1..])
  }

  function Text(t: Token): string {
    match t
    case Blank(_) => ""
    case Bare(c) => [c]
    case Escaped(c) => [c]
    case Single(text) => text
    case Double(items) => ItemsText(items)
  }

  function TextOf(ts: seq<Token>): string {
    if ts == [] then "" else Text(ts[0]) + TextOf(ts[1..])
  }

  /** How many tokens at the front belong to one word. */
  function WordLength(ts: seq<Token>): (n: nat)
    ensures n <= |ts|
    ensures forall i :: 0 <= i < n ==> !ts[i].Blank?
    ensures n < |ts| ==> ts[n].Blank?
  {
    if ts == [] || ts[0].Blank? then 0 else 1 + WordLength(ts[1..])
  }

  /** What a line means: the texts of its maximal runs of non-blank tokens. */
  function Meaning(ts: seq<Token>): seq<string> {
    if ts == [] then []
    else if ts[0].Blank? then Meaning(ts[1..])
    else
      var n := WordLength(ts);
      [TextOf(ts[..n])] + Meaning(ts[n..])
  }

  // ---- The scanner as a function ----

  /** The end of the single-quoted text starting at i, or |s|. */
  function QuoteEnd(s: string, i: nat): (j: nat)
    requires i <= |s|
    ensures i <= j <= |s|
    ensures forall k :: i <= k < j ==> s[k] != '\''
    ensures j < |s| ==> s[j] == '\''
    decreases |s| - i
  {
    if i == |s| || s[i] == '\'' then i else QuoteEnd(s, i + 1)
  }

  /** The double-quoted text starting at i: where its closing quote is (|s| if
      there is none) and the text it stands for. */
  function DoubleFrom(s: string, i: nat): (r: (nat, string))
    requires i <= |s|
    ensures i <= r.0 <= |s|
    ensures r.0 < |s| ==> s[r.0] == '"'
    decreases |s| - i
  {
    if i == |s| || s[i] == '"' then (i, "")
    else if s[i] == '\\' && i + 1 < |s| && Escapable(s[i + 1]) then
      var (j, t) := DoubleFrom(s, i + 2);
      (j, [s[i + 1]] + t)
    else
      var (j, t) := DoubleFrom(s, i + 1);
      (j, [s[i]] + t)
  }

  /** What the scanner finds at a position: a piece of a word and where it ends,
      a blank, or the error. */
  datatype Found = Piece(next: nat, text: string) | Gap | Fault(error: SplitResult)

  function ReadAt(s: string, i: nat): (f: Found)
    requires i < |s|
    ensures f.Piece? ==> i < f.next <= |s|
    ensures f.Fault? ==> !f.error.Words?
  {
    if s[i] == '\'' then
      var j := QuoteEnd(s, i + 1);
      if j == |s| then Fault(Unbalanced('\'')) else Piece(j + 1, s[i + 1..j])
    else if s[i] == '"' then
      var (j, t) := DoubleFrom(s, i + 1);
      if j == |s| then Fault(Unbalanced('"')) else Piece(j + 1, t)
    else if s[i] == '\\' then
      if i + 1 == |s| then Fault(TrailingBackslash) else Piece(i + 2, [s[i + 1]])
    else if IsBlank(s[i]) then Gap
    else Piece(i + 1, [s[i]])
  }

  function Prepend(ws: seq<string>, r: SplitResult): SplitResult {
    match r case Words(vs) => Words(ws + vs) case _ => r
  }

  /** The splitter from position i with the word begun so far. */
  function Scan(s: string, i: nat, cur: string, started: bool): SplitResult
    requires i <= |s|
    decreases |s| - i
  {
    if i == |s| then Words(if started then [cur] else [])
    else match ReadAt(s, i)
      case Fault(error) => error
      case Gap => Prepend(if started then [cur] else [], Scan(s, i + 1, "", false))
      case Piece(next, text) => Scan(s, next, cur + text, true)
  }

  // ---- The scanner decides the grammar ----

  /** The words of ts, after a word begun before it. */
  function WordsFrom(ts: seq<Token>, cur: string, started: bool): seq<string> {
    if ts == [] then (if started then [cur] else [])
    else if ts[0].Blank? then (if started then [cur] else []) + WordsFrom(ts[1..], "", false)
    else WordsFrom(ts[1..], cur + Text(ts[0]), true)
  }

  lemma {:induction false} DoubleReadsItems(s: string, i: nat, items: seq<Quoted>)
    requires ValidItems(items) && At(s, i, RenderItems(items))
    ensures DoubleFrom(s, i) == (i + |RenderItems(items)| - 1, ItemsText(items))
    decreases |items|
  {
    AtChar(s, i, RenderItems(items), 0);
    if items != [] {
      var rest := RenderItems(items[1..]);
      match items[0]
      case Plain(c) =>
        AtSplit(s, i, [c], rest);
        AtChar(s, i + 1, rest, 0);
        DoubleReadsItems(s, i + 1, items[1..]);
      case Slashed(c) =>
        AtSplit(s, i, ['\\', c], rest);
        AtChar(s, i, ['\\', c], 1);
        DoubleReadsItems(s, i + 2, items[1..]);
    }
  }

  lemma {:induction false} QuoteEndAt(s: string, i: nat, j: nat)
    requires i <= j < |s| && s[j] == '\'' && forall k :: i <= k < j ==> s[k] != '\''
    ensures QuoteEnd(s, i) == j
    decreases j - i
  {
    if i < j { QuoteEndAt(s, i + 1, j); }
  }

  lemma ReadSingle(s: string, i: nat, text: string)
    requires '\'' !in text && At(s, i, "'" + text + "'")
    ensures ReadAt(s, i) == Piece(i + |text| + 2, text)
  {
    AtSplit(s, i, "'" + text, "'");
    AtSplit(s, i, "'", text);
    AtChar(s, i, "'", 0);
    AtChar(s, i + 1 + |text|, "'", 0);
    forall k | i + 1 <= k < i + 1 + |text| ensures s[k] != '\'' {
      AtChar(s, i + 1, text, k - i - 1);
    }
    QuoteEndAt(s, i + 1, i + 1 + |text|);
  }

  /** One token read from position i. */
  lemma ReadToken(s: string, i: nat, t: Token)
    requires ValidToken(t) && At(s, i, Render(t))
    ensures i < |s| && ReadAt(s, i) == if t.Blank? then Gap else Piece(i + |Render(t)|, Text(t))
  {
    AtChar(s, i, Render(t), 0);
    match t
    case Single(text) => ReadSingle(s, i, text);
    case Double(items) =>
      AtSplit(s, i, "\"", RenderItems(items));
      DoubleReadsItems(s, i + 1, items);
    case Escaped(c) => AtChar(s, i, ['\\', c], 1);
    case _ =>
  }

  /** s from i on is a rendering of ts. */
  predicate Spells(s: string, i: nat, ts: seq<Token>) {
    ValidLine(ts) && At(s, i, RenderLine(ts)) && i + |RenderLine(ts)| == |s|
  }

  lemma FirstRead(s: string, i: nat, ts: seq<Token>)
    requires ts != [] && Spells(s, i, ts)
    ensures i < |s|
    ensures if ts[0].Blank? then ReadAt(s, i) == Gap && Spells(s, i + 1, ts[1..])
            else ReadAt(s, i) == Piece(i + |Render(ts[0])|, Text(ts[0])) && Spells(s, i + |Render(ts[0])|, ts[1..])
  {
    TwoParts(s, i, Render(ts[0]), RenderLine(ts[1..]), RenderLine(ts));
    ReadToken(s, i, ts[0]);
  }

  lemma TwoParts(s: string, i: nat, a: string, b: string, whole: string)
    requires whole == a + b && At(s, i, whole)
    ensures At(s, i, a) && At(s, i + |a|, b) && |whole| == |a| + |b|
  {
    AtSplit(s, i, a, b);
  }

  lemma {:induction false} ScanReads(s: string, i: nat, ts: seq<Token>, cur: string, started: bool)
    requires Spells(s, i, ts) && (!started ==> cur == "")
    ensures Scan(s, i, cur, started) == Words(WordsFrom(ts, cur, started))
    decreases |ts|
  {
    if ts != [] {
      FirstRead(s, i, ts);
      if ts[0].Blank? {
        ScanReads(s, i + 1, ts[1..], "", false);
      } else {
        ScanReads(s, ReadAt(s, i).next, ts[1..], cur + Text(ts[0]), true);
      }
      ReadsOn(s, i, ts, cur, started);
    }
  }

  lemma ReadsOn(s: string, i: nat, ts: seq<Token>, cur: string, started: bool)
    requires i < |s| && ts != []
    requires if ts[0].Blank?
             then ReadAt(s, i).Gap? && Scan(s, i + 1, "", false) == Words(WordsFrom(ts[1..], "", false))
             else
               var word := cur + Text(ts[0]);
               && ReadAt(s, i).Piece? && ReadAt(s, i).text == Text(ts[0])
               && Scan(s, ReadAt(s, i).next, word, true) == Words(WordsFrom(ts[1..], word, true))
    ensures Scan(s, i, cur, started) == Words(WordsFrom(ts, cur, started))
  {
    if ts[0].Blank? { ScanGap(s, i, cur, started); } else { ScanPiece(s, i, cur, started); }
  }

  /** What the scanner does with what it reads. */
  lemma ScanGap(s: string, i: nat, cur: string, started: bool)
    requires i < |s| && ReadAt(s, i).Gap?
    ensures Scan(s, i, cur, started) == Prepend(if started then [cur] else [], Scan(s, i + 1, "", false))
  {}

  lemma ScanPiece(s: string, i: nat, cur: string, started: bool)
    requires i < |s| && ReadAt(s, i).Piece?
    ensures Scan(s, i, cur, started) == Scan(s, ReadAt(s, i).next, cur + ReadAt(s, i).text, true)
  {}

  lemma FirstOfWord(ts: seq<Token>)
    requires ts != [] && !ts[0].Blank?
    ensures var n := WordLength(ts[1..]);
            && WordLength(ts) == n + 1 && ts[n + 1..] == ts[1..][n..]
            && TextOf(ts[..n + 1]) == Text(ts[0]) + TextOf(ts[1..][..n])
  {
    var n := WordLength(ts[1..]);
    assert ts[..n + 1][1..] == ts[1..][..n];
  }

  lemma {:induction false} WordsAfter(ts: seq<Token>, cur: string)
    ensures var n := WordLength(ts); WordsFrom(ts, cur, true) == [cur + TextOf(ts[..n])] + Meaning(ts[n..])
    decreases |ts|
  {
    if ts == [] || ts[0].Blank? {
      assert ts[..0] == [] && ts[0..] == ts && cur + "" == cur;
      if ts != [] { WordsFromMeans(ts[1..]); }
    } else {
      WordsAfter(ts[1..], cur + Text(ts[0]));
      FirstOfWord(ts);
      ConcatAssociates(cur, Text(ts[0]), TextOf(ts[1..][..WordLength(ts[1..])]));
    }
  }

  /** The words are the maximal runs of non-blank tokens. */
  lemma {:induction false} WordsFromMeans(ts: seq<Token>)
    ensures WordsFrom(ts, "", false) == Meaning(ts)
    decreases |ts|
  {
    if ts != [] && ts[0].Blank? {
      WordsFromMeans(ts[1..]);
    } else if ts != [] {
      WordsAfter(ts[1..], "" + Text(ts[0]));
      FirstOfWord(ts);
      assert "" + Text(ts[0]) == Text(ts[0]);
    }
  }

  /** Every derivation of s makes the scanner answer its meaning. */
  lemma ScanComplete(s: string, ts: seq<Token>)
    requires ValidLine(ts) && RenderLine(ts) == s
    ensures Scan(s, 0, "", false) == Words(Meaning(ts))
  {
    assert At(s, 0, s);
    ScanReads(s, 0, ts, "", false);
    WordsFromMeans(ts);
  }

  lemma {:induction false} ItemsOf(s: string, i: nat) returns (items: seq<Quoted>)
    requires i <= |s| && DoubleFrom(s, i).0 < |s|
    ensures ValidItems(items) && RenderItems(items) == s[i..DoubleFrom(s, i).0 + 1]
    decreases |s| - i
  {
    if s[i] == '"' {
      items := [];
    } else if s[i] == '\\' && i + 1 < |s| && Escapable(s[i + 1]) {
      var rest := ItemsOf(s, i + 2);
      items := [Slashed(s[i + 1])] + rest;
      assert items[1..] == rest;
    } else {
      var rest := ItemsOf(s, i + 1);
      items := [Plain(s[i])] + rest;
      assert items[1..] == rest;
      assert RenderItems(rest)[0] == s[i + 1];
    }
  }

  lemma AtBetween(s: string, i: nat, j: nat)
    requires i < j < |s|
    ensures At(s, i, [s[i]] + s[i + 1..j] + [s[j]])
    ensures At(s, i, [s[i]] + s[i + 1..j + 1])
  {
    assert s[i..j + 1] == [s[i]] + s[i + 1..j] + [s[j]];
    assert s[i..j + 1] == [s[i]] + s[i + 1..j + 1];
  }

  lemma AtJoin(s: string, i: nat, a: string, b: string)
    requires At(s, i, a) && s[i + |a|..] == b
    ensures s[i..] == a + b
  {
    assert s[i..] == s[i..i + |a|] + s[i + |a|..];
  }

  lemma SingleSound(s: string, i: nat)
    requires i < |s| && s[i] == '\'' && !ReadAt(s, i).Fault?
    ensures var t := Single(s[i + 1..QuoteEnd(s, i + 1)]);
            ValidToken(t) && At(s, i, Render(t)) && i + |Render(t)| == ReadAt(s, i).next && !ReadAt(s, i).Gap?
  {
    AtBetween(s, i, QuoteEnd(s, i + 1));
  }

  lemma DoubleSound(s: string, i: nat) returns (t: Token)
    requires i < |s| && s[i] == '"' && !ReadAt(s, i).Fault?
    ensures t.Double? && ValidToken(t) && At(s, i, Render(t)) && i + |Render(t)| == ReadAt(s, i).next
            && !ReadAt(s, i).Gap?
  {
    var items := ItemsOf(s, i + 1);
    AtBetween(s, i, DoubleFrom(s, i + 1).0);
    t := Double(items);
  }

  /** What is read at a position is a token of the grammar. */
  lemma ReadSound(s: string, i: nat) returns (t: Token)
    requires i < |s| && !ReadAt(s, i).Fault?
    ensures ValidToken(t) && At(s, i, Render(t)) && t.Blank? == ReadAt(s, i).Gap?
    ensures i + |Render(t)| == if t.Blank? then i + 1 else ReadAt(s, i).next
  {
    if s[i] == '\'' {
      SingleSound(s, i);
      t := Single(s[i + 1..QuoteEnd(s, i + 1)]);
    } else if s[i] == '"' {
      t := DoubleSound(s, i);
    } else if s[i] == '\\' {
      t := Escaped(s[i + 1]);
    } else if IsBlank(s[i]) {
      t := Blank(s[i]);
    } else {
      t := Bare(s[i]);
    }
  }

  /** A text the scanner accepts has a derivation. */
  lemma {:induction false} ScanSound(s: string, i: nat, cur: string, started: bool) returns (ts: seq<Token>)
    requires i <= |s| && Scan(s, i, cur, started).Words?
    ensures ValidLine(ts) && RenderLine(ts) == s[i..]
    decreases |s| - i
  {
    if i == |s| {
      ts := [];
    } else {
      var t := ReadSound(s, i);
      var rest;
      if t.Blank? {
        rest := ScanSound(s, i + 1, "", false);
      } else {
        rest := ScanSound(s, ReadAt(s, i).next, cur + ReadAt(s, i).text, true);
      }
      ts := [t] + rest;
      assert ts[1..] == rest;
      AtJoin(s, i, Render(t), RenderLine(rest));
    }
  }

  /** The scanner accepts exactly the lines that have a derivation, and answers
      the meaning of every derivation. */
  lemma ScanDecides(s: string)
    ensures forall ts :: ValidLine(ts) && RenderLine(ts) == s ==> Scan(s, 0, "", false) == Words(Meaning(ts))
    ensures Scan(s, 0, "", false).Words? ==> exists ts :: ValidLine(ts) && RenderLine(ts) == s
  {
    forall ts | ValidLine(ts) && RenderLine(ts) == s ensures Scan(s, 0, "", false) == Words(Meaning(ts)) {
      ScanComplete(s, ts);
    }
    if Scan(s, 0, "", false).Words? {
      var ts := ScanSound(s, 0, "", false);
      assert s[0..] == s;
    }
  }

  // ---- The method ----

  lemma PrependTwice(a: seq<string>, b: seq<string>, r: SplitResult)
    ensures Prepend(a, Prepend(b, r)) == Prepend(a + b, r)
  {
    if r.Words? { assert a + (b + r.words) == a + b + r.words; }
  }

  /** SplitShell's loop over single-quoted text. */
  method SingleEnd(s: string, i: nat) returns (j: nat)
    requires i <= |s|
    ensures j == QuoteEnd(s, i)
  {
    j := i;
    while j < |s| && s[j] != '\''
      invariant i <= j <= |s|
      invariant QuoteEnd(s, i) == QuoteEnd(s, j)
    {
      j := j + 1;
    }
  }

  /** SplitShell's loop over double-quoted text, appending to the word. */
  method DoubleEnd(s: string, i: nat, cur: string) returns (j: nat, word: string)
    requires i <= |s|
    ensures j == DoubleFrom(s, i).0
    ensures word == cur + DoubleFrom(s, i).1
  {
    j, word := i, cur;
    while j < |s| && s[j] != '"'
      invariant i <= j <= |s|
      invariant DoubleFrom(s, i).0 == DoubleFrom(s, j).0
      invariant cur + DoubleFrom(s, i).1 == word + DoubleFrom(s, j).1
    {
      if s[j] == '\\' && j + 1 < |s| && Escapable(s[j + 1]) {
        j := j + 1;
      }
      word := word + [s[j]];
      j := j + 1;
    }
  }

  /** A blank ends the word begun, if one was. */
  method EndWord(s: string, i: nat, out: seq<string>, cur: string, started: bool) returns (words: seq<string>)
    requires i < |s| && IsBlank(s[i]) && (!started ==> cur == "")
    ensures Prepend(words, Scan(s, i + 1, "", false)) == Prepend(out, Scan(s, i, cur, started))
  {
    words := out;
    if started {
      PrependTwice(out, [cur], Scan(s, i + 1, "", false));
      words := out + [cur];
    }
  }

  /** extcmd.go: SplitShell. */
  method SplitShell(s: string) returns (r: SplitResult)
    ensures r == Scan(s, 0, "", false)
  {
    ghost var all := Scan(s, 0, "", false);
    var out: seq<string> := [];
    var cur, started := "", false;
    var i := 0;
    while i < |s|
      invariant 0 <= i <= |s|
      invariant !started ==> cur == ""
      invariant all == Prepend(out, Scan(s, i, cur, started))
    {
      var c := s[i];
      if c == '\'' {
        var j := SingleEnd(s, i + 1);
        if j == |s| {
          return Unbalanced('\'');
        }
        ScanPiece(s, i, cur, started);
        cur, i, started := cur + s[i + 1..j], j, true;
      } else if c == '"' {
        var j, word := DoubleEnd(s, i + 1, cur);
        if j == |s| {
          return Unbalanced('"');
        }
        ScanPiece(s, i, cur, started);
        cur, i, started := word, j, true;
      } else if c == '\\' {
        if i + 1 == |s| {
          return TrailingBackslash;
        }
        ScanPiece(s, i, cur, started);
        i := i + 1;
        cur, started := cur + [s[i]], true;
      } else if IsBlank(c) {
        out := EndWord(s, i, out, cur, started);
        cur, started := "", false;
      } else {
        ScanPiece(s, i, cur, started);
        cur, started := cur + [c], true;
      }
      i := i + 1;
    }
    if started {
      out := out + [cur];
    }
    return Words(out);
  }

  // ---- Quoting ----

  function ReplaceChar(s: string, c: char, with: string): string {
    if s == "" then "" else (if s[0] == c then with else [s[0]]) + ReplaceChar(s[1..], c, with)
  }

  /** exec.go: shellQuote. */
  function ShellQuote(s: string): string {
    "'" + ReplaceChar(s, '\'', "'\\''") + "'"
  }

  function JoinWith(ws: seq<string>, sep: string): string {
    if |ws| == 0 then "" else if |ws| == 1 then ws[0] else ws[0] + sep + JoinWith(ws[1..], sep)
  }

  /** The quoted form, once its opening quote and before are taken off, as tokens. */
  function QuoteTokens(before: string, s: string): seq<Token>
    decreases |s|
  {
    if s == "" then [Single(before)]
    else if s[0] == '\'' then [Single(before), Escaped('\'')] + QuoteTokens("", s[1..])
    else QuoteTokens(before + [s[0]], s[1..])
  }

  lemma {:induction false} QuoteTokensMean(before: string, s: string)
    requires '\'' !in before
    ensures ValidLine(QuoteTokens(before, s))
    ensures forall t :: t in QuoteTokens(before, s) ==> !t.Blank?
    ensures QuoteTokens(before, s) != []
    ensures TextOf(QuoteTokens(before, s)) == before + s
    decreases |s|
  {
    var ts := QuoteTokens(before, s);
    if s == "" {
      assert ts[1..] == [];
    } else if s[0] == '\'' {
      QuoteTokensMean("", s[1..]);
      var rest := QuoteTokens("", s[1..]);
      assert ts[1..] == [Escaped('\'')] + rest && ts[1..][1..] == rest;
      assert TextOf(ts) == before + (['\''] + s[1..]);
      assert ['\''] + s[1..] == s;
    } else {
      QuoteTokensMean(before + [s[0]], s[1..]);
      ConcatAssociates(before, [s[0]], s[1..]);
    }
  }

  lemma RenderQuote(before: string, rest: seq<Token>)
    ensures RenderLine([Single(before), Escaped('\'')] + rest) == "'" + before + "'" + ("\\'" + RenderLine(rest))
  {
    var ts := [Single(before), Escaped('\'')] + rest;
    assert ts[1..] == [Escaped('\'')] + rest && ts[1..][1..] == rest;
  }

  lemma QuoteText(before: string, more: string)
    ensures "'" + before + "'" + ("\\'" + ("'" + "" + (more + "'"))) == "'" + before + ("'\\''" + more + "'")
  {
    ConcatAssociates("'" + before, "'", "\\'" + ("'" + "" + (more + "'")));
    assert "'" + ("\\'" + ("'" + "" + (more + "'"))) == "'\\''" + more + "'";
  }

  lemma PlainText(before: string, c: char, more: string)
    ensures "'" + (before + [c]) + (more + "'") == "'" + before + ([c] + more + "'")
  {
    var l, r := "'" + (before + [c]) + (more + "'"), "'" + before + ([c] + more + "'");
    assert |l| == |r|;
  }

  lemma {:induction false} QuoteTokensRender(before: string, s: string)
    ensures RenderLine(QuoteTokens(before, s)) == "'" + before + (ReplaceChar(s, '\'', "'\\''") + "'")
    decreases |s|
  {
    if s == "" {
      assert QuoteTokens(before, s)[1..] == [];
    } else {
      var more := ReplaceChar(s[1..], '\'', "'\\''");
      if s[0] == '\'' {
        QuoteTokensRender("", s[1..]);
        RenderQuote(before, QuoteTokens("", s[1..]));
        QuoteText(before, more);
      } else {
        QuoteTokensRender(before + [s[0]], s[1..]);
        PlainText(before, s[0], more);
      }
    }
  }

  /** A command line of quoted words, as tokens. */
  function LineTokens(ws: seq<string>): seq<Token> {
    if |ws| == 0 then []
    else if |ws| == 1 then QuoteTokens("", ws[0])
    else QuoteTokens("", ws[0]) + [Blank(' ')] + LineTokens(ws[1..])
  }

  lemma {:induction false} RenderAppend(a: seq<Token>, b: seq<Token>)
    ensures RenderLine(a + b) == RenderLine(a) + RenderLine(b)
  {
    if a == [] {
      assert a + b == b;
    } else {
      assert (a + b)[1..] == a[1..] + b;
      RenderAppend(a[1..], b);
    }
  }

  lemma {:induction false} WordLengthAt(ts: seq<Token>, n: nat)
    requires n <= |ts| && forall i :: 0 <= i < n ==> !ts[i].Blank?
    requires n < |ts| ==> ts[n].Blank?
    ensures WordLength(ts) == n
  {
    if n > 0 { WordLengthAt(ts[1..], n - 1); }
  }

  function QuoteAll(ws: seq<string>): seq<string> {
    seq(|ws|, i requires 0 <= i < |ws| => ShellQuote(ws[i]))
  }

  lemma {:induction false} LineTokensRender(ws: seq<string>)
    ensures RenderLine(LineTokens(ws)) == JoinWith(QuoteAll(ws), " ")
  {
    if |ws| > 0 {
      var q := QuoteTokens("", ws[0]);
      QuoteTokensRender("", ws[0]);
      assert RenderLine(q) == ShellQuote(ws[0]);
      if |ws| > 1 {
        var rest := LineTokens(ws[1..]);
        LineTokensRender(ws[1..]);
        assert QuoteAll(ws)[1..] == QuoteAll(ws[1..]);
        RenderAppend(q + [Blank(' ')], rest);
        RenderAppend(q, [Blank(' ')]);
        assert RenderLine([Blank(' ')]) == " " by { assert [Blank(' ')][1..] == []; }
      }
    }
  }

  /** A word's tokens, then what follows them. */
  lemma WordThen(q: seq<Token>, more: seq<Token>, w: string, ws: seq<string>)
    requires q != [] && TextOf(q) == w && forall t :: t in q ==> !t.Blank?
    requires (more == [] && ws == []) || (more != [] && more[0].Blank? && Meaning(more) == ws)
    ensures Meaning(q + more) == [w] + ws
  {
    var ts := q + more;
    WordLengthAt(ts, |q|);
    assert ts[..|q|] == q && ts[|q|..] == more;
  }

  lemma ValidThen(a: seq<Token>, b: seq<Token>)
    requires ValidLine(a) && ValidLine(b)
    ensures ValidLine(a + [Blank(' ')] + b)
  {}

  lemma {:induction false} LineTokensMean(ws: seq<string>)
    ensures ValidLine(LineTokens(ws))
    ensures Meaning(LineTokens(ws)) == ws
  {
    if |ws| > 0 {
      var q := QuoteTokens("", ws[0]);
      QuoteTokensMean("", ws[0]);
      assert "" + ws[0] == ws[0];
      if |ws| == 1 {
        WordThen(q, [], ws[0], []);
        assert q + [] == q && ws == [ws[0]] + [];
      } else {
        var rest := LineTokens(ws[1..]);
        LineTokensMean(ws[1..]);
        ValidThen(q, rest);
        BlankThen(rest);
        WordThen(q, [Blank(' ')] + rest, ws[0], ws[1..]);
        ConcatAssociates(q, [Blank(' ')], rest);
        assert ws == [ws[0]] + ws[1..];
      }
    }
  }

  lemma BlankThen(rest: seq<Token>)
    ensures Meaning([Blank(' ')] + rest) == Meaning(rest)
  {
    assert ([Blank(' ')] + rest)[1..] == rest;
  }

  /** Splitting what quoting joined gives the words back, with no error: any
      words at all, empty ones and ones full of quotes included. */
  lemma QuoteSplitRoundTrip(ws: seq<string>)
    ensures Scan(JoinWith(QuoteAll(ws), " "), 0, "", false) == Words(ws)
  {
    LineTokensMean(ws);
    LineTokensRender(ws);
    ScanComplete(JoinWith(QuoteAll(ws), " "), LineTokens(ws));
  }
}
