/** Lines and columns of the occurrences of a symbol: they come out sorted and without duplicates. */
module LocalPositions {
  import opened LocalSymbols

  // Lines and columns -------------------------------------------------------------------------

  datatype Occurrence = Occurrence(name: seq<char>, line: nat, column: nat, endColumn: nat)

  /** The line breaks before a position. */
  function BreaksBefore(source: seq<char>, offset: nat): nat
    requires offset <= |source|
  {
    if offset == 0 then 0 else BreaksBefore(source, offset - 1) + if source[offset - 1] == '\n' then 1 else 0
  }

  /** Where the line of a position starts. */
  function LineStart(source: seq<char>, offset: nat): (start: nat)
    requires offset <= |source|
    ensures start <= offset && forall k | start <= k < offset :: source[k] != '\n'
    ensures start > 0 ==> source[start - 1] == '\n'
  {
    if offset == 0 || source[offset - 1] == '\n' then offset else LineStart(source, offset - 1)
  }

  /** UTF-16 code units. */
  function Units(text: seq<char>): nat {
    if text == [] then 0 else Units(text[..|text| - 1]) + if text[|text| - 1] as int >= 0x1_0000 then 2 else 1
  }

  function Locate(source: seq<char>, t: Range): Occurrence
    requires t.start <= t.end <= |source|
  {
    var start := LineStart(source, t.start);
    Occurrence(source[t.start..t.end], BreaksBefore(source, t.start) + 1, Units(source[start..t.start]) + 1,
      Units(source[start..t.end]) + 1)
  }

  function LocateAll(source: seq<char>, tokens: seq<Range>): seq<Occurrence>
    requires InBounds(tokens, |source|)
  {
    seq(|tokens|, i requires 0 <= i < |tokens| => assert tokens[i] in tokens; Locate(source, tokens[i]))
  }

  // The table of line starts ------------------------------------------------------------------

  predicate StartsLine(source: seq<char>, k: nat)
    requires k <= |source|
  {
    k == 0 || source[k - 1] == '\n'
  }

  /** The positions at which lines start, in order. */
  predicate IsTable(source: seq<char>, starts: seq<nat>) {
    && (forall i, j | 0 <= i < j < |starts| :: starts[i] < starts[j])
    && (forall k <- starts :: k <= |source| && StartsLine(source, k))
    && (forall k: nat | k <= |source| && StartsLine(source, k) :: k in starts)
  }

  method SourceLineStarts(source: seq<char>) returns (starts: seq<nat>)
    ensures IsTable(source, starts)
  {
    starts := [0];
    for index := 0 to |source|
      invariant forall i, j | 0 <= i < j < |starts| :: starts[i] < starts[j]
      invariant forall k <- starts :: k <= index && StartsLine(source, k)
      invariant forall k: nat | k <= index && StartsLine(source, k) :: k in starts
    {
      if source[index] == '\n' {
        assert StartsLine(source, index + 1) && forall i | 0 <= i < |starts| :: starts[i] in starts;
        starts := starts + [index + 1];
      }
    }
  }

  /** The starts that are not after a position are the first ones. */
  predicate Splits(starts: seq<nat>, offset: nat, n: nat) {
    n <= |starts| && forall i | 0 <= i < |starts| :: starts[i] <= offset <==> i < n
  }

  method PartitionPoint(starts: seq<nat>, offset: nat) returns (n: nat)
    requires forall i, j | 0 <= i < j < |starts| :: starts[i] < starts[j]
    ensures Splits(starts, offset, n)
  {
    var low, high := 0, |starts|;
    while low < high
      invariant low <= high <= |starts|
      invariant forall i | 0 <= i < low :: starts[i] <= offset
      invariant forall i | high <= i < |starts| :: starts[i] > offset
    {
      var middle := (low + high) / 2;
      if starts[middle] <= offset {
        low := middle + 1;
      } else {
        high := middle;
      }
    }
    n := low;
  }

  lemma {:induction false} GrowsAtLeast(starts: seq<nat>, i: nat)
    requires i < |starts| && forall i, j | 0 <= i < j < |starts| :: starts[i] < starts[j]
    ensures starts[i] >= i
  {
    if i > 0 {
      GrowsAtLeast(starts, i - 1);
    }
  }

  /** The table finds the line of a position: its number and its start. */
  lemma {:induction false} TableFindsLine(source: seq<char>, starts: seq<nat>, offset: nat, n: nat)
    requires IsTable(source, starts) && offset <= |source| && Splits(starts, offset, n)
    ensures n == BreaksBefore(source, offset) + 1 && starts[n - 1] == LineStart(source, offset)
  {
    if StartsLine(source, offset) {
      assert offset in starts;
      var m :| 0 <= m < |starts| && starts[m] == offset;
      assert m < n && starts[n - 1] <= offset;
      if offset > 0 {
        assert Splits(starts, offset - 1, n - 1);
        TableFindsLine(source, starts, offset - 1, n - 1);
      } else {
        GrowsAtLeast(starts, n - 1);
      }
    } else {
      assert offset !in starts;
      assert Splits(starts, offset - 1, n) by {
        forall i | 0 <= i < |starts| ensures starts[i] <= offset - 1 <==> i < n {
          assert starts[i] in starts;
        }
      }
      TableFindsLine(source, starts, offset - 1, n);
    }
  }

  method LocateWith(source: seq<char>, starts: seq<nat>, t: Range) returns (r: Occurrence)
    requires IsTable(source, starts) && t.start <= t.end <= |source|
    ensures r == Locate(source, t)
  {
    var n := PartitionPoint(starts, t.start);
    TableFindsLine(source, starts, t.start, n);
    var start := starts[n - 1];
    r := Occurrence(source[t.start..t.end], n, Units(source[start..t.start]) + 1, Units(source[start..t.end]) + 1);
  }

  // Order -------------------------------------------------------------------------------------

  predicate Before(x: Occurrence, y: Occurrence) {
    x.line < y.line || (x.line == y.line && x.column < y.column)
  }

  lemma {:induction false} UnitsGrow(source: seq<char>, start: nat, a: nat, b: nat)
    requires start <= a < b <= |source|
    ensures Units(source[start..a]) < Units(source[start..b])
    decreases b
  {
    assert source[start..b][..b - start - 1] == source[start..b - 1];
    if a < b - 1 {
      UnitsGrow(source, start, a, b - 1);
    }
  }

  /** What comes later in the text comes later by line and column. */
  lemma {:induction false} LaterIsAfter(source: seq<char>, a: nat, b: nat)
    requires a < b <= |source|
    ensures BreaksBefore(source, a) <= BreaksBefore(source, b)
    ensures BreaksBefore(source, a) == BreaksBefore(source, b) ==> LineStart(source, a) == LineStart(source, b)
  {
    if a < b - 1 {
      LaterIsAfter(source, a, b - 1);
    }
  }

  lemma LocatedInOrder(source: seq<char>, s: Range, t: Range)
    requires s.start <= s.end <= |source| && t.start <= t.end <= |source| && s.start < t.start
    ensures Before(Locate(source, s), Locate(source, t))
  {
    LaterIsAfter(source, s.start, t.start);
    if BreaksBefore(source, s.start) == BreaksBefore(source, t.start) {
      UnitsGrow(source, LineStart(source, s.start), s.start, t.start);
    }
  }

  predicate InOrder(xs: seq<Occurrence>) {
    forall i, j | 0 <= i < j < |xs| :: Before(xs[i], xs[j])
  }

  /** The stable sort by line and column. */
  function Insert(xs: seq<Occurrence>, x: Occurrence): seq<Occurrence> {
    if xs == [] then [x]
    else if Before(x, xs[|xs| - 1]) then Insert(xs[..|xs| - 1], x) + [xs[|xs| - 1]]
    else xs + [x]
  }

  function SortByPosition(xs: seq<Occurrence>): seq<Occurrence> {
    if xs == [] then [] else Insert(SortByPosition(xs[..|xs| - 1]), xs[|xs| - 1])
  }

  /** Drops what equals its predecessor. */
  function Dedup(xs: seq<Occurrence>): seq<Occurrence> {
    if |xs| < 2 then xs
    else Dedup(xs[..|xs| - 1]) + if xs[|xs| - 2] == xs[|xs| - 1] then [] else [xs[|xs| - 1]]
  }

  /** Occurrences in order are not moved by sorting, and none is dropped. */
  lemma {:induction false} NothingToSort(xs: seq<Occurrence>)
    requires InOrder(xs)
    ensures SortByPosition(xs) == xs && Dedup(xs) == xs
  {
    if xs != [] {
      var front := xs[..|xs| - 1];
      NothingToSort(front);
      assert xs == front + [xs[|xs| - 1]];
      if front != [] {
        assert Before(xs[|xs| - 2], xs[|xs| - 1]) && front[|front| - 1] == xs[|xs| - 2];
      }
    }
  }

  predicate Ascending(tokens: seq<Range>) {
    forall i, j | 0 <= i < j < |tokens| :: tokens[i].start < tokens[j].start
  }

  lemma {:induction false} OccurrencesAscend(source: seq<char>, mask: seq<char>, drafts: seq<Draft>,
      expressions: seq<Range>, tokens: seq<Range>, i: nat)
    requires |mask| == |source| && InBounds(tokens, |source|) && Ascending(tokens)
    ensures var found := Occurrences(source, mask, drafts, expressions, tokens, i);
            Ascending(found) && forall t <- found :: t in tokens
  {
    if tokens != [] {
      var front, last := tokens[..|tokens| - 1], tokens[|tokens| - 1];
      assert forall t <- front :: t in tokens;
      OccurrencesAscend(source, mask, drafts, expressions, front, i);
      FrontIsBelow(tokens);
      AscendingAppend(Occurrences(source, mask, drafts, expressions, front, i), last);
    }
  }

  lemma FrontIsBelow(tokens: seq<Range>)
    requires tokens != [] && Ascending(tokens)
    ensures forall t <- tokens[..|tokens| - 1] :: t.start < tokens[|tokens| - 1].start
  {
  }

  lemma AscendingAppend(tokens: seq<Range>, last: Range)
    requires Ascending(tokens) && forall t <- tokens :: t.start < last.start
    ensures Ascending(tokens + [last]) && tokens + [] == tokens
  {
  }

  lemma LocatedAreInOrder(source: seq<char>, tokens: seq<Range>)
    requires InBounds(tokens, |source|) && Ascending(tokens)
    ensures InOrder(LocateAll(source, tokens))
  {
    var xs := LocateAll(source, tokens);
    forall i, j | 0 <= i < j < |xs| ensures Before(xs[i], xs[j]) {
      assert tokens[i] in tokens && tokens[j] in tokens;
      LocatedInOrder(source, tokens[i], tokens[j]);
    }
  }

  // Symbols -----------------------------------------------------------------------------------

  datatype Symbol = Symbol(name: seq<char>, declaration: Occurrence, occurrences: seq<Occurrence>, scope: Range)

  /** The symbol of a draft has its tokens as occurrences, each where it stands, in the order of the text. */
  ghost predicate IsSymbolOf(source: seq<char>, mask: seq<char>, drafts: seq<Draft>, expressions: seq<Range>,
      tokens: seq<Range>, i: nat, symbol: Symbol)
    requires |mask| == |source| && InBounds(tokens, |source|) && i < |drafts|
    requires drafts[i].declaration.start <= drafts[i].declaration.end <= |source|
  {
    && symbol.name == drafts[i].name && symbol.scope == drafts[i].scope
    && symbol.declaration == Locate(source, drafts[i].declaration)
    && var found := Occurrences(source, mask, drafts, expressions, tokens, i);
       InBounds(found, |source|) && symbol.occurrences == LocateAll(source, found) && InOrder(symbol.occurrences)
  }

  lemma TokensAscend(mask: seq<char>, tokens: seq<Range>)
    requires forall t <- tokens :: IsToken(mask, t)
    requires forall i, j | 0 <= i < j < |tokens| :: tokens[i].end <= tokens[j].start
    ensures Ascending(tokens)
  {
    forall i, j | 0 <= i < j < |tokens| ensures tokens[i].start < tokens[j].start {
      assert IsToken(mask, tokens[i]) && tokens[i].end <= tokens[j].start;
    }
  }

  method LocateSymbols(source: seq<char>, mask: seq<char>, drafts: seq<Draft>, expressions: seq<Range>)
    returns (tokens: seq<Range>, symbols: seq<Symbol>)
    requires |mask| == |source|
    requires forall d <- drafts :: d.declaration.start <= d.declaration.end <= |source|
    ensures InBounds(tokens, |source|) && (forall t <- tokens :: IsToken(mask, t))
    ensures forall i | 0 <= i < |mask| && IsStart(mask[i]) :: InSomeToken(tokens, i)
    ensures |symbols| == |drafts|
    ensures forall i | 0 <= i < |drafts| :: IsSymbolOf(source, mask, drafts, expressions, tokens, i, symbols[i])
  {
    var starts := SourceLineStarts(source);
    var resolved;
    tokens, resolved := ResolveDrafts(source, mask, drafts, expressions);
    TokensAscend(mask, tokens);
    symbols := [];
    for i := 0 to |drafts|
      invariant |symbols| == i
      invariant forall k | 0 <= k < i :: IsSymbolOf(source, mask, drafts, expressions, tokens, k, symbols[k])
    {
      assert drafts[i] in drafts;
      var symbol := LocateSymbol(source, mask, drafts, expressions, starts, tokens, i, resolved[i]);
      symbols := symbols + [symbol];
    }
  }

  /** One symbol, from the tokens that belong to its draft. */
  method LocateSymbol(source: seq<char>, ghost mask: seq<char>, drafts: seq<Draft>, ghost expressions: seq<Range>,
      starts: seq<nat>, ghost tokens: seq<Range>, i: nat, found: seq<Range>)
    returns (symbol: Symbol)
    requires |mask| == |source| && IsTable(source, starts) && i < |drafts|
    requires drafts[i].declaration.start <= drafts[i].declaration.end <= |source|
    requires InBounds(tokens, |source|) && Ascending(tokens)
    requires found == Occurrences(source, mask, drafts, expressions, tokens, i)
    ensures IsSymbolOf(source, mask, drafts, expressions, tokens, i, symbol)
  {
    OccurrencesAscend(source, mask, drafts, expressions, tokens, i);
    var declaration := LocateWith(source, starts, drafts[i].declaration);
    var occurrences := LocateEach(source, starts, found);
    symbol := Symbol(drafts[i].name, declaration, occurrences, drafts[i].scope);
  }

  /** Locates tokens, sorts what it got by position and drops duplicates, which changes nothing. */
  method LocateEach(source: seq<char>, starts: seq<nat>, tokens: seq<Range>) returns (r: seq<Occurrence>)
    requires IsTable(source, starts) && InBounds(tokens, |source|) && Ascending(tokens)
    ensures r == LocateAll(source, tokens) && InOrder(r)
  {
    r := [];
    for i := 0 to |tokens|
      invariant r == LocateAll(source, tokens)[..i]
    {
      assert tokens[i] in tokens;
      var x := LocateWith(source, starts, tokens[i]);
      r := r + [x];
    }
    LocatedAreInOrder(source, tokens);
    NothingToSort(r);
    r := Dedup(SortByPosition(r));
  }

  // UTF-16 ------------------------------------------------------------------------------------

  /** A character in UTF-16: one unit, or the two surrogates of one beyond the first plane. */
  function Encoded(c: char): seq<nat> {
    var n := c as int;
    if n < 0x1_0000 then [n] else [0xd800 + (n - 0x1_0000) / 0x400, 0xdc00 + (n - 0x1_0000) % 0x400]
  }

  function EncodedAll(text: seq<char>): seq<nat> {
    if text == [] then [] else Encoded(text[0]) + EncodedAll(text[1..])
  }

  /** The code points that units stand for; two surrogates stand for one. */
  function Decoded(units: seq<nat>): seq<int> {
    if units == [] then []
    else if |units| > 1 && 0xd800 <= units[0] < 0xdc00 && 0xdc00 <= units[1] < 0xe000 then
      [0x1_0000 + (units[0] - 0xd800) * 0x400 + (units[1] - 0xdc00)] + Decoded(units[2..])
    else [units[0]] + Decoded(units[1..])
  }

  lemma DecodesFirst(c: char, rest: seq<nat>)
    ensures Decoded(Encoded(c) + rest) == [c as int] + Decoded(rest)
  {
    var units := Encoded(c) + rest;
    if c as int < 0x1_0000 {
      assert units[0] == c as int && units[1..] == rest;
    } else {
      assert units[0] == Encoded(c)[0] && units[1] == Encoded(c)[1] && units[2..] == rest;
    }
  }

  /** The units of a text can be read back, and they are as many as are counted. */
  lemma {:induction false} UnitsExactly(text: seq<char>)
    ensures Units(text) == |EncodedAll(text)|
    ensures Decoded(EncodedAll(text)) == seq(|text|, i requires 0 <= i < |text| => text[i] as int)
  {
    if text != [] {
      UnitsExactly(text[1..]);
      DecodesFirst(text[0], EncodedAll(text[1..]));
      UnitsFirst(text);
    }
  }

  lemma {:induction false} UnitsFirst(text: seq<char>)
    requires text != []
    ensures Units(text) == |Encoded(text[0])| + Units(text[1..])
  {
    var last := |text| - 1;
    if last > 0 {
      UnitsFirst(text[..last]);
      assert text[..last][1..] == text[1..][..last - 1] && text[1..][last - 1] == text[last];
    } else {
      assert text[..0] == [] && text[1..] == [];
    }
  }
}
