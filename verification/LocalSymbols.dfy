/** Which declaration a name refers to: a search over flat ranges that agrees with a stack of scopes. */
module LocalSymbols {
  import opened Text
  import CodeSegments

  type Segment = CodeSegments.Segment

  // The code mask -----------------------------------------------------------------------------

  /** What the bytes from a position on belong to. */
  datatype Region = Code | LineComment | BlockComment | Quoted(delimiter: char, escaped: bool)

  predicate IsBreak(c: char) {
    c == '\n' || c == '\r'
  }

  predicate IsPair(s: seq<char>, i: nat, first: char, second: char) {
    i + 1 < |s| && s[i] == first && s[i + 1] == second
  }

  predicate IsDelimiter(c: char) {
    c == '\'' || c == '"' || c == '`'
  }

  /** How many bytes are taken together, whether they are blanked, and what comes after. */
  datatype Move = Move(length: nat, blank: bool, next: Region)

  function Step(s: seq<char>, i: nat, region: Region): (m: Move)
    requires i < |s|
    ensures 0 < m.length && i + m.length <= |s|
  {
    match region
    case BlockComment => if IsPair(s, i, '*', '/') then Move(2, true, Code) else Move(1, true, BlockComment)
    case LineComment => if IsBreak(s[i]) then Move(1, false, Code) else Move(1, true, LineComment)
    case Quoted(delimiter, escaped) =>
      Move(1, true, if escaped then Quoted(delimiter, false)
                    else if s[i] == '\\' then Quoted(delimiter, true)
                    else if s[i] == delimiter then Code
                    else region)
    case Code =>
      if IsPair(s, i, '/', '/') then Move(1, true, LineComment)
      else if IsPair(s, i, '/', '*') then Move(2, true, BlockComment)
      else if IsDelimiter(s[i]) then Move(1, true, Quoted(s[i], false))
      else Move(1, false, Code)
  }

  /** The byte that the mask has in place of a blanked one. */
  function Blanked(c: char): char {
    if IsBreak(c) then c else ' '
  }

  function MaskFrom(s: seq<char>, i: nat, region: Region): (r: seq<char>)
    requires i <= |s|
    ensures |r| == |s| - i
    decreases |s| - i
  {
    if i == |s| then []
    else
      var m := Step(s, i, region);
      Taken(s, i, m) + MaskFrom(s, i + m.length, m.next)
  }

  function Taken(s: seq<char>, i: nat, m: Move): (r: seq<char>)
    requires i + m.length <= |s|
    ensures |r| == m.length
    ensures forall k | 0 <= k < m.length :: r[k] == if m.blank then Blanked(s[i + k]) else s[i + k]
  {
    seq(m.length, k requires 0 <= k < m.length => if m.blank then Blanked(s[i + k]) else s[i + k])
  }

  function Mask(s: seq<char>): (r: seq<char>)
    ensures |r| == |s|
  {
    MaskFrom(s, 0, Code)
  }

  /** What the mask holds is the source, or a blank; line breaks always stay. */
  lemma {:induction false} MaskShowsSource(s: seq<char>, i: nat, region: Region)
    requires i <= |s|
    ensures forall k | 0 <= k < |s| - i ::
              var c := MaskFrom(s, i, region)[k];
              c == s[i + k] || (c == ' ' && !IsBreak(s[i + k]))
    decreases |s| - i
  {
    if i < |s| {
      var m := Step(s, i, region);
      MaskShowsSource(s, i + m.length, m.next);
      forall k | 0 <= k < |s| - i
        ensures var c := MaskFrom(s, i, region)[k]; c == s[i + k] || (c == ' ' && !IsBreak(s[i + k]))
      {
        if k >= m.length {
          assert MaskFrom(s, i, region)[k] == MaskFrom(s, i + m.length, m.next)[k - m.length];
          assert i + m.length + (k - m.length) == i + k;
        } else {
          assert MaskFrom(s, i, region)[k] == Taken(s, i, m)[k];
        }
      }
    }
  }

  // Comments and quotes -----------------------------------------------------------------------

  /** What is shown of a piece: code as it is, and of the rest the line breaks between blanks. */
  function Seen(s: seq<char>, code: bool, start: nat, end: nat): (r: seq<char>)
    requires start <= end <= |s|
    ensures |r| == end - start
  {
    seq(end - start, k requires 0 <= k < end - start =>
        if code || s[start + k] in {'\n', '\r'} then s[start + k] else ' ')
  }

  lemma SameMarks(s: seq<char>, i: nat)
    requires i < |s|
    ensures CodeSegments.Shows(s, i, "//") <==> IsPair(s, i, '/', '/')
    ensures CodeSegments.Shows(s, i, "/*") <==> IsPair(s, i, '/', '*')
    ensures CodeSegments.Shows(s, i, "*/") <==> IsPair(s, i, '*', '/')
  {
    if i + 1 < |s| {
      assert s[i..i + 2] == [s[i], s[i + 1]];
    }
  }

  lemma SeenGrows(s: seq<char>, code: bool, start: nat, middle: nat, end: nat)
    requires start <= middle <= end <= |s|
    ensures Seen(s, code, start, middle) + Seen(s, code, middle, end) == Seen(s, code, start, end)
  {
  }

  lemma OneStep(s: seq<char>, i: nat, region: Region, code: bool)
    requires i < |s|
    requires var m := Step(s, i, region); if code then !m.blank else m.blank || s[i] in {'\n', '\r'}
    requires !code ==> Step(s, i, region).blank || Step(s, i, region).length == 1
    ensures var m := Step(s, i, region);
            MaskFrom(s, i, region) == Seen(s, code, i, i + m.length) + MaskFrom(s, i + m.length, m.next)
  {
    var m := Step(s, i, region);
    assert Taken(s, i, m) == Seen(s, code, i, i + m.length);
  }

  lemma CodeStep(s: seq<char>, i: nat, next: nat)
    requires i < |s| && next == i + 1 && Step(s, i, Code) == Move(1, false, Code)
    ensures MaskFrom(s, i, Code) == Seen(s, true, i, next) + MaskFrom(s, next, Code)
  {
    OneStep(s, i, Code, true);
  }

  lemma {:induction false} CodeIsShown(s: seq<char>, i: nat, end: nat)
    requires i <= end <= |s| && forall k | i <= k < end :: !CodeSegments.StartsOther(s, k)
    ensures MaskFrom(s, i, Code) == Seen(s, true, i, end) + MaskFrom(s, end, Code)
    decreases end - i
  {
    if i < end {
      SameMarks(s, i);
      assert !CodeSegments.StartsOther(s, i);
      assert Step(s, i, Code) == Move(1, false, Code);
      var next := i + 1;
      CodeStep(s, i, next);
      CodeIsShown(s, next, end);
      SeenGrows(s, true, i, next, end);
    }
  }

  lemma {:induction false} LineIsBlank(s: seq<char>, i: nat, end: nat)
    requires i <= end <= |s| && CodeSegments.EndsLine(s, end)
    requires forall k | i <= k < end :: !CodeSegments.EndsLine(s, k)
    ensures MaskFrom(s, i, LineComment) == Seen(s, false, i, end) + MaskFrom(s, end, Code)
    decreases end - i
  {
    if i < end {
      assert !CodeSegments.EndsLine(s, i);
      assert Step(s, i, LineComment) == Move(1, true, LineComment);
      OneStep(s, i, LineComment, false);
      LineIsBlank(s, i + 1, end);
      SeenGrows(s, false, i, i + 1, end);
    } else if end < |s| {
      assert Step(s, end, LineComment) == Move(1, false, Code) == Step(s, end, Code);
    }
  }

  lemma {:induction false} BlockIsBlank(s: seq<char>, i: nat, end: nat, closed: bool)
    requires i <= end <= |s|
    requires if closed then i + 2 <= end && CodeSegments.Shows(s, end - 2, "*/") else end == |s|
    requires forall k | i <= k < (if closed then end - 2 else end) :: !CodeSegments.Shows(s, k, "*/")
    ensures MaskFrom(s, i, BlockComment) == Seen(s, false, i, end) + MaskFrom(s, end, Code)
    decreases end - i
  {
    if i < end {
      SameMarks(s, i);
      OneStep(s, i, BlockComment, false);
      if closed && i == end - 2 {
        assert Step(s, i, BlockComment) == Move(2, true, Code);
      } else {
        assert Step(s, i, BlockComment) == Move(1, true, BlockComment);
        BlockIsBlank(s, i + 1, end, closed);
        SeenGrows(s, false, i, i + 1, end);
      }
    }
  }

  lemma QuoteStep(s: seq<char>, start: nat, i: nat)
    requires start < i < |s| && CodeSegments.StartsQuotes(s, start)
    ensures Step(s, i, Quoted(s[start], CodeSegments.IsEscaped(s, start + 1, i)))
            == Move(1, true, if CodeSegments.ClosesQuotes(s, start, i) then Code
                             else Quoted(s[start], CodeSegments.IsEscaped(s, start + 1, i + 1)))
  {
  }

  lemma {:induction false} QuotesAreBlank(s: seq<char>, start: nat, i: nat, end: nat)
    requires start < i <= end <= |s| && CodeSegments.StartsQuotes(s, start)
    requires forall k | i <= k < end - 1 :: !CodeSegments.ClosesQuotes(s, start, k)
    requires (i <= end - 1 && CodeSegments.ClosesQuotes(s, start, end - 1)) || end == |s|
    ensures MaskFrom(s, i, Quoted(s[start], CodeSegments.IsEscaped(s, start + 1, i)))
            == Seen(s, false, i, end) + MaskFrom(s, end, Code)
    decreases end - i
  {
    var region := Quoted(s[start], CodeSegments.IsEscaped(s, start + 1, i));
    if i < end {
      QuoteStep(s, start, i);
      OneStep(s, i, region, false);
      if CodeSegments.ClosesQuotes(s, start, i) {
        assert i == end - 1;
      } else {
        var next := i + 1;
        QuotesAreBlank(s, start, next, end);
        SeenGrows(s, false, i, next, end);
      }
    }
  }

  lemma LineIsMasked(s: seq<char>, a: nat, b: nat)
    requires a < b <= |s| && CodeSegments.IsLineComment(s, a, b)
    ensures MaskFrom(s, a, Code) == Seen(s, false, a, b) + MaskFrom(s, b, Code)
  {
    LineStarts(s, a);
    OneStep(s, a, Code, false);
    assert !CodeSegments.EndsLine(s, a);
    LineIsBlank(s, a + 1, b);
    SeenGrows(s, false, a, a + 1, b);
  }

  lemma BlockIsMasked(s: seq<char>, a: nat, b: nat)
    requires a < b <= |s| && CodeSegments.IsBlockComment(s, a, b)
    ensures MaskFrom(s, a, Code) == Seen(s, false, a, b) + MaskFrom(s, b, Code)
  {
    BlockStarts(s, a);
    OneStep(s, a, Code, false);
    BlockIsBlank(s, a + 2, b, a + 4 <= b && CodeSegments.Shows(s, b - 2, "*/"));
    SeenGrows(s, false, a, a + 2, b);
  }

  lemma QuotesAreMasked(s: seq<char>, a: nat, b: nat)
    requires a < b <= |s| && CodeSegments.IsQuoted(s, a, b)
    ensures MaskFrom(s, a, Code) == Seen(s, false, a, b) + MaskFrom(s, b, Code)
  {
    QuotesStart(s, a);
    OneStep(s, a, Code, false);
    QuotesAreBlank(s, a, a + 1, b);
    SeenGrows(s, false, a, a + 1, b);
  }

  /** The mask shows a segment if it is code, and hides it if it is not. */
  lemma SegmentIsMasked(s: seq<char>, g: Segment)
    requires CodeSegments.IsSegment(s, g)
    ensures MaskFrom(s, g.start, Code) == Seen(s, g.kind.InCode?, g.start, g.end) + MaskFrom(s, g.end, Code)
  {
    match g.kind {
      case InCode => CodeIsShown(s, g.start, g.end);
      case InLineComment => LineIsMasked(s, g.start, g.end);
      case InBlockComment => BlockIsMasked(s, g.start, g.end);
      case InQuotes => QuotesAreMasked(s, g.start, g.end);
    }
  }

  lemma LineStarts(s: seq<char>, i: nat)
    requires i < |s| && CodeSegments.Shows(s, i, "//")
    ensures Step(s, i, Code) == Move(1, true, LineComment)
  {
    SameMarks(s, i);
  }

  lemma BlockStarts(s: seq<char>, i: nat)
    requires i < |s| && CodeSegments.Shows(s, i, "/*")
    ensures Step(s, i, Code) == Move(2, true, BlockComment)
  {
    SameMarks(s, i);
  }

  lemma QuotesStart(s: seq<char>, i: nat)
    requires i < |s| && CodeSegments.StartsQuotes(s, i)
    ensures Step(s, i, Code) == Move(1, true, Quoted(s[i], false))
  {
  }

  /** From a position on, code is shown as it is, and the rest is blank but for line breaks. */
  predicate Hides(s: seq<char>, cut: seq<Segment>, from: nat, shown: seq<char>) {
    && from + |shown| == |s|
    && forall k | 0 <= k < |shown| ::
         shown[k] == if CodeSegments.KindAt(cut, from + k).InCode? || s[from + k] in {'\n', '\r'} then s[from + k]
             else ' '
  }

  /** However a source is cut, the mask shows its code and hides its comments and quotes. */
  lemma {:induction false} MaskHides(s: seq<char>, cut: seq<Segment>, from: nat)
    requires from <= |s| && CodeSegments.IsCut(s, from, cut)
    ensures Hides(s, cut, from, MaskFrom(s, from, Code))
    decreases cut
  {
    if cut != [] {
      var g := cut[0];
      var first, rest := Seen(s, g.kind.InCode?, g.start, g.end), MaskFrom(s, g.end, Code);
      SegmentIsMasked(s, g);
      MaskHides(s, cut[1..], g.end);
      forall k | 0 <= k < |s| - from
        ensures MaskFrom(s, from, Code)[k]
                == if CodeSegments.KindAt(cut, from + k).InCode? || s[from + k] in {'\n', '\r'} then s[from + k]
                    else ' '
      {
        if k >= |first| {
          assert (first + rest)[k] == rest[k - |first|] && g.end + (k - |first|) == from + k;
        }
      }
    }
  }

  method Copy(source: seq<char>) returns (bytes: array<char>)
    ensures fresh(bytes) && bytes[..] == source
  {
    bytes := new char[|source|](i requires 0 <= i < |source| => source[i]);
  }

  /** Blanks comments and quotes in place. */
  method CodeMask(source: seq<char>) returns (mask: array<char>)
    ensures fresh(mask) && mask[..] == Mask(source)
    ensures forall cut | CodeSegments.IsCut(source, 0, cut) :: Hides(source, cut, 0, mask[..])
  {
    mask := Copy(source);
    MaskFrom0(source);
    MaskInPlace(source, mask, Mask(source));
    forall cut | CodeSegments.IsCut(source, 0, cut) ensures Hides(source, cut, 0, mask[..]) {
      MaskHides(source, cut, 0);
    }
  }

  lemma MaskFrom0(s: seq<char>)
    ensures MaskFrom(s, 0, Code) == Mask(s)[0..]
  {
  }

  method MaskInPlace(source: seq<char>, mask: array<char>, ghost whole: seq<char>)
    requires mask[..] == source && |whole| == |source| && MaskFrom(source, 0, Code) == whole[0..]
    modifies mask
    ensures mask[..] == whole
  {
    var cursor := 0;
    var region := Code;
    while cursor < |source|
      invariant cursor <= |source|
      invariant forall k | cursor <= k < |source| :: mask[k] == source[k]
      invariant forall k | 0 <= k < cursor :: mask[k] == whole[k]
      invariant MaskFrom(source, cursor, region) == whole[cursor..]
    {
      MaskGoesOn(source, cursor, region, whole);
      cursor, region := MaskStep(source, mask, cursor, region);
    }
  }

  method MaskStep(source: seq<char>, mask: array<char>, cursor: nat, region: Region) returns (next: nat, after: Region)
    requires cursor < |source| == mask.Length
    requires forall k | cursor <= k < |source| :: mask[k] == source[k]
    modifies mask
    ensures var m := Step(source, cursor, region);
            && next == cursor + m.length && after == m.next
            && forall k | cursor <= k < next :: mask[k] == Taken(source, cursor, m)[k - cursor]
    ensures forall k | 0 <= k < cursor :: mask[k] == old(mask[k])
    ensures forall k | next <= k < |source| :: mask[k] == source[k]
  {
    var m := Step(source, cursor, region);
    if m.blank {
      Blank(mask, cursor, m.length);
    }
    next, after := cursor + m.length, m.next;
  }

  lemma MaskGoesOn(s: seq<char>, i: nat, region: Region, whole: seq<char>)
    requires i < |s| == |whole| && MaskFrom(s, i, region) == whole[i..]
    ensures var m := Step(s, i, region);
            && MaskFrom(s, i + m.length, m.next) == whole[i + m.length..]
            && forall k | i <= k < i + m.length :: whole[k] == Taken(s, i, m)[k - i]
  {
    var m := Step(s, i, region);
    var first, rest := Taken(s, i, m), MaskFrom(s, i + m.length, m.next);
    assert whole[i..] == first + rest;
    assert whole[i + m.length..] == whole[i..][m.length..] == rest;
    forall k | i <= k < i + m.length ensures whole[k] == first[k - i] {
      assert whole[k] == whole[i..][k - i];
    }
  }

  method Blank(mask: array<char>, from: nat, length: nat)
    requires from + length <= mask.Length
    modifies mask
    ensures forall k | 0 <= k < mask.Length ::
            mask[k] == if from <= k < from + length then Blanked(old(mask[k])) else old(mask[k])
  {
    for i := 0 to length
      invariant forall k | 0 <= k < mask.Length ::
               mask[k] == if from <= k < from + i then Blanked(old(mask[k])) else old(mask[k])
    {
      if !IsBreak(mask[from + i]) {
        mask[from + i] := ' ';
      }
    }
  }

  // Identifiers -------------------------------------------------------------------------------

  datatype Range = Range(start: nat, end: nat)

  predicate IsStart(c: char) {
    c == '_' || 'a' <= c <= 'z' || 'A' <= c <= 'Z'
  }

  predicate IsContinue(c: char) {
    IsStart(c) || '0' <= c <= '9'
  }

  /** A run of identifier characters that nothing extends to the right. */
  predicate IsToken(mask: seq<char>, t: Range) {
    && t.start < t.end <= |mask| && IsStart(mask[t.start])
    && (forall k | t.start <= k < t.end :: IsContinue(mask[k]))
    && (t.end < |mask| ==> !IsContinue(mask[t.end]))
  }

  predicate InSomeToken(tokens: seq<Range>, i: nat) {
    exists t <- tokens :: t.start <= i < t.end
  }

  method TokenEnd(mask: seq<char>, start: nat) returns (end: nat)
    requires start < |mask| && IsStart(mask[start])
    ensures IsToken(mask, Range(start, end))
  {
    end := start + 1;
    while end < |mask| && IsContinue(mask[end])
      invariant start < end <= |mask|
      invariant forall k | start <= k < end :: IsContinue(mask[k])
    {
      end := end + 1;
    }
  }

  /** The tokens found before a position are all that start before it. */
  predicate FoundBefore(mask: seq<char>, tokens: seq<Range>, cursor: nat) {
    && cursor <= |mask|
    && (forall t <- tokens :: IsToken(mask, t) && t.end <= cursor)
    && (forall i, j | 0 <= i < j < |tokens| :: tokens[i].end <= tokens[j].start)
    && forall i | 0 <= i < cursor && IsStart(mask[i]) :: InSomeToken(tokens, i)
  }

  lemma FoundOneMore(mask: seq<char>, tokens: seq<Range>, start: nat, end: nat)
    requires FoundBefore(mask, tokens, start) && IsToken(mask, Range(start, end))
    ensures FoundBefore(mask, tokens + [Range(start, end)], end)
  {
    var more := tokens + [Range(start, end)];
    assert more[|tokens|] == Range(start, end);
    forall i | 0 <= i < end && IsStart(mask[i]) ensures InSomeToken(more, i) {
      InOneMore(tokens, Range(start, end), i);
    }
  }

  lemma InOneMore(tokens: seq<Range>, t: Range, i: nat)
    ensures InSomeToken(tokens + [t], i) <==> InSomeToken(tokens, i) || t.start <= i < t.end
  {
    assert t in tokens + [t] && forall u <- tokens :: u in tokens + [t];
    assert forall u <- tokens + [t] :: u in tokens || u == t;
  }

  method IdentifierTokens(mask: seq<char>) returns (tokens: seq<Range>)
    ensures forall t <- tokens :: IsToken(mask, t)
    ensures forall i, j | 0 <= i < j < |tokens| :: tokens[i].end <= tokens[j].start
    ensures forall i | 0 <= i < |mask| && IsStart(mask[i]) :: InSomeToken(tokens, i)
  {
    tokens := [];
    var cursor := 0;
    while cursor < |mask|
      invariant 0 <= cursor && FoundBefore(mask, tokens, cursor)
    {
      if IsStart(mask[cursor]) {
        var end := TokenEnd(mask, cursor);
        FoundOneMore(mask, tokens, cursor, end);
        tokens, cursor := tokens + [Range(cursor, end)], end;
      } else {
        cursor := cursor + 1;
      }
    }
  }

  /** Every position of a token is code, in whatever way the source is cut, and shows the source's own character. */
  lemma TokensAreCode(s: seq<char>, cut: seq<Segment>, t: Range)
    requires CodeSegments.IsCut(s, 0, cut) && IsToken(Mask(s), t)
    ensures forall k | t.start <= k < t.end :: CodeSegments.KindAt(cut, k) == CodeSegments.InCode
    ensures Mask(s)[t.start..t.end] == s[t.start..t.end]
  {
    MaskHides(s, cut, 0);
    forall k | t.start <= k < t.end
      ensures CodeSegments.KindAt(cut, k) == CodeSegments.InCode && Mask(s)[k] == s[k]
    {
      assert IsContinue(Mask(s)[k]) && 0 + k == k;
    }
  }

  // Resolution --------------------------------------------------------------------------------

  datatype Draft = Draft(name: seq<char>, declaration: Range, scope: Range)

  function Size(r: Range): nat {
    if r.start <= r.end then r.end - r.start else 0
  }

  predicate Encloses(scope: Range, t: Range) {
    scope.start <= t.start && t.end <= scope.end
  }

  /** A declaration of the name that is in scope and comes first. */
  predicate Matches(d: Draft, name: seq<char>, t: Range) {
    d.name == name && Encloses(d.scope, t) && d.declaration.start <= t.start
  }

  /** A smaller scope is better, and in the same scope a later declaration. */
  predicate Better(d: Draft, e: Draft) {
    Size(d.scope) < Size(e.scope) || (Size(d.scope) == Size(e.scope) && d.declaration.start > e.declaration.start)
  }

  function FlatFrom(drafts: seq<Draft>, name: seq<char>, t: Range, i: nat, best: Option<nat>): (r: Option<nat>)
    requires i <= |drafts| && (best.Some? ==> best.value < i)
    ensures r.Some? ==> r.value < |drafts|
    decreases |drafts| - i
  {
    if i == |drafts| then best
    else if Matches(drafts[i], name, t) && (best.None? || Better(drafts[i], drafts[best.value]))
    then FlatFrom(drafts, name, t, i + 1, Some(i))
    else FlatFrom(drafts, name, t, i + 1, best)
  }

  /** The first of the best declarations. */
  function Flat(drafts: seq<Draft>, name: seq<char>, t: Range): (r: Option<nat>)
    ensures r.Some? ==> r.value < |drafts|
  {
    FlatFrom(drafts, name, t, 0, None)
  }

  predicate IsBest(drafts: seq<Draft>, name: seq<char>, t: Range, n: nat, best: Option<nat>)
    requires n <= |drafts|
  {
    match best
    case None => forall j | 0 <= j < n :: !Matches(drafts[j], name, t)
    case Some(i) =>
      && i < n && Matches(drafts[i], name, t)
      && forall j | 0 <= j < n && Matches(drafts[j], name, t) :: !Better(drafts[j], drafts[i])
  }

  lemma {:induction false} FlatIsBest(drafts: seq<Draft>, name: seq<char>, t: Range, i: nat, best: Option<nat>)
    requires i <= |drafts| && IsBest(drafts, name, t, i, best)
    ensures IsBest(drafts, name, t, |drafts|, FlatFrom(drafts, name, t, i, best))
    decreases |drafts| - i
  {
    if i < |drafts| {
      FlatIsBest(drafts, name, t, i + 1,
        if Matches(drafts[i], name, t) && (best.None? || Better(drafts[i], drafts[best.value])) then Some(i) else best);
    }
  }

  // A stack of scopes -------------------------------------------------------------------------

  predicate Inside(a: Range, b: Range) {
    a != b && b.start <= a.start && a.end <= b.end
  }

  /** Any two scopes are the same, nested or apart. */
  predicate Nested(drafts: seq<Draft>) {
    forall d <- drafts, e <- drafts ::
      d.scope == e.scope || Inside(d.scope, e.scope) || Inside(e.scope, d.scope)
      || d.scope.end <= e.scope.start || e.scope.end <= d.scope.start
  }

  /** The open scopes, innermost first. */
  predicate IsStack(stack: seq<Range>, drafts: seq<Draft>, t: Range) {
    && (forall i, j | 0 <= i < j < |stack| :: Inside(stack[i], stack[j]))
    && (forall r <- stack :: Encloses(r, t))
    && (forall d <- drafts | Encloses(d.scope, t) :: d.scope in stack)
  }

  /** The latest declaration of the name in one scope before the token. */
  predicate IsLatest(drafts: seq<Draft>, name: seq<char>, t: Range, scope: Range, i: nat) {
    && i < |drafts| && drafts[i].scope == scope && Matches(drafts[i], name, t)
    && forall j | 0 <= j < |drafts| && drafts[j].scope == scope && Matches(drafts[j], name, t) ::
         drafts[j].declaration.start <= drafts[i].declaration.start
  }

  /** Looks a name up as lexical scoping does: in each open scope, innermost first. */
  ghost predicate Resolves(stack: seq<Range>, drafts: seq<Draft>, name: seq<char>, t: Range, r: Option<nat>) {
    if stack == [] then r.None?
    else if exists i: nat :: IsLatest(drafts, name, t, stack[0], i) then r.Some?
        && IsLatest(drafts, name, t, stack[0], r.value)
    else Resolves(stack[1..], drafts, name, t, r)
  }

  lemma LatestExists(drafts: seq<Draft>, name: seq<char>, t: Range, scope: Range, n: nat) returns (i: nat)
    requires n <= |drafts| && exists j | 0 <= j < n :: drafts[j].scope == scope && Matches(drafts[j], name, t)
    ensures i < n && drafts[i].scope == scope && Matches(drafts[i], name, t)
    ensures forall j | 0 <= j < n && drafts[j].scope == scope && Matches(drafts[j], name, t) ::
              drafts[j].declaration.start <= drafts[i].declaration.start
  {
    var last := drafts[n - 1];
    if exists j | 0 <= j < n - 1 :: drafts[j].scope == scope && Matches(drafts[j], name, t) {
      i := LatestExists(drafts, name, t, scope, n - 1);
      if last.scope == scope && Matches(last, name, t) && last.declaration.start > drafts[i].declaration.start {
        i := n - 1;
      }
    } else {
      i := n - 1;
    }
  }

  lemma MatchHasLatest(drafts: seq<Draft>, name: seq<char>, t: Range, scope: Range)
    ensures (exists d <- drafts :: d.scope == scope && Matches(d, name, t)) ==> exists i: nat ::
            IsLatest(drafts, name, t, scope, i)
  {
    if d :| d in drafts && d.scope == scope && Matches(d, name, t) {
      var j :| 0 <= j < |drafts| && drafts[j] == d;
      var i := LatestExists(drafts, name, t, scope, |drafts|);
      assert IsLatest(drafts, name, t, scope, i);
    }
  }

  /** The flat search gives what the stack of scopes gives. */
  lemma FlatIsLexical(drafts: seq<Draft>, name: seq<char>, t: Range, stack: seq<Range>)
    requires t.start < t.end && IsStack(stack, drafts, t)
    ensures Resolves(stack, drafts, name, t, Flat(drafts, name, t))
  {
    FlatIsBest(drafts, name, t, 0, None);
    BestResolves(drafts, name, t, stack, Flat(drafts, name, t));
  }

  lemma {:induction false} BestResolves(drafts: seq<Draft>, name: seq<char>, t: Range, stack: seq<Range>,
      best: Option<nat>)
    requires t.start < t.end && IsBest(drafts, name, t, |drafts|, best)
    requires forall i, j | 0 <= i < j < |stack| :: Inside(stack[i], stack[j])
    requires forall r <- stack :: Encloses(r, t)
    requires forall d <- drafts | Matches(d, name, t) :: d.scope in stack
    ensures Resolves(stack, drafts, name, t, best)
  {
    if stack != [] {
      if i: nat :| IsLatest(drafts, name, t, stack[0], i) {
        BestIsInnermost(drafts, name, t, stack, best.value, i);
      } else {
        MatchHasLatest(drafts, name, t, stack[0]);
        BestResolves(drafts, name, t, stack[1..], best);
      }
    }
  }

  lemma BestIsInnermost(drafts: seq<Draft>, name: seq<char>, t: Range, stack: seq<Range>, best: nat, i: nat)
    requires t.start < t.end && stack != [] && IsBest(drafts, name, t, |drafts|, Some(best))
    requires IsLatest(drafts, name, t, stack[0], i)
    requires forall i, j | 0 <= i < j < |stack| :: Inside(stack[i], stack[j])
    requires forall r <- stack :: Encloses(r, t)
    requires forall d <- drafts | Matches(d, name, t) :: d.scope in stack
    ensures IsLatest(drafts, name, t, stack[0], best)
  {
    assert drafts[best] in drafts && !Better(drafts[i], drafts[best]);
    var k :| 0 <= k < |stack| && stack[k] == drafts[best].scope;
    var inner, outer := stack[0], drafts[best].scope;
    assert Encloses(inner, t);
    assert k == 0 || Size(inner) < Size(outer);
  }

  /** Nested scopes always form a stack around a token. */
  lemma {:induction false} StackExists(drafts: seq<Draft>, n: nat, t: Range) returns (stack: seq<Range>)
    requires n <= |drafts| && t.start < t.end && Nested(drafts)
    ensures IsStack(stack, drafts[..n], t)
    ensures forall r <- stack :: exists d <- drafts :: d.scope == r
  {
    if n == 0 {
      stack := [];
    } else {
      var rest := StackExists(drafts, n - 1, t);
      var d := drafts[n - 1];
      assert drafts[..n] == drafts[..n - 1] + [d];
      if !Encloses(d.scope, t) || d.scope in rest {
        stack := rest;
      } else {
        forall r <- rest ensures Inside(r, d.scope) || Inside(d.scope, r) {
          var e :| e in drafts && e.scope == r;
          assert d in drafts;
        }
        stack := InsertScope(rest, d.scope);
      }
    }
  }

  lemma {:induction false} InsertScope(stack: seq<Range>, scope: Range) returns (r: seq<Range>)
    requires forall i, j | 0 <= i < j < |stack| :: Inside(stack[i], stack[j])
    requires forall s <- stack :: Inside(s, scope) || Inside(scope, s)
    ensures forall i, j | 0 <= i < j < |r| :: Inside(r[i], r[j])
    ensures forall s :: s in r <==> s in stack || s == scope
  {
    if stack == [] {
      r := [scope];
    } else if Inside(scope, stack[0]) {
      r := [scope] + stack;
    } else {
      var rest := InsertScope(stack[1..], scope);
      r := [stack[0]] + rest;
      forall j | 1 <= j < |r| ensures Inside(r[0], r[j]) {
        assert r[j] in rest;
        assert r[j] == scope || r[j] in stack[1..];
      }
    }
  }

  // Occurrences -------------------------------------------------------------------------------

  /** Property names after a dot and keys before a colon are no references. */
  predicate IsMemberOrKey(mask: seq<char>, t: Range)
    requires t.start <= t.end <= |mask|
  {
    FirstCode(mask, t.end) == Some(':') || LastCode(mask, t.start) == Some('.')
  }

  predicate IsAsciiSpace(c: char) {
    c == ' ' || c == '\t' || c == '\n' || c == '\r' || c == '\U{C}'
  }

  /** The first character from a position on that is no blank. */
  function FirstCode(mask: seq<char>, i: nat): Option<char>
    requires i <= |mask|
    decreases |mask| - i
  {
    if i == |mask| then None else if IsAsciiSpace(mask[i]) then FirstCode(mask, i + 1) else Some(mask[i])
  }

  /** The last character before a position that is no blank. */
  function LastCode(mask: seq<char>, i: nat): Option<char>
    requires i <= |mask|
  {
    if i == 0 then None else if IsAsciiSpace(mask[i - 1]) then LastCode(mask, i - 1) else Some(mask[i - 1])
  }

  predicate IsReference(mask: seq<char>, expressions: seq<Range>, t: Range)
    requires t.start <= t.end <= |mask|
  {
    (exists r <- expressions :: Encloses(r, t)) && !IsMemberOrKey(mask, t)
  }

  function DeclarationAt(drafts: seq<Draft>, t: Range, i: nat): (r: Option<nat>)
    requires i <= |drafts|
    ensures r.Some? ==> i <= r.value < |drafts| && drafts[r.value].declaration == t
    decreases |drafts| - i
  {
    if i == |drafts| then None else if drafts[i].declaration == t then Some(i) else DeclarationAt(drafts, t, i + 1)
  }

  /** The draft that a token declares or refers to. */
  function Target(source: seq<char>, mask: seq<char>, drafts: seq<Draft>, expressions: seq<Range>,
      t: Range): (r: Option<nat>)
    requires t.start <= t.end <= |mask| == |source|
    ensures r.Some? ==> r.value < |drafts|
  {
    if DeclarationAt(drafts, t, 0).Some? then DeclarationAt(drafts, t, 0)
    else if IsReference(mask, expressions, t) then Flat(drafts, source[t.start..t.end], t)
    else None
  }

  predicate InBounds(tokens: seq<Range>, length: nat) {
    forall t <- tokens :: t.start <= t.end <= length
  }

  /** The tokens, in order, that belong to a draft. */
  function Occurrences(source: seq<char>, mask: seq<char>, drafts: seq<Draft>, expressions: seq<Range>,
      tokens: seq<Range>, i: nat): seq<Range>
    requires |mask| == |source| && InBounds(tokens, |source|)
  {
    if tokens == [] then []
    else
      var last := tokens[|tokens| - 1];
      Occurrences(source, mask, drafts, expressions, tokens[..|tokens| - 1], i)
      + if Target(source, mask, drafts, expressions, last) == Some(i) then [last] else []
  }

  method FindBest(drafts: seq<Draft>, name: seq<char>, t: Range) returns (best: Option<nat>)
    ensures best == Flat(drafts, name, t)
  {
    best := None;
    for i := 0 to |drafts|
      invariant best.Some? ==> best.value < i
      invariant FlatFrom(drafts, name, t, i, best) == Flat(drafts, name, t)
    {
      if Matches(drafts[i], name, t) && (best.None? || Better(drafts[i], drafts[best.value])) {
        best := Some(i);
      }
    }
  }

  /** Fills the occurrences of every draft; each token goes to the one draft that it belongs to, if any. */
  method ResolveDrafts(source: seq<char>, mask: seq<char>, drafts: seq<Draft>, expressions: seq<Range>)
    returns (tokens: seq<Range>, resolved: seq<seq<Range>>)
    requires |mask| == |source|
    ensures (forall t <- tokens :: IsToken(mask, t)) && forall i, j | 0 <= i < j < |tokens| ::
            tokens[i].end <= tokens[j].start
    ensures forall i | 0 <= i < |mask| && IsStart(mask[i]) :: InSomeToken(tokens, i)
    ensures |resolved| == |drafts| && InBounds(tokens, |source|)
    ensures forall i | 0 <= i < |drafts| :: resolved[i] == Occurrences(source, mask, drafts, expressions, tokens, i)
    ensures forall i | 0 <= i < |drafts| :: IsOccurrences(source, mask, drafts, expressions, tokens, i, resolved[i])
  {
    tokens := IdentifierTokens(mask);
    resolved := ResolveTokens(source, mask, drafts, expressions, tokens);
    forall i | 0 <= i < |drafts|
      ensures IsOccurrences(source, mask, drafts, expressions, tokens, i, resolved[i])
    {
      OccurrencesAreExact(source, mask, drafts, expressions, tokens, i);
    }
  }

  method ResolveTokens(source: seq<char>, mask: seq<char>, drafts: seq<Draft>, expressions: seq<Range>,
      tokens: seq<Range>) returns (resolved: seq<seq<Range>>)
    requires |mask| == |source| && InBounds(tokens, |source|)
    ensures |resolved| == |drafts|
    ensures forall i | 0 <= i < |drafts| :: resolved[i] == Occurrences(source, mask, drafts, expressions, tokens, i)
  {
    resolved := seq(|drafts|, _ => []);
    for k := 0 to |tokens|
      invariant |resolved| == |drafts| && InBounds(tokens, |source|)
      invariant forall i | 0 <= i < |drafts| ::
               resolved[i] == Occurrences(source, mask, drafts, expressions, tokens[..k], i)
    {
      var t := tokens[k];
      assert tokens[..k + 1][..k] == tokens[..k] && tokens[..k + 1][k] == t;
      var target := DeclarationAt(drafts, t, 0);
      if target.None? && IsReference(mask, expressions, t) {
        target := FindBest(drafts, source[t.start..t.end], t);
      }
      if target.Some? {
        resolved := resolved[target.value := resolved[target.value] + [t]];
      }
    }
    assert tokens[..|tokens|] == tokens;
  }

  /** Every occurrence spells its symbol's name, in code that is no comment and no quote. */
  lemma {:induction false} OccurrencesSpellTheName(source: seq<char>, drafts: seq<Draft>, expressions: seq<Range>,
      tokens: seq<Range>, i: nat)
    requires i < |drafts| && InBounds(tokens, |source|) && forall t <- tokens :: IsToken(Mask(source), t)
    requires forall d <- drafts ::
               && d.declaration.start <= d.declaration.end <= |source|
               && source[d.declaration.start..d.declaration.end] == d.name
    ensures forall t <- Occurrences(source, Mask(source), drafts, expressions, tokens, i) ::
              t in tokens && source[t.start..t.end] == drafts[i].name && Mask(source)[t.start..t.end] == drafts[i].name
  {
    if tokens != [] {
      var last := tokens[|tokens| - 1];
      OccurrencesSpellTheName(source, drafts, expressions, tokens[..|tokens| - 1], i);
      var cut := CodeSegments.CutExists(source, 0);
      TokensAreCode(source, cut, last);
      FlatIsBest(drafts, source[last.start..last.end], last, 0, None);
    }
  }

  // What an occurrence is ---------------------------------------------------------------------

  predicate AllBlank(mask: seq<char>, from: nat, to: nat)
    requires to <= |mask|
  {
    forall k | from <= k < to :: mask[k] in {' ', '\t', '\n', '\r', '\U{C}'}
  }

  /** Blanks aside, the token stands behind a dot. */
  predicate BehindDot(mask: seq<char>, t: Range)
    requires t.start <= t.end <= |mask|
  {
    exists k | 0 <= k < t.start :: mask[k] == '.' && AllBlank(mask, k + 1, t.start)
  }

  /** Blanks aside, the token stands before a colon. */
  predicate BeforeColon(mask: seq<char>, t: Range)
    requires t.start <= t.end <= |mask|
  {
    exists k | t.end <= k < |mask| :: mask[k] == ':' && AllBlank(mask, t.end, k)
  }

  /** The declaration has the token's name, is no later, and the token is in its scope. */
  predicate Sees(d: Draft, name: seq<char>, t: Range) {
    d.name == name && d.declaration.start <= t.start && d.scope.start <= t.start && t.end <= d.scope.end
  }

  /** A smaller scope hides a larger one, and in scopes of one size a later declaration an earlier one. */
  predicate Covers(d: Draft, e: Draft) {
    var (m, n) := (Size(d.scope), Size(e.scope));
    m < n || (m == n && e.declaration.start < d.declaration.start)
  }

  /** The first of the declarations seen that no other covers. */
  predicate IsInnermost(drafts: seq<Draft>, name: seq<char>, t: Range, i: nat) {
    && i < |drafts| && Sees(drafts[i], name, t)
    && (forall j | 0 <= j < |drafts| && Sees(drafts[j], name, t) :: !Covers(drafts[j], drafts[i]))
    && (forall j | 0 <= j < i && Sees(drafts[j], name, t) :: Covers(drafts[i], drafts[j]))
  }

  /** A token declares a draft, or it stands in an expression, is no property or key, and sees the draft. */
  predicate Belongs(source: seq<char>, mask: seq<char>, drafts: seq<Draft>, expressions: seq<Range>, t: Range, i: nat)
    requires t.start <= t.end <= |mask| == |source|
  {
    if exists d <- drafts :: d.declaration == t then
      i < |drafts| && drafts[i].declaration == t && forall j | 0 <= j < i :: drafts[j].declaration != t
    else
      && (exists r <- expressions :: r.start <= t.start && t.end <= r.end)
      && !BehindDot(mask, t) && !BeforeColon(mask, t)
      && IsInnermost(drafts, source[t.start..t.end], t, i)
  }

  lemma {:induction false} FirstCodeIs(mask: seq<char>, t: Range, i: nat)
    requires t.start <= t.end <= i <= |mask| && AllBlank(mask, t.end, i)
    ensures FirstCode(mask, i) == Some(':') <==> BeforeColon(mask, t)
    decreases |mask| - i
  {
    if i < |mask| && IsAsciiSpace(mask[i]) {
      FirstCodeIs(mask, t, i + 1);
    }
  }

  lemma {:induction false} LastCodeIs(mask: seq<char>, t: Range, i: nat)
    requires i <= t.start <= t.end <= |mask| && AllBlank(mask, i, t.start)
    ensures LastCode(mask, i) == Some('.') <==> BehindDot(mask, t)
  {
    if i > 0 && IsAsciiSpace(mask[i - 1]) {
      LastCodeIs(mask, t, i - 1);
    }
  }

  lemma {:induction false} DeclarationIsFirst(drafts: seq<Draft>, t: Range, i: nat)
    requires i <= |drafts| && forall j | 0 <= j < i :: drafts[j].declaration != t
    ensures var r := DeclarationAt(drafts, t, i);
            && (r.None? <==> forall d <- drafts :: d.declaration != t)
            && (r.Some? ==> forall j | 0 <= j < r.value :: drafts[j].declaration != t)
    decreases |drafts| - i
  {
    if i < |drafts| && drafts[i].declaration != t {
      DeclarationIsFirst(drafts, t, i + 1);
    } else if i < |drafts| {
      assert drafts[i] in drafts;
    }
  }

  /** Of the first `n` declarations, the one that would be found. */
  predicate IsInnermostOf(drafts: seq<Draft>, name: seq<char>, t: Range, n: nat, best: Option<nat>)
    requires n <= |drafts|
  {
    match best
    case None => forall j | 0 <= j < n :: !Sees(drafts[j], name, t)
    case Some(i) =>
      && i < n && Sees(drafts[i], name, t)
      && (forall j | 0 <= j < n && Sees(drafts[j], name, t) :: !Covers(drafts[j], drafts[i]))
      && (forall j | 0 <= j < i && Sees(drafts[j], name, t) :: Covers(drafts[i], drafts[j]))
  }

  lemma {:induction false} FlatIsInnermost(drafts: seq<Draft>, name: seq<char>, t: Range, i: nat, best: Option<nat>)
    requires i <= |drafts| && IsInnermostOf(drafts, name, t, i, best)
    ensures IsInnermostOf(drafts, name, t, |drafts|, FlatFrom(drafts, name, t, i, best))
    decreases |drafts| - i
  {
    if i < |drafts| {
      FlatIsInnermost(drafts, name, t, i + 1,
        if Matches(drafts[i], name, t) && (best.None? || Better(drafts[i], drafts[best.value])) then Some(i) else best);
    }
  }

  lemma TargetExactly(source: seq<char>, mask: seq<char>, drafts: seq<Draft>, expressions: seq<Range>, t: Range, i: nat)
    requires t.start <= t.end <= |mask| == |source|
    ensures Target(source, mask, drafts, expressions, t) == Some(i) <==>
            Belongs(source, mask, drafts, expressions, t, i)
  {
    DeclarationIsFirst(drafts, t, 0);
    FirstCodeIs(mask, t, t.end);
    LastCodeIs(mask, t, t.start);
    FlatIsInnermost(drafts, source[t.start..t.end], t, 0, None);
  }

  /** The occurrences of a draft are exactly the tokens that belong to it. */
  lemma {:induction false} OccurrencesExactly(source: seq<char>, mask: seq<char>, drafts: seq<Draft>,
      expressions: seq<Range>, tokens: seq<Range>, i: nat, t: Range)
    requires |mask| == |source| && InBounds(tokens, |source|)
    ensures t in Occurrences(source, mask, drafts, expressions, tokens, i)
            <==> t in tokens && Belongs(source, mask, drafts, expressions, t, i)
  {
    if tokens != [] {
      var front, last := tokens[..|tokens| - 1], tokens[|tokens| - 1];
      assert tokens == front + [last] && forall x <- front :: x in tokens;
      OccurrencesExactly(source, mask, drafts, expressions, front, i, t);
      TargetExactly(source, mask, drafts, expressions, last, i);
    }
  }

  /** The tokens found are those that belong to the draft. */
  ghost predicate IsOccurrences(source: seq<char>, mask: seq<char>, drafts: seq<Draft>, expressions: seq<Range>,
      tokens: seq<Range>, i: nat, found: seq<Range>)
    requires |mask| == |source| && InBounds(tokens, |source|)
  {
    forall t :: t in found <==> t in tokens && Belongs(source, mask, drafts, expressions, t, i)
  }

  lemma OccurrencesAreExact(source: seq<char>, mask: seq<char>, drafts: seq<Draft>, expressions: seq<Range>,
      tokens: seq<Range>, i: nat)
    requires |mask| == |source| && InBounds(tokens, |source|)
    ensures IsOccurrences(source, mask, drafts, expressions, tokens, i,
            Occurrences(source, mask, drafts, expressions, tokens, i))
  {
    forall t
      ensures t in Occurrences(source, mask, drafts, expressions, tokens, i)
              <==> t in tokens && Belongs(source, mask, drafts, expressions, t, i)
    {
      OccurrencesExactly(source, mask, drafts, expressions, tokens, i, t);
    }
  }

  /** Identifiers start with a letter or underscore, and go on with these and digits. */
  lemma IdentifierCharacters(c: char)
    ensures IsStart(c) <==> c in SMALL || c in LARGE || c == '_'
    ensures IsContinue(c) <==> c in SMALL || c in LARGE || c in DIGITS || c == '_'
  {
  }
}
