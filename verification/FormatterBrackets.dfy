/** How deep the formatter puts a line, counted from the brackets and tags that one can see. */
module FormatterBrackets {
  import opened Text
  import opened InlineMarkup
  import opened StructuralScanner
  import opened Formatter
  import opened FormatterLaws
  import opened FormatterIndent
  import CodeSegments

  type Segment = CodeSegments.Segment

  function BracketOf(c: char): Balance {
    if c == '(' || c == '[' || c == '{' then ONE_OPEN
    else if c == ')' || c == ']' || c == '}' then ONE_CLOSE
    else NOTHING
  }

  /** How many brackets a text opens, and how many it closes. */
  function BracketsIn(text: string): Balance {
    if text == "" then NOTHING else Plus(BracketOf(text[0]), BracketsIn(text[1..]))
  }

  // Comments and quotes -------------------------------------------------------------------------

  /** What is left of a line without its comments and its quoted text. */
  function CodeText(line: string, from: nat, cut: seq<Segment>): string
    requires CodeSegments.IsCut(line, from, cut)
    decreases cut
  {
    if cut == [] then ""
    else
      SegmentText(line, cut[0]) + CodeText(line, cut[0].end, cut[1..])
  }

  function SegmentText(line: string, g: Segment): string
    requires CodeSegments.IsSegment(line, g)
  {
    if g.kind == CodeSegments.InCode then line[g.start..g.end] else ""
  }

  /** A comment or quoted text that ends on the line. */
  predicate EndsThere(line: string, g: Segment)
    requires CodeSegments.IsSegment(line, g)
  {
    match g.kind
    case InBlockComment => g.start + 4 <= g.end && CodeSegments.Shows(line, g.end - 2, "*/")
    case InQuotes => g.start < g.end - 1 && CodeSegments.ClosesQuotes(line, g.start, g.end - 1)
    case _ => true
  }

  ghost predicate AllEndThere(line: string, from: nat, cut: seq<Segment>)
    requires CodeSegments.IsCut(line, from, cut)
    decreases cut
  {
    cut != [] ==> EndsThere(line, cut[0]) && AllEndThere(line, cut[0].end, cut[1..])
  }

  lemma CutThere(line: string)
    ensures exists cut :: CodeSegments.IsCut(line, 0, cut)
  {
    var cut := CodeSegments.CutExists(line, 0);
  }

  /** The one way to cut a line into code, comments and quoted text. */
  ghost function CutOf(line: string): (cut: seq<Segment>)
    ensures CodeSegments.IsCut(line, 0, cut)
  {
    CutThere(line);
    var cut :| CodeSegments.IsCut(line, 0, cut);
    cut
  }

  ghost function CodeIn(line: string): string {
    CodeText(line, 0, CutOf(line))
  }

  /** A line of code without markup, whose comments and quoted text end on it. */
  ghost predicate IsCodeLine(line: string) {
    NoBreaks(line) && AllEndThere(line, 0, CutOf(line)) && '<' !in CodeIn(line)
  }

  lemma SameMarks(line: string, i: nat)
    requires i < |line|
    ensures CodeSegments.Shows(line, i, "//") <==> IsPair(line, i, '/', '/')
    ensures CodeSegments.Shows(line, i, "/*") <==> IsPair(line, i, '/', '*')
    ensures CodeSegments.Shows(line, i, "*/") <==> IsPair(line, i, '*', '/')
  {
    if i + 1 < |line| {
      assert line[i..i + 2] == [line[i], line[i + 1]];
    }
  }

  lemma CodeStep(alphanumeric: set<char>, line: string, i: nat)
    requires i < |line| && !CodeSegments.StartsOther(line, i) && line[i] != '<'
    ensures Step(alphanumeric, line, i, FRESH) == Move(1, BracketOf(line[i]), FRESH)
  {
    SameMarks(line, i);
  }

  lemma OneCounted(alphanumeric: set<char>, line: string, i: nat, after: nat)
    requires i < |line| && !CodeSegments.StartsOther(line, i) && line[i] != '<' && after == i + 1
    ensures ScanFrom(alphanumeric, line, i, FRESH)
         == After(BracketOf(line[i]), ScanFrom(alphanumeric, line, after, FRESH))
  {
    CodeStep(alphanumeric, line, i);
    ScanStep(alphanumeric, line, i, FRESH, Move(1, BracketOf(line[i]), FRESH));
  }

  lemma FirstBracket(line: string, i: nat, after: nat, end: nat)
    requires i < end <= |line| && after == i + 1
    ensures BracketsIn(line[i..end]) == Plus(BracketOf(line[i]), BracketsIn(line[after..end]))
  {
    assert line[i..end][0] == line[i] && line[i..end][1..] == line[after..end];
  }

  lemma AfterTwice(a: Balance, b: Balance, rest: Outcome)
    ensures After(a, After(b, rest)) == After(Plus(a, b), rest)
  {
  }

  lemma {:induction false} CodeRun(alphanumeric: set<char>, line: string, i: nat, end: nat)
    requires i <= end <= |line| && forall k | i <= k < end :: !CodeSegments.StartsOther(line, k) && line[k] != '<'
    ensures ScanFrom(alphanumeric, line, i, FRESH)
         == After(BracketsIn(line[i..end]), ScanFrom(alphanumeric, line, end, FRESH))
    decreases end - i
  {
    var rest := ScanFrom(alphanumeric, line, end, FRESH);
    if i < end {
      var after := i + 1;
      OneCounted(alphanumeric, line, i, after);
      CodeRun(alphanumeric, line, after, end);
      FirstBracket(line, i, after, end);
      AfterTwice(BracketOf(line[i]), BracketsIn(line[after..end]), rest);
    } else {
      AfterNothing(rest);
    }
  }

  lemma {:induction false} BlockRun(alphanumeric: set<char>, line: string, i: nat, end: nat)
    requires i + 2 <= end <= |line| && CodeSegments.Shows(line, end - 2, "*/")
    requires forall k | i <= k < end - 2 :: !CodeSegments.Shows(line, k, "*/")
    ensures ScanFrom(alphanumeric, line, i, FRESH.(blockComment := true)) == ScanFrom(alphanumeric, line, end, FRESH)
    decreases end - i
  {
    var st := FRESH.(blockComment := true);
    var m := BlockStep(alphanumeric, line, i, st);
    var after := i + m.length;
    Skips(alphanumeric, line, i, st, m, after);
    if i + 2 < end {
      BlockRun(alphanumeric, line, after, end);
    }
  }

  lemma BlockStep(alphanumeric: set<char>, line: string, i: nat, st: Scan) returns (m: Move)
    requires i < |line| && st == FRESH.(blockComment := true)
    ensures m == Step(alphanumeric, line, i, st)
    ensures m == if CodeSegments.Shows(line, i, "*/") then Move(2, NOTHING, FRESH) else Move(1, NOTHING, st)
  {
    SameMarks(line, i);
    m := Step(alphanumeric, line, i, st);
  }

  /** A move that counts nothing can be left out. */
  lemma Skips(alphanumeric: set<char>, line: string, i: nat, st: Scan, m: Move, after: nat)
    requires i < |line| && m == Step(alphanumeric, line, i, st) && m.balance == NOTHING && after == i + m.length
    ensures after <= |line|
    ensures ScanFrom(alphanumeric, line, i, st) == ScanFrom(alphanumeric, line, after, m.next)
  {
    assert m.length == after - i;
    ScanStep(alphanumeric, line, i, st, m);
    AfterNothing(ScanFrom(alphanumeric, line, after, m.next));
  }

  function InQuotesAt(delimiter: char, escaped: bool): Scan {
    FRESH.(quotes := Quotes(Some(delimiter), escaped))
  }

  lemma ClosesLast(line: string, start: nat, i: nat, end: nat)
    requires start < i < end <= |line| && CodeSegments.IsQuoted(line, start, end)
    requires CodeSegments.ClosesQuotes(line, start, end - 1)
    ensures CodeSegments.ClosesQuotes(line, start, i) <==> i == end - 1
  {
  }

  lemma {:induction false} QuoteRun(alphanumeric: set<char>, line: string, start: nat, i: nat, end: nat, st: Scan)
    requires start < i < end <= |line| && CodeSegments.IsQuoted(line, start, end)
    requires CodeSegments.ClosesQuotes(line, start, end - 1)
    requires st == InQuotesAt(line[start], CodeSegments.IsEscaped(line, start + 1, i))
    ensures ScanFrom(alphanumeric, line, i, st) == ScanFrom(alphanumeric, line, end, FRESH)
    decreases end - i
  {
    var after := i + 1;
    ClosesLast(line, start, i, end);
    var m := QuoteStep(alphanumeric, line, start, i, after, st);
    Skips(alphanumeric, line, i, st, m, after);
    if i < end - 1 {
      QuoteRun(alphanumeric, line, start, after, end, m.next);
    } else {
      SamePlace(alphanumeric, line, after, end, FRESH);
    }
  }

  lemma SamePlace(alphanumeric: set<char>, line: string, i: nat, j: nat, st: Scan)
    requires i == j && i <= |line|
    ensures ScanFrom(alphanumeric, line, i, st) == ScanFrom(alphanumeric, line, j, st)
  {
  }

  lemma QuoteStep(alphanumeric: set<char>, line: string, start: nat, i: nat, after: nat, st: Scan) returns (m: Move)
    requires start < i < |line| && after == i + 1 && CodeSegments.StartsQuotes(line, start)
    requires st == InQuotesAt(line[start], CodeSegments.IsEscaped(line, start + 1, i))
    ensures m == Step(alphanumeric, line, i, st) && m.length == 1 && m.balance == NOTHING
    ensures CodeSegments.ClosesQuotes(line, start, i) ==> m.next == FRESH
    ensures !CodeSegments.ClosesQuotes(line, start, i) ==>
              m.next == InQuotesAt(line[start], CodeSegments.IsEscaped(line, start + 1, after))
  {
    m := Step(alphanumeric, line, i, st);
  }

  lemma SegmentRun(alphanumeric: set<char>, line: string, g: Segment)
    requires NoBreaks(line) && CodeSegments.IsSegment(line, g) && EndsThere(line, g)
    requires '<' !in SegmentText(line, g)
    ensures ScanFrom(alphanumeric, line, g.start, FRESH)
         == After(BracketsIn(SegmentText(line, g)), ScanFrom(alphanumeric, line, g.end, FRESH))
  {
    match g.kind {
      case InCode =>
        forall k | g.start <= k < g.end ensures line[k] != '<' {
          assert line[g.start..g.end][k - g.start] == line[k];
        }
        CodeRun(alphanumeric, line, g.start, g.end);
      case _ =>
        OtherRun(alphanumeric, line, g);
        AfterNothing(ScanFrom(alphanumeric, line, g.end, FRESH));
    }
  }

  /** Comments and quoted text count nothing. */
  lemma OtherRun(alphanumeric: set<char>, line: string, g: Segment)
    requires NoBreaks(line) && CodeSegments.IsSegment(line, g) && EndsThere(line, g) && g.kind != CodeSegments.InCode
    ensures ScanFrom(alphanumeric, line, g.start, FRESH) == ScanFrom(alphanumeric, line, g.end, FRESH)
  {
    var m := OtherStep(alphanumeric, line, g);
    var after := g.start + m.length;
    Skips(alphanumeric, line, g.start, FRESH, m, after);
    match g.kind {
      case InBlockComment => BlockRun(alphanumeric, line, after, g.end);
      case InQuotes => QuoteRun(alphanumeric, line, g.start, after, g.end, m.next);
      case InLineComment => assert after == g.end;
    }
  }

  lemma OtherStep(alphanumeric: set<char>, line: string, g: Segment) returns (m: Move)
    requires NoBreaks(line) && CodeSegments.IsSegment(line, g) && g.kind != CodeSegments.InCode
    ensures m == Step(alphanumeric, line, g.start, FRESH)
    ensures m == match g.kind
              case InBlockComment => Move(2, NOTHING, FRESH.(blockComment := true))
              case InQuotes => Move(1, NOTHING, InQuotesAt(line[g.start], false))
              case InLineComment => Move(g.end - g.start, NOTHING, FRESH)
              case InCode => m
  {
    SameMarks(line, g.start);
    CodeSegments.StartsOneThing(line, g.start);
    assert forall k | 0 <= k < |line| :: line[k] in line;
    m := Step(alphanumeric, line, g.start, FRESH);
  }

  lemma {:induction false} CutRun(alphanumeric: set<char>, line: string, from: nat, cut: seq<Segment>)
    requires NoBreaks(line) && CodeSegments.IsCut(line, from, cut) && AllEndThere(line, from, cut)
    requires '<' !in CodeText(line, from, cut)
    ensures from <= |line|
    ensures ScanFrom(alphanumeric, line, from, FRESH) == Outcome(BracketsIn(CodeText(line, from, cut)), FRESH)
    decreases cut
  {
    if cut != [] {
      var g := cut[0];
      var text, rest := SegmentText(line, g), CodeText(line, g.end, cut[1..]);
      InEither('<', text, rest);
      SegmentRun(alphanumeric, line, g);
      CutRun(alphanumeric, line, g.end, cut[1..]);
      BracketsConcat(text, rest);
      AfterBoth(BracketsIn(text), Outcome(BracketsIn(rest), FRESH));
    }
  }

  lemma InEither(c: char, a: string, b: string)
    ensures c in a + b <==> c in a || c in b
  {
  }

  lemma {:induction false} BracketsConcat(a: string, b: string)
    ensures BracketsIn(a + b) == Plus(BracketsIn(a), BracketsIn(b))
  {
    if a == "" {
      assert a + b == b;
    } else {
      assert (a + b)[0] == a[0] && (a + b)[1..] == a[1..] + b;
      BracketsConcat(a[1..], b);
    }
  }

  lemma AfterBoth(a: Balance, rest: Outcome)
    ensures After(a, rest) == Outcome(Plus(a, rest.balance), rest.state)
  {
  }

  /** The scanner counts the brackets outside comments and quotes, and no others. */
  lemma CodeLineCounts(alphanumeric: set<char>, line: string)
    requires IsCodeLine(line)
    ensures Scanned(alphanumeric, line, FRESH) == Outcome(BracketsIn(CodeIn(line)), FRESH)
  {
    CutRun(alphanumeric, line, 0, CutOf(line));
  }

  // Tags ----------------------------------------------------------------------------------------

  /** Text of a tag without brackets, quotes and other tags. */
  predicate IsTagText(text: string) {
    forall c <- text :: BracketOf(c) == NOTHING && !IsCodeQuote(c) && c != '/' && c != '<' && c != '>'
  }

  /** A character that counts nothing and starts nothing. */
  predicate IsIdle(line: string, k: nat)
    requires k < |line|
  {
    && BracketOf(line[k]) == NOTHING && !IsCodeQuote(line[k]) && line[k] != '<'
    && !IsPair(line, k, '/', '/') && !IsPair(line, k, '/', '*')
  }

  lemma IdleStep(alphanumeric: set<char>, line: string, i: nat)
    requires i < |line| && IsIdle(line, i)
    ensures Step(alphanumeric, line, i, FRESH) == Move(1, NOTHING, FRESH)
  {
  }

  /** Past its first characters, a tag's text counts nothing. */
  lemma {:induction false} TagTextRun(alphanumeric: set<char>, line: string, i: nat)
    requires i <= |line| && forall k | i <= k < |line| :: IsIdle(line, k)
    ensures ScanFrom(alphanumeric, line, i, FRESH) == Outcome(NOTHING, FRESH)
    decreases |line| - i
  {
    if i < |line| {
      IdleStep(alphanumeric, line, i);
      var after := i + 1;
      Skips(alphanumeric, line, i, FRESH, Move(1, NOTHING, FRESH), after);
      TagTextRun(alphanumeric, line, after);
    }
  }

  lemma {:induction false} TagEndsLast(s: string, i: nat)
    requires i < |s| && s[|s| - 1] == '>'
    requires forall k | i <= k < |s| - 1 :: s[k] != '>' && s[k] != '{' && !IsCodeQuote(s[k])
    ensures TagEndFrom(s, i, NO_QUOTE) == Some(|s|)
    decreases |s| - i
  {
    if i < |s| - 1 {
      TagEndsLast(s, i + 1);
    }
  }

  lemma TagShape(first: char, text: string, end: string)
    requires IsAsciiLetter(first) && IsTagText(text) && end in {">", "/>"}
    ensures var line := "<" + ([first] + text + end);
            && line[0] == '<' && line[1] == first && line[|line| - 1] == '>' && TagEnd(line) == Some(|line|)
            && line[..|line|] == line && (HasSuffix(line, "/>") <==> end == "/>")
            && forall k | 1 <= k < |line| :: IsIdle(line, k)
  {
    var line := "<" + ([first] + text + end);
    forall k | 1 <= k < |line|
      ensures IsIdle(line, k) && (k < |line| - 1 ==> line[k] != '>')
    {
      if 2 <= k < 2 + |text| {
        assert line[k] == text[k - 2] && text[k - 2] in text;
      } else if k > 1 {
        assert line[k] == end[k - 2 - |text|];
      }
    }
    TagEndsLast(line, 1);
    TagSuffix(first, text, end, line);
  }

  lemma TagSuffix(first: char, text: string, end: string, line: string)
    requires IsAsciiLetter(first) && IsTagText(text) && end in {">", "/>"} && line == "<" + ([first] + text + end)
    ensures HasSuffix(line, "/>") <==> end == "/>"
  {
    var before := if text == "" then first else text[|text| - 1];
    assert text != "" ==> text[|text| - 1] in text;
    assert end == ">" ==> line[|line| - 2] == before && line[|line| - 2..][0] == before;
    assert end == "/>" ==> line[|line| - 2..] == "/>";
  }

  /** A line that opens a tag counts one opening. */
  lemma OpenTagCounts(alphanumeric: set<char>, first: char, text: string)
    requires IsAsciiLetter(first) && IsTagText(text)
    ensures Scanned(alphanumeric, "<" + ([first] + text + ">"), FRESH) == Outcome(ONE_OPEN, FRESH)
  {
    var line := "<" + ([first] + text + ">");
    TagShape(first, text, ">");
    TagTextRun(alphanumeric, line, 1);
    assert line[0..] == line;
    OpenTagIsAlone(alphanumeric, line);
    AngleAtStart(alphanumeric, line);
    FirstCounts(alphanumeric, line, Move(1, ONE_OPEN, FRESH));
  }

  lemma FirstCounts(alphanumeric: set<char>, line: string, m: Move)
    requires line != "" && Step(alphanumeric, line, 0, FRESH) == m
    requires ScanFrom(alphanumeric, line, m.length, m.next) == Outcome(NOTHING, FRESH)
    ensures Scanned(alphanumeric, line, FRESH) == Outcome(m.balance, FRESH)
  {
    ScanStep(alphanumeric, line, 0, FRESH, m);
  }

  lemma OpenTagIsAlone(alphanumeric: set<char>, line: string)
    requires |line| > 1 && TagEnd(line) == Some(|line|) && !HasSuffix(line, "/>")
    ensures Parse(alphanumeric, line, 0).None?
  {
    assert line[..|line|] == line;
    var name := TagName(alphanumeric, line);
    if name.Some? {
      assert NextPart(alphanumeric, line, 0, name.value, |line|).Unreadable?;
    }
  }

  lemma AngleAtStart(alphanumeric: set<char>, line: string)
    requires |line| > 1 && line[0] == '<' && IsAsciiLetter(line[1])
    ensures Step(alphanumeric, line, 0, FRESH) ==
            var inline := Parse(alphanumeric, line, 0);
            if inline.Some? then Move(|inline.value.source|, NOTHING, FRESH)
            else match KindOfTag(line)
              case SelfClosing => Move(1, NOTHING, FRESH)
              case Opened => Move(1, ONE_OPEN, FRESH)
              case Pending => Move(1, ONE_OPEN, FRESH.(pendingTag := true))
  {
    assert line[0..] == line;
  }

  /** A line with an element that closes itself counts nothing. */
  lemma SelfClosingCounts(alphanumeric: set<char>, first: char, text: string)
    requires IsAsciiLetter(first) && IsTagText(text)
    ensures Scanned(alphanumeric, "<" + ([first] + text + "/>"), FRESH) == Outcome(NOTHING, FRESH)
  {
    var line := "<" + ([first] + text + "/>");
    TagShape(first, text, "/>");
    TagTextRun(alphanumeric, line, 1);
    AngleAtStart(alphanumeric, line);
    SelfClosingIsWhole(alphanumeric, line);
    FirstCounts(alphanumeric, line, Step(alphanumeric, line, 0, FRESH));
  }

  lemma SelfClosingIsWhole(alphanumeric: set<char>, line: string)
    requires TagEnd(line) == Some(|line|) && HasSuffix(line, "/>")
    ensures Parse(alphanumeric, line, 0).Some? ==> Parse(alphanumeric, line, 0).value.source == line
  {
    assert line[..|line|] == line;
  }

  /** A line that closes a tag counts one closing. */
  lemma CloseTagCounts(alphanumeric: set<char>, text: string)
    requires IsTagText(text) && (text == "" || text[0] != '*')
    ensures Scanned(alphanumeric, "</" + (text + ">"), FRESH) == Outcome(ONE_CLOSE, FRESH)
  {
    var line := "</" + (text + ">");
    assert line[..2] == "</" && line[0] == '<' && line[1] == '/';
    forall k | 1 <= k < |line| ensures IsIdle(line, k) {
      if 2 <= k < |line| - 1 {
        assert line[k] == text[k - 2] && text[k - 2] in text;
      }
    }
    TagTextRun(alphanumeric, line, 1);
    CloseAtStart(alphanumeric, line);
    FirstCounts(alphanumeric, line, Move(1, ONE_CLOSE, FRESH));
  }

  lemma CloseAtStart(alphanumeric: set<char>, line: string)
    requires HasPrefix(line, "</")
    ensures Step(alphanumeric, line, 0, FRESH) == Move(1, ONE_CLOSE, FRESH)
  {
    assert line[0..] == line && line[..2][0] == line[0] && line[..2][1] == line[1];
  }

  // Closers in front ----------------------------------------------------------------------------

  predicate StartsWithCloser(text: string) {
    HasPrefix(text, "</") || (text != "" && text[0] in {')', ']', '}'})
  }

  predicate IsClosing(text: string, ends: bool) {
    || text in {")", "]", "}"}
    || (HasPrefix(text, "</") && text[|text| - 1] == '>' && '>' !in text[..|text| - 1])
    || (HasPrefix(text, "</") && ends && '>' !in text)
  }

  /** A text that starts with so many closing brackets and tags, perhaps with blanks between them. */
  ghost predicate ClosesFirst(text: string, k: nat)
    decreases k
  {
    if k == 0 then !StartsWithCloser(text)
    else
      exists n ::
        && 0 < n <= |text| && IsClosing(text[..n], n == |text|)
        && ClosesFirst(TrimStart(text[n..]), k - 1)
  }

  /** The closing bracket or tag that a text starts with, up to its end. */
  lemma ClosingLength(text: string, n: nat)
    requires 0 < n <= |text| && IsClosing(text[..n], n == |text|)
    ensures n == if HasPrefix(text, "</") then (var i := FindFrom(text, '>', 0); if i < |text| then i + 1 else i) else 1
    ensures HasPrefix(text, "</") || text[0] in {')', ']', '}'}
  {
    var t := text[..n];
    if HasPrefix(t, "</") {
      assert text[..2] == t[..2];
      if t[|t| - 1] == '>' && '>' !in t[..|t| - 1] {
        FirstFound(text, '>', n - 1, 0);
      } else {
        assert n == |text| && t == text;
        NotFound(text, '>', 0);
      }
    } else {
      assert text[0] == t[0];
      PrefixStart(text, "</");
    }
  }

  lemma PrefixStart(text: string, prefix: string)
    requires prefix != ""
    ensures HasPrefix(text, prefix) ==> text[0] == prefix[0]
  {
    assert HasPrefix(text, prefix) ==> text[0] == text[..|prefix|][0];
  }

  lemma {:induction false} FirstFound(text: string, c: char, at: nat, i: nat)
    requires i <= at < |text| && text[at] == c && c !in text[..at]
    ensures FindFrom(text, c, i) == at
    decreases at - i
  {
    if i < at {
      assert text[..at][i] == text[i];
      FirstFound(text, c, at, i + 1);
    }
  }

  lemma {:induction false} NotFound(text: string, c: char, i: nat)
    requires i <= |text| && c !in text
    ensures FindFrom(text, c, i) == |text|
    decreases |text| - i
  {
    if i < |text| {
      assert text[i] in text;
      NotFound(text, c, i + 1);
    }
  }

  /** The closers a text starts with are counted. */
  lemma {:induction false} ClosersExactly(text: string, k: nat)
    ensures ClosesFirst(text, k) <==> LeadingClosers(text).0 == k
    decreases |text|, k
  {
    if StartsWithCloser(text) {
      var i := FindFrom(text, '>', 0);
      var n := if HasPrefix(text, "</") then (if i < |text| then i + 1 else i) else 1;
      FirstCloser(text, n);
      var rest := TrimStart(text[n..]);
      if k > 0 {
        var less := k - 1;
        ClosersExactly(rest, less);
        ClosesThen(text, n, rest, k, less);
      }
    } else {
      PrefixStart(text, "</");
      ClosesNothing(text, k);
      NoneCounted(text);
    }
  }

  lemma NoneCounted(text: string)
    requires !StartsWithCloser(text)
    ensures LeadingClosers(text).0 == 0
  {
  }

  lemma ClosesNothing(text: string, k: nat)
    requires !StartsWithCloser(text)
    ensures ClosesFirst(text, k) <==> k == 0
  {
    forall m | 0 < m <= |text| ensures !IsClosing(text[..m], m == |text|) {
      if IsClosing(text[..m], m == |text|) {
        ClosingLength(text, m);
      }
    }
  }

  lemma ClosesThen(text: string, n: nat, rest: string, k: nat, less: nat)
    requires k > 0 && less == k - 1
    requires 0 < n <= |text| && IsClosing(text[..n], n == |text|) && rest == TrimStart(text[n..])
    ensures ClosesFirst(text, k) <==> ClosesFirst(rest, less)
  {
    if ClosesFirst(text, k) {
      var m :| 0 < m <= |text| && IsClosing(text[..m], m == |text|) && ClosesFirst(TrimStart(text[m..]), k - 1);
      ClosingLength(text, m);
      ClosingLength(text, n);
    }
    SameNumber(rest, k - 1, less);
  }

  lemma SameNumber(text: string, k: nat, less: nat)
    requires k == less
    ensures ClosesFirst(text, k) <==> ClosesFirst(text, less)
  {
  }

  /** A text that starts with a closer is counted as that closer and what follows. */
  lemma FirstCloser(text: string, n: nat)
    requires StartsWithCloser(text)
    requires n == if HasPrefix(text, "</") then
               (var i := FindFrom(text, '>', 0); if i < |text| then i + 1 else i)
             else 1
    ensures 0 < n <= |text| && IsClosing(text[..n], n == |text|)
    ensures |TrimStart(text[n..])| < |text|
    ensures LeadingClosers(text).0 == LeadingClosers(TrimStart(text[n..])).0 + 1
  {
    TrimStartIsShorter(text[n..]);
    if HasPrefix(text, "</") {
      var i := FindFrom(text, '>', 0);
      assert text[..2] == "</" && text[0] == '<' && text[1] == '/';
      assert i > 1 && text[..n][..2] == "</";
      assert forall k | 0 <= k < i :: text[k] != '>';
      if i < |text| {
        assert text[..n][..|text[..n]| - 1] == text[..i] && text[..n][n - 1] == '>';
      } else {
        assert text[..n] == text && text[n..] == "";
      }
    } else {
      assert text[..1] == [text[0]];
    }
  }

  // Inside brackets -----------------------------------------------------------------------------

  /** Lines of code none of which starts a raw block. */
  ghost predicate AreCodeLines(lines: seq<string>) {
    forall line <- lines :: IsCodeLine(Trim(line)) && !IsRawBlockStart(Trim(line))
  }

  ghost function CodeAbove(lines: seq<string>): string {
    if lines == [] then "" else CodeAbove(lines[..|lines| - 1]) + CodeIn(Trim(lines[|lines| - 1]))
  }

  /** How many brackets are open below some lines of code. */
  ghost function OpenBelow(lines: seq<string>): int {
    BracketsIn(CodeAbove(lines)).opens - BracketsIn(CodeAbove(lines)).closes
  }

  /** No line of code closes more than the lines above it and it itself have opened. */
  ghost predicate NeverBelow(lines: seq<string>) {
    forall j | 0 <= j <= |lines| :: OpenBelow(lines[..j]) >= 0
  }

  lemma OpenGrows(lines: seq<string>, last: string)
    ensures var b := BracketsIn(CodeIn(Trim(last)));
            OpenBelow(lines + [last]) == OpenBelow(lines) + b.opens - b.closes
  {
    assert (lines + [last])[..|lines|] == lines && (lines + [last])[|lines|] == last;
    BracketsConcat(CodeAbove(lines), CodeIn(Trim(last)));
  }

  lemma FrontNeverBelow(front: seq<string>, last: string)
    requires AreCodeLines(front + [last]) && NeverBelow(front + [last])
    ensures AreCodeLines(front) && NeverBelow(front) && OpenBelow(front) >= 0 && OpenBelow(front + [last]) >= 0
    ensures IsCodeLine(Trim(last)) && !IsRawBlockStart(Trim(last))
  {
    var lines := front + [last];
    assert last in lines && forall line <- front :: line in lines;
    assert forall j | 0 <= j <= |front| :: front[..j] == lines[..j];
    assert lines[..|lines|] == lines && front[..|front|] == front;
  }

  /** Below lines of code, the level is the number of open brackets. */
  lemma {:induction false} LevelIsOpen(s: Settings, lines: seq<string>)
    requires AreCodeLines(lines) && NeverBelow(lines)
    ensures ScanBelow(s, lines) == FRESH && RawBelow(s, lines).None? && Level(s, lines) == OpenBelow(lines)
  {
    if lines != [] {
      var front, last := lines[..|lines| - 1], lines[|lines| - 1];
      assert lines == front + [last];
      FrontNeverBelow(front, last);
      LevelIsOpen(s, front);
      LevelGrows(s, front, last);
    } else {
      assert lines[..0] == lines && CodeAbove(lines) == "";
    }
  }

  lemma LevelGrows(s: Settings, front: seq<string>, last: string)
    requires IsCodeLine(Trim(last)) && !IsRawBlockStart(Trim(last)) && OpenBelow(front + [last]) >= 0
    requires ScanBelow(s, front) == FRESH && RawBelow(s, front).None? && Level(s, front) == OpenBelow(front)
    ensures var lines := front + [last];
            && ScanBelow(s, lines) == FRESH && RawBelow(s, lines).None? && Level(s, lines) == OpenBelow(lines)
  {
    CodeLineCounts(s.alphanumeric, Trim(last));
    OpenGrows(front, last);
    BelowOne(s, front, last);
    assert (front + [last])[..|front|] == front && (front + [last])[|front|] == last;
  }

  /** A line inside n open brackets that closes k of them first starts with the blanks of n - k levels. */
  lemma InsideBrackets(s: Settings, lines: seq<string>, groups: seq<seq<string>>, i: nat, n: nat, k: nat)
    requires IsLaidOut(s, lines, groups) && i < |lines|
    requires AreCodeLines(lines[..i]) && NeverBelow(lines[..i]) && n == OpenBelow(lines[..i])
    requires Trim(lines[i]) != "" && ClosesFirst(Trim(lines[i]), k)
    requires Expanded(s, FRESH, Trim(lines[i])).None?
    requires Wrapped(s, FRESH, Trim(lines[i]), |Indent(s, n, k)|).None?
    ensures groups[i] == [Indent(s, n, k) + Trim(lines[i])]
  {
    var above, line := lines[..i], Trim(lines[i]);
    LevelIsOpen(s, above);
    assert WrittenAs(s, above, lines[i], Flat(groups[..i]), groups[i]);
    TrimmedIsTight(lines[i]);
    assert TrimStart(line) == line;
    ClosersExactly(line, k);
    assert LeadingAlignment(line, false) == k;
  }
}
