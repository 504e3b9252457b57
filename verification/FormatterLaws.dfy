/** What the formatter promises: formatting twice is formatting once, and only blanks change. */
module FormatterLaws {
  import opened Text
  import opened InlineMarkup
  import opened StructuralScanner
  import opened Formatter

  // Line breaks -------------------------------------------------------------------------------

  predicate NoBreaks(line: string) {
    '\n' !in line && '\r' !in line
  }

  predicate AllWithoutBreaks(lines: seq<string>) {
    forall line <- lines :: NoBreaks(line)
  }

  lemma {:induction false} NormalizedHasNoCr(s: string)
    ensures '\r' !in ReplaceCr(s)
  {
    if s != "" {
      NormalizedHasNoCr(s[1..]);
    }
  }

  lemma {:induction false} NormalizeKeeps(s: string)
    requires '\r' !in s
    ensures Normalize(s) == s
  {
    CrLfKept(s);
    CrKept(s);
  }

  lemma {:induction false} CrLfKept(s: string)
    requires '\r' !in s
    ensures ReplaceCrLf(s) == s
  {
    if s != "" {
      assert s[0] in s && !HasPrefix(s, "\r\n");
      CrLfKept(s[1..]);
      assert s == [s[0]] + s[1..];
    }
  }

  lemma {:induction false} CrKept(s: string)
    requires '\r' !in s
    ensures ReplaceCr(s) == s
  {
    if s != "" {
      assert s[0] in s;
      CrKept(s[1..]);
      assert s == [s[0]] + s[1..];
    }
  }

  lemma {:induction false} LinesHaveNoBreaks(s: string)
    requires '\r' !in s
    ensures AllWithoutBreaks(Lines(s))
    decreases |s|
  {
    if s != "" {
      var end := FindFrom(s, '\n', 0);
      assert NoBreaks(s[..end]);
      if end < |s| {
        LinesHaveNoBreaks(s[end + 1..]);
      } else {
        assert s[..end] == s;
      }
    }
  }

  lemma {:induction false} UnlinesHasNoCr(lines: seq<string>)
    requires AllWithoutBreaks(lines)
    ensures '\r' !in Unlines(lines)
  {
    if lines != [] {
      assert NoBreaks(lines[0]);
      UnlinesHasNoCr(lines[1..]);
    }
  }

  /** Lines that are written out are read back. */
  lemma {:induction false} LinesOfUnlines(lines: seq<string>)
    requires AllWithoutBreaks(lines)
    ensures Lines(Unlines(lines)) == lines
  {
    if lines != [] {
      var line, rest := lines[0], Unlines(lines[1..]);
      var s := Unlines(lines);
      assert s == line + ("\n" + rest);
      assert NoBreaks(line);
      LinesOfUnlines(lines[1..]);
      FirstBreak(line, rest, 0);
      assert s[..|line|] == line && s[|line| + 1..] == rest;
      assert lines == [line] + lines[1..];
    }
  }

  lemma {:induction false} FirstBreak(line: string, rest: string, i: nat)
    requires '\n' !in line && i <= |line|
    ensures FindFrom(line + ("\n" + rest), '\n', i) == |line|
    decreases |line| - i
  {
    var s := line + ("\n" + rest);
    if i < |line| {
      assert s[i] == line[i] && line[i] in line;
      FirstBreak(line, rest, i + 1);
    }
  }

  // Indented lines ----------------------------------------------------------------------------

  lemma {:induction false} RepeatIsBlank(s: string, n: nat)
    requires forall c <- s :: c == ' '
    ensures forall c <- Repeat(s, n) :: c == ' '
  {
    if n > 0 {
      RepeatIsBlank(s, n - 1);
    }
  }

  lemma IndentIsBlank(s: Settings, depth: nat)
    ensures forall c <- Repeat(IndentUnit(s), depth) :: c == ' '
  {
    RepeatIsBlank(" ", s.width);
    RepeatIsBlank(IndentUnit(s), depth);
  }

  lemma {:induction false} BlankTrimsAway(front: string)
    requires forall c <- front :: IsSpace(c)
    ensures TrimStart(front) == ""
  {
    if front != "" {
      assert front[0] in front;
      BlankTrimsAway(front[1..]);
    }
  }

  lemma {:induction false} TrimStartStartsTight(s: string)
    ensures var t := TrimStart(s); t == "" || !IsSpace(t[0])
  {
    if s != "" && IsSpace(s[0]) {
      TrimStartStartsTight(s[1..]);
    }
  }

  lemma {:induction false} TrimEndEndsTight(s: string)
    ensures var t := TrimEnd(s); t == "" || (t[0] == s[0] && !IsSpace(t[|t| - 1]))
    ensures |TrimEnd(s)| <= |s| && TrimEnd(s) == s[..|TrimEnd(s)|]
  {
    if s != "" && IsSpace(s[|s| - 1]) {
      TrimEndEndsTight(s[..|s| - 1]);
    }
  }

  lemma TrimmedIsTight(s: string)
    ensures Trim(s) == "" || Tight(Trim(s))
  {
    TrimStartStartsTight(s);
    TrimEndEndsTight(TrimStart(s));
  }

  /** Trimming takes back the indent that a trimmed line was given. */
  lemma TrimIndented(s: Settings, depth: nat, raw: string)
    ensures Trim(Indented(s, depth, Trim(raw))) == Trim(raw)
  {
    var front, line := Repeat(IndentUnit(s), depth), Trim(raw);
    IndentIsBlank(s, depth);
    BlankTrimsAway(front);
    TrimmedIsTight(raw);
    if line == "" {
      assert front + line == front;
    } else {
      TrimAround(front, line, "");
      assert front + line + "" == front + line && TrimStart(front) + line + TrimEnd("") == line;
    }
  }

  // Idempotence -------------------------------------------------------------------------------

  /** A line that the formatter leaves as it is, in the state in which it meets it. */
  predicate Fixed(s: Settings, lines: seq<string>, st: State) {
    lines == [] ||
    (var e := FormatLine(s, lines[0], st); e.lines == [lines[0]] && e.plain && Fixed(s, lines[1..], e.state))
  }

  lemma CodeIsPlain(s: Settings, line: string, st: State)
    requires FormatCode(s, line, st).plain
    ensures FormatCode(s, line, st).lines == [Indented(s, Minus(st.depth, LeadingAlignment(line, st.scan.pendingTag)),
            line)]
  {
    var prefix := Repeat(IndentUnit(s), Minus(st.depth, LeadingAlignment(line, st.scan.pendingTag)));
    assert line in [line];
    assert WrapAll(s, st.scan, prefix, [line][1..]) == [];
  }

  /** The line that comes out is formatted to itself, and leads to the same state. */
  lemma FormatsAgain(s: Settings, raw: string, st: State)
    requires FormatLine(s, raw, st).plain
    ensures var e := FormatLine(s, raw, st);
            (e.lines == [] && e.state == st) || (|e.lines| == 1 && FormatLine(s, e.lines[0], st) == e)
  {
    var line := Trim(raw);
    if st.raw.Some? {
      var Outcome(_, scan) := Scanned(s.alphanumeric, line, st.scan);
      TrimIndented(s, Minus(st.depth, LeadingAlignment(line, scan.pendingTag)), raw);
    } else if line != "" {
      CodeIsPlain(s, line, st);
      TrimIndented(s, Minus(st.depth, LeadingAlignment(line, st.scan.pendingTag)), raw);
    }
  }

  lemma {:induction false} OutputIsFixed(s: Settings, lines: seq<string>, st: State)
    requires FormatLines(s, lines, st).plain
    ensures Fixed(s, FormatLines(s, lines, st).lines, st)
  {
    if lines != [] {
      var first := FormatLine(s, lines[0], st);
      var rest := FormatLines(s, lines[1..], first.state);
      FormatsAgain(s, lines[0], st);
      OutputIsFixed(s, lines[1..], first.state);
      if first.lines == [] {
        assert first.lines + rest.lines == rest.lines;
      } else {
        assert (first.lines + rest.lines)[0] == first.lines[0] && (first.lines + rest.lines)[1..] == rest.lines;
      }
    }
  }

  lemma {:induction false} FixedPrefix(s: Settings, lines: seq<string>, st: State, n: nat)
    requires n <= |lines| && Fixed(s, lines, st)
    ensures Fixed(s, lines[..n], st)
  {
    if n > 0 {
      FixedPrefix(s, lines[1..], FormatLine(s, lines[0], st).state, n - 1);
      assert lines[..n][1..] == lines[1..][..n - 1];
    }
  }

  lemma {:induction false} FixedStays(s: Settings, lines: seq<string>, st: State)
    requires Fixed(s, lines, st)
    ensures FormatLines(s, lines, st).lines == lines
  {
    if lines != [] {
      FixedStays(s, lines[1..], FormatLine(s, lines[0], st).state);
    }
  }

  lemma {:induction false} DroppedIsPrefix(lines: seq<string>)
    ensures var kept := DropTrailingBlanks(lines);
            && |kept| <= |lines| && kept == lines[..|kept|] && DropTrailingBlanks(kept) == kept
  {
    if lines != [] && lines[|lines| - 1] == "" {
      DroppedIsPrefix(lines[..|lines| - 1]);
    }
  }

  lemma {:induction false} TrimKeepsNoBreaks(s: string)
    requires NoBreaks(s)
    ensures NoBreaks(Trim(s))
  {
    TrimStartWithin(s);
    TrimEndEndsTight(TrimStart(s));
  }

  lemma {:induction false} TrimStartWithin(s: string)
    ensures forall c <- TrimStart(s) :: c in s
  {
    if s != "" && IsSpace(s[0]) {
      TrimStartWithin(s[1..]);
    }
  }

  lemma {:induction false} PlainLinesHaveNoBreaks(s: Settings, lines: seq<string>, st: State)
    requires FormatLines(s, lines, st).plain && AllWithoutBreaks(lines)
    ensures AllWithoutBreaks(FormatLines(s, lines, st).lines)
  {
    if lines != [] {
      PlainLineHasNoBreaks(s, lines[0], st);
      PlainLinesHaveNoBreaks(s, lines[1..], FormatLine(s, lines[0], st).state);
    }
  }

  lemma PlainLineHasNoBreaks(s: Settings, raw: string, st: State)
    requires FormatLine(s, raw, st).plain && NoBreaks(raw)
    ensures AllWithoutBreaks(FormatLine(s, raw, st).lines)
  {
    var line := Trim(raw);
    TrimKeepsNoBreaks(raw);
    if st.raw.Some? {
      var Outcome(_, scan) := Scanned(s.alphanumeric, line, st.scan);
      IndentIsBlank(s, Minus(st.depth, LeadingAlignment(line, scan.pendingTag)));
    } else if line != "" {
      CodeIsPlain(s, line, st);
      IndentIsBlank(s, Minus(st.depth, LeadingAlignment(line, st.scan.pendingTag)));
    }
  }

  /** When no line is expanded or wrapped, formatting the result changes nothing. */
  lemma FormattingTwiceIsOnce(s: Settings, source: string)
    requires SomeSensitive(Lines(Normalize(source))) || IsPlain(s, source)
    ensures Format(s, Format(s, source)) == Format(s, source)
  {
    NormalizedHasNoCr(ReplaceCrLf(source));
    var lines := Lines(Normalize(source));
    if SomeSensitive(lines) {
      NormalizeKeeps(Normalize(source));
    } else {
      var out := FormatLines(s, lines, START).lines;
      var kept := DropTrailingBlanks(out);
      LinesHaveNoBreaks(Normalize(source));
      PlainLinesHaveNoBreaks(s, lines, START);
      OutputIsFixed(s, lines, START);
      DroppedIsPrefix(out);
      FixedPrefix(s, out, START, |kept|);
      FixedStays(s, kept, START);
      LinesOfUnlines(kept);
      UnlinesHasNoCr(kept);
      NormalizeKeeps(Unlines(kept));
    }
  }

  // Content -----------------------------------------------------------------------------------

  /** A text without its blanks. */
  function Squeeze(s: string): string {
    if s == "" then "" else (if IsSpace(s[0]) then "" else [s[0]]) + Squeeze(s[1..])
  }

  function SqueezeAll(lines: seq<string>): string {
    if lines == [] then "" else Squeeze(lines[0]) + SqueezeAll(lines[1..])
  }

  lemma {:induction false} SqueezeConcat(a: string, b: string)
    ensures Squeeze(a + b) == Squeeze(a) + Squeeze(b)
  {
    if a == "" {
      assert a + b == b;
    } else {
      SqueezeConcat(a[1..], b);
      assert (a + b)[0] == a[0] && (a + b)[1..] == a[1..] + b;
      ConcatTwice(if IsSpace(a[0]) then "" else [a[0]], Squeeze(a[1..]), Squeeze(b));
    }
  }

  lemma {:induction false} SqueezeAllConcat(xs: seq<string>, ys: seq<string>)
    ensures SqueezeAll(xs + ys) == SqueezeAll(xs) + SqueezeAll(ys)
  {
    if xs == [] {
      assert xs + ys == ys;
    } else {
      SqueezeAllConcat(xs[1..], ys);
      assert (xs + ys)[0] == xs[0] && (xs + ys)[1..] == xs[1..] + ys;
      ConcatTwice(Squeeze(xs[0]), SqueezeAll(xs[1..]), SqueezeAll(ys));
    }
  }

  lemma {:induction false} SqueezeBlank(s: string)
    requires forall c <- s :: IsSpace(c)
    ensures Squeeze(s) == ""
  {
    if s != "" {
      assert s[0] in s;
      SqueezeBlank(s[1..]);
    }
  }

  lemma SqueezeIndented(s: Settings, depth: nat, line: string)
    ensures Squeeze(Repeat(IndentUnit(s), depth) + line) == Squeeze(line)
  {
    IndentIsBlank(s, depth);
    SqueezeBlank(Repeat(IndentUnit(s), depth));
    SqueezeConcat(Repeat(IndentUnit(s), depth), line);
  }

  lemma {:induction false} SqueezeTrimStart(s: string)
    ensures Squeeze(TrimStart(s)) == Squeeze(s)
  {
    if s != "" && IsSpace(s[0]) {
      SqueezeTrimStart(s[1..]);
    }
  }

  lemma {:induction false} SqueezeTrimEnd(s: string)
    ensures Squeeze(TrimEnd(s)) == Squeeze(s)
  {
    if s != "" && IsSpace(s[|s| - 1]) {
      var last := s[|s| - 1..];
      SqueezeTrimEnd(s[..|s| - 1]);
      assert s == s[..|s| - 1] + last;
      SqueezeConcat(s[..|s| - 1], last);
      SqueezeBlank(last);
    }
  }

  lemma SqueezeTrim(s: string)
    ensures Squeeze(Trim(s)) == Squeeze(s)
  {
    SqueezeTrimStart(s);
    SqueezeTrimEnd(TrimStart(s));
  }

  lemma {:induction false} SqueezeNormalize(s: string)
    ensures Squeeze(Normalize(s)) == Squeeze(s)
  {
    SqueezeCrLf(s);
    SqueezeCr(ReplaceCrLf(s));
  }

  lemma {:induction false} SqueezeCrLf(s: string)
    ensures Squeeze(ReplaceCrLf(s)) == Squeeze(s)
    decreases |s|
  {
    if s != "" {
      if HasPrefix(s, "\r\n") {
        SqueezeCrLf(s[2..]);
        assert s[0] == s[..2][0] && s[1] == s[..2][1];
        assert s[1..][1..] == s[2..] && s[1..][0] == s[1];
        SqueezeConcat("\n", ReplaceCrLf(s[2..]));
        SqueezeBlank("\n");
      } else {
        SqueezeCrLf(s[1..]);
        assert ([s[0]] + ReplaceCrLf(s[1..]))[1..] == ReplaceCrLf(s[1..]);
      }
    }
  }

  lemma {:induction false} SqueezeCr(s: string)
    ensures Squeeze(ReplaceCr(s)) == Squeeze(s)
  {
    if s != "" {
      SqueezeCr(s[1..]);
      assert ReplaceCr(s)[1..] == ReplaceCr(s[1..]);
    }
  }

  lemma {:induction false} SqueezeLines(s: string)
    ensures SqueezeAll(Lines(s)) == Squeeze(s)
    decreases |s|
  {
    if s != "" {
      var end := FindFrom(s, '\n', 0);
      if end == |s| {
        assert [s][1..] == [];
      } else {
        SqueezeLines(s[end + 1..]);
        assert s == s[..end] + ("\n" + s[end + 1..]);
        SqueezeConcat(s[..end], "\n" + s[end + 1..]);
        SqueezeConcat("\n", s[end + 1..]);
        SqueezeBlank("\n");
      }
    }
  }

  lemma SqueezeBreak(line: string, rest: string)
    ensures Squeeze(line + "\n" + rest) == Squeeze(line) + Squeeze(rest)
  {
    SqueezeConcat(line + "\n", rest);
    SqueezeConcat(line, "\n");
    SqueezeBlank("\n");
    assert Squeeze(line) + "" == Squeeze(line);
  }

  lemma {:induction false} SqueezeUnlines(lines: seq<string>)
    ensures Squeeze(Unlines(lines)) == SqueezeAll(lines)
  {
    if lines != [] {
      SqueezeUnlines(lines[1..]);
      SqueezeBreak(lines[0], Unlines(lines[1..]));
    }
  }

  lemma {:induction false} SqueezeDropped(lines: seq<string>)
    ensures SqueezeAll(DropTrailingBlanks(lines)) == SqueezeAll(lines)
  {
    if lines != [] && lines[|lines| - 1] == "" {
      SqueezeDropped(lines[..|lines| - 1]);
      assert lines == lines[..|lines| - 1] + [""];
      SqueezeAllConcat(lines[..|lines| - 1], [""]);
    }
  }

  lemma {:induction false} SqueezeLaid(s: Settings, laid: seq<Laid>)
    ensures SqueezeAll(LinesOf(laid, IndentUnit(s))) == Squeeze(Content(laid))
  {
    if laid != [] {
      SqueezeLaid(s, laid[1..]);
      SqueezeIndented(s, laid[0].depth, laid[0].text);
      SqueezeConcat(laid[0].text, Content(laid[1..]));
    }
  }

  lemma {:induction false} SqueezeUnwrapped(s: Settings, scan: Scan, depth: nat, parts: seq<string>)
    requires NoneWrapped(s, scan, Repeat(IndentUnit(s), depth), parts)
    ensures SqueezeAll(WrapAll(s, scan, Repeat(IndentUnit(s), depth), parts)) == SqueezeAll(parts)
  {
    if parts != [] {
      var prefix := Repeat(IndentUnit(s), depth);
      assert parts[0] in parts;
      SqueezeUnwrapped(s, scan, depth, parts[1..]);
      SqueezeIndented(s, depth, parts[0]);
      assert WrapAll(s, scan, prefix, parts) == [prefix + parts[0]] + WrapAll(s, scan, prefix, parts[1..]);
    }
  }

  lemma SqueezeCode(s: Settings, line: string, st: State)
    requires FormatCode(s, line, st).unwrapped
    ensures SqueezeAll(FormatCode(s, line, st).lines) == Squeeze(line)
  {
    var depth := Minus(st.depth, LeadingAlignment(line, st.scan.pendingTag));
    var expanded := Expanded(s, st.scan, line);
    var parts := if expanded.Some? then expanded.value else [line];
    SqueezeUnwrapped(s, st.scan, depth, parts);
    if expanded.Some? {
      var laid := ExpansionKeepsContent(s.alphanumeric, s.sameTree, line, IndentUnit(s));
      SqueezeLaid(s, laid);
    } else {
      assert [line][1..] == [];
    }
  }

  lemma SqueezeLine(s: Settings, raw: string, st: State)
    requires FormatLine(s, raw, st).unwrapped
    ensures SqueezeAll(FormatLine(s, raw, st).lines) == Squeeze(raw)
  {
    SqueezeTrim(raw);
    if st.raw.Some? {
      var Outcome(_, scan) := Scanned(s.alphanumeric, Trim(raw), st.scan);
      SqueezeIndented(s, Minus(st.depth, LeadingAlignment(Trim(raw), scan.pendingTag)), Trim(raw));
    } else if Trim(raw) != "" {
      SqueezeCode(s, Trim(raw), st);
    }
  }

  lemma {:induction false} SqueezeFormatted(s: Settings, lines: seq<string>, st: State)
    requires FormatLines(s, lines, st).unwrapped
    ensures SqueezeAll(FormatLines(s, lines, st).lines) == SqueezeAll(lines)
  {
    if lines != [] {
      var first := FormatLine(s, lines[0], st);
      SqueezeLine(s, lines[0], st);
      SqueezeFormatted(s, lines[1..], first.state);
      SqueezeAllConcat(first.lines, FormatLines(s, lines[1..], first.state).lines);
    }
  }

  /** Whatever is expanded, formatting changes only blanks, unless a tag is wrapped. */
  lemma FormattingKeepsContent(s: Settings, source: string)
    requires SomeSensitive(Lines(Normalize(source))) || IsUnwrapped(s, source)
    ensures Squeeze(Format(s, source)) == Squeeze(source)
  {
    var lines := Lines(Normalize(source));
    SqueezeNormalize(source);
    if !SomeSensitive(lines) {
      SqueezeLines(Normalize(source));
      SqueezeFormatted(s, lines, START);
      SqueezeDropped(FormatLines(s, lines, START).lines);
      SqueezeUnlines(DropTrailingBlanks(FormatLines(s, lines, START).lines));
    }
  }
}
