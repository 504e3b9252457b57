/** Where the formatter puts its lines: how deep a line is, and how many blanks it therefore starts with. */
module FormatterIndent {
  import opened Text
  import opened InlineMarkup
  import opened StructuralScanner
  import opened Formatter
  import opened FormatterLaws

  // What the lines above leave open -------------------------------------------------------------

  /** The state of the scanner below some lines. */
  function ScanBelow(s: Settings, above: seq<string>): Scan {
    if above == [] then FRESH
    else Scanned(s.alphanumeric, Trim(above[|above| - 1]), ScanBelow(s, above[..|above| - 1])).state
  }

  /** What the last of some lines opens and closes. */
  function LastBalance(s: Settings, above: seq<string>): Balance
    requires above != []
  {
    Scanned(s.alphanumeric, Trim(above[|above| - 1]), ScanBelow(s, above[..|above| - 1])).balance
  }

  /** How many brackets and tags are open below some lines; no line closes more than are open after it. */
  function Level(s: Settings, above: seq<string>): nat {
    if above == [] then 0
    else
      var open := Level(s, above[..|above| - 1]) + LastBalance(s, above).opens;
      if open < LastBalance(s, above).closes then 0 else open - LastBalance(s, above).closes
  }

  /** How many brackets of a raw block are open below some lines, if they end inside one. */
  function RawBelow(s: Settings, above: seq<string>): Option<nat> {
    if above == [] then None
    else
      var before, b := RawBelow(s, above[..|above| - 1]), LastBalance(s, above);
      if before.Some? then
        if before.value + b.opens <= b.closes then None else Some(before.value + b.opens - b.closes)
      else if IsRawBlockStart(Trim(above[|above| - 1])) && b.opens > b.closes then Some(b.opens - b.closes)
      else None
  }

  // How a line is written -----------------------------------------------------------------------

  function Blanks(n: nat): string {
    seq(n, _ => ' ')
  }

  /** The levels that are left of some when a line closes others first. */
  function Inside(open: nat, closed: nat): nat {
    if open < closed then 0 else open - closed
  }

  /** The blanks in front of a line: as many levels as are open, less what the line closes first. */
  function Margin(s: Settings, above: seq<string>, line: string, pendingTag: bool): string {
    Indent(s, Level(s, above), LeadingAlignment(line, pendingTag))
  }

  function Indent(s: Settings, open: nat, closed: nat): string {
    Blanks(s.width * Inside(open, closed))
  }

  predicate StartsAt(margin: string, written: seq<string>) {
    forall w <- written :: HasPrefix(w, margin)
  }

  /** The lines that one source line becomes, below the lines above it. */
  ghost predicate WrittenAs(s: Settings, above: seq<string>, raw: string, before: seq<string>, written: seq<string>) {
    var line, scan := Trim(raw), ScanBelow(s, above);
    if RawBelow(s, above).Some? then
      written == [if RawBelow(s, above + [raw]).Some? then raw
                  else Margin(s, above, line, ScanBelow(s, above + [raw]).pendingTag) + line]
    else if line == "" then
      written == if before != [] && above != [] && Trim(above[|above| - 1]) != "" then [""] else []
    else
      var margin := Margin(s, above, line, scan.pendingTag);
      && StartsAt(margin, written)
      && (Expanded(s, scan, line).None? && Wrapped(s, scan, line, |margin|).None? ==> written == [margin + line])
  }

  function Flat(groups: seq<seq<string>>): seq<string> {
    if groups == [] then [] else Flat(groups[..|groups| - 1]) + groups[|groups| - 1]
  }

  ghost predicate IsLaidOut(s: Settings, lines: seq<string>, groups: seq<seq<string>>) {
    && |groups| == |lines|
    && forall i | 0 <= i < |lines| :: WrittenAs(s, lines[..i], lines[i], Flat(groups[..i]), groups[i])
  }

  // The line loop lays them out -----------------------------------------------------------------

  lemma {:induction false} RepeatIsBlanks(w: nat, n: nat)
    ensures Repeat(Repeat(" ", w), n) == Blanks(w * n)
  {
    OneBlank(w);
    if n > 0 {
      RepeatIsBlanks(w, n - 1);
      assert w * n == w + w * (n - 1);
    }
  }

  lemma {:induction false} OneBlank(w: nat)
    ensures Repeat(" ", w) == Blanks(w)
  {
    if w > 0 {
      OneBlank(w - 1);
    }
  }

  /** What the loop's variables hold below some lines. */
  ghost predicate Tracks(s: Settings, above: seq<string>, before: seq<string>, st: State) {
    && st.depth == Level(s, above) && st.scan == ScanBelow(s, above) && st.raw == RawBelow(s, above)
    && (st.raw.Some? ==> st.raw.value > 0)
    && st.started == (before != []) && (above == [] ==> before == [])
    && st.previousBlank == (before != [] && above != [] && Trim(above[|above| - 1]) == "")
  }

  lemma CodeIsWritten(s: Settings, above: seq<string>, raw: string, before: seq<string>, st: State)
    requires Tracks(s, above, before, st) && st.raw.None? && Trim(raw) != ""
    ensures WrittenAs(s, above, raw, before, FormatCode(s, Trim(raw), st).lines)
  {
    var line := Trim(raw);
    var prefix := CodePrefix(s, line, st.depth, st.scan.pendingTag);
    RepeatIsBlanks(s.width, Minus(st.depth, LeadingAlignment(line, st.scan.pendingTag)));
    assert prefix == Margin(s, above, line, st.scan.pendingTag);
    PartsStart(s, st.scan, prefix, CodeParts(s, line, st.scan));
    if Expanded(s, st.scan, line).None? && Wrapped(s, st.scan, line, |prefix|).None? {
      assert [line][1..] == [] && WrapAll(s, st.scan, prefix, []) == [];
    }
  }

  lemma {:induction false} PartsStart(s: Settings, scan: Scan, prefix: string, parts: seq<string>)
    ensures StartsAt(prefix, WrapAll(s, scan, prefix, parts))
  {
    if parts != [] {
      PartsStart(s, scan, prefix, parts[1..]);
    }
  }

  lemma BelowOne(s: Settings, above: seq<string>, raw: string)
    ensures var b := Scanned(s.alphanumeric, Trim(raw), ScanBelow(s, above));
            && ScanBelow(s, above + [raw]) == b.state
            && LastBalance(s, above + [raw]) == b.balance
            && Level(s, above + [raw]) == Minus(Level(s, above) + b.balance.opens, b.balance.closes)
  {
    assert (above + [raw])[..|above|] == above;
  }

  lemma RawIsWritten(s: Settings, above: seq<string>, raw: string, before: seq<string>, st: State)
    requires Tracks(s, above, before, st) && st.raw.Some?
    ensures WrittenAs(s, above, raw, before, FormatLine(s, raw, st).lines)
  {
    BelowOne(s, above, raw);
    assert (above + [raw])[..|above|] == above && (above + [raw])[|above|] == raw;
    var Outcome(_, scan) := Scanned(s.alphanumeric, Trim(raw), st.scan);
    RepeatIsBlanks(s.width, Minus(st.depth, LeadingAlignment(Trim(raw), scan.pendingTag)));
  }

  lemma LineIsWritten(s: Settings, above: seq<string>, raw: string, before: seq<string>, st: State)
    requires Tracks(s, above, before, st)
    ensures WrittenAs(s, above, raw, before, FormatLine(s, raw, st).lines)
  {
    if st.raw.Some? {
      RawIsWritten(s, above, raw, before, st);
    } else if Trim(raw) != "" {
      CodeIsWritten(s, above, raw, before, st);
    }
  }

  lemma RawTracks(s: Settings, above: seq<string>, raw: string, before: seq<string>, st: State)
    requires Tracks(s, above, before, st) && st.raw.Some?
    ensures var e := FormatRaw(s, raw, st, st.raw.value); Tracks(s, above + [raw], before + e.lines, e.state)
  {
    BelowOne(s, above, raw);
    assert (above + [raw])[..|above|] == above && (above + [raw])[|above|] == raw;
  }

  lemma BlankTracks(s: Settings, above: seq<string>, raw: string, before: seq<string>, st: State)
    requires Tracks(s, above, before, st) && st.raw.None? && Trim(raw) == ""
    ensures var e := FormatBlank(st); Tracks(s, above + [raw], before + e.lines, e.state)
  {
    BelowOne(s, above, raw);
    assert (above + [raw])[..|above|] == above && (above + [raw])[|above|] == raw;
    assert Scanned(s.alphanumeric, "", st.scan) == Outcome(NOTHING, st.scan);
    assert before + [] == before;
  }

  lemma CodeTracks(s: Settings, above: seq<string>, raw: string, before: seq<string>, st: State)
    requires Tracks(s, above, before, st) && st.raw.None? && Trim(raw) != ""
    ensures var e := FormatCode(s, Trim(raw), st); Tracks(s, above + [raw], before + e.lines, e.state)
  {
    BelowOne(s, above, raw);
    assert (above + [raw])[..|above|] == above && (above + [raw])[|above|] == raw;
  }

  /** The loop's step keeps its variables. */
  lemma StepTracks(s: Settings, above: seq<string>, raw: string, before: seq<string>, st: State)
    requires Tracks(s, above, before, st)
    ensures var e := FormatLine(s, raw, st); Tracks(s, above + [raw], before + e.lines, e.state)
  {
    if st.raw.Some? {
      RawTracks(s, above, raw, before, st);
    } else if Trim(raw) == "" {
      BlankTracks(s, above, raw, before, st);
    } else {
      CodeTracks(s, above, raw, before, st);
    }
  }

  lemma FirstLine(s: Settings, lines: seq<string>, rest: seq<string>, st: State)
    requires lines != [] && rest == lines[1..]
    ensures var first, all := FormatLine(s, lines[0], st), FormatLines(s, lines, st);
            && all.lines == first.lines + FormatLines(s, rest, first.state).lines
            && all.state == FormatLines(s, rest, first.state).state
  {
  }

  lemma OneLine(s: Settings, line: string, st: State)
    ensures var f, all := FormatLine(s, line, st), FormatLines(s, [line], st);
            all.lines == f.lines && all.state == f.state
  {
    var f := FormatLine(s, line, st);
    FirstLine(s, [line], [], st);
    assert f.lines + [] == f.lines;
  }

  lemma ThreeGroups(a: seq<string>, b: seq<string>, c: seq<string>)
    ensures a + (b + c) == (a + b) + c
  {
  }

  lemma {:induction false} LinesThenLine(s: Settings, lines: seq<string>, last: string, st: State)
    ensures var e, all := FormatLines(s, lines, st), FormatLines(s, lines + [last], st);
            var f := FormatLine(s, last, e.state);
            all.lines == e.lines + f.lines && all.state == f.state
  {
    if lines == [] {
      OneLine(s, last, st);
      assert [] + [last] == [last] && [] + FormatLine(s, last, st).lines == FormatLine(s, last, st).lines;
    } else {
      var first := FormatLine(s, lines[0], st);
      var tail := lines[1..] + [last];
      assert (lines + [last])[0] == lines[0] && (lines + [last])[1..] == tail;
      FirstLine(s, lines, lines[1..], st);
      FirstLine(s, lines + [last], tail, st);
      LinesThenLine(s, lines[1..], last, first.state);
      var e := FormatLines(s, lines[1..], first.state);
      ThreeGroups(first.lines, e.lines, FormatLine(s, last, e.state).lines);
    }
  }

  /** Every source line is written where it belongs. */
  lemma {:induction false} LayOut(s: Settings, lines: seq<string>) returns (groups: seq<seq<string>>)
    ensures IsLaidOut(s, lines, groups) && Flat(groups) == FormatLines(s, lines, START).lines
    ensures Tracks(s, lines, Flat(groups), FormatLines(s, lines, START).state)
  {
    groups := [];
    if lines != [] {
      var n := |lines| - 1;
      var front, last := lines[..n], lines[n];
      assert front + [last] == lines;
      var some := LayOut(s, front);
      groups := LayOutLast(s, front, last, some);
    }
  }

  lemma LayOutLast(s: Settings, front: seq<string>, last: string, some: seq<seq<string>>)
    returns (groups: seq<seq<string>>)
    requires IsLaidOut(s, front, some) && Flat(some) == FormatLines(s, front, START).lines
    requires Tracks(s, front, Flat(some), FormatLines(s, front, START).state)
    ensures var lines := front + [last];
            && IsLaidOut(s, lines, groups) && Flat(groups) == FormatLines(s, lines, START).lines
            && Tracks(s, lines, Flat(groups), FormatLines(s, lines, START).state)
  {
    var st := FormatLines(s, front, START).state;
    var f := FormatLine(s, last, st);
    LinesThenLine(s, front, last, START);
    LineIsWritten(s, front, last, Flat(some), st);
    StepTracks(s, front, last, Flat(some), st);
    groups := some + [f.lines];
    LaidOutGrows(s, front, last, some, f.lines);
  }

  lemma LaidOutGrows(s: Settings, front: seq<string>, last: string, groups: seq<seq<string>>, written: seq<string>)
    requires IsLaidOut(s, front, groups) && WrittenAs(s, front, last, Flat(groups), written)
    ensures IsLaidOut(s, front + [last], groups + [written])
    ensures Flat(groups + [written]) == Flat(groups) + written
  {
    var lines, all := front + [last], groups + [written];
    assert all[..|groups|] == groups;
    forall i | 0 <= i < |lines| ensures WrittenAs(s, lines[..i], lines[i], Flat(all[..i]), all[i]) {
      if i < |front| {
        assert lines[..i] == front[..i] && lines[i] == front[i] && all[..i] == groups[..i] && all[i] == groups[i];
      } else {
        assert lines[..i] == front && lines[i] == last && all[..i] == groups && all[i] == written;
      }
    }
  }

  /** A source in which indentation counts is kept; every line of another one is written where it belongs. */
  ghost predicate IsFormatted(s: Settings, source: string, r: string) {
    var lines := Lines(Normalize(source));
    if SomeSensitive(lines) then r == Normalize(source)
    else exists groups :: IsLaidOut(s, lines, groups) && r == Unlines(DropTrailingBlanks(Flat(groups)))
  }

  lemma FormatIsLaidOut(s: Settings, source: string)
    ensures IsFormatted(s, source, Format(s, source))
  {
    var groups := LayOut(s, Lines(Normalize(source)));
  }
}
