/** The formatter as it runs: one scanner, and variables that the line loop updates. */
module FormatterLoop {
  import opened Text
  import opened InlineMarkup
  import opened StructuralScanner
  import opened Formatter
  import opened FormatterIndent

  /** Writes the parts of a line, each wrapped or as it is, after the prefix. */
  method WriteParts(s: Settings, scan: Scan, prefix: string, parts: seq<string>) returns (lines: seq<string>)
    ensures lines == WrapAll(s, scan, prefix, parts)
  {
    lines := [];
    assert parts[0..] == parts;
    for i := 0 to |parts|
      invariant lines + WrapAll(s, scan, prefix, parts[i..]) == WrapAll(s, scan, prefix, parts)
    {
      var wrapped := Wrapped(s, scan, parts[i], |prefix|);
      var written := if wrapped.Some? then PrefixAll(prefix, wrapped.value) else [prefix + parts[i]];
      assert parts[i..][0] == parts[i] && parts[i..][1..] == parts[i + 1..];
      Regroup(lines, written, WrapAll(s, scan, prefix, parts[i + 1..]));
      lines := lines + written;
    }
    assert parts[|parts|..] == [] && lines + [] == lines;
  }

  lemma Regroup(a: seq<string>, b: seq<string>, c: seq<string>)
    ensures a + (b + c) == (a + b) + c
  {
  }

  /** A line of a raw block: kept as it is, unless it closes the block. */
  method WriteRaw(s: Settings, rawLine: string, depth: nat, previousBlank: bool, started: bool, rawDepth: nat,
      scanner: Scanner)
    returns (written: string, newDepth: nat, blank: bool, raw: Option<nat>)
    modifies scanner
    ensures var e := FormatRaw(s, rawLine, State(depth, previousBlank, started, old(scanner.State()), Some(rawDepth)),
              rawDepth);
            e.lines == [written] && e.state == State(newDepth, blank, true, scanner.State(), raw)
  {
    var line := Trim(rawLine);
    var balance := scanner.ScanLine(s.alphanumeric, line);
    var left := Minus(rawDepth + balance.opens, balance.closes);
    newDepth := Minus(depth + balance.opens, balance.closes);
    if left == 0 {
      var alignment := FindLeadingAlignment(line, scanner.pendingTag);
      written := Indented(s, Minus(depth, alignment), line);
      blank, raw := false, None;
    } else {
      written := rawLine;
      blank, raw := line == "", Some(left);
    }
  }

  method WriteLines(s: Settings, line: string, depth: nat, scanner: Scanner) returns (written: seq<string>)
    ensures written == CodeLines(s, line, depth, scanner.State())
  {
    var scan := scanner.State();
    var alignment := FindLeadingAlignment(line, scanner.pendingTag);
    var prefix := Repeat(IndentUnit(s), Minus(depth, alignment));
    written := WriteParts(s, scan, prefix, CodeParts(s, line, scan));
  }

  /** A line of code or markup: re-indented, expanded or wrapped, and then scanned. */
  method WriteCode(s: Settings, line: string, depth: nat, previousBlank: bool, started: bool, scanner: Scanner)
    returns (written: seq<string>, newDepth: nat, raw: Option<nat>)
    modifies scanner
    ensures var e := FormatCode(s, line, State(depth, previousBlank, started, old(scanner.State()), None));
            e.lines == written && e.state == State(newDepth, false, started || written != [], scanner.State(), raw)
  {
    written := WriteLines(s, line, depth, scanner);
    newDepth, raw := ScanCode(s, line, depth, previousBlank, started, written != [], scanner);
  }

  method ScanCode(s: Settings, line: string, depth: nat, ghost previousBlank: bool, ghost started: bool,
      ghost emitted: bool, scanner: Scanner)
    returns (newDepth: nat, raw: Option<nat>)
    modifies scanner
    ensures AfterCode(s, line, State(depth, previousBlank, started, old(scanner.State()), None), emitted)
            == State(newDepth, false, started || emitted, scanner.State(), raw)
  {
    var balance := scanner.ScanLine(s.alphanumeric, line);
    raw := None;
    if IsRawBlockStart(line) && balance.opens > balance.closes {
      raw := Some(balance.opens - balance.closes);
    }
    newDepth := Minus(depth + balance.opens, balance.closes);
  }

  /** What is written already, and what the rest of the lines become. */
  ghost predicate Writing(s: Settings, all: seq<string>, rest: seq<string>, written: seq<string>, st: State) {
    written + FormatLines(s, rest, st).lines == FormatLines(s, all, START).lines && st.started == (written != [])
  }

  lemma WriteOn(s: Settings, all: seq<string>, rest: seq<string>, written: seq<string>, st: State)
    requires rest != [] && Writing(s, all, rest, written, st)
    requires var e := FormatLine(s, rest[0], st); e.state.started == (written + e.lines != [])
    ensures var e := FormatLine(s, rest[0], st); Writing(s, all, rest[1..], written + e.lines, e.state)
  {
    var e := FormatLine(s, rest[0], st);
    Regroup(written, e.lines, FormatLines(s, rest[1..], e.state).lines);
  }

  method FormatAxSource(s: Settings, source: string) returns (r: string)
    ensures r == Format(s, source)
    ensures IsFormatted(s, source, r)
  {
    var normalized := Normalize(source);
    var lines := Lines(normalized);
    if SomeSensitive(lines) {
      FormatIsLaidOut(s, source);
      return normalized;
    }
    var formatted: seq<string> := [];
    var depth: nat := 0;
    var previousBlank := false;
    var scanner := new Scanner();
    var raw: Option<nat> := None;
    assert lines[0..] == lines && [] + FormatLines(s, lines, START).lines == FormatLines(s, lines, START).lines;
    for i := 0 to |lines|
      invariant fresh(scanner)
      invariant Writing(s, lines, lines[i..], formatted,
               State(depth, previousBlank, formatted != [], scanner.State(), raw))
    {
      assert lines[i..][0] == lines[i] && lines[i..][1..] == lines[i + 1..];
      WriteOn(s, lines, lines[i..], formatted, State(depth, previousBlank, formatted != [], scanner.State(), raw));
      if raw.Some? {
        var written;
        written, depth, previousBlank, raw := WriteRaw(s, lines[i], depth, previousBlank, formatted != [], raw.value,
            scanner);
        formatted := formatted + [written];
      } else if Trim(lines[i]) == "" {
        if !previousBlank && formatted != [] {
          formatted := formatted + [""];
          previousBlank := true;
        } else {
          assert formatted + [] == formatted;
        }
      } else {
        var written;
        written, depth, raw := WriteCode(s, Trim(lines[i]), depth, previousBlank, formatted != [], scanner);
        previousBlank := false;
        formatted := formatted + written;
      }
    }
    assert formatted + [] == formatted;
    ghost var all := formatted;
    while formatted != [] && formatted[|formatted| - 1] == ""
      invariant DropTrailingBlanks(formatted) == DropTrailingBlanks(all)
    {
      formatted := formatted[..|formatted| - 1];
    }
    r := Unlines(formatted);
    FormatIsLaidOut(s, source);
  }
}
