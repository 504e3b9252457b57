/** The source formatter: a loop over lines that re-indents them and owns no more than blanks. */
module Formatter {
  import opened Text
  import opened InlineMarkup
  import opened StructuralScanner

  // Lines -------------------------------------------------------------------------------------

  function ReplaceCrLf(s: string): string {
    if s == "" then ""
    else if HasPrefix(s, "\r\n") then "\n" + ReplaceCrLf(s[2..])
    else [s[0]] + ReplaceCrLf(s[1..])
  }

  function ReplaceCr(s: string): string {
    if s == "" then "" else [if s[0] == '\r' then '\n' else s[0]] + ReplaceCr(s[1..])
  }

  function Normalize(s: string): string {
    ReplaceCr(ReplaceCrLf(s))
  }

  function FindFrom(s: string, c: char, i: nat): (r: nat)
    requires i <= |s|
    ensures i <= r <= |s| && (r < |s| ==> s[r] == c) && forall j | i <= j < r :: s[j] != c
    decreases |s| - i
  {
    if i == |s| || s[i] == c then i else FindFrom(s, c, i + 1)
  }

  /** The lines of a text; a line break at the end starts no line. */
  function Lines(s: string): seq<string>
    decreases |s|
  {
    if s == "" then []
    else
      var end := FindFrom(s, '\n', 0);
      if end == |s| then [s] else [s[..end]] + Lines(s[end + 1..])
  }

  /** Each line with a break after it. */
  function Unlines(lines: seq<string>): string {
    if lines == [] then "" else lines[0] + "\n" + Unlines(lines[1..])
  }

  // Single lines ------------------------------------------------------------------------------

  const RAW_STARTS: seq<string> := ["client JS", "client WASM", "style"]

  predicate IsRawBlockStart(line: string) {
    exists keyword <- RAW_STARTS :: HasPrefix(line, keyword) && HasPrefix(TrimStart(line[|keyword|..]), "{")
  }

  const CLAUSES: seq<string> := ["where", "order", "limit", "offset"]
  const HEADERS: seq<string> := ["backend", "page", "loader", "route", "action", "job", "query", "fn", "component",
      "scope"]

  predicate IsWordThenSpace(text: string, keyword: string) {
    HasPrefix(text, keyword) && |text| > |keyword| && IsSpace(text[|keyword|])
  }

  function Header(line: string): string {
    var trimmed := TrimEnd(line);
    if HasPrefix(trimmed, "export ") then trimmed[|"export "|..] else trimmed
  }

  /** A line of the older syntax, in which indentation counts. */
  predicate IsIndentationSensitive(line: string) {
    || (exists keyword <- CLAUSES :: IsWordThenSpace(TrimStart(line), keyword))
    || (var header := Header(line);
        && |TrimStart(line)| == |line|
        && '{' !in header && !HasSuffix(header, "(")
        && exists keyword <- HEADERS :: header == keyword || IsWordThenSpace(header, keyword))
  }

  /** How many closing tags and brackets the text starts with, and what follows them. */
  function LeadingClosers(rest: string): (nat, string)
    decreases |rest|
  {
    if HasPrefix(rest, "</") then
      var i := FindFrom(rest, '>', 0);
      TrimStartIsShorter(if i < |rest| then rest[i + 1..] else "");
      var (n, after) := LeadingClosers(TrimStart(if i < |rest| then rest[i + 1..] else ""));
      (n + 1, after)
    else if rest != "" && IsCloser(rest[0]) then
      TrimStartIsShorter(rest[1..]);
      var (n, after) := LeadingClosers(TrimStart(rest[1..]));
      (n + 1, after)
    else (0, rest)
  }

  lemma TrimStartIsShorter(s: string)
    ensures |TrimStart(s)| <= |s|
  {
  }

  /** How far a line moves out because of what it closes first. */
  function LeadingAlignment(line: string, pendingTag: bool): nat {
    var (closes, rest) := LeadingClosers(TrimStart(line));
    if closes == 0 && pendingTag && (HasPrefix(rest, ">") || HasPrefix(rest, "/>")) then 1 else closes
  }

  method FindLeadingAlignment(line: string, pendingTag: bool) returns (n: nat)
    ensures n == LeadingAlignment(line, pendingTag)
  {
    var rest := TrimStart(line);
    var closes: nat := 0;
    ghost var (total, last) := LeadingClosers(rest);
    while HasPrefix(rest, "</") || (rest != "" && IsCloser(rest[0]))
      invariant LeadingClosers(rest).0 + closes == total && LeadingClosers(rest).1 == last
      decreases |rest|
    {
      closes := closes + 1;
      if HasPrefix(rest, "</") {
        var i := FindFrom(rest, '>', 0);
        TrimStartIsShorter(if i < |rest| then rest[i + 1..] else "");
        rest := TrimStart(if i < |rest| then rest[i + 1..] else "");
      } else {
        TrimStartIsShorter(rest[1..]);
        rest := TrimStart(rest[1..]);
      }
    }
    n := if closes == 0 && pendingTag && (HasPrefix(rest, ">") || HasPrefix(rest, "/>")) then 1 else closes;
  }

  // One step of the line loop -------------------------------------------------------------------

  /** The indent, the alphanumeric characters, the texts the parser reads alike, and the tags wrapped at a width. */
  datatype Settings = Settings(width: nat, alphanumeric: set<char>, sameTree: iset<(string, seq<string>)>,
      wraps: imap<(string, nat), seq<string>>)

  datatype State = State(depth: nat, previousBlank: bool, started: bool, scan: Scan, raw: Option<nat>)

  const START := State(0, false, false, FRESH, None)

  /** The lines a source line becomes; they are plain when nothing was expanded or wrapped. */
  datatype Emitted = Emitted(lines: seq<string>, plain: bool, unwrapped: bool, state: State)

  function Minus(a: nat, b: nat): nat {
    if a < b then 0 else a - b
  }

  function IndentUnit(s: Settings): string {
    Repeat(" ", s.width)
  }

  function Indented(s: Settings, depth: nat, line: string): string {
    Repeat(IndentUnit(s), depth) + line
  }

  /** In a state where a line starts as code. */
  predicate IsCalm(scan: Scan) {
    !scan.pendingTag && scan.quotes.active.None? && !scan.blockComment
  }

  function Expanded(s: Settings, scan: Scan, line: string): Option<seq<string>> {
    if IsCalm(scan) then Expand(s.alphanumeric, s.sameTree, line, IndentUnit(s)) else None
  }

  function Wrapped(s: Settings, scan: Scan, part: string, width: nat): Option<seq<string>> {
    if IsCalm(scan) && (part, width) in s.wraps then Some(s.wraps[(part, width)]) else None
  }

  function PrefixAll(prefix: string, lines: seq<string>): seq<string> {
    seq(|lines|, i requires 0 <= i < |lines| => prefix + lines[i])
  }

  function WrapAll(s: Settings, scan: Scan, prefix: string, parts: seq<string>): seq<string> {
    if parts == [] then []
    else
      (match Wrapped(s, scan, parts[0], |prefix|)
       case Some(lines) => PrefixAll(prefix, lines)
       case None => [prefix + parts[0]])
      + WrapAll(s, scan, prefix, parts[1..])
  }

  predicate NoneWrapped(s: Settings, scan: Scan, prefix: string, parts: seq<string>) {
    forall part <- parts :: Wrapped(s, scan, part, |prefix|).None?
  }

  function FormatRaw(s: Settings, rawLine: string, st: State, rawDepth: nat): Emitted {
    var line := Trim(rawLine);
    var Outcome(balance, scan) := Scanned(s.alphanumeric, line, st.scan);
    var left := Minus(rawDepth + balance.opens, balance.closes);
    var depth := Minus(st.depth + balance.opens, balance.closes);
    if left == 0 then
      Emitted([Indented(s, Minus(st.depth, LeadingAlignment(line, scan.pendingTag)), line)], true, true,
              State(depth, false, true, scan, None))
    else Emitted([rawLine], true, true, State(depth, line == "", true, scan, Some(left)))
  }

  function FormatBlank(st: State): Emitted {
    if !st.previousBlank && st.started then Emitted([""], true, true, st.(previousBlank := true))
    else Emitted([], true, true, st)
  }

  function CodePrefix(s: Settings, line: string, depth: nat, pendingTag: bool): string {
    Repeat(IndentUnit(s), Minus(depth, LeadingAlignment(line, pendingTag)))
  }

  /** A line, or what it is expanded to. */
  function CodeParts(s: Settings, line: string, scan: Scan): seq<string> {
    var expanded := Expanded(s, scan, line);
    if expanded.Some? then expanded.value else [line]
  }

  function CodeLines(s: Settings, line: string, depth: nat, scan: Scan): seq<string> {
    WrapAll(s, scan, CodePrefix(s, line, depth, scan.pendingTag), CodeParts(s, line, scan))
  }

  function FormatCode(s: Settings, line: string, st: State): Emitted {
    var prefix := CodePrefix(s, line, st.depth, st.scan.pendingTag);
    var unwrapped := NoneWrapped(s, st.scan, prefix, CodeParts(s, line, st.scan));
    var lines := CodeLines(s, line, st.depth, st.scan);
    Emitted(lines, Expanded(s, st.scan, line).None? && unwrapped, unwrapped, AfterCode(s, line, st, lines != []))
  }

  function AfterCode(s: Settings, line: string, st: State, emitted: bool): State {
    var Outcome(balance, scan) := Scanned(s.alphanumeric, line, st.scan);
    State(Minus(st.depth + balance.opens, balance.closes), false, st.started || emitted, scan,
          if IsRawBlockStart(line) && balance.opens > balance.closes then Some(balance.opens - balance.closes)
              else None)
  }

  function FormatLine(s: Settings, rawLine: string, st: State): Emitted {
    if st.raw.Some? then FormatRaw(s, rawLine, st, st.raw.value)
    else if Trim(rawLine) == "" then FormatBlank(st)
    else FormatCode(s, Trim(rawLine), st)
  }

  function FormatLines(s: Settings, lines: seq<string>, st: State): Emitted {
    if lines == [] then Emitted([], true, true, st)
    else
      var first := FormatLine(s, lines[0], st);
      var rest := FormatLines(s, lines[1..], first.state);
      Emitted(first.lines + rest.lines, first.plain && rest.plain, first.unwrapped && rest.unwrapped, rest.state)
  }

  function DropTrailingBlanks(lines: seq<string>): seq<string> {
    if lines != [] && lines[|lines| - 1] == "" then DropTrailingBlanks(lines[..|lines| - 1]) else lines
  }

  predicate SomeSensitive(lines: seq<string>) {
    exists line <- lines :: IsIndentationSensitive(line)
  }

  function Format(s: Settings, source: string): string {
    var lines := Lines(Normalize(source));
    if SomeSensitive(lines) then Normalize(source)
    else Unlines(DropTrailingBlanks(FormatLines(s, lines, START).lines))
  }

  /** No line of the source is expanded or wrapped. */
  predicate IsPlain(s: Settings, source: string) {
    FormatLines(s, Lines(Normalize(source)), START).plain
  }

  /** No line of the source is wrapped. */
  predicate IsUnwrapped(s: Settings, source: string) {
    FormatLines(s, Lines(Normalize(source)), START).unwrapped
  }
}
