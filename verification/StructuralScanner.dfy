/** The formatter's scanner: what a line opens and closes, and what it leaves open for the next line. */
module StructuralScanner {
  import opened Text
  import opened InlineMarkup

  datatype Scan = Scan(pendingTag: bool, blockComment: bool, quotes: Quotes)

  const FRESH := Scan(false, false, NO_QUOTE)

  datatype Balance = Balance(opens: nat, closes: nat)

  datatype TagKind = SelfClosing | Opened | Pending

  function KindOfTag(tail: string): TagKind {
    match TagEnd(tail)
    case None => Pending
    case Some(end) => if HasSuffix(tail[..end], "/>") then SelfClosing else Opened
  }

  predicate IsAsciiLetter(c: char) {
    'a' <= c <= 'z' || 'A' <= c <= 'Z'
  }

  predicate TagCanStart(line: string, i: nat)
    requires i <= |line|
  {
    i == 0 || IsSpace(line[i - 1]) || line[i - 1] == '{' || line[i - 1] == '(' || line[i - 1] == '['
        || line[i - 1] == '>'
    || line[i - 1] == ',' || line[i - 1] == ':'
  }

  predicate IsOpener(c: char) {
    c == '{' || c == '[' || c == '('
  }

  predicate IsCloser(c: char) {
    c == '}' || c == ']' || c == ')'
  }

  predicate IsCodeQuote(c: char) {
    c == '"' || c == '\'' || c == '`'
  }

  predicate IsPair(line: string, i: nat, first: char, second: char) {
    i + 1 < |line| && line[i] == first && line[i + 1] == second
  }

  /** One move of the scanner: how far it goes, what it opens and closes, and its state after. */
  datatype Move = Move(length: nat, balance: Balance, next: Scan)

  const NOTHING := Balance(0, 0)
  const ONE_OPEN := Balance(1, 0)
  const ONE_CLOSE := Balance(0, 1)

  function Plus(a: Balance, b: Balance): Balance {
    Balance(a.opens + b.opens, a.closes + b.closes)
  }

  function Step(alphanumeric: set<char>, line: string, i: nat, st: Scan): (m: Move)
    requires i < |line|
    ensures 0 < m.length && i + m.length <= |line|
  {
    if st.blockComment then
      if IsPair(line, i, '*', '/') then Move(2, NOTHING, st.(blockComment := false)) else Move(1, NOTHING, st)
    else if st.quotes.active.Some? then Move(1, NOTHING,
        st.(quotes := InQuote(st.quotes, st.quotes.active.value, line[i])))
    else if IsPair(line, i, '/', '/') then Move(|line| - i, NOTHING, st)
    else if IsPair(line, i, '/', '*') then Move(2, NOTHING, st.(blockComment := true))
    else if IsCodeQuote(line[i]) then Move(1, NOTHING, st.(quotes := Quotes(Some(line[i]), st.quotes.escaped)))
    else if st.pendingTag then TagStep(line, i, st)
    else if IsOpener(line[i]) then Move(1, ONE_OPEN, st)
    else if IsCloser(line[i]) then Move(1, ONE_CLOSE, st)
    else if line[i] == '<' then AngleStep(alphanumeric, line, i, st)
    else Move(1, NOTHING, st)
  }

  /** Inside a tag that an earlier line, or the part before, left open. */
  function TagStep(line: string, i: nat, st: Scan): (m: Move)
    requires i < |line|
    ensures 0 < m.length && i + m.length <= |line|
  {
    if line[i] == '{' && ExpressionEnd(line[i..]).Some? then Move(ExpressionEnd(line[i..]).value, NOTHING, st)
    else if IsPair(line, i, '/', '>') then Move(2, ONE_CLOSE, st.(pendingTag := false))
    else Move(1, NOTHING, if line[i] == '>' then st.(pendingTag := false) else st)
  }

  function AngleStep(alphanumeric: set<char>, line: string, i: nat, st: Scan): (m: Move)
    requires i < |line|
    ensures 0 < m.length && i + m.length <= |line|
  {
    var tail := line[i..];
    var inline := if TagCanStart(line, i) then Parse(alphanumeric, tail, 0) else None;
    if inline.Some? then Move(|inline.value.source|, NOTHING, st)
    else if IsPair(line, i, '<', '/') then Move(1, ONE_CLOSE, st)
    else if IsPair(line, i, '<', '>') then Move(1, ONE_OPEN, st)
    else if |tail| > 1 && IsAsciiLetter(tail[1]) && TagCanStart(line, i) then
      match KindOfTag(tail)
      case SelfClosing => Move(1, NOTHING, st)
      case Opened => Move(1, ONE_OPEN, st)
      case Pending => Move(1, ONE_OPEN, st.(pendingTag := true))
    else Move(1, NOTHING, st)
  }

  datatype Outcome = Outcome(balance: Balance, state: Scan)

  function ScanFrom(alphanumeric: set<char>, line: string, i: nat, st: Scan): Outcome
    requires i <= |line|
    decreases |line| - i
  {
    if i == |line| then Outcome(NOTHING, st)
    else
      var m := Step(alphanumeric, line, i, st);
      After(m.balance, ScanFrom(alphanumeric, line, i + m.length, m.next))
  }

  lemma ScanStep(alphanumeric: set<char>, line: string, i: nat, st: Scan, m: Move)
    requires i < |line| && Step(alphanumeric, line, i, st) == m
    ensures ScanFrom(alphanumeric, line, i, st) == After(m.balance, ScanFrom(alphanumeric, line, i + m.length, m.next))
  {
  }

  function Scanned(alphanumeric: set<char>, line: string, st: Scan): Outcome {
    ScanFrom(alphanumeric, line, 0, st)
  }

  /** A line that is one complete element, or starts with one, is not scanned as code. */
  lemma InlineIsNeutral(alphanumeric: set<char>, line: string, st: Scan)
    requires !st.blockComment && st.quotes.active.None? && !st.pendingTag
    requires Parse(alphanumeric, line, 0).Some?
    ensures Scanned(alphanumeric, line, st)
            == ScanFrom(alphanumeric, line, |Parse(alphanumeric, line, 0).value.source|, st)
    ensures |Parse(alphanumeric, line, 0).value.source| == |line| ==>
            Scanned(alphanumeric, line, st) == Outcome(NOTHING, st)
  {
    var length := |Parse(alphanumeric, line, 0).value.source|;
    assert line[0..] == line && line[0] == '<';
    assert Step(alphanumeric, line, 0, st) == Move(length, NOTHING, st);
    AfterNothing(ScanFrom(alphanumeric, line, length, st));
  }

  // The scanner -----------------------------------------------------------------------------------

  class Scanner {
    var pendingTag: bool
    var blockComment: bool
    var quote: Option<char>
    var escaped: bool

    constructor ()
      ensures State() == FRESH
    {
      pendingTag, blockComment, quote, escaped := false, false, None, false;
    }

    function State(): Scan
      reads this
    {
      Scan(pendingTag, blockComment, Quotes(quote, escaped))
    }

    method ScanLine(alphanumeric: set<char>, line: string) returns (balance: Balance)
      modifies this
      ensures Outcome(balance, State()) == Scanned(alphanumeric, line, old(State()))
    {
      AfterNothing(Scanned(alphanumeric, line, State()));
      balance := CountAll(alphanumeric, line, After(NOTHING, Scanned(alphanumeric, line, State())));
    }

    method CountAll(alphanumeric: set<char>, line: string, ghost whole: Outcome) returns (balance: Balance)
      requires Leads(alphanumeric, line, 0, State(), NOTHING, whole)
      modifies this
      ensures Outcome(balance, State()) == whole
    {
      balance := NOTHING;
      var index := 0;
      while index < |line|
        invariant index <= |line| && Leads(alphanumeric, line, index, State(), balance, whole)
        decreases |line| - index
      {
        index, balance := Count(alphanumeric, line, index, balance, whole);
      }
      LeadsToEnd(alphanumeric, line, State(), balance, whole);
    }

    method Count(alphanumeric: set<char>, line: string, index: nat, done: Balance,
        ghost whole: Outcome) returns (next: nat, balance: Balance)
      requires index < |line| && Leads(alphanumeric, line, index, State(), done, whole)
      modifies this
      ensures index < next <= |line| && Leads(alphanumeric, line, next, State(), balance, whole)
    {
      ghost var st := State();
      var length, change := Advance(alphanumeric, line, index);
      LeadsOn(alphanumeric, line, index, st, done, whole, Move(length, change, State()));
      next, balance := index + length, Plus(done, change);
    }

    /** Moves over a character, a comment mark, an expression, an element, or the rest of a comment line. */
    method Advance(alphanumeric: set<char>, line: string, index: nat) returns (length: nat, change: Balance)
      requires index < |line|
      modifies this
      ensures Move(length, change, State()) == Step(alphanumeric, line, index, old(State()))
    {
      length, change := 1, NOTHING;
      var c := line[index];
      if blockComment {
        if IsPair(line, index, '*', '/') {
          blockComment := false;
          length := 2;
        }
      } else if quote.Some? {
        if escaped {
          escaped := false;
        } else if c == '\\' {
          escaped := true;
        } else if c == quote.value {
          quote := None;
        }
      } else if IsPair(line, index, '/', '/') {
        length := |line| - index;
      } else if IsPair(line, index, '/', '*') {
        blockComment := true;
        length := 2;
      } else if IsCodeQuote(c) {
        quote := Some(c);
      } else if pendingTag {
        length, change := AdvanceInTag(line, index);
      } else if IsOpener(c) {
        change := ONE_OPEN;
      } else if IsCloser(c) {
        change := ONE_CLOSE;
      } else if c == '<' {
        length, change := AdvanceOverAngle(alphanumeric, line, index);
      }
    }

    method AdvanceInTag(line: string, index: nat) returns (length: nat, change: Balance)
      requires index < |line|
      modifies this`pendingTag
      ensures Move(length, change, State()) == TagStep(line, index, old(State()))
    {
      length, change := 1, NOTHING;
      if line[index] == '{' {
        var end := FindExpressionEnd(line[index..]);
        if end.Some? {
          return end.value, NOTHING;
        }
      }
      if IsPair(line, index, '/', '>') {
        pendingTag := false;
        return 2, ONE_CLOSE;
      }
      if line[index] == '>' {
        pendingTag := false;
      }
    }

    method AdvanceOverAngle(alphanumeric: set<char>, line: string, index: nat) returns (length: nat, change: Balance)
      requires index < |line|
      modifies this`pendingTag
      ensures Move(length, change, State()) == AngleStep(alphanumeric, line, index, old(State()))
    {
      length, change := 1, NOTHING;
      var tail := line[index..];
      if TagCanStart(line, index) {
        var inline := ParseMarkup(alphanumeric, tail, 0);
        if inline.Some? {
          return |inline.value.source|, NOTHING;
        }
      }
      if IsPair(line, index, '<', '/') {
        change := ONE_CLOSE;
      } else if IsPair(line, index, '<', '>') {
        change := ONE_OPEN;
      } else if |tail| > 1 && IsAsciiLetter(tail[1]) && TagCanStart(line, index) {
        var kind := KindOfTag(tail);
        if kind != SelfClosing {
          change := ONE_OPEN;
        }
        if kind == Pending {
          pendingTag := true;
        }
      }
    }
  }

  function After(done: Balance, rest: Outcome): Outcome {
    Outcome(Plus(done, rest.balance), rest.state)
  }

  /** What is counted already, and the rest of the line, add up to the whole outcome. */
  predicate Leads(alphanumeric: set<char>, line: string, i: nat, st: Scan, done: Balance, whole: Outcome)
    requires i <= |line|
  {
    After(done, ScanFrom(alphanumeric, line, i, st)) == whole
  }

  lemma LeadsOn(alphanumeric: set<char>, line: string, i: nat, st: Scan, done: Balance, whole: Outcome, m: Move)
    requires i < |line| && Leads(alphanumeric, line, i, st, done, whole) && m == Step(alphanumeric, line, i, st)
    ensures Leads(alphanumeric, line, i + m.length, m.next, Plus(done, m.balance), whole)
  {
    ScanStep(alphanumeric, line, i, st, m);
  }

  lemma AfterNothing(rest: Outcome)
    ensures After(NOTHING, rest) == rest
  {
  }

  lemma LeadsToEnd(alphanumeric: set<char>, line: string, st: Scan, done: Balance, whole: Outcome)
    requires Leads(alphanumeric, line, |line|, st, done, whole)
    ensures whole == Outcome(done, st)
  {
  }
}
