/** The scanner that cuts rendered code at the commas of its own level. */
module ArgSplitter {
  import opened Text

  datatype ScanState = ScanState(depth: nat, quote: Option<char>, escaped: bool)

  function Open(depth: nat): ScanState {
    ScanState(depth, None, false)
  }

  function Quoted(depth: nat, quote: char): ScanState {
    ScanState(depth, Some(quote), false)
  }

  predicate IsQuote(c: char) {
    c == '\'' || c == '"'
  }

  predicate IsOpener(c: char) {
    c == '(' || c == '[' || c == '{'
  }

  predicate IsCloser(c: char) {
    c == ')' || c == ']' || c == '}'
  }

  function Step(st: ScanState, c: char): ScanState {
    match st.quote
    case Some(active) =>
      if st.escaped then st.(escaped := false)
      else if c == '\\' then st.(escaped := true)
      else if c == active then st.(quote := None)
      else st
    case None =>
      if IsQuote(c) then st.(quote := Some(c))
      else if IsOpener(c) then st.(depth := st.depth + 1)
      else if IsCloser(c) then st.(depth := if st.depth == 0 then 0 else st.depth - 1)
      else st
  }

  predicate IsCut(st: ScanState, c: char) {
    st.quote.None? && st.depth == 0 && c == ','
  }

  function Run(st: ScanState, s: string): ScanState
    decreases s
  {
    if s == "" then st else Run(Step(st, s[0]), s[1..])
  }

  predicate NoCut(st: ScanState, s: string)
    decreases s
  {
    s == "" || (!IsCut(st, s[0]) && NoCut(Step(st, s[0]), s[1..]))
  }

  function Pieces(st: ScanState, s: string): (parts: seq<string>)
    ensures parts != []
    decreases s
  {
    if s == "" then [""]
    else if IsCut(st, s[0]) then [""] + Pieces(Step(st, s[0]), s[1..])
    else AddToHead(s[0], Pieces(Step(st, s[0]), s[1..]))
  }

  function TrimAll(parts: seq<string>): seq<string> {
    seq(|parts|, i requires 0 <= i < |parts| => Trim(parts[i]))
  }

  function SplitArgs(input: string): seq<string> {
    TrimAll(Pieces(Open(0), input))
  }

  // The loop ----------------------------------------------------------------------------------

  function AddPrefix(prefix: string, parts: seq<string>): seq<string>
    requires parts != []
  {
    [prefix + parts[0]] + parts[1..]
  }

  /** The pieces closed so far and those that the open piece and the rest of the input will give. */
  ghost function Gathered(args: seq<string>, piece: string, st: ScanState, rest: string): seq<string> {
    args + TrimAll(AddPrefix(piece, Pieces(st, rest)))
  }

  lemma ScanStep(args: seq<string>, piece: string, st: ScanState, rest: string)
    requires rest != ""
    ensures Gathered(args, piece, st, rest) ==
              if IsCut(st, rest[0]) then Gathered(args + [Trim(piece)], "", Step(st, rest[0]), rest[1..])
              else Gathered(args, piece + [rest[0]], Step(st, rest[0]), rest[1..])
  {
    var next := Pieces(Step(st, rest[0]), rest[1..]);
    if IsCut(st, rest[0]) {
      CutPiece(piece, next);
      NoPrefix(next);
      assert args + ([Trim(piece)] + TrimAll(next)) == args + [Trim(piece)] + TrimAll(next);
    } else {
      GrowPiece(piece, rest[0], next);
    }
  }

  lemma ScanStart(input: string)
    ensures Gathered([], "", Open(0), input) == SplitArgs(input)
  {
    NoPrefix(Pieces(Open(0), input));
    assert [] + SplitArgs(input) == SplitArgs(input);
  }

  method SplitCodegenArgs(input: string) returns (args: seq<string>)
    ensures args == SplitArgs(input)
  {
    args := [];
    var start := 0;
    var depth: nat := 0;
    var quote: Option<char> := None;
    var escaped := false;
    var index := 0;
    ScanStart(input);
    assert input[0..0] == "" && input[0..] == input;
    while index < |input|
      invariant start <= index <= |input|
      invariant SplitArgs(input) == Gathered(args, input[start..index], ScanState(depth, quote, escaped),
               input[index..])
    {
      var c := input[index];
      ghost var st := ScanState(depth, quote, escaped);
      ScanStep(args, input[start..index], st, input[index..]);
      assert input[index..][0] == c && input[index..][1..] == input[index + 1..];
      assert input[start..index] + [c] == input[start..index + 1];
      assert input[index + 1..index + 1] == "";
      if quote.Some? {
        if escaped {
          escaped := false;
        } else if c == '\\' {
          escaped := true;
        } else if c == quote.value {
          quote := None;
        }
      } else if IsQuote(c) {
        quote := Some(c);
      } else if IsOpener(c) {
        depth := depth + 1;
      } else if IsCloser(c) {
        depth := if depth == 0 then 0 else depth - 1;
      } else if c == ',' && depth == 0 {
        args := args + [Trim(input[start..index])];
        start := index + 1;
      }
      assert ScanState(depth, quote, escaped) == Step(st, c);
      index := index + 1;
    }
    assert input[start..] == input[start..index];
    LastPiece(input[start..]);
    args := args + [Trim(input[start..])];
  }

  lemma NoPrefix(parts: seq<string>)
    requires parts != []
    ensures AddPrefix("", parts) == parts
  {
    assert "" + parts[0] == parts[0];
  }

  lemma CutPiece(piece: string, rest: seq<string>)
    requires rest != []
    ensures TrimAll(AddPrefix(piece, [""] + rest)) == [Trim(piece)] + TrimAll(rest)
  {
    assert piece + "" == piece;
    assert AddPrefix(piece, [""] + rest) == [piece] + rest;
  }

  lemma GrowPiece(piece: string, c: char, rest: seq<string>)
    requires rest != []
    ensures AddPrefix(piece, AddToHead(c, rest)) == AddPrefix(piece + [c], rest)
  {
    assert piece + ([c] + rest[0]) == piece + [c] + rest[0];
  }

  lemma LastPiece(piece: string)
    ensures TrimAll(AddPrefix(piece, [""])) == [Trim(piece)]
  {
    assert piece + "" == piece;
  }

  // Calm text ---------------------------------------------------------------------------------

  /** From any depth of at least `low`, scanning the text comes back to it without a cut. */
  ghost predicate Calm(low: nat, s: string) {
    forall depth: nat | depth >= low :: Run(Open(depth), s) == Open(depth) && NoCut(Open(depth), s)
  }

  lemma {:induction false} RunConcat(st: ScanState, a: string, b: string)
    ensures Run(st, a + b) == Run(Run(st, a), b)
    ensures NoCut(st, a + b) <==> NoCut(st, a) && NoCut(Run(st, a), b)
    decreases a
  {
    if a == "" {
      assert a + b == b;
    } else {
      assert (a + b)[1..] == a[1..] + b;
      RunConcat(Step(st, a[0]), a[1..], b);
    }
  }

  lemma CalmConcat(low: nat, a: string, b: string)
    requires Calm(low, a) && Calm(low, b)
    ensures Calm(low, a + b)
  {
    forall depth: nat | depth >= low ensures Run(Open(depth), a + b) == Open(depth) && NoCut(Open(depth), a + b) {
      RunConcat(Open(depth), a, b);
    }
  }

  predicate IsBracketPair(open: char, close: char) {
    (open == '(' && close == ')') || (open == '[' && close == ']') || (open == '{' && close == '}')
  }

  function Bracketed(open: char, s: string, close: char): string {
    [open] + s + [close]
  }

  lemma CalmBracketed(open: char, s: string, close: char)
    requires IsBracketPair(open, close) && Calm(1, s)
    ensures Calm(0, Bracketed(open, s, close))
  {
    forall depth: nat ensures Run(Open(depth), Bracketed(open, s, close)) == Open(depth)
        && NoCut(Open(depth), Bracketed(open, s, close)) {
      RunConcat(Open(depth), [open], s);
      RunConcat(Open(depth), [open] + s, [close]);
      OneChar(Open(depth), open);
      OneChar(Open(depth + 1), close);
    }
  }

  lemma OneChar(st: ScanState, c: char)
    ensures Run(st, [c]) == Step(st, c) && (NoCut(st, [c]) <==> !IsCut(st, c))
  {
    assert [c][1..] == "";
    assert Run(Step(st, c), "") == Step(st, c);
  }

  /** A character the scanner does not react to. */
  predicate IsQuiet(c: char) {
    !IsQuote(c) && !IsOpener(c) && !IsCloser(c) && c != ',' && c != '\\'
  }

  lemma {:induction false} QuietIsCalm(s: string)
    requires forall c <- s :: IsQuiet(c)
    ensures Calm(0, s)
  {
    forall depth: nat ensures Run(Open(depth), s) == Open(depth) && NoCut(Open(depth), s) {
      QuietRun(depth, s);
    }
  }

  lemma {:induction false} QuietRun(depth: nat, s: string)
    requires forall c <- s :: IsQuiet(c)
    ensures Run(Open(depth), s) == Open(depth) && NoCut(Open(depth), s)
  {
    if s != "" {
      assert IsQuiet(s[0]);
      QuietRun(depth, s[1..]);
    }
  }

  lemma CommaIsCalm()
    ensures Calm(1, ", ")
  {
    forall depth: nat | depth >= 1 ensures Run(Open(depth), ", ") == Open(depth) && NoCut(Open(depth), ", ") {
      RunConcat(Open(depth), ",", " ");
      OneChar(Open(depth), ',');
      OneChar(Open(depth), ' ');
      assert "," + " " == ", ";
    }
  }

  // Splitting what was joined -----------------------------------------------------------------

  function Join(texts: seq<string>): string {
    if texts == [] then "" else if |texts| == 1 then texts[0] else texts[0] + ", " + Join(texts[1..])
  }

  ghost predicate Arg(s: string) {
    Calm(0, s) && Tight(s)
  }

  ghost predicate Args(texts: seq<string>) {
    forall s <- texts :: Arg(s)
  }

  lemma {:induction false} PiecesAfter(st: ScanState, a: string, b: string)
    requires NoCut(st, a)
    ensures Pieces(st, a + b) == AddPrefix(a, Pieces(Run(st, a), b))
    decreases a
  {
    if a == "" {
      assert a + b == b;
      NoPrefix(Pieces(st, b));
    } else {
      var rest := Pieces(Run(st, a), b);
      assert (a + b)[1..] == a[1..] + b;
      PiecesAfter(Step(st, a[0]), a[1..], b);
      assert [a[0]] + (a[1..] + rest[0]) == a + rest[0];
    }
  }

  lemma PiecesOfArg(a: string, b: string)
    requires Calm(0, a)
    ensures Pieces(Open(0), a) == [a]
    ensures Pieces(Open(0), a + ", " + b) == [a] + Pieces(Open(0), " " + b)
  {
    PiecesAfter(Open(0), a, "");
    assert a + "" == a;
    PiecesAfter(Open(0), a, ", " + b);
    assert a + ", " + b == a + (", " + b);
    assert (", " + b)[0] == ',' && (", " + b)[1..] == " " + b;
  }

  lemma PiecesOfSpace(b: string)
    ensures Pieces(Open(0), " " + b) == AddPrefix(" ", Pieces(Open(0), b))
  {
    var text := " " + b;
    assert text[0] == ' ' && text[1..] == b;
    assert Step(Open(0), ' ') == Open(0);
    assert AddToHead(' ', Pieces(Open(0), b)) == AddPrefix(" ", Pieces(Open(0), b));
  }

  lemma {:induction false} PiecesOfJoin(texts: seq<string>)
    requires texts != [] && Args(texts)
    ensures var parts := Pieces(Open(0), Join(texts));
            |parts| == |texts| && parts[0] == texts[0] && TrimAll(parts) == texts
  {
    assert Arg(texts[0]);
    TightTrim(texts[0]);
    if |texts| == 1 {
      PiecesOfArg(texts[0], "");
    } else {
      var rest := Join(texts[1..]);
      var parts := Pieces(Open(0), rest);
      PiecesOfJoin(texts[1..]);
      PiecesOfArg(texts[0], rest);
      PiecesOfSpace(rest);
      JoinedTrim(texts, parts);
    }
  }

  /** The pieces after the first start with the blank of the separator, which trimming drops. */
  lemma JoinedTrim(texts: seq<string>, parts: seq<string>)
    requires |texts| > 1 && Args(texts) && |parts| == |texts| - 1 && parts[0] == texts[1]
             && TrimAll(parts) == texts[1..]
    ensures TrimAll([texts[0]] + AddPrefix(" ", parts)) == texts
  {
    var whole := [texts[0]] + AddPrefix(" ", parts);
    assert Arg(texts[0]) && Arg(texts[1]);
    TightTrim(texts[0]);
    TightTrim(texts[1]);
    forall i | 0 <= i < |whole| ensures Trim(whole[i]) == texts[i] {
      if i > 1 {
        assert whole[i] == parts[i - 1] && TrimAll(parts)[i - 1] == texts[1..][i - 1];
      }
    }
  }

  /** Joining arguments and splitting them again gives the arguments. */
  lemma SplitUndoesJoin(texts: seq<string>)
    requires texts != [] && Args(texts)
    ensures SplitArgs(Join(texts)) == texts
  {
    PiecesOfJoin(texts);
  }

  /** The first argument and the text of the others. */
  function BinaryArgs(input: string): Option<(string, string)> {
    var args := SplitArgs(input);
    if |args| < 2 then None
    else
      var left := args[0];
      var start := TrimStart(input);
      if !HasPrefix(start, left) then None
      else
        var after := TrimStart(start[|left|..]);
        if !HasPrefix(after, ",") then None
        else
          var right := Trim(after[1..]);
          if left != "" && right != "" then Some((left, right)) else None
  }

  lemma BinaryArgsOfJoin(first: string, rest: seq<string>)
    requires Arg(first) && Args(rest)
    ensures BinaryArgs(Join([first] + rest)) == if rest == [] then None else Some((first, Join(rest)))
  {
    SplitUndoesJoin([first] + rest);
    if rest != [] {
      assert ([first] + rest)[1..] == rest;
      TightJoin(rest);
      TightTrim(Join(rest));
      AfterFirst(first, Join(rest));
    }
  }

  lemma AfterFirst(first: string, rest: string)
    requires Tight(first)
    ensures var input := first + ", " + rest;
            && TrimStart(input) == input && HasPrefix(input, first)
            && TrimStart(input[|first|..]) == ", " + rest
            && HasPrefix(", " + rest, ",") && (", " + rest)[1..] == " " + rest
  {
    var input := first + ", " + rest;
    assert input[|first|..] == ", " + rest;
    assert input[0] == first[0] && (", " + rest)[0] == ',';
  }

  lemma {:induction false} TightJoin(texts: seq<string>)
    requires texts != [] && Args(texts)
    ensures Tight(Join(texts))
  {
    assert Arg(texts[0]);
    if |texts| > 1 {
      TightJoin(texts[1..]);
    }
  }

  lemma {:induction false} CalmJoin(texts: seq<string>)
    requires Args(texts)
    ensures Calm(1, Join(texts))
  {
    if texts == [] {
      QuietIsCalm("");
    } else {
      assert Arg(texts[0]);
      if |texts| > 1 {
        CalmJoin(texts[1..]);
        CommaIsCalm();
        CalmConcat(1, texts[0], ", ");
        CalmConcat(1, texts[0] + ", ", Join(texts[1..]));
      }
    }
  }
}
