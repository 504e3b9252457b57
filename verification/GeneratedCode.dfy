/** The expressions of generated code as trees, and a reader of their text. */
module GeneratedCode {
  import opened Text
  import ExprPrinter

  datatype Operator =
    | Minus | Times | Over | Modulo
    | Same | Different | More | MoreOrSame | Less | LessOrSame
    | Both | Either

  /** The infix operators of the generated language; the ones on truth values are `&&` and `||`. */
  const OPERATORS: map<string, Operator> := map[
    "-" := Minus, "*" := Times, "/" := Over, "%" := Modulo,
    "==" := Same, "!=" := Different, ">" := More, ">=" := MoreOrSame, "<" := Less, "<=" := LessOrSame,
    "&&" := Both, "||" := Either]

  datatype Code =
    | Path(names: seq<string>)
    | Whole(n: nat)
    | Decimal(text: string)
    | Quoted(text: string)
    | Not(of: Code)
    | Negative(of: Code)
    | Borrow(of: Code)
    | Operation(op: Operator, left: Code, right: Code)
    | Apply(head: Code, args: seq<Code>)
    | Select(base: Code, name: string)
    | At(base: Code, index: Code)
    | Try(of: Code)
    | ListOf(items: seq<Code>)
    | ObjectOf(fields: seq<(string, Code)>)

  // Tokens ------------------------------------------------------------------------------------

  predicate IsDigit(c: char) {
    '0' <= c <= '9'
  }

  /** The longest front of a text whose characters are digits. */
  function DigitsAt(s: string): (d: string)
    ensures HasPrefix(s, d) && forall c <- d :: IsDigit(c)
  {
    if s != "" && IsDigit(s[0]) then [s[0]] + DigitsAt(s[1..]) else ""
  }

  /** The longest front of a text whose characters make up words. */
  function WordAt(s: string): (w: string)
    ensures HasPrefix(s, w)
  {
    if s != "" && ExprPrinter.IsWordChar(s[0]) then [s[0]] + WordAt(s[1..]) else ""
  }

  function FractionAt(s: string): (f: string)
    ensures HasPrefix(s, f)
  {
    if |s| > 1 && s[0] == '.' && IsDigit(s[1]) then "." + DigitsAt(s[1..]) else ""
  }

  function ExponentAt(s: string): (x: string)
    ensures HasPrefix(s, x)
  {
    if |s| > 1 && s[0] == 'e' && IsDigit(s[1]) then "e" + DigitsAt(s[1..])
    else if |s| > 2 && s[0] == 'e' && s[1] == '-' && IsDigit(s[2]) then "e-" + DigitsAt(s[2..])
    else ""
  }

  /** A number is whole, or it bears the suffix of a float. */
  function ReadNumber(s: string): (r: Option<(Code, string)>)
    ensures r.Some? && s != "" && IsDigit(s[0]) ==> |r.value.1| < |s|
  {
    var d := DigitsAt(s);
    var f := FractionAt(s[|d|..]);
    var x := ExponentAt(s[|d|..][|f|..]);
    var rest := s[|d|..][|f|..][|x|..];
    if HasPrefix(rest, "_f64") then Some((Decimal(d + f + x), rest[4..]))
    else if f == "" && x == "" then Some((Whole(DigitsValue(d)), rest))
    else None
  }

  function HexValueOf(c: char): Option<nat> {
    if '0' <= c <= '9' then Some(c as int - '0' as int)
    else if 'a' <= c <= 'f' then Some(10 + (c as int - 'a' as int))
    else None
  }

  /** The number that the digits up to a closing brace spell. */
  function ReadHex(s: string, value: nat): (r: Option<(nat, string)>)
    ensures r.Some? ==> |r.value.1| < |s|
  {
    if s == "" then None
    else if s[0] == '}' then Some((value, s[1..]))
    else if HexValueOf(s[0]).None? then None
    else ReadHex(s[1..], 16 * value + HexValueOf(s[0]).value)
  }

  predicate IsScalarValue(n: nat) {
    n < 0xd800 || 0xe000 <= n < 0x11_0000
  }

  /** The character that a backslash and the text behind it stand for. */
  function ReadEscape(s: string): (r: Option<(char, string)>)
    ensures r.Some? ==> |r.value.1| < |s|
  {
    if s == "" then None
    else if s[0] in {'"', '\\'} then Some((s[0], s[1..]))
    else if s[0] == '0' then Some(('\0', s[1..]))
    else if s[0] == 't' then Some(('\t', s[1..]))
    else if s[0] == 'r' then Some(('\r', s[1..]))
    else if s[0] == 'n' then Some(('\n', s[1..]))
    else if HasPrefix(s, "u{") then
      match ReadHex(s[2..], 0)
      case Some((n, rest)) => if IsScalarValue(n) then Some((n as char, rest)) else None
      case None => None
    else None
  }

  /** The contents up to the closing quote. */
  function ReadQuoted(s: string): (r: Option<(string, string)>)
    ensures r.Some? ==> |r.value.1| < |s|
    decreases |s|
  {
    if s == "" then None
    else if s[0] == '"' then Some(("", s[1..]))
    else
      var first := if s[0] == '\\' then ReadEscape(s[1..]) else Some((s[0], s[1..]));
      if first.None? then None
      else
        match ReadQuoted(first.value.1)
        case Some((text, rest)) => Some(([first.value.0] + text, rest))
        case None => None
  }

  /** Names with two colons between them. */
  function ReadPath(s: string): (r: Option<(seq<string>, string)>)
    ensures r.Some? ==> |r.value.1| < |s|
    decreases |s|
  {
    var word := WordAt(s);
    if word == "" then None
    else
      var rest := s[|word|..];
      if HasPrefix(rest, "::") then
        match ReadPath(rest[2..])
        case Some((names, end)) => Some(([word] + names, end))
        case None => None
      else Some(([word], rest))
  }

  // Expressions -------------------------------------------------------------------------------

  function Read(text: string): Option<Code> {
    match ReadUnary(text)
    case Some((code, rest)) => if rest == "" then Some(code) else None
    case None => None
  }

  /** Prefix operators bind weaker than what follows an operand. */
  function ReadUnary(s: string): (r: Option<(Code, string)>)
    ensures r.Some? ==> |r.value.1| < |s|
    decreases |s|, 3
  {
    if s != "" && s[0] in {'!', '-', '&'} then
      match ReadUnary(s[1..])
      case Some((code, rest)) =>
        Some((if s[0] == '!' then Not(code) else if s[0] == '-' then Negative(code) else Borrow(code), rest))
      case None => None
    else ReadOperand(s)
  }

  function ReadOperand(s: string): (r: Option<(Code, string)>)
    ensures r.Some? ==> |r.value.1| < |s|
    decreases |s|, 2
  {
    match ReadPrimary(s)
    case Some((code, rest)) => ReadTail(code, rest)
    case None => None
  }

  function ReadPrimary(s: string): (r: Option<(Code, string)>)
    ensures r.Some? ==> |r.value.1| < |s|
    decreases |s|, 1
  {
    if s == "" then None
    else if s[0] == '"' then
      match ReadQuoted(s[1..])
      case Some((text, rest)) => Some((Quoted(text), rest))
      case None => None
    else if IsDigit(s[0]) then ReadNumber(s)
    else if s[0] == '(' then ReadGroup(s[1..])
    else if HasPrefix(s, "vec![") then
      match ReadItems(s[5..], ']')
      case Some((items, rest)) => Some((ListOf(items), rest))
      case None => None
    else if HasPrefix(s, "json!({") then
      match ReadFields(s[7..])
      case Some((fields, rest)) => if HasPrefix(rest, ")") then Some((ObjectOf(fields), rest[1..])) else None
      case None => None
    else
      match ReadPath(s)
      case Some((names, rest)) => Some((Path(names), rest))
      case None => None
  }

  /** What follows an operand: members, arguments, an index, or a question mark. */
  function ReadTail(code: Code, s: string): (r: Option<(Code, string)>)
    ensures r.Some? ==> |r.value.1| <= |s|
    decreases |s|, 0
  {
    if s == "" then Some((code, s))
    else if s[0] == '.' then
      var word := WordAt(s[1..]);
      if word == "" then None else ReadTail(Select(code, word), s[1..][|word|..])
    else if s[0] == '(' then
      match ReadItems(s[1..], ')')
      case Some((args, rest)) => ReadTail(Apply(code, args), rest)
      case None => None
    else if s[0] == '[' then
      match ReadUnary(s[1..])
      case Some((index, rest)) => if HasPrefix(rest, "]") then ReadTail(At(code, index), rest[1..]) else None
      case None => None
    else if s[0] == '?' then ReadTail(Try(code), s[1..])
    else Some((code, s))
  }

  /** An expression in parentheses, or two with an operator between them. */
  function ReadGroup(s: string): (r: Option<(Code, string)>)
    ensures r.Some? ==> |r.value.1| < |s|
    decreases |s|, 4
  {
    match ReadUnary(s)
    case None => None
    case Some((left, rest)) =>
      if HasPrefix(rest, ")") then Some((left, rest[1..]))
      else if HasPrefix(rest, " ") then
        var symbol := UntilBlank(rest[1..]);
        var back := rest[1..][|symbol|..];
        if symbol !in OPERATORS || !HasPrefix(back, " ") then None
        else
          match ReadUnary(back[1..])
          case Some((right, end)) =>
            if HasPrefix(end, ")") then Some((Operation(OPERATORS[symbol], left, right), end[1..])) else None
          case None => None
      else None
  }

  function UntilBlank(s: string): (front: string)
    ensures HasPrefix(s, front)
  {
    if s != "" && s[0] != ' ' then [s[0]] + UntilBlank(s[1..]) else ""
  }

  /** Expressions with commas between them, up to the closing bracket. */
  function ReadItems(s: string, close: char): (r: Option<(seq<Code>, string)>)
    ensures r.Some? ==> |r.value.1| < |s|
    decreases |s|, 5
  {
    if HasPrefix(s, [close]) then Some(([], s[1..])) else ReadMore(s, close)
  }

  function ReadMore(s: string, close: char): (r: Option<(seq<Code>, string)>)
    ensures r.Some? ==> |r.value.1| < |s|
    decreases |s|, 4
  {
    match ReadUnary(s)
    case None => None
    case Some((first, rest)) =>
      if HasPrefix(rest, [close]) then Some(([first], rest[1..]))
      else if HasPrefix(rest, ", ") then
        match ReadMore(rest[2..], close)
        case Some((more, end)) => Some(([first] + more, end))
        case None => None
      else None
  }

  /** Keys and values with commas between them, up to the closing brace. */
  function ReadFields(s: string): (r: Option<(seq<(string, Code)>, string)>)
    ensures r.Some? ==> |r.value.1| < |s|
    decreases |s|, 5
  {
    if HasPrefix(s, "}") then Some(([], s[1..])) else ReadMoreFields(s)
  }

  function ReadField(s: string): (r: Option<((string, Code), string)>)
    ensures r.Some? ==> |r.value.1| < |s|
    decreases |s|, 3
  {
    if !HasPrefix(s, "\"") then None
    else
      match ReadQuoted(s[1..])
      case None => None
      case Some((key, rest)) =>
        if !HasPrefix(rest, ": ") then None
        else
          match ReadUnary(rest[2..])
          case Some((value, end)) => Some(((key, value), end))
          case None => None
  }

  function ReadMoreFields(s: string): (r: Option<(seq<(string, Code)>, string)>)
    ensures r.Some? ==> |r.value.1| < |s|
    decreases |s|, 4
  {
    match ReadField(s)
    case None => None
    case Some((first, rest)) =>
      if HasPrefix(rest, "}") then Some(([first], rest[1..]))
      else if HasPrefix(rest, ", ") then
        match ReadMoreFields(rest[2..])
        case Some((more, end)) => Some(([first] + more, end))
        case None => None
      else None
  }
}
