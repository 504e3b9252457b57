/** The printer of expressions as generated code; every text it makes is one argument to the splitter. */
module ExprPrinter {
  import opened Text
  import opened LoweringModel
  import opened ArgSplitter

  // Quoted text -------------------------------------------------------------------------------

  function HexDigit(n: nat): char
    requires n < 16
  {
    "0123456789abcdef"[n]
  }

  function HexText(n: nat): string {
    if n < 16 then [HexDigit(n)] else HexText(n / 16) + [HexDigit(n % 16)]
  }

  /** How a character is printed inside a quoted string; `printable` is the Unicode table. */
  function DebugChar(printable: char -> bool, c: char): string {
    if c == '\0' then "\\0"
    else if c == '\t' then "\\t"
    else if c == '\r' then "\\r"
    else if c == '\n' then "\\n"
    else if c == '"' then "\\\""
    else if c == '\\' then "\\\\"
    else if printable(c) then [c]
    else "\\u{" + HexText(c as int) + "}"
  }

  function DebugBody(printable: char -> bool, s: string): string {
    if s == "" then "" else DebugChar(printable, s[0]) + DebugBody(printable, s[1..])
  }

  function DebugText(printable: char -> bool, s: string): string {
    "\"" + DebugBody(printable, s) + "\""
  }

  /** Text inside quotes that comes back to the open quote. */
  ghost predicate Contained(s: string) {
    forall depth: nat :: Run(Quoted(depth, '"'), s) == Quoted(depth, '"') && NoCut(Quoted(depth, '"'), s)
  }

  lemma {:induction false} QuotedRun(depth: nat, s: string)
    requires forall c <- s :: c != '"' && c != '\\'
    ensures Run(Quoted(depth, '"'), s) == Quoted(depth, '"') && NoCut(Quoted(depth, '"'), s)
  {
    if s != "" {
      assert s[0] in s && forall c <- s[1..] :: c in s;
      QuotedRun(depth, s[1..]);
    }
  }

  lemma {:induction false} HexIsPlain(n: nat)
    ensures forall c <- HexText(n) :: c != '"' && c != '\\'
  {
    if n >= 16 {
      HexIsPlain(n / 16);
    }
  }

  lemma CharIsContained(printable: char -> bool, c: char)
    ensures Contained(DebugChar(printable, c))
  {
    var s := DebugChar(printable, c);
    forall depth: nat ensures Run(Quoted(depth, '"'), s) == Quoted(depth, '"') && NoCut(Quoted(depth, '"'), s) {
      if s[0] == '\\' {
        var middle := ScanState(depth, Some('"'), true);
        OneChar(Quoted(depth, '"'), s[0]);
        OneChar(middle, s[1]);
        RunConcat(Quoted(depth, '"'), [s[0]], [s[1]]);
        RunConcat(Quoted(depth, '"'), [s[0], s[1]], s[2..]);
        assert [s[0]] + [s[1]] == [s[0], s[1]] && s == [s[0], s[1]] + s[2..];
        if |s| > 2 {
          HexIsPlain(c as int);
          assert s[2..] == "{" + HexText(c as int) + "}";
        }
        QuotedRun(depth, s[2..]);
      } else {
        OneChar(Quoted(depth, '"'), c);
      }
    }
  }

  lemma {:induction false} BodyIsContained(printable: char -> bool, s: string)
    ensures Contained(DebugBody(printable, s))
  {
    if s != "" {
      CharIsContained(printable, s[0]);
      BodyIsContained(printable, s[1..]);
      forall depth: nat
        ensures Run(Quoted(depth, '"'), DebugBody(printable, s)) == Quoted(depth, '"')
                && NoCut(Quoted(depth, '"'), DebugBody(printable, s))
      {
        RunConcat(Quoted(depth, '"'), DebugChar(printable, s[0]), DebugBody(printable, s[1..]));
      }
    }
  }

  lemma DebugIsArg(printable: char -> bool, s: string)
    ensures Arg(DebugText(printable, s))
  {
    var body := DebugBody(printable, s);
    BodyIsContained(printable, s);
    forall depth: nat
      ensures Run(Open(depth), DebugText(printable, s)) == Open(depth) && NoCut(Open(depth), DebugText(printable, s))
    {
      OneChar(Open(depth), '"');
      OneChar(Quoted(depth, '"'), '"');
      RunConcat(Open(depth), "\"", body);
      RunConcat(Open(depth), "\"" + body, "\"");
    }
  }

  // Expressions -------------------------------------------------------------------------------

  function UnaryText(op: UnaryOp): string {
    match op
    case Not => "!"
    case Neg => "-"
  }

  function BinaryText(op: BinaryOp): string {
    match op
    case Add => "+"
    case Sub => "-"
    case Mul => "*"
    case Div => "/"
    case Rem => "%"
    case Eq => "=="
    case Ne => "!="
    case Gt => ">"
    case Ge => ">="
    case Lt => "<"
    case Le => "<="
    case In => "in"
    case And => "&&"
    case Or => "||"
    case Fallback => "??"
  }

  /** The dotted name of a chain of plain and optional members. */
  function MemberPath(e: Expr): Option<seq<string>> {
    match e
    case Ident(name) => Some([name])
    case Member(base, property) => Snoc(MemberPath(base), property)
    case OptionalMember(base, property) => Snoc(MemberPath(base), property)
    case _ => None
  }

  function Snoc(path: Option<seq<string>>, property: string): Option<seq<string>> {
    match path
    case Some(parts) => Some(parts + [property])
    case None => None
  }

  /** Environment lookups and request authentication have texts of their own. */
  function SpecialText(printable: char -> bool, e: Expr): Option<string> {
    match MemberPath(e)
    case None => None
    case Some(path) =>
      if |path| == 2 && path[0] == "env" then Some(EnvText(".value", DebugText(printable, path[1])))
      else if |path| == 4 && path[0] == "Runtime" && path[1] == "Env" && path[2] == "public" then
        Some(EnvText(".public", DebugText(printable, path[3])))
      else if |path| == 4 && path[0] == "Runtime" && path[1] == "Env" && path[2] == "secret" then
        Some(EnvText(".secret", DebugText(printable, path[3])))
      else if |path| == 2 && path[0] == "Auth" && path[1] in {"bearer", "session", "signedSession", "subject"} then
        Some("Auth." + path[1])
      else None
  }

  function EnvText(method_: string, key: string): string {
    "runtime.env" + Paren("") + (method_ + Paren(key) + "?")
  }

  function Paren(s: string): string {
    Bracketed('(', s, ')')
  }

  function Square(s: string): string {
    Bracketed('[', s, ']')
  }

  function Curly(s: string): string {
    Bracketed('{', s, '}')
  }

  function JoinWith(separator: string, parts: seq<string>): string {
    if parts == [] then "" else if |parts| == 1 then parts[0]
        else parts[0] + separator + JoinWith(separator, parts[1..])
  }

  function Render(printable: char -> bool, e: Expr): string
    decreases e, 2
  {
    match SpecialText(printable, e)
    case Some(text) => text
    case None => RenderPlain(printable, e)
  }

  function RenderPlain(printable: char -> bool, e: Expr): string
    decreases e, 1
  {
    match e
    case StrLit(text) => StringText(DebugText(printable, text))
    case NumLit(n) => IntText(n)
    case FltLit(text) => text + "_f64"
    case BoolLit(b) => BoolText(b)
    case ListLit(items) => ListText(RenderAll(printable, items))
    case ObjLit(fields) => ObjectText(RenderFields(printable, fields))
    case Ident(name) => NameText(name)
    case Unary(op, operand) => Paren(UnaryText(op) + Render(printable, operand))
    case Binary(op, left, right) => RenderBinary(op, left, right, Render(printable, left), Render(printable, right))
    case Index(base, index) => IndexText(base.Binary? || base.Unary?, Render(printable, base), Render(printable, index))
    case Member(base, property) => MemberText(Render(printable, base), property)
    case OptionalMember(base, property) => OptionalText(Render(printable, base), DebugText(printable, property))
    case Call(path, args) => CallText(path, RenderAll(printable, args))
  }

  function StringText(quoted: string): string {
    quoted + ".to_string" + Paren("")
  }

  function NameText(name: string): string {
    if name == "null" then "serde_json::Value::Null" else name
  }

  function ListText(texts: seq<string>): string {
    "vec!" + Square(Join(texts))
  }

  function ObjectText(texts: seq<string>): string {
    "json!" + Paren(Curly(Join(texts)))
  }

  /** The indexed operand is grouped when it is an operation. */
  function IndexText(grouped: bool, base: string, index: string): string {
    (if grouped then Paren(base) else base) + Square(index)
  }

  function MemberText(base: string, property: string): string {
    if property == "length" then "__ax_length" + Paren("&" + Paren(base)) + "?" else base + "." + property
  }

  function OptionalText(base: string, property: string): string {
    "__ax_optional_member" + Paren(Join([base, property]))
  }

  function CallText(path: seq<string>, texts: seq<string>): string {
    if path == ["list"] then ListText(texts) else JoinWith("::", path) + Paren(Join(texts))
  }

  /** A comparison with null is a predicate; addition, fallback and membership are calls. */
  function RenderBinary(op: BinaryOp, left: Expr, right: Expr, l: string, r: string): string {
    if op in {Eq, Ne} && (right == Ident("null") || left == Ident("null")) then
      var test := NullTest(if right == Ident("null") then l else r);
      if op == Ne then Paren("!" + test) else test
    else if op == Add then AddText(l, r)
    else if op == Fallback then Paren(l) + ".unwrap_or" + Paren(r)
    else if op == In then ContainsText(r, l)
    else Paren(l + " " + BinaryText(op) + " " + r)
  }

  function NullTest(s: string): string {
    "__ax_is_null" + Paren("&" + Paren(s)) + "?"
  }

  function AddText(l: string, r: string): string {
    "__ax_add" + Paren(Join(["&" + Paren(l), "&" + Paren(r)]))
  }

  function ContainsText(items: string, value: string): string {
    "contains" + Paren(Join([items, value]))
  }

  function RenderAll(printable: char -> bool, es: seq<Expr>): (texts: seq<string>)
    ensures |texts| == |es|
    ensures forall i | 0 <= i < |es| :: texts[i] == Render(printable, es[i])
    decreases es, 0
  {
    if es == [] then [] else [Render(printable, es[0])] + RenderAll(printable, es[1..])
  }

  function RenderFields(printable: char -> bool, fields: seq<Field>): (texts: seq<string>)
    ensures |texts| == |fields|
    decreases fields, 0
  {
    if fields == [] then []
    else
      [DebugText(printable, fields[0].name) + ": " + Render(printable, fields[0].value)]
      + RenderFields(printable, fields[1..])
  }

  // Names -------------------------------------------------------------------------------------

  predicate IsWordChar(c: char) {
    || 'a' <= c <= 'z' || 'A' <= c <= 'Z' || '0' <= c <= '9' || c == '_'
    || (c > '\U{7f}' && !IsSpace(c))
  }

  predicate IsWord(name: string) {
    name != "" && !('0' <= name[0] <= '9') && forall c <- name :: IsWordChar(c)
  }

  /** Finite floats print as digits, with a sign, a point or an exponent. */
  predicate IsFloatText(text: string) {
    text != "" && forall c <- text :: '0' <= c <= '9' || c in {'-', '.', 'e'}
  }

  /** Names are words; string contents, keys and optional properties are arbitrary. */
  predicate Named(e: Expr) {
    match e
    case FltLit(text) => IsFloatText(text)
    case Ident(name) => IsWord(name)
    case ListLit(items) => forall x <- items :: Named(x)
    case ObjLit(fields) => forall f <- fields :: Named(f.value)
    case Unary(_, operand) => Named(operand)
    case Binary(_, left, right) => Named(left) && Named(right)
    case Index(base, index) => Named(base) && Named(index)
    case Member(base, property) => Named(base) && IsWord(property)
    case OptionalMember(base, _) => Named(base)
    case Call(path, args) => (forall part <- path :: IsWord(part)) && (forall x <- args :: Named(x))
    case _ => true
  }

  predicate AllNamed(es: seq<Expr>) {
    forall e <- es :: Named(e)
  }

  predicate FieldsNamed(fields: seq<Field>) {
    forall f <- fields :: Named(f.value)
  }

  // Every text is one argument ----------------------------------------------------------------

  lemma QuietText(s: string)
    requires forall c <- s :: IsQuiet(c)
    ensures Calm(0, s) && Calm(1, s)
  {
    QuietIsCalm(s);
  }

  lemma WordIsArg(s: string)
    requires s != "" && forall c <- s :: IsWordChar(c)
    ensures Arg(s)
  {
    QuietText(s);
    assert s[0] in s && s[|s| - 1] in s;
  }

  lemma CalmLevels(s: string)
    requires Calm(0, s)
    ensures Calm(1, s)
  {
  }

  /** Quiet text in front of a bracketed argument list and quiet text behind it make one argument. */
  lemma CallIsArg(front: string, inner: string, back: string, open: char, close: char)
    requires IsBracketPair(open, close) && Calm(1, inner)
    requires (forall c <- front :: IsQuiet(c)) && (forall c <- back :: IsQuiet(c))
    requires front == "" || !IsSpace(front[0])
    requires back == "" || !IsSpace(back[|back| - 1])
    ensures Arg(front + Bracketed(open, inner, close) + back)
  {
    QuietText(front);
    QuietText(back);
    CalmBracketed(open, inner, close);
    CalmConcat(0, front, Bracketed(open, inner, close));
    CalmConcat(0, front + Bracketed(open, inner, close), back);
  }

  lemma CallIsArgOnly(front: string, inner: string, open: char, close: char)
    requires IsBracketPair(open, close) && Calm(1, inner)
    requires forall c <- front :: IsQuiet(c)
    requires front == "" || !IsSpace(front[0])
    ensures Arg(front + Bracketed(open, inner, close))
  {
    CallIsArg(front, inner, "", open, close);
    assert front + Bracketed(open, inner, close) + "" == front + Bracketed(open, inner, close);
  }

  lemma ArgsInside(texts: seq<string>)
    requires Args(texts)
    ensures Calm(1, Join(texts))
  {
    CalmJoin(texts);
  }

  /** An argument, quiet text and another argument make one argument. */
  lemma ArgThenArg(a: string, middle: string, b: string)
    requires Arg(a) && Arg(b) && forall c <- middle :: IsQuiet(c)
    ensures Arg(a + middle + b)
  {
    QuietText(middle);
    CalmConcat(0, a, middle);
    CalmConcat(0, a + middle, b);
  }

  lemma ArgBesideArg(a: string, b: string)
    requires Arg(a) && Arg(b)
    ensures Arg(a + b)
  {
    CalmConcat(0, a, b);
  }

  lemma AmpIsArg(s: string)
    requires Arg(s)
    ensures Arg("&" + Paren(s))
  {
    CalmLevels(s);
    CallIsArgOnly("&", s, '(', ')');
  }

  lemma ParenIsArg(s: string)
    requires Calm(1, s)
    ensures Arg(Paren(s))
  {
    CallIsArgOnly("", s, '(', ')');
    assert "" + Paren(s) == Paren(s);
  }

  lemma IntIsArg(n: int)
    ensures Arg(IntText(n))
  {
    var s := IntText(n);
    assert forall c <- s :: '0' <= c <= '9' || c == '-';
    QuietText(s);
    assert s[0] in s && s[|s| - 1] in s;
  }

  lemma {:induction false} RenderIsArg(printable: char -> bool, e: Expr)
    requires Named(e)
    ensures Arg(Render(printable, e))
    decreases e, 2
  {
    if SpecialText(printable, e).Some? {
      SpecialIsArg(printable, e);
    } else {
      PlainIsArg(printable, e);
    }
  }

  lemma {:induction false} PlainIsArg(printable: char -> bool, e: Expr)
    requires Named(e)
    ensures Arg(RenderPlain(printable, e))
    decreases e, 1
  {
    match e {
      case StrLit(text) => StringIsArg(printable, text);
      case NumLit(n) => IntIsArg(n);
      case FltLit(text) => FloatIsArg(text);
      case BoolLit(b) => BoolIsArg(b);
      case ListLit(items) =>
        RenderAllAreArgs(printable, items);
        ListIsArg(RenderAll(printable, items));
      case ObjLit(fields) =>
        FieldsAreArgs(printable, fields);
        ObjectIsArg(RenderFields(printable, fields));
      case Ident(name) => NameIsArg(name);
      case Unary(op, operand) =>
        RenderIsArg(printable, operand);
        UnaryIsArg(op, Render(printable, operand));
      case Binary(op, left, right) =>
        RenderIsArg(printable, left);
        RenderIsArg(printable, right);
        BinaryIsArg(op, left, right, Render(printable, left), Render(printable, right));
      case Index(base, index) =>
        RenderIsArg(printable, base);
        RenderIsArg(printable, index);
        IndexIsArg(base.Binary? || base.Unary?, Render(printable, base), Render(printable, index));
      case Member(base, property) =>
        RenderIsArg(printable, base);
        MemberIsArg(Render(printable, base), property);
      case OptionalMember(base, property) =>
        RenderIsArg(printable, base);
        OptionalIsArg(printable, Render(printable, base), property);
      case Call(path, args) =>
        RenderAllAreArgs(printable, args);
        CallTextIsArg(path, RenderAll(printable, args));
    }
  }

  lemma StringIsArg(printable: char -> bool, text: string)
    ensures Arg(StringText(DebugText(printable, text)))
  {
    DebugIsArg(printable, text);
    QuietText("");
    CallIsArgOnly(".to_string", "", '(', ')');
    ArgBesideArg(DebugText(printable, text), ".to_string" + Paren(""));
    assert DebugText(printable, text) + (".to_string" + Paren(""))
        == DebugText(printable, text) + ".to_string" + Paren("");
  }

  lemma BoolIsArg(b: bool)
    ensures Arg(BoolText(b))
  {
    WordIsArg(BoolText(b));
  }

  lemma OptionalNameIsQuiet()
    ensures forall c <- "__ax_optional_member" :: IsQuiet(c)
    ensures !IsSpace("__ax_optional_member"[0])
  {
  }

  lemma OptionalIsArg(printable: char -> bool, base: string, property: string)
    requires Arg(base)
    ensures Arg(OptionalText(base, DebugText(printable, property)))
  {
    DebugIsArg(printable, property);
    OptionalNameIsQuiet();
    ArgCallIsArg("__ax_optional_member", [base, DebugText(printable, property)]);
  }

  lemma FloatIsArg(text: string)
    requires IsFloatText(text)
    ensures Arg(text + "_f64")
  {
    QuietText(text + "_f64");
    assert text[0] in text && (text + "_f64")[|text| + 3] == '4';
  }

  lemma ListIsArg(texts: seq<string>)
    requires Args(texts)
    ensures Arg(ListText(texts))
  {
    ArgsInside(texts);
    CallIsArgOnly("vec!", Join(texts), '[', ']');
  }

  lemma ObjectIsArg(texts: seq<string>)
    requires Args(texts)
    ensures Arg(ObjectText(texts))
  {
    ArgsInside(texts);
    CalmBracketed('{', Join(texts), '}');
    CallIsArgOnly("json!", Curly(Join(texts)), '(', ')');
  }

  lemma UnaryIsArg(op: UnaryOp, operand: string)
    requires Arg(operand)
    ensures Arg(Paren(UnaryText(op) + operand))
  {
    QuietText(UnaryText(op));
    CalmConcat(1, UnaryText(op), operand);
    ParenIsArg(UnaryText(op) + operand);
  }

  lemma ArgCallIsArg(front: string, texts: seq<string>)
    requires Args(texts) && forall c <- front :: IsQuiet(c)
    requires front == "" || !IsSpace(front[0])
    ensures Arg(front + Paren(Join(texts)))
  {
    ArgsInside(texts);
    CallIsArgOnly(front, Join(texts), '(', ')');
  }

  lemma NameIsArg(name: string)
    requires IsWord(name)
    ensures Arg(NameText(name))
  {
    WordIsArg(name);
    QuietText("serde_json::Value::Null");
  }

  lemma CallTextIsArg(path: seq<string>, texts: seq<string>)
    requires Args(texts) && forall part <- path :: IsWord(part)
    ensures Arg(CallText(path, texts))
  {
    ListIsArg(texts);
    PathIsQuiet(path);
    ArgCallIsArg(JoinWith("::", path), texts);
  }

  lemma SpecialIsArg(printable: char -> bool, e: Expr)
    requires SpecialText(printable, e).Some?
    ensures Arg(SpecialText(printable, e).value)
  {
    var path := MemberPath(e).value;
    if |path| == 4 {
      EnvIsArg(printable, ".public", path[3]);
      EnvIsArg(printable, ".secret", path[3]);
    } else if path[0] == "env" {
      EnvIsArg(printable, ".value", path[1]);
    } else {
      AuthIsArg(path[1]);
    }
  }

  lemma AuthIsArg(name: string)
    requires name in {"bearer", "session", "signedSession", "subject"}
    ensures Arg("Auth." + name)
  {
    QuietText("Auth." + name);
  }

  lemma EnvIsArg(printable: char -> bool, method_: string, key: string)
    requires method_ in {".value", ".public", ".secret"}
    ensures Arg(EnvText(method_, DebugText(printable, key)))
  {
    var quoted := DebugText(printable, key);
    DebugIsArg(printable, key);
    CalmLevels(quoted);
    MethodIsQuiet(method_);
    CallIsArg(method_, quoted, "?", '(', ')');
    EnvIsCall();
    ArgBesideArg("runtime.env" + Paren(""), method_ + Paren(quoted) + "?");
  }

  lemma MethodIsQuiet(method_: string)
    requires method_ in {".value", ".public", ".secret"}
    ensures (forall c <- method_ :: IsQuiet(c)) && method_[0] == '.'
  {
  }

  lemma EnvIsCall()
    ensures Arg("runtime.env" + Paren(""))
  {
    QuietText("");
    CallIsArgOnly("runtime.env", "", '(', ')');
  }

  lemma {:induction false} PathIsQuiet(path: seq<string>)
    requires forall part <- path :: IsWord(part)
    ensures forall c <- JoinWith("::", path) :: IsQuiet(c)
    ensures var s := JoinWith("::", path); s == "" || !IsSpace(s[0])
  {
    if path != [] {
      assert IsWord(path[0]) && path[0][0] in path[0];
      if |path| > 1 {
        PathIsQuiet(path[1..]);
      }
    }
  }

  lemma MemberIsArg(base: string, property: string)
    requires Arg(base) && IsWord(property)
    ensures Arg(MemberText(base, property))
  {
    WordIsArg(property);
    ArgThenArg(base, ".", property);
    AmpIsArg(base);
    CallIsArg("__ax_length", "&" + Paren(base), "?", '(', ')');
  }

  lemma IndexIsArg(grouped: bool, base: string, index: string)
    requires Arg(base) && Arg(index)
    ensures Arg(IndexText(grouped, base, index))
  {
    CalmLevels(base);
    CalmLevels(index);
    ParenIsArg(base);
    CallIsArgOnly("", index, '[', ']');
    assert "" + Square(index) == Square(index);
    var front := if grouped then Paren(base) else base;
    ArgBesideArg(front, Square(index));
  }

  lemma NullTestIsArg(s: string)
    requires Arg(s)
    ensures Arg(NullTest(s)) && Arg(Paren("!" + NullTest(s)))
  {
    AmpIsArg(s);
    CallIsArg("__ax_is_null", "&" + Paren(s), "?", '(', ')');
    QuietText("!");
    CalmConcat(1, "!", NullTest(s));
    ParenIsArg("!" + NullTest(s));
  }

  lemma AddIsArg(l: string, r: string)
    requires Arg(l) && Arg(r)
    ensures Arg(AddText(l, r))
  {
    AmpIsArg(l);
    AmpIsArg(r);
    ArgCallIsArg("__ax_add", ["&" + Paren(l), "&" + Paren(r)]);
  }

  lemma FallbackIsArg(l: string, r: string)
    requires Arg(l) && Arg(r)
    ensures Arg(Paren(l) + ".unwrap_or" + Paren(r))
  {
    CalmLevels(l);
    CalmLevels(r);
    ParenIsArg(l);
    ParenIsArg(r);
    ArgThenArg(Paren(l), ".unwrap_or", Paren(r));
  }

  lemma ContainsIsArg(items: string, value: string)
    requires Arg(items) && Arg(value)
    ensures Arg(ContainsText(items, value))
  {
    ArgCallIsArg("contains", [items, value]);
  }

  lemma OperatorIsArg(op: BinaryOp, l: string, r: string)
    requires Arg(l) && Arg(r)
    ensures Arg(Paren(l + " " + BinaryText(op) + " " + r))
  {
    var middle := " " + BinaryText(op) + " ";
    ArgThenArg(l, middle, r);
    assert l + " " + BinaryText(op) + " " + r == l + middle + r;
    CalmLevels(l + middle + r);
    ParenIsArg(l + middle + r);
  }

  lemma BinaryIsArg(op: BinaryOp, left: Expr, right: Expr, l: string, r: string)
    requires Arg(l) && Arg(r)
    ensures Arg(RenderBinary(op, left, right, l, r))
  {
    NullTestIsArg(if right == Ident("null") then l else r);
    AddIsArg(l, r);
    FallbackIsArg(l, r);
    ContainsIsArg(r, l);
    OperatorIsArg(op, l, r);
  }

  lemma {:induction false} RenderAllAreArgs(printable: char -> bool, es: seq<Expr>)
    requires AllNamed(es)
    ensures Args(RenderAll(printable, es))
    decreases es, 0
  {
    if es != [] {
      RenderIsArg(printable, es[0]);
      RenderAllAreArgs(printable, es[1..]);
    }
  }

  lemma {:induction false} FieldsAreArgs(printable: char -> bool, fields: seq<Field>)
    requires FieldsNamed(fields)
    ensures Args(RenderFields(printable, fields))
    decreases fields, 0
  {
    if fields != [] {
      DebugIsArg(printable, fields[0].name);
      RenderIsArg(printable, fields[0].value);
      ArgThenArg(DebugText(printable, fields[0].name), ": ", Render(printable, fields[0].value));
      FieldsAreArgs(printable, fields[1..]);
    }
  }

  /** Splitting the joined texts of any expressions gives exactly those texts. */
  lemma SplitUndoesPrinting(printable: char -> bool, es: seq<Expr>)
    requires es != [] && AllNamed(es)
    ensures SplitArgs(Join(RenderAll(printable, es))) == RenderAll(printable, es)
  {
    RenderAllAreArgs(printable, es);
    SplitUndoesJoin(RenderAll(printable, es));
  }
}
