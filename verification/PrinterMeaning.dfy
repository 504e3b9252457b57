/** What printed expressions mean: reading the generated text gives the operations and operands of the expression. */
module PrinterMeaning {
  import opened Text
  import opened LoweringModel
  import opened ExprPrinter
  import opened GeneratedForms
  import opened GeneratedCode
  import ArgSplitter

  // The tree that an expression means ---------------------------------------------------------

  /** A member or an optional member, as what it is a member of and its name. */
  function LinkOf(e: Expr): Option<(Expr, string)> {
    match e
    case Member(base, property) => Some((base, property))
    case OptionalMember(base, property) => Some((base, property))
    case _ => None
  }

  /** An environment lookup: `env.KEY`, `Runtime.Env.public.KEY` or `Runtime.Env.secret.KEY`. */
  function EnvKey(e: Expr): Option<(string, string)> {
    match LinkOf(e)
    case None => None
    case Some((base, key)) =>
      if base == Ident("env") then Some(("value", key))
      else
        match LinkOf(base)
        case Some((outer, kind)) =>
          if kind in {"public", "secret"} && LinkOf(outer) == Some((Ident("Runtime"), "Env")) then Some((kind, key))
          else None
        case None => None
  }

  /** What is known of the request's user. */
  function AuthName(e: Expr): Option<string> {
    match LinkOf(e)
    case Some((base, name)) =>
      if base == Ident("Auth") && name in {"bearer", "session", "signedSession", "subject"} then Some(name) else None
    case None => None
  }

  function EnvCode(kind: string, key: string): Code {
    Try(Apply(Select(Apply(Select(Path(["runtime"]), "env"), []), kind), [Quoted(key)]))
  }

  function CallCode(name: string, args: seq<Code>): Code {
    Apply(Path([name]), args)
  }

  /** The infix operators; the others have calls of their own. */
  function MeaningOf(op: BinaryOp): Operator
    requires op !in {Add, Fallback, In}
  {
    match op
    case Sub => Minus
    case Mul => Times
    case Div => Over
    case Rem => Modulo
    case Eq => Same
    case Ne => Different
    case Gt => More
    case Ge => MoreOrSame
    case Lt => GeneratedCode.Less
    case Le => LessOrSame
    case And => Both
    case Or => Either
  }

  const NULL := Ident("null")

  /** A comparison with null asks the other side; adding, falling back and membership have calls of their own. */
  function BinaryCode(op: BinaryOp, left: Expr, right: Expr, l: Code, r: Code): Code {
    if op in {Eq, Ne} && NULL in {left, right} then
      var test := Try(CallCode("__ax_is_null", [Borrow(if right == NULL then l else r)]));
      if op == Eq then test else GeneratedCode.Not(test)
    else if op == Add then CallCode("__ax_add", [Borrow(l), Borrow(r)])
    else if op == Fallback then Apply(Select(l, "unwrap_or"), [r])
    else if op == In then CallCode("contains", [r, l])
    else Operation(MeaningOf(op), l, r)
  }

  function UnaryCode(op: UnaryOp, operand: Code): Code {
    match op
    case Not => GeneratedCode.Not(operand)
    case Neg => Negative(operand)
  }

  function NameCode(name: string): Code {
    if name == "null" then Path(["serde_json", "Value", "Null"]) else Path([name])
  }

  function MemberCode(base: Code, property: string): Code {
    if property == "length" then Try(CallCode("__ax_length", [Borrow(base)])) else Select(base, property)
  }

  function ApplyCode(path: seq<string>, args: seq<Code>): Code {
    if path == ["list"] then ListOf(args) else Apply(Path(path), args)
  }

  /** The operations and operands of an expression, in order. */
  function Meant(e: Expr): Code
    decreases e, 1
  {
    if EnvKey(e).Some? then EnvCode(EnvKey(e).value.0, EnvKey(e).value.1)
    else if AuthName(e).Some? then Select(Path(["Auth"]), AuthName(e).value)
    else
      match e
      case StrLit(text) => Apply(Select(Quoted(text), "to_string"), [])
      case NumLit(n) => if n < 0 then Negative(Whole(-n)) else Whole(n)
      case FltLit(text) => if HasPrefix(text, "-") then Negative(Decimal(text[1..])) else Decimal(text)
      case BoolLit(b) => Path([if b then "true" else "false"])
      case ListLit(items) => ListOf(MeantAll(items))
      case ObjLit(fields) => ObjectOf(MeantFields(fields))
      case Ident(name) => NameCode(name)
      case Unary(op, operand) => UnaryCode(op, Meant(operand))
      case Binary(op, left, right) => BinaryCode(op, left, right, Meant(left), Meant(right))
      case Index(base, index) => At(Meant(base), Meant(index))
      case Member(base, property) => MemberCode(Meant(base), property)
      case OptionalMember(base, property) => CallCode("__ax_optional_member", [Meant(base), Quoted(property)])
      case Call(path, args) => ApplyCode(path, MeantAll(args))
  }

  function MeantAll(es: seq<Expr>): (codes: seq<Code>)
    ensures |codes| == |es| && forall i | 0 <= i < |es| :: codes[i] == Meant(es[i])
    decreases es, 0
  {
    if es == [] then [] else [Meant(es[0])] + MeantAll(es[1..])
  }

  function MeantFields(fields: seq<Field>): (codes: seq<(string, Code)>)
    ensures |codes| == |fields| && forall i | 0 <= i < |fields| :: codes[i] == (fields[i].name, Meant(fields[i].value))
    decreases fields, 0
  {
    if fields == [] then [] else [(fields[0].name, Meant(fields[0].value))] + MeantFields(fields[1..])
  }

  // The tree that is read ---------------------------------------------------------------------

  /** A negative number literal; its sign is read as an operator. */
  predicate IsNegative(e: Expr) {
    (e.NumLit? && e.n < 0) || (e.FltLit? && HasPrefix(e.text, "-"))
  }

  predicate IsSpecial(e: Expr) {
    EnvKey(e).Some? || AuthName(e).Some?
  }

  /** The printed text starts with a sign that nothing encloses. */
  predicate Signed(e: Expr) {
    || IsNegative(e)
    || (!IsSpecial(e) && e.Member? && e.property != "length" && Signed(e.base))
    || (e.Index? && Signed(e.base))
  }

  /** What is read of the printed text, without its sign if it starts with one. */
  function Core(e: Expr): Code
    decreases e, 1
  {
    if EnvKey(e).Some? then EnvCode(EnvKey(e).value.0, EnvKey(e).value.1)
    else if AuthName(e).Some? then Select(Path(["Auth"]), AuthName(e).value)
    else
      match e
      case StrLit(text) => Apply(Select(Quoted(text), "to_string"), [])
      case NumLit(n) => Whole(if n < 0 then -n else n)
      case FltLit(text) => Decimal(if HasPrefix(text, "-") then text[1..] else text)
      case BoolLit(b) => Path([if b then "true" else "false"])
      case ListLit(items) => ListOf(ActualAll(items))
      case ObjLit(fields) => ObjectOf(ActualFields(fields))
      case Ident(name) => NameCode(name)
      case Unary(op, operand) => UnaryCode(op, Actual(operand))
      case Binary(op, left, right) => BinaryCode(op, left, right, Actual(left), Actual(right))
      case Index(base, index) => At(Core(base), Actual(index))
      case Member(base, property) =>
        if property == "length" then MemberCode(Actual(base), property) else Select(Core(base), property)
      case OptionalMember(base, property) => CallCode("__ax_optional_member", [Actual(base), Quoted(property)])
      case Call(path, args) => ApplyCode(path, ActualAll(args))
  }

  function Actual(e: Expr): Code
    decreases e, 2
  {
    if Signed(e) then Negative(Core(e)) else Core(e)
  }

  function ActualAll(es: seq<Expr>): (codes: seq<Code>)
    ensures |codes| == |es| && forall i | 0 <= i < |es| :: codes[i] == Actual(es[i])
    decreases es, 0
  {
    if es == [] then [] else [Actual(es[0])] + ActualAll(es[1..])
  }

  function ActualFields(fields: seq<Field>): (codes: seq<(string, Code)>)
    ensures |codes| == |fields| && forall i | 0 <= i < |fields| :: codes[i] == (fields[i].name, Actual(fields[i].value))
    decreases fields, 0
  {
    if fields == [] then [] else [(fields[0].name, Actual(fields[0].value))] + ActualFields(fields[1..])
  }

  // Texts -------------------------------------------------------------------------------------

  /** Finite floats print as digits with a fraction or an exponent, and calls have a name. */
  ghost predicate Spelled(e: Expr) {
    match e
    case FltLit(text) => IsFloat(text)
    case ListLit(items) => forall x <- items :: Spelled(x)
    case ObjLit(fields) => forall f <- fields :: Spelled(f.value)
    case Unary(_, operand) => Spelled(operand)
    case Binary(_, left, right) => Spelled(left) && Spelled(right)
    case Index(base, index) => Spelled(base) && Spelled(index)
    case Member(base, _) => Spelled(base)
    case OptionalMember(base, _) => Spelled(base)
    case Call(path, args) => path != [] && forall x <- args :: Spelled(x)
    case _ => true
  }

  ghost predicate IsFloat(text: string) {
    exists d, f, x :: IsMagnitude(d, f, x) && (if HasPrefix(text, "-") then text[1..] else text) == d + f + x
  }

  /** The text is read as the expression's tree, and may go on from it once its sign is read. */
  ghost predicate Understood(text: string, e: Expr) {
    if Signed(e) then text != "" && text[0] == '-' && OperandIs(text[1..], Core(e)) else OperandIs(text, Core(e))
  }

  lemma UnderstoodReads(text: string, e: Expr)
    requires Understood(text, e)
    ensures ReadsAs(text, Actual(e))
  {
    if Signed(e) {
      OperandReads(text[1..], Core(e));
      PrefixReads(text[1..], Core(e));
      assert "-" + text[1..] == text;
    } else {
      OperandReads(text, Core(e));
    }
  }

  // Special texts -----------------------------------------------------------------------------

  lemma {:induction false} PathLength(e: Expr)
    ensures MemberPath(e).Some? ==> |MemberPath(e).value| > 0
    ensures MemberPath(e).Some? && |MemberPath(e).value| == 1 <==> e.Ident?
    ensures e.Ident? ==> MemberPath(e) == Some([e.name])
  {
    match e {
      case Member(base, _) => PathLength(base);
      case OptionalMember(base, _) => PathLength(base);
      case _ =>
    }
  }

  lemma PathOfLink(e: Expr, base: Expr, name: string)
    requires LinkOf(e) == Some((base, name))
    ensures MemberPath(e) == Snoc(MemberPath(base), name)
  {
  }

  /** The printer's special texts are those of environment lookups and of what is known of the user. */
  lemma SpecialExactly(printable: char -> bool, e: Expr)
    ensures SpecialText(printable, e) ==
            if EnvKey(e).Some? then Some(EnvText("." + EnvKey(e).value.0, DebugText(printable, EnvKey(e).value.1)))
            else if AuthName(e).Some? then Some("Auth." + AuthName(e).value)
            else None
  {
    PathLength(e);
    assert "." + "value" == ".value" && "." + "public" == ".public" && "." + "secret" == ".secret";
    if LinkOf(e).Some? {
      var (base, name) := LinkOf(e).value;
      PathOfLink(e, base, name);
      PathLength(base);
      if MemberPath(base).Some? {
        var path := MemberPath(base).value;
        assert MemberPath(e) == Some(path + [name]);
        if |path| == 3 {
          RuntimeLink(base);
        } else if |path| > 1 {
          LongLink(base);
        } else {
          ShortPath(e, base, name);
        }
      } else if LinkOf(base).Some? {
        LongLink(base);
      }
    }
  }

  lemma ShortPath(e: Expr, base: Expr, name: string)
    requires LinkOf(e) == Some((base, name)) && base.Ident?
    ensures MemberPath(e).Some? && |MemberPath(e).value| == 2
    ensures MemberPath(e).value[0] == base.name && MemberPath(e).value[1] == name
  {
    PathOfLink(e, base, name);
    assert [base.name] + [name] == [base.name, name];
  }

  /** A path of three names is one of two links and a name. */
  lemma RuntimeLink(e: Expr)
    requires MemberPath(e).Some? && |MemberPath(e).value| == 3
    ensures var path := MemberPath(e).value;
            && LinkOf(e).Some? && LinkOf(e).value.1 == path[2]
            && (LinkOf(LinkOf(e).value.0) == Some((Ident("Runtime"), "Env")) <==>
                  path[0] == "Runtime" && path[1] == "Env")
  {
    var (outer, kind) := LinkOf(e).value;
    PathOfLink(e, outer, kind);
    PathLength(outer);
    var (root, name) := LinkOf(outer).value;
    PathOfLink(outer, root, name);
    PathLength(root);
    assert root.Ident? && [root.name] + [name] + [kind] == [root.name, name, kind];
  }

  lemma LongLink(e: Expr)
    requires LinkOf(e).Some?
    ensures LinkOf(LinkOf(e).value.0) == Some((Ident("Runtime"), "Env")) ==>
              MemberPath(e).Some? && |MemberPath(e).value| == 3
  {
    var (outer, kind) := LinkOf(e).value;
    PathOfLink(e, outer, kind);
    if LinkOf(outer) == Some((Ident("Runtime"), "Env")) {
      PathOfLink(outer, Ident("Runtime"), "Env");
      assert ["Runtime"] + ["Env"] == ["Runtime", "Env"];
    }
  }

  lemma SpecialWords()
    ensures IsWord("runtime") && IsWord("env") && IsWord("value") && IsWord("public") && IsWord("secret")
    ensures IsWord("Auth") && IsWord("bearer") && IsWord("session") && IsWord("signedSession") && IsWord("subject")
  {
  }

  lemma MethodWords()
    ensures IsWord("to_string") && IsWord("unwrap_or")
    ensures IsWord("true") && IsWord("false") && IsWord("serde_json") && IsWord("Value") && IsWord("Null")
  {
  }

  lemma HelperWords()
    ensures IsWord("contains") && IsWord("__ax_is_null") && IsWord("__ax_add") && IsWord("__ax_length")
    ensures IsWord("__ax_optional_member")
  {
  }

  lemma NameReads(name: string)
    requires IsWord(name)
    ensures OperandIs(name, Path([name]))
  {
    PathReads([name]);
  }

  lemma NoItems()
    ensures ItemsAre("", ')', [])
  {
    ItemsRead([], [], ')');
  }

  lemma RuntimeReads()
    ensures OperandIs("runtime.env" + Paren(""), Apply(Select(Path(["runtime"]), "env"), []))
  {
    SpecialWords();
    NameReads("runtime");
    SelectReads("runtime", Path(["runtime"]), "env");
    NoItems();
    assert "runtime" + "." + "env" == "runtime.env";
    ApplyReads("runtime.env", Select(Path(["runtime"]), "env"), "", []);
  }

  /** A method's call with one argument. */
  lemma MethodReads(text: string, code: Code, name: string, inner: string, args: seq<Code>)
    requires OperandIs(text, code) && IsWord(name) && ItemsAre(inner, ')', args)
    ensures OperandIs(text + ("." + name + Paren(inner)), Apply(Select(code, name), args))
  {
    SelectReads(text, code, name);
    ApplyReads(text + "." + name, Select(code, name), inner, args);
    assert text + ("." + name + Paren(inner)) == text + "." + name + Paren(inner);
  }

  lemma EnvReads(printable: char -> bool, kind: string, key: string)
    requires kind in {"value", "public", "secret"}
    ensures OperandIs(EnvText("." + kind, DebugText(printable, key)), EnvCode(kind, key))
  {
    var quoted, front := DebugText(printable, key), "runtime.env" + Paren("");
    var env := Apply(Select(Path(["runtime"]), "env"), []);
    RuntimeReads();
    QuotedReads(printable, key);
    OneItem(quoted, Quoted(key));
    SpecialWords();
    MethodReads(front, env, kind, quoted, [Quoted(key)]);
    TryReads(front + ("." + kind + Paren(quoted)), Apply(Select(env, kind), [Quoted(key)]));
    ConcatTwice(front, "." + kind + Paren(quoted), "?");
  }

  lemma OneItem(text: string, code: Code)
    requires OperandIs(text, code)
    ensures ItemsAre(text, ')', [code])
  {
    OperandReads(text, code);
    ItemsRead([text], [code], ')');
  }

  lemma SpecialReads(printable: char -> bool, e: Expr)
    requires IsSpecial(e)
    ensures Understood(Render(printable, e), e)
  {
    SpecialExactly(printable, e);
    SpecialWords();
    if EnvKey(e).Some? {
      EnvReads(printable, EnvKey(e).value.0, EnvKey(e).value.1);
    } else {
      NameReads("Auth");
      SelectReads("Auth", Path(["Auth"]), AuthName(e).value);
      assert "Auth" + "." + AuthName(e).value == "Auth." + AuthName(e).value;
    }
  }

  // Every printed text ------------------------------------------------------------------------

  /** The printed text of an expression is read as its tree. */
  lemma {:induction false} RenderReads(printable: char -> bool, e: Expr)
    requires Named(e) && Spelled(e)
    ensures Understood(Render(printable, e), e)
    decreases e, 2
  {
    if IsSpecial(e) {
      SpecialReads(printable, e);
    } else {
      SpecialExactly(printable, e);
      PlainReads(printable, e);
    }
  }

  lemma {:induction false} PlainReads(printable: char -> bool, e: Expr)
    requires Named(e) && Spelled(e) && !IsSpecial(e)
    ensures Understood(RenderPlain(printable, e), e)
    decreases e, 1
  {
    match e {
      case StrLit(text) => StringReads(printable, text);
      case NumLit(n) => IntReads(n);
      case FltLit(text) => FloatReads(text);
      case BoolLit(b) => MethodWords(); NameReads(BoolText(b));
      case ListLit(items) =>
        AllRead(printable, items);
        ListReads(RenderAll(printable, items), ActualAll(items));
      case ObjLit(fields) =>
        FieldsRead(printable, fields);
        ObjectReads(RenderFields(printable, fields), ActualFields(fields));
      case Ident(name) => NullOrNameReads(name);
      case Unary(op, operand) =>
        WholeReads(printable, operand);
        UnaryReads(op, Render(printable, operand), Actual(operand));
      case Binary(op, left, right) =>
        WholeReads(printable, left);
        WholeReads(printable, right);
        BinaryReads(op, left, right, Render(printable, left), Render(printable, right), Actual(left), Actual(right));
      case Index(base, index) =>
        RenderReads(printable, base);
        WholeReads(printable, index);
        IndexReads(base, index, Render(printable, base), Render(printable, index));
      case Member(base, property) =>
        RenderReads(printable, base);
        MemberReads(base, property, Render(printable, base));
      case OptionalMember(base, property) =>
        WholeReads(printable, base);
        OptionalReads(printable, Render(printable, base), Actual(base), property);
      case Call(path, args) =>
        AllRead(printable, args);
        CallReads(path, RenderAll(printable, args), ActualAll(args));
    }
  }

  lemma {:induction false} WholeReads(printable: char -> bool, e: Expr)
    requires Named(e) && Spelled(e)
    ensures ReadsAs(Render(printable, e), Actual(e))
    decreases e, 3
  {
    RenderReads(printable, e);
    UnderstoodReads(Render(printable, e), e);
  }

  lemma {:induction false} AllRead(printable: char -> bool, es: seq<Expr>)
    requires forall e <- es :: Named(e) && Spelled(e)
    ensures GeneratedForms.AllRead(RenderAll(printable, es), ActualAll(es))
    decreases es, 0
  {
    forall i | 0 <= i < |es| ensures ReadsAs(RenderAll(printable, es)[i], ActualAll(es)[i]) {
      WholeReads(printable, es[i]);
    }
  }

  lemma {:induction false} FieldsRead(printable: char -> bool, fields: seq<Field>)
    requires forall f <- fields :: Named(f.value) && Spelled(f.value)
    ensures FieldsAre(RenderFields(printable, fields), ActualFields(fields))
    decreases fields, 0
  {
    forall i | 0 <= i < |fields| ensures FieldIs(RenderFields(printable, fields)[i], ActualFields(fields)[i]) {
      WholeReads(printable, fields[i].value);
      FieldReads(printable, fields[i].name, Render(printable, fields[i].value), Actual(fields[i].value));
      FieldTextAt(printable, fields, i);
    }
  }

  lemma {:induction false} FieldTextAt(printable: char -> bool, fields: seq<Field>, i: nat)
    requires i < |fields|
    ensures RenderFields(printable, fields)[i]
         == DebugText(printable, fields[i].name) + ": " + Render(printable, fields[i].value)
    decreases i
  {
    if i > 0 {
      FieldTextAt(printable, fields[1..], i - 1);
    }
  }

  // One form each -----------------------------------------------------------------------------

  lemma StringReads(printable: char -> bool, text: string)
    ensures OperandIs(StringText(DebugText(printable, text)), Apply(Select(Quoted(text), "to_string"), []))
  {
    var quoted := DebugText(printable, text);
    QuotedReads(printable, text);
    MethodWords();
    NoItems();
    MethodReads(quoted, Quoted(text), "to_string", "", []);
    assert "." + "to_string" == ".to_string";
    ConcatTwice(quoted, ".to_string", Paren(""));
  }

  lemma IntReads(n: int)
    ensures Understood(IntText(n), NumLit(n))
  {
    if n < 0 {
      GeneratedForms.WholeReads(-n);
      assert ("-" + NatText(-n))[1..] == NatText(-n);
      SignedReads(IntText(n), NatText(-n), NumLit(n));
    } else {
      GeneratedForms.WholeReads(n);
      assert !Signed(NumLit(n)) && Core(NumLit(n)) == Whole(n);
    }
  }

  lemma SignedReads(text: string, magnitude: string, e: Expr)
    requires Signed(e) && text == "-" + magnitude && OperandIs(magnitude, Core(e))
    ensures Understood(text, e)
  {
    assert text[1..] == magnitude;
  }

  lemma FloatReads(text: string)
    requires IsFloat(text)
    ensures Understood(text + "_f64", FltLit(text))
  {
    var size := if HasPrefix(text, "-") then text[1..] else text;
    var d, f, x :| IsMagnitude(d, f, x) && size == d + f + x;
    DecimalReads(d, f, x);
    if HasPrefix(text, "-") {
      assert text[0] == text[..1][0];
      assert (text + "_f64")[1..] == size + "_f64";
    }
  }

  lemma NullOrNameReads(name: string)
    requires IsWord(name)
    ensures OperandIs(NameText(name), NameCode(name))
  {
    if name == "null" {
      MethodWords();
      var names := ["serde_json", "Value", "Null"];
      PathReads(names);
      assert names[1..] == ["Value", "Null"] && names[1..][1..] == ["Null"];
      assert JoinWith("::", ["Null"]) == "Null";
      assert JoinWith("::", ["Value", "Null"]) == "Value::Null";
      assert JoinWith("::", names) == NameText(name);
    } else {
      NameReads(name);
    }
  }

  lemma UnaryReads(op: UnaryOp, operand: string, code: Code)
    requires ReadsAs(operand, code)
    ensures OperandIs(Paren(UnaryText(op) + operand), UnaryCode(op, code))
  {
    PrefixReads(operand, code);
    GroupReads(UnaryText(op) + operand, UnaryCode(op, code));
  }

  /** A helper's call on borrowed operands. */
  lemma BorrowReads(text: string, code: Code)
    requires ReadsAs(text, code)
    ensures ReadsAs("&" + Paren(text), Borrow(code))
  {
    GroupReads(text, code);
    OperandReads(Paren(text), code);
    PrefixReads(Paren(text), code);
  }

  lemma CallOfReads(name: string, texts: seq<string>, codes: seq<Code>)
    requires IsWord(name) && GeneratedForms.AllRead(texts, codes)
    ensures OperandIs(name + Paren(ArgSplitter.Join(texts)), CallCode(name, codes))
  {
    NameReads(name);
    ItemsRead(texts, codes, ')');
    ApplyReads(name, Path([name]), ArgSplitter.Join(texts), codes);
  }

  lemma OneCallReads(name: string, text: string, code: Code)
    requires IsWord(name) && ReadsAs(text, code)
    ensures OperandIs(name + Paren("&" + Paren(text)) + "?", Try(CallCode(name, [Borrow(code)])))
  {
    BorrowReads(text, code);
    CallOfReads(name, ["&" + Paren(text)], [Borrow(code)]);
    TryReads(name + Paren("&" + Paren(text)), CallCode(name, [Borrow(code)]));
  }

  lemma BinaryReads(op: BinaryOp, left: Expr, right: Expr, l: string, r: string, x: Code, y: Code)
    requires ReadsAs(l, x) && ReadsAs(r, y)
    ensures OperandIs(RenderBinary(op, left, right, l, r), BinaryCode(op, left, right, x, y))
  {
    HelperWords();
    if op in {Eq, Ne} && NULL in {left, right} {
      var text, code := if right == NULL then l else r, if right == NULL then x else y;
      OneCallReads("__ax_is_null", text, code);
      if op == Ne {
        var test := Try(CallCode("__ax_is_null", [Borrow(code)]));
        OperandReads(NullTest(text), test);
        PrefixReads(NullTest(text), test);
        GroupReads("!" + NullTest(text), GeneratedCode.Not(test));
      }
    } else if op == Add {
      BorrowReads(l, x);
      BorrowReads(r, y);
      CallOfReads("__ax_add", ["&" + Paren(l), "&" + Paren(r)], [Borrow(x), Borrow(y)]);
    } else if op == Fallback {
      FallbackReads(l, r, x, y);
    } else if op == In {
      CallOfReads("contains", [r, l], [y, x]);
    } else {
      SymbolMeans(op);
      OperationReads(l, BinaryText(op), r, x, y);
    }
  }

  /** An infix operator is printed as the symbol of its meaning. */
  lemma SymbolMeans(op: BinaryOp)
    requires op !in {Add, Fallback, In}
    ensures BinaryText(op) in OPERATORS && OPERATORS[BinaryText(op)] == MeaningOf(op) && ' ' !in BinaryText(op)
  {
  }

  lemma FallbackReads(l: string, r: string, x: Code, y: Code)
    requires ReadsAs(l, x) && ReadsAs(r, y)
    ensures OperandIs(Paren(l) + ".unwrap_or" + Paren(r), Apply(Select(x, "unwrap_or"), [y]))
  {
    MethodWords();
    GroupReads(l, x);
    ItemsRead([r], [y], ')');
    MethodReads(Paren(l), x, "unwrap_or", r, [y]);
    assert "." + "unwrap_or" == ".unwrap_or";
    ConcatTwice(Paren(l), ".unwrap_or", Paren(r));
  }

  lemma IndexReads(base: Expr, index: Expr, b: string, i: string)
    requires Understood(b, base) && ReadsAs(i, Actual(index))
    ensures Understood(IndexText(base.Binary? || base.Unary?, b, i), Index(base, index))
  {
    var text := IndexText(base.Binary? || base.Unary?, b, i);
    if base.Binary? || base.Unary? {
      OperandReads(b, Core(base));
      GroupReads(b, Core(base));
      AtReads(Paren(b), Core(base), i, Actual(index));
    } else if Signed(base) {
      AtReads(b[1..], Core(base), i, Actual(index));
      assert text[1..] == b[1..] + Square(i);
    } else {
      AtReads(b, Core(base), i, Actual(index));
    }
  }

  lemma MemberReads(base: Expr, property: string, b: string)
    requires Understood(b, base) && IsWord(property) && !IsSpecial(Member(base, property))
    ensures Understood(MemberText(b, property), Member(base, property))
  {
    HelperWords();
    if property == "length" {
      UnderstoodReads(b, base);
      OneCallReads("__ax_length", b, Actual(base));
    } else if Signed(base) {
      SelectReads(b[1..], Core(base), property);
      assert (b + "." + property)[1..] == b[1..] + "." + property;
    } else {
      SelectReads(b, Core(base), property);
    }
  }

  lemma OptionalReads(printable: char -> bool, b: string, code: Code, property: string)
    requires ReadsAs(b, code)
    ensures OperandIs(OptionalText(b, DebugText(printable, property)),
              CallCode("__ax_optional_member", [code, Quoted(property)]))
  {
    HelperWords();
    QuotedReads(printable, property);
    OperandReads(DebugText(printable, property), Quoted(property));
    CallOfReads("__ax_optional_member", [b, DebugText(printable, property)], [code, Quoted(property)]);
  }

  lemma CallReads(path: seq<string>, texts: seq<string>, codes: seq<Code>)
    requires path != [] && (forall part <- path :: IsWord(part)) && GeneratedForms.AllRead(texts, codes)
    ensures OperandIs(CallText(path, texts), ApplyCode(path, codes))
  {
    if path == ["list"] {
      ListReads(texts, codes);
    } else {
      PathReads(path);
      ItemsRead(texts, codes, ')');
      ApplyReads(JoinWith("::", path), Path(path), ArgSplitter.Join(texts), codes);
    }
  }

  // What it means -----------------------------------------------------------------------------

  /** No member or index is taken of a negative number literal. */
  predicate SignFree(e: Expr) {
    match e
    case ListLit(items) => forall x <- items :: SignFree(x)
    case ObjLit(fields) => forall f <- fields :: SignFree(f.value)
    case Unary(_, operand) => SignFree(operand)
    case Binary(_, left, right) => SignFree(left) && SignFree(right)
    case Index(base, index) => !IsNegative(base) && SignFree(base) && SignFree(index)
    case Member(base, property) => (property == "length" || !IsNegative(base)) && SignFree(base)
    case OptionalMember(base, _) => SignFree(base)
    case Call(_, args) => forall x <- args :: SignFree(x)
    case _ => true
  }

  lemma {:induction false} SignedHasSign(e: Expr)
    requires Signed(e)
    ensures IsNegative(e) || !SignFree(e)
    decreases e
  {
    if !IsNegative(e) {
      SignedHasSign(e.base);
    }
  }

  lemma {:induction false} ActualExactly(e: Expr)
    ensures Actual(e) == Meant(e) <==> SignFree(e)
    decreases e, 1
  {
    if IsSpecial(e) {
      SpecialIsFree(e);
    } else {
      match e {
        case ListLit(items) => ListActual(e);
        case ObjLit(fields) => ListActual(e);
        case Unary(op, operand) => UnaryActual(op, operand);
        case Binary(op, left, right) => BinaryActual(op, left, right);
        case Index(base, index) => IndexActual(base, index);
        case Member(base, property) =>
          ActualExactly(base);
          MemberActual(base, property);
        case OptionalMember(base, property) => OptionalActual(base, property);
        case Call(_, args) => ListActual(e);
        case _ =>
      }
    }
  }

  lemma {:induction false} ListActual(e: Expr)
    requires e.ListLit? || e.ObjLit? || e.Call?
    ensures Actual(e) == Meant(e) <==> SignFree(e)
    decreases e, 0
  {
    match e {
      case ListLit(items) => AllActual(items);
      case ObjLit(fields) => FieldsActual(fields);
      case Call(_, args) => AllActual(args);
    }
  }

  lemma {:induction false} UnaryActual(op: UnaryOp, operand: Expr)
    ensures Actual(Unary(op, operand)) == Meant(Unary(op, operand)) <==> SignFree(operand)
    decreases Unary(op, operand), 0
  {
    ActualExactly(operand);
    assert Actual(Unary(op, operand)) == UnaryCode(op, Actual(operand));
    assert Meant(Unary(op, operand)) == UnaryCode(op, Meant(operand));
  }

  lemma {:induction false} OptionalActual(base: Expr, property: string)
    requires !IsSpecial(OptionalMember(base, property))
    ensures Actual(OptionalMember(base, property)) == Meant(OptionalMember(base, property)) <==> SignFree(base)
    decreases OptionalMember(base, property), 0
  {
    ActualExactly(base);
    var e := OptionalMember(base, property);
    var a, b := [Actual(base), Quoted(property)], [Meant(base), Quoted(property)];
    assert !Signed(e) && Actual(e) == CallCode("__ax_optional_member", a);
    assert Meant(e) == CallCode("__ax_optional_member", b);
    assert a[0] == Actual(base) && b[0] == Meant(base);
  }

  lemma {:induction false} IndexActual(base: Expr, index: Expr)
    ensures Actual(Index(base, index)) == Meant(Index(base, index)) <==> SignFree(Index(base, index))
    decreases Index(base, index), 0
  {
    assert Core(Index(base, index)) == At(Core(base), Actual(index));
    assert Meant(Index(base, index)) == At(Meant(base), Meant(index));
    ActualExactly(base);
    ActualExactly(index);
    BaseActual(base);
  }

  lemma {:induction false} BinaryActual(op: BinaryOp, left: Expr, right: Expr)
    ensures Actual(Binary(op, left, right)) == Meant(Binary(op, left, right)) <==> SignFree(left) && SignFree(right)
    decreases Binary(op, left, right), 0
  {
    var e := Binary(op, left, right);
    assert !Signed(e) && Actual(e) == BinaryCode(op, left, right, Actual(left), Actual(right));
    assert Meant(e) == BinaryCode(op, left, right, Meant(left), Meant(right));
    ActualExactly(left);
    ActualExactly(right);
    BinaryTells(op, left, right, Actual(left), Actual(right), Meant(left), Meant(right));
  }

  /** An operation's tree tells its operands, except for a side that is null. */
  lemma BinaryTells(op: BinaryOp, left: Expr, right: Expr, l: Code, r: Code, x: Code, y: Code)
    requires (left == NULL ==> l == x) && (right == NULL ==> r == y)
    ensures BinaryCode(op, left, right, l, r) == BinaryCode(op, left, right, x, y) <==> l == x && r == y
  {
    var a, b := BinaryCode(op, left, right, l, r), BinaryCode(op, left, right, x, y);
    if op in {Eq, Ne} && NULL in {left, right} {
      var p, q := if op == Eq then a else a.of, if op == Eq then b else b.of;
      assert p.of.args[0].of == (if right == NULL then l else r) && q.of.args[0].of == (if right == NULL then x else y);
    } else if op == Add {
      assert a.args[0].of == l && a.args[1].of == r && b.args[0].of == x && b.args[1].of == y;
    } else if op == Fallback {
      assert a.args[0] == r && b.args[0] == y;
    } else if op == In {
      assert a.args[0] == r && a.args[1] == l && b.args[0] == y && b.args[1] == x;
    }
  }

  lemma MemberActual(base: Expr, property: string)
    requires !IsSpecial(Member(base, property)) && (Actual(base) == Meant(base) <==> SignFree(base))
    ensures Actual(Member(base, property)) == Meant(Member(base, property)) <==> SignFree(Member(base, property))
  {
    BaseActual(base);
    if property == "length" {
      var a, b := MemberCode(Actual(base), property), MemberCode(Meant(base), property);
      assert a.of.args[0].of == Actual(base) && b.of.args[0].of == Meant(base);
    }
  }

  lemma BaseActual(base: Expr)
    ensures Signed(base) ==> IsNegative(base) || !SignFree(base)
  {
    if Signed(base) {
      SignedHasSign(base);
    }
  }

  lemma SpecialIsFree(e: Expr)
    requires IsSpecial(e)
    ensures SignFree(e) && !Signed(e)
  {
  }

  lemma {:induction false} AllActual(es: seq<Expr>)
    ensures ActualAll(es) == MeantAll(es) <==> forall e <- es :: SignFree(e)
    decreases es, 0
  {
    if es != [] {
      ActualExactly(es[0]);
      AllActual(es[1..]);
      FirstOfAll(es);
      var a, b := ActualAll(es), MeantAll(es);
      assert a == [Actual(es[0])] + ActualAll(es[1..]) && b == [Meant(es[0])] + MeantAll(es[1..]);
      assert a[0] == Actual(es[0]) && b[0] == Meant(es[0]);
      assert a[1..] == ActualAll(es[1..]) && b[1..] == MeantAll(es[1..]);
    }
  }

  lemma FirstOfAll(es: seq<Expr>)
    requires es != []
    ensures (forall e <- es :: SignFree(e)) <==> SignFree(es[0]) && forall e <- es[1..] :: SignFree(e)
  {
    assert es[0] in es && forall e <- es[1..] :: e in es;
    assert forall e <- es :: e == es[0] || e in es[1..];
  }

  lemma {:induction false} FieldsActual(fields: seq<Field>)
    ensures ActualFields(fields) == MeantFields(fields) <==> forall f <- fields :: SignFree(f.value)
    decreases fields, 0
  {
    if fields != [] {
      ActualExactly(fields[0].value);
      FieldsActual(fields[1..]);
      assert fields[0] in fields && forall f <- fields[1..] :: f in fields;
      assert forall f <- fields :: f == fields[0] || f in fields[1..];
      var a, b := ActualFields(fields), MeantFields(fields);
      assert a[0].1 == Actual(fields[0].value) && b[0].1 == Meant(fields[0].value);
      assert a[1..] == ActualFields(fields[1..]) && b[1..] == MeantFields(fields[1..]);
      assert a == [a[0]] + a[1..] && b == [b[0]] + b[1..];
    }
  }

  /** The printed text is read as the operations and operands of the expression, unless a sign is misread. */
  lemma PrintedMeansExactly(printable: char -> bool, e: Expr)
    requires Named(e) && Spelled(e)
    ensures Read(Render(printable, e)).Some?
    ensures Read(Render(printable, e)) == Some(Meant(e)) <==> SignFree(e)
  {
    WholeReads(printable, e);
    ReadsWhole(Render(printable, e), Actual(e));
    ActualExactly(e);
  }

  /** A member of a negative literal is read as the negative of the literal's member. */
  lemma SignIsMisread(printable: char -> bool, n: int, property: string)
    requires n < 0 && IsWord(property) && property != "length"
    ensures Read(Render(printable, Member(NumLit(n), property))) == Some(Negative(Select(Whole(-n), property)))
  {
    var e := Member(NumLit(n), property);
    assert EnvKey(e).None? && AuthName(e).None? && Signed(NumLit(n));
    assert Core(e) == Select(Core(NumLit(n)), property) && Core(NumLit(n)) == Whole(-n);
    WholeReads(printable, e);
    ReadsWhole(Render(printable, e), Actual(e));
  }
}
