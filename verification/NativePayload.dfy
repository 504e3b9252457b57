/** Native payloads are rendered by reading printed object and list literals back from their text. */
module NativePayload {
  import opened Text
  import opened LoweringModel
  import opened ArgSplitter
  import opened ExprPrinter
  import opened CodegenReaders

  // Reading -----------------------------------------------------------------------------------

  /** A quoted name without escapes, and what follows it. */
  function ReadName(field: string): Option<(string, string)> {
    if field == "" || field[0] != '"' then None else ReadNameRest(field[1..])
  }

  function ReadNameRest(s: string): Option<(string, string)> {
    if s == "" || s[0] == '\\' then None
    else if s[0] == '"' then Some(("", s[1..]))
    else match ReadNameRest(s[1..])
      case None => None
      case Some((name, rest)) => Some(([s[0]] + name, rest))
  }

  /** The text of a field's value, after its name and the colon. */
  function ReadField(field: string): (r: Option<(string, string)>)
    ensures r.Some? ==> |r.value.1| < |field|
  {
    match ReadName(field)
    case None => None
    case Some((name, rest)) =>
      NameIsShorter(field);
      TrimIsShorter(rest);
      var rest := Trim(rest);
      if !HasPrefix(rest, ":") then None
      else
        TrimIsShorter(rest[1..]);
        Some((name, Trim(rest[1..])))
  }

  lemma NameIsShorter(field: string)
    requires ReadName(field).Some?
    ensures |ReadName(field).value.1| < |field|
  {
    RestIsShorter(field[1..]);
  }

  lemma RestIsShorter(s: string)
    requires ReadNameRest(s).Some?
    ensures |ReadNameRest(s).value.1| < |s|
  {
  }

  lemma TrimIsShorter(s: string)
    ensures |Trim(s)| <= |s|
  {
    TrimStartIsShorter(s);
    TrimEndIsShorter(TrimStart(s));
  }

  lemma TrimStartIsShorter(s: string)
    ensures |TrimStart(s)| <= |s|
  {
  }

  lemma TrimEndIsShorter(s: string)
    ensures |TrimEnd(s)| <= |s|
  {
  }

  lemma {:induction false} PiecesAreShorter(st: ScanState, s: string)
    ensures forall p <- Pieces(st, s) :: |p| <= |s|
    decreases s
  {
    if s != "" {
      PiecesAreShorter(Step(st, s[0]), s[1..]);
      var rest := Pieces(Step(st, s[0]), s[1..]);
      forall p <- Pieces(st, s) ensures |p| <= |s| {
        if p in rest {
          assert |p| <= |s| - 1;
        } else {
          assert p == "" || p == [s[0]] + rest[0];
          assert rest[0] in rest;
        }
      }
    }
  }

  lemma SplitIsShorter(s: string)
    ensures forall p <- SplitArgs(s) :: |p| <= |s|
  {
    var parts := Pieces(Open(0), s);
    PiecesAreShorter(Open(0), s);
    forall p <- SplitArgs(s) ensures |p| <= |s| {
      var i :| 0 <= i < |parts| && p == Trim(parts[i]);
      assert parts[i] in parts;
      TrimIsShorter(parts[i]);
    }
  }

  lemma BetweenIsShorter(code: string, prefix: string, suffix: string)
    requires Between(code, prefix, suffix).Some? && prefix != ""
    ensures |Between(code, prefix, suffix).value| < |code|
  {
  }

  /** The payload that the code's text stands for; `leaf` renders a borrowed expression. */
  function ReadPayload(printable: char -> bool, leaf: string -> string, code: string): Option<string>
    decreases |code|, 1, 0
  {
    TrimIsShorter(code);
    var text := Trim(code);
    match Between(text, "json!({", "})")
    case Some(fields) =>
      if Trim(fields) == "" then Some("json!({})")
      else
        BetweenIsShorter(text, "json!({", "})");
        SplitIsShorter(fields);
        Wrap("json!({", ReadFields(printable, leaf, SplitArgs(fields), |code|), "})")
    case None =>
      match Between(text, "vec![", "]")
      case Some(items) =>
        if Trim(items) == "" then Some("json!([])")
        else
          BetweenIsShorter(text, "vec![", "]");
          SplitIsShorter(items);
          Wrap("json!([", ReadItems(printable, leaf, SplitArgs(items), |code|), "])")
      case None => Some("json!(" + leaf(code) + ")")
  }

  function Wrap(front: string, texts: Option<seq<string>>, back: string): Option<string> {
    match texts
    case None => None
    case Some(texts) => Some(front + Join(texts) + back)
  }

  function ReadItems(printable: char -> bool, leaf: string -> string, items: seq<string>,
      size: nat): Option<seq<string>>
    requires forall item <- items :: |item| < size
    decreases size, 0, |items|
  {
    if items == [] then Some([])
    else match (ReadPayload(printable, leaf, items[0]), ReadItems(printable, leaf, items[1..], size))
      case (Some(first), Some(rest)) => Some([first] + rest)
      case _ => None
  }

  function ReadFields(printable: char -> bool, leaf: string -> string, fields: seq<string>,
      size: nat): Option<seq<string>>
    requires forall field <- fields :: |field| < size
    decreases size, 0, |fields|
  {
    if fields == [] then Some([])
    else match ReadField(fields[0])
      case None => None
      case Some((name, value)) =>
        match (ReadPayload(printable, leaf, value), ReadFields(printable, leaf, fields[1..], size))
        case (Some(first), Some(rest)) => Some([DebugText(printable, name) + ": " + first] + rest)
        case _ => None
  }

  // The structural rendering ------------------------------------------------------------------

  predicate IsListLiteral(e: Expr) {
    e.ListLit? || (e.Call? && e.path == ["list"])
  }

  function ItemsOf(e: Expr): seq<Expr>
    requires IsListLiteral(e)
  {
    if e.ListLit? then e.items else e.args
  }

  function PayloadOf(printable: char -> bool, leaf: string -> string, e: Expr): string
    decreases e, 1
  {
    if e.ObjLit? then
      if e.fields == [] then "json!({})" else "json!({" + Join(FieldPayloads(printable, leaf, e.fields)) + "})"
    else if IsListLiteral(e) then
      if ItemsOf(e) == [] then "json!([])" else "json!([" + Join(Payloads(printable, leaf, ItemsOf(e))) + "])"
    else "json!(" + leaf(Render(printable, e)) + ")"
  }

  function Payloads(printable: char -> bool, leaf: string -> string, es: seq<Expr>): seq<string>
    decreases es, 0
  {
    if es == [] then [] else [PayloadOf(printable, leaf, es[0])] + Payloads(printable, leaf, es[1..])
  }

  function FieldPayloads(printable: char -> bool, leaf: string -> string, fields: seq<Field>): seq<string>
    decreases fields, 0
  {
    if fields == [] then []
    else [DebugText(printable, fields[0].name) + ": " + PayloadOf(printable, leaf, fields[0].value)]
         + FieldPayloads(printable, leaf, fields[1..])
  }

  /** The operand whose text an expression's text starts with. */
  function Head(e: Expr): Expr {
    match e
    case Index(base, _) => if base.Binary? || base.Unary? then e else Head(base)
    case Member(base, property) => if property == "length" then e else Head(base)
    case _ => e
  }

  /** A name that prints as itself between quotes. */
  predicate IsPlainName(printable: char -> bool, name: string) {
    IsWord(name) && forall c <- name :: printable(c)
  }

  /** Object keys are words, and no index expression has a list literal as its leftmost operand. */
  predicate Readable(printable: char -> bool, e: Expr) {
    if e.ObjLit? then forall f <- e.fields :: IsPlainName(printable, f.name) && Readable(printable, f.value)
    else if e.ListLit? then forall x <- e.items :: Readable(printable, x)
    else if e.Call? && e.path == ["list"] then forall x <- e.args :: Readable(printable, x)
    else e.Index? ==> !IsListLiteral(Head(e))
  }

  // How printed texts start and end -----------------------------------------------------------

  /** Neither literal's opening can be read off the front of the text. */
  predicate StartsApart(s: string, list: bool, object_: bool) {
    (HasPrefix(s, "vec!") ==> list) && (HasPrefix(s, "json!") ==> object_)
  }

  lemma StartsApartFirst(s: string, list: bool, object_: bool)
    requires s != "" && s[0] != 'v' && s[0] != 'j'
    ensures StartsApart(s, list, object_)
  {
  }

  /** Text that goes on with a dot, a colon or a bracket starts like a literal only if its front does. */
  lemma StartsApartLonger(front: string, back: string, list: bool, object_: bool)
    requires StartsApart(front, list, object_)
    requires back == "" || back[0] in {'.', ':', '[', '('}
    ensures StartsApart(front + back, list, object_)
  {
    StartsWithLonger(front, back, "vec!");
    StartsWithLonger(front, back, "json!");
  }

  lemma StartsWithLonger(front: string, back: string, opening: string)
    requires opening == "vec!" || opening == "json!"
    requires back == "" || back[0] in {'.', ':', '[', '('}
    ensures HasPrefix(front + back, opening) ==> HasPrefix(front, opening)
  {
    if |front| < |opening| {
      assert back != "" ==> (front + back)[|front|] == back[0] && opening[|front|] != back[0];
    } else {
      assert (front + back)[..|opening|] == front[..|opening|];
    }
  }

  lemma WordStartsApart(name: string)
    requires forall c <- name :: IsWordChar(c)
    ensures StartsApart(name, false, false)
  {
    assert |name| > 3 ==> name[3] in name;
    assert |name| > 4 ==> name[4] in name;
  }

  lemma {:induction false} RenderStartsApart(printable: char -> bool, e: Expr)
    requires Named(e)
    ensures StartsApart(Render(printable, e), IsListLiteral(Head(e)), Head(e).ObjLit?)
    decreases e, 1
  {
    RenderIsArg(printable, e);
    if SpecialText(printable, e).Some? {
      SpecialStarts(printable, e);
      StartsApartFirst(Render(printable, e), IsListLiteral(Head(e)), Head(e).ObjLit?);
    } else {
      PlainStartsApart(printable, e);
    }
  }

  lemma {:induction false} PlainStartsApart(printable: char -> bool, e: Expr)
    requires Named(e)
    ensures StartsApart(RenderPlain(printable, e), IsListLiteral(Head(e)), Head(e).ObjLit?)
    decreases e, 0
  {
    match e {
      case StrLit(_) => assert RenderPlain(printable, e)[0] == '"';
      case NumLit(n) => assert IntText(n)[0] in IntText(n);
      case FltLit(text) => assert text[0] in text && RenderPlain(printable, e)[0] == text[0];
      case BoolLit(b) => WordStartsApart(BoolText(b));
      case ListLit(items) => ListStarts(RenderAll(printable, items));
      case ObjLit(fields) => ObjectStarts(RenderFields(printable, fields));
      case Ident(name) => NameStartsApart(name);
      case Unary(_, _) => assert RenderPlain(printable, e)[0] == '(';
      case Binary(op, left, right) => BinaryStartsApart(op, left, right, Render(printable, left),
          Render(printable, right));
      case Index(base, index) =>
        RenderStartsApart(printable, base);
        IndexStartsApart(base.Binary? || base.Unary?, Render(printable, base), Render(printable, index),
            IsListLiteral(Head(base)), Head(base).ObjLit?);
      case Member(base, property) =>
        RenderStartsApart(printable, base);
        MemberStartsApart(Render(printable, base), property, IsListLiteral(Head(base)), Head(base).ObjLit?);
      case OptionalMember(_, _) => assert RenderPlain(printable, e)[0] == '_';
      case Call(path, args) => CallStartsApart(path, RenderAll(printable, args));
    }
  }

  lemma ListStarts(texts: seq<string>)
    ensures StartsApart(ListText(texts), true, false)
  {
    assert ListText(texts)[0] == 'v';
  }

  lemma ObjectStarts(texts: seq<string>)
    ensures StartsApart(ObjectText(texts), false, true)
  {
    assert ObjectText(texts)[0] == 'j';
  }

  lemma NameStartsApart(name: string)
    requires IsWord(name)
    ensures StartsApart(NameText(name), false, false)
  {
    WordStartsApart(name);
    assert NameText("null")[0] == 's';
  }

  lemma BinaryStartsApart(op: BinaryOp, left: Expr, right: Expr, l: string, r: string)
    ensures StartsApart(RenderBinary(op, left, right, l, r), false, false)
  {
    var s := RenderBinary(op, left, right, l, r);
    assert s[0] in {'(', '_', 'c'};
  }

  lemma IndexStartsApart(grouped: bool, base: string, index: string, list: bool, object_: bool)
    requires StartsApart(base, list, object_)
    ensures StartsApart(IndexText(grouped, base, index), !grouped && list, !grouped && object_)
  {
    if grouped {
      assert IndexText(grouped, base, index)[0] == '(';
    } else {
      StartsApartLonger(base, Square(index), list, object_);
    }
  }

  lemma MemberStartsApart(base: string, property: string, list: bool, object_: bool)
    requires StartsApart(base, list, object_)
    ensures StartsApart(MemberText(base, property), property != "length" && list, property != "length" && object_)
  {
    if property == "length" {
      assert MemberText(base, property)[0] == '_';
    } else {
      StartsApartLonger(base, "." + property, list, object_);
      assert base + ("." + property) == MemberText(base, property);
    }
  }

  lemma CallStartsApart(path: seq<string>, texts: seq<string>)
    requires forall part <- path :: IsWord(part)
    ensures StartsApart(CallText(path, texts), path == ["list"], false)
  {
    ListStarts(texts);
    PathStartsApart(path);
    StartsApartLonger(JoinWith("::", path), Paren(Join(texts)), false, false);
  }

  lemma PathStartsApart(path: seq<string>)
    requires forall part <- path :: IsWord(part)
    ensures StartsApart(JoinWith("::", path), false, false)
  {
    if path != [] {
      assert IsWord(path[0]);
      WordStartsApart(path[0]);
      if |path| > 1 {
        StartsApartLonger(path[0], "::" + JoinWith("::", path[1..]), false, false);
        assert path[0] + ("::" + JoinWith("::", path[1..])) == JoinWith("::", path);
      }
    }
  }

  /** What the last character of a text that starts like a literal can be. */
  lemma EndOfLeaf(printable: char -> bool, e: Expr)
    requires Named(e) && !e.ObjLit? && !IsListLiteral(e)
    ensures Head(e).ObjLit? ==> !HasSuffix(Render(printable, e), "})")
    ensures IsListLiteral(Head(e)) && !e.Index? ==> !HasSuffix(Render(printable, e), "]")
  {
    if Head(e).ObjLit? || IsListLiteral(Head(e)) {
      HeadIsPlain(printable, e);
      var s := Render(printable, e);
      match e {
        case Index(base, index) => assert s[|s| - 1] == ']';
        case Member(base, property) =>
          assert s == Render(printable, base) + "." + property;
          assert property[|property| - 1] in property && s[|s| - 1] == property[|property| - 1];
      }
    }
  }

  /** A chain that starts at a literal is no environment or authentication lookup. */
  lemma {:induction false} HeadIsPlain(printable: char -> bool, e: Expr)
    requires Head(e).ObjLit? || IsListLiteral(Head(e))
    ensures MemberPath(e).None? && Render(printable, e) == RenderPlain(printable, e)
  {
    match e {
      case Member(base, _) => HeadIsPlain(printable, base);
      case _ =>
    }
  }

  lemma LeafIsNoLiteral(printable: char -> bool, e: Expr)
    requires Named(e) && !e.ObjLit? && !IsListLiteral(e) && Readable(printable, e)
    ensures Between(Render(printable, e), "json!({", "})").None?
    ensures Between(Render(printable, e), "vec![", "]").None?
  {
    var s := Render(printable, e);
    RenderStartsApart(printable, e);
    EndOfLeaf(printable, e);
    OpeningAndClosing(s);
  }

  lemma OpeningAndClosing(s: string)
    ensures Between(s, "json!({", "})").Some? ==> HasPrefix(s, "json!") && HasSuffix(s, "})")
    ensures Between(s, "vec![", "]").Some? ==> HasPrefix(s, "vec!") && HasSuffix(s, "]")
  {
    assert "json!({"[..5] == "json!" && "vec!["[..4] == "vec!";
    if HasPrefix(s, "json!({") {
      assert s[..5] == s[..7][..5];
    }
    if HasPrefix(s, "vec![") {
      assert s[..4] == s[..5][..4];
    }
  }

  // Names -------------------------------------------------------------------------------------

  lemma {:induction false} PlainNamePrints(printable: char -> bool, name: string)
    requires forall c <- name :: IsWordChar(c) && printable(c)
    ensures DebugBody(printable, name) == name
  {
    if name != "" {
      assert name[0] in name && DebugChar(printable, name[0]) == [name[0]];
      PlainNamePrints(printable, name[1..]);
      assert [name[0]] + name[1..] == name;
    }
  }

  lemma {:induction false} ReadNameOfWord(name: string, rest: string)
    requires forall c <- name :: IsWordChar(c)
    ensures ReadNameRest(name + ("\"" + rest)) == Some((name, rest))
  {
    if name == "" {
      assert name + ("\"" + rest) == "\"" + rest && ("\"" + rest)[1..] == rest;
    } else {
      var s := name + ("\"" + rest);
      assert name[0] in name && forall c <- name[1..] :: c in name;
      ReadNameOfWord(name[1..], rest);
      assert s[1..] == name[1..] + ("\"" + rest);
      assert [name[0]] + name[1..] == name;
    }
  }

  lemma ReadQuotedName(name: string, rest: string)
    requires forall c <- name :: IsWordChar(c)
    ensures ReadName("\"" + name + "\"" + rest) == Some((name, rest))
  {
    var field := "\"" + name + "\"" + rest;
    ReadNameOfWord(name, rest);
    assert field == "\"" + (name + ("\"" + rest));
    assert field[1..] == name + ("\"" + rest);
  }

  lemma ReadPrintedName(printable: char -> bool, name: string, rest: string)
    requires IsPlainName(printable, name)
    ensures ReadName(DebugText(printable, name) + rest) == Some((name, rest))
  {
    PlainNamePrints(printable, name);
    ReadQuotedName(name, rest);
  }

  lemma ReadNamedField(field: string, name: string, rest: string, value: string)
    requires ReadName(field) == Some((name, rest)) && Trim(rest) == rest && HasPrefix(rest, ":")
             && Trim(rest[1..]) == value
    ensures ReadField(field) == Some((name, value))
  {
  }

  lemma ReadPrintedField(printable: char -> bool, name: string, value: string)
    requires IsPlainName(printable, name) && Tight(value)
    ensures ReadField(DebugText(printable, name) + ": " + value) == Some((name, value))
  {
    ReadPrintedName(printable, name, ": " + value);
    ColonValue(value);
    ReadNamedField(DebugText(printable, name) + (": " + value), name, ": " + value, value);
    assert DebugText(printable, name) + (": " + value) == DebugText(printable, name) + ": " + value;
  }

  lemma ColonValue(value: string)
    requires Tight(value)
    ensures var rest := ": " + value; Trim(rest) == rest && HasPrefix(rest, ":") && Trim(rest[1..]) == value
  {
    var rest := ": " + value;
    assert rest[|rest| - 1] == value[|value| - 1];
    TightTrim(rest);
    assert rest[1..] == " " + value;
    TightTrim(value);
  }

  // The theorem -------------------------------------------------------------------------------

  /** Reading a printed expression back renders the payload its structure stands for. */
  lemma {:induction false} PayloadReadsBack(printable: char -> bool, leaf: string -> string, e: Expr)
    requires Named(e) && Readable(printable, e)
    ensures ReadPayload(printable, leaf, Render(printable, e)) == Some(PayloadOf(printable, leaf, e))
    decreases e, 1
  {
    RenderIsArg(printable, e);
    TightTrim(Render(printable, e));
    if e.ObjLit? {
      ObjectReadsBack(printable, leaf, e);
    } else if IsListLiteral(e) {
      ListReadsBack(printable, leaf, e);
    } else {
      LeafIsNoLiteral(printable, e);
    }
  }

  lemma {:induction false} ObjectReadsBack(printable: char -> bool, leaf: string -> string, e: Expr)
    requires e.ObjLit? && Named(e) && Readable(printable, e)
    ensures ReadPayload(printable, leaf, Render(printable, e)) == Some(PayloadOf(printable, leaf, e))
    decreases e, 0
  {
    var texts := RenderFields(printable, e.fields);
    var code := Render(printable, e);
    RenderIsArg(printable, e);
    TightTrim(code);
    ObjectPrints(printable, e);
    BetweenMiddle("json!({", Join(texts), "})");
    FieldsAreArgs(printable, e.fields);
    if e.fields != [] {
      SplitUndoesJoin(texts);
      TightJoin(texts);
      TightTrim(Join(texts));
      SplitIsShorter(Join(texts));
      FieldsReadBack(printable, leaf, e.fields, |code|);
    }
  }

  lemma ObjectPrints(printable: char -> bool, e: Expr)
    requires e.ObjLit?
    ensures Render(printable, e) == "json!({" + Join(RenderFields(printable, e.fields)) + "})"
  {
    assert MemberPath(e).None?;
    var inner := Join(RenderFields(printable, e.fields));
    assert "json!" + Paren(Curly(inner)) == "json!({" + inner + "})";
  }

  lemma ListPrints(printable: char -> bool, e: Expr)
    requires IsListLiteral(e)
    ensures Render(printable, e) == "vec![" + Join(RenderAll(printable, ItemsOf(e))) + "]"
  {
    assert MemberPath(e).None?;
    var inner := Join(RenderAll(printable, ItemsOf(e)));
    assert "vec!" + Square(inner) == "vec![" + inner + "]";
  }

  lemma {:induction false} FieldsReadBack(printable: char -> bool, leaf: string -> string, fields: seq<Field>,
      size: nat)
    requires forall f <- fields :: Named(f.value) && IsPlainName(printable, f.name) && Readable(printable, f.value)
    requires forall text <- RenderFields(printable, fields) :: |text| < size
    ensures ReadFields(printable, leaf, RenderFields(printable, fields), size)
            == Some(FieldPayloads(printable, leaf, fields))
    decreases fields, 0
  {
    if fields != [] {
      var texts := RenderFields(printable, fields);
      var f := fields[0];
      assert texts[1..] == RenderFields(printable, fields[1..]);
      RenderIsArg(printable, f.value);
      ReadPrintedField(printable, f.name, Render(printable, f.value));
      PayloadReadsBack(printable, leaf, f.value);
      FieldsReadBack(printable, leaf, fields[1..], size);
    }
  }

  lemma {:induction false} ListReadsBack(printable: char -> bool, leaf: string -> string, e: Expr)
    requires IsListLiteral(e) && Named(e) && Readable(printable, e)
    ensures ReadPayload(printable, leaf, Render(printable, e)) == Some(PayloadOf(printable, leaf, e))
    decreases e, 0
  {
    var items := ItemsOf(e);
    var texts := RenderAll(printable, items);
    var code := Render(printable, e);
    RenderIsArg(printable, e);
    TightTrim(code);
    ListPrints(printable, e);
    BetweenMiddle("vec![", Join(texts), "]");
    OpeningAndClosing(code);
    assert code[0] == 'v';
    RenderAllAreArgs(printable, items);
    if items != [] {
      SplitUndoesJoin(texts);
      TightJoin(texts);
      TightTrim(Join(texts));
      SplitIsShorter(Join(texts));
      ItemsReadBack(printable, leaf, items, |code|);
    }
  }

  lemma {:induction false} ItemsReadBack(printable: char -> bool, leaf: string -> string, es: seq<Expr>, size: nat)
    requires forall x <- es :: Named(x) && Readable(printable, x)
    requires forall text <- RenderAll(printable, es) :: |text| < size
    ensures ReadItems(printable, leaf, RenderAll(printable, es), size) == Some(Payloads(printable, leaf, es))
    decreases es, 0
  {
    if es != [] {
      var texts := RenderAll(printable, es);
      assert texts[1..] == RenderAll(printable, es[1..]);
      PayloadReadsBack(printable, leaf, es[0]);
      ItemsReadBack(printable, leaf, es[1..], size);
    }
  }

  /** A text that starts as a list's is rendered as a borrow. */
  ghost predicate BorrowsLists(leaf: string -> string) {
    forall code | HasPrefix(code, "vec![") :: leaf(code) != "" && leaf(code)[0] == '&'
  }

  /** Both texts have a place where they differ, so whatever follows them they stay different. */
  ghost predicate Diverge(x: string, y: string) {
    exists i: nat :: i < |x| && i < |y| && x[i] != y[i]
  }

  /** An index into a list literal is read as if it were the list: the payload is another one. */
  lemma ListHeadIsMisread(printable: char -> bool, leaf: string -> string, e: Expr)
    requires Named(e) && e.Index? && IsListLiteral(Head(e))
    requires BorrowsLists(leaf)
    ensures var r := ReadPayload(printable, leaf, Render(printable, e));
            r.Some? ==> Diverge(r.value, PayloadOf(printable, leaf, e))
  {
    var s := Render(printable, e);
    RenderIsArg(printable, e);
    TightTrim(s);
    ListHeadOpens(printable, e);
    OpenedListIsBetween(s);
    ReadListText(printable, leaf, s);
    LeafPayload(leaf, s);
  }

  lemma LeafPayload(leaf: string -> string, code: string)
    requires leaf(code) != "" && leaf(code)[0] == '&'
    ensures |"json!(" + leaf(code) + ")"| > 6 && ("json!(" + leaf(code) + ")")[6] == '&'
  {
  }

  lemma OpenedListIsBetween(s: string)
    requires HasPrefix(s, "vec![") && |s| >= 6 && s[|s| - 1] == ']'
    ensures Between(s, "json!({", "})").None? && Between(s, "vec![", "]").Some?
  {
    assert s[0] == 'v';
    OpeningAndClosing(s);
  }

  lemma ReadListText(printable: char -> bool, leaf: string -> string, code: string)
    requires Trim(code) == code && Between(code, "json!({", "})").None? && Between(code, "vec![", "]").Some?
    ensures var r := ReadPayload(printable, leaf, code); r.Some? ==> |r.value| > 6 && r.value[6] == '['
  {
    var items := Between(code, "vec![", "]").value;
    if Trim(items) == "" {
      assert "json!([])"[6] == '[';
    } else {
      SplitIsShorter(items);
      var texts := ReadItems(printable, leaf, SplitArgs(items), |code|);
      assert texts.Some? ==> ("json!([" + Join(texts.value) + "])")[6] == "json!(["[6];
    }
  }

  lemma ListHeadOpens(printable: char -> bool, e: Expr)
    requires IsListLiteral(Head(e))
    ensures HasPrefix(Render(printable, e), "vec![")
    ensures e.Index? ==> |Render(printable, e)| >= 6 && Render(printable, e)[|Render(printable, e)| - 1] == ']'
  {
    HeadIsPlain(printable, e);
    match e {
      case Index(base, _) => ListHeadOpens(printable, base);
      case Member(base, _) => ListHeadOpens(printable, base);
      case _ => ListPrints(printable, e);
    }
  }

  // The exact condition -----------------------------------------------------------------------

  /** Every key of an object literal that becomes part of the payload is a plain word. */
  predicate HasPlainKeys(printable: char -> bool, e: Expr) {
    if e.ObjLit? then forall f <- e.fields :: IsPlainName(printable, f.name) && HasPlainKeys(printable, f.value)
    else if e.ListLit? then forall x <- e.items :: HasPlainKeys(printable, x)
    else if e.Call? && e.path == ["list"] then forall x <- e.args :: HasPlainKeys(printable, x)
    else true
  }

  lemma DivergeInside(front: string, x: string, y: string, more: string, rest: string)
    requires Diverge(x, y)
    ensures Diverge(front + x + more, front + y + rest)
  {
    var i: nat :| i < |x| && i < |y| && x[i] != y[i];
    assert (front + x + more)[|front| + i] == x[i] && (front + y + rest)[|front| + i] == y[i];
  }

  lemma DivergeAfter(front: string, x: string, y: string)
    requires Diverge(x, y)
    ensures Diverge(front + x, front + y)
  {
    DivergeInside(front, x, y, "", "");
    assert front + x + "" == front + x && front + y + "" == front + y;
  }

  /** The texts are the same up to one that diverges. */
  ghost predicate DivergeAt(xs: seq<string>, ys: seq<string>) {
    |xs| == |ys| && xs != [] && (Diverge(xs[0], ys[0]) || (xs[0] == ys[0] && DivergeAt(xs[1..], ys[1..])))
  }

  lemma {:induction false} JoinsDiverge(xs: seq<string>, ys: seq<string>)
    requires DivergeAt(xs, ys)
    ensures Diverge(Join(xs), Join(ys))
  {
    if Diverge(xs[0], ys[0]) {
      var more := if |xs| == 1 then "" else ", " + Join(xs[1..]);
      var rest := if |ys| == 1 then "" else ", " + Join(ys[1..]);
      DivergeInside("", xs[0], ys[0], more, rest);
      assert Join(xs) == "" + xs[0] + more && Join(ys) == "" + ys[0] + rest;
    } else {
      JoinsDiverge(xs[1..], ys[1..]);
      DivergeAfter(xs[0] + ", ", Join(xs[1..]), Join(ys[1..]));
    }
  }

  /** An expression with an index into a list literal anywhere among its parts is read as another payload. */
  lemma {:induction false} PartIsMisread(printable: char -> bool, leaf: string -> string, e: Expr)
    requires Named(e) && HasPlainKeys(printable, e) && !Readable(printable, e)
    requires BorrowsLists(leaf)
    ensures var r := ReadPayload(printable, leaf, Render(printable, e));
            r.Some? ==> Diverge(r.value, PayloadOf(printable, leaf, e))
    decreases e, 1
  {
    if e.ObjLit? {
      ObjectIsMisread(printable, leaf, e);
    } else if IsListLiteral(e) {
      ListIsMisread(printable, leaf, e);
    } else {
      ListHeadIsMisread(printable, leaf, e);
    }
  }

  lemma {:induction false} ObjectIsMisread(printable: char -> bool, leaf: string -> string, e: Expr)
    requires e.ObjLit? && Named(e) && HasPlainKeys(printable, e) && !Readable(printable, e)
    requires BorrowsLists(leaf)
    ensures var r := ReadPayload(printable, leaf, Render(printable, e));
            r.Some? ==> Diverge(r.value, PayloadOf(printable, leaf, e))
    decreases e, 0
  {
    var texts := RenderFields(printable, e.fields);
    var code := Render(printable, e);
    RenderIsArg(printable, e);
    TightTrim(code);
    ObjectPrints(printable, e);
    BetweenMiddle("json!({", Join(texts), "})");
    FieldsAreArgs(printable, e.fields);
    SplitUndoesJoin(texts);
    TightJoin(texts);
    TightTrim(Join(texts));
    SplitIsShorter(Join(texts));
    FieldsAreMisread(printable, leaf, e.fields, |code|);
    var read := ReadFields(printable, leaf, texts, |code|);
    if read.Some? {
      JoinsDiverge(read.value, FieldPayloads(printable, leaf, e.fields));
      DivergeInside("json!({", Join(read.value), Join(FieldPayloads(printable, leaf, e.fields)), "})", "})");
    }
  }

  lemma {:induction false} FieldsAreMisread(printable: char -> bool, leaf: string -> string, fields: seq<Field>,
      size: nat)
    requires forall f <- fields :: Named(f.value) && IsPlainName(printable, f.name) && HasPlainKeys(printable, f.value)
    requires exists f <- fields :: !Readable(printable, f.value)
    requires forall text <- RenderFields(printable, fields) :: |text| < size
    requires BorrowsLists(leaf)
    ensures var r := ReadFields(printable, leaf, RenderFields(printable, fields), size);
            r.Some? ==> DivergeAt(r.value, FieldPayloads(printable, leaf, fields))
    decreases fields, 0
  {
    var texts := RenderFields(printable, fields);
    var f := fields[0];
    var front := DebugText(printable, f.name) + ": ";
    assert texts[1..] == RenderFields(printable, fields[1..]);
    RenderIsArg(printable, f.value);
    ReadPrintedField(printable, f.name, Render(printable, f.value));
    assert f in fields && forall g <- fields :: g == f || g in fields[1..];
    ReadFieldsStep(printable, leaf, texts, size, f.name, Render(printable, f.value));
    if Readable(printable, f.value) {
      PayloadReadsBack(printable, leaf, f.value);
      FieldsAreMisread(printable, leaf, fields[1..], size);
    } else {
      PartIsMisread(printable, leaf, f.value);
      FieldsKeepCount(printable, leaf, fields, size);
      var first := ReadPayload(printable, leaf, Render(printable, f.value));
      if first.Some? {
        DivergeAfter(front, first.value, PayloadOf(printable, leaf, f.value));
      }
    }
  }

  lemma ReadFieldsStep(printable: char -> bool, leaf: string -> string, texts: seq<string>, size: nat, name: string,
      value: string)
    requires texts != [] && (forall text <- texts :: |text| < size) && ReadField(texts[0]) == Some((name, value))
    ensures var r := ReadFields(printable, leaf, texts, size);
            var first, rest := ReadPayload(printable, leaf, value), ReadFields(printable, leaf, texts[1..], size);
            && (r.Some? <==> first.Some? && rest.Some?)
            && (r.Some? ==> r.value == [DebugText(printable, name) + ": " + first.value] + rest.value)
  {
  }

  lemma {:induction false} FieldsKeepCount(printable: char -> bool, leaf: string -> string, fields: seq<Field>,
      size: nat)
    requires forall text <- RenderFields(printable, fields) :: |text| < size
    ensures |FieldPayloads(printable, leaf, fields)| == |fields|
    ensures var r := ReadFields(printable, leaf, RenderFields(printable, fields), size);
            r.Some? ==> |r.value| == |fields|
    decreases fields
  {
    if fields != [] {
      assert RenderFields(printable, fields)[1..] == RenderFields(printable, fields[1..]);
      FieldsKeepCount(printable, leaf, fields[1..], size);
    }
  }

  lemma {:induction false} ListIsMisread(printable: char -> bool, leaf: string -> string, e: Expr)
    requires IsListLiteral(e) && Named(e) && HasPlainKeys(printable, e) && !Readable(printable, e)
    requires BorrowsLists(leaf)
    ensures var r := ReadPayload(printable, leaf, Render(printable, e));
            r.Some? ==> Diverge(r.value, PayloadOf(printable, leaf, e))
    decreases e, 0
  {
    var items := ItemsOf(e);
    var texts := RenderAll(printable, items);
    var code := Render(printable, e);
    RenderIsArg(printable, e);
    TightTrim(code);
    ListPrints(printable, e);
    BetweenMiddle("vec![", Join(texts), "]");
    OpeningAndClosing(code);
    assert code[0] == 'v';
    RenderAllAreArgs(printable, items);
    SplitUndoesJoin(texts);
    TightJoin(texts);
    TightTrim(Join(texts));
    SplitIsShorter(Join(texts));
    ItemsAreMisread(printable, leaf, items, |code|);
    var read := ReadItems(printable, leaf, texts, |code|);
    if read.Some? {
      JoinsDiverge(read.value, Payloads(printable, leaf, items));
      DivergeInside("json!([", Join(read.value), Join(Payloads(printable, leaf, items)), "])", "])");
    }
  }

  lemma {:induction false} ItemsAreMisread(printable: char -> bool, leaf: string -> string, es: seq<Expr>, size: nat)
    requires forall x <- es :: Named(x) && HasPlainKeys(printable, x)
    requires exists x <- es :: !Readable(printable, x)
    requires forall text <- RenderAll(printable, es) :: |text| < size
    requires BorrowsLists(leaf)
    ensures var r := ReadItems(printable, leaf, RenderAll(printable, es), size);
            r.Some? ==> DivergeAt(r.value, Payloads(printable, leaf, es))
    decreases es, 0
  {
    assert RenderAll(printable, es)[1..] == RenderAll(printable, es[1..]);
    assert es[0] in es && forall x <- es :: x == es[0] || x in es[1..];
    ReadItemsStep(printable, leaf, RenderAll(printable, es), size);
    if Readable(printable, es[0]) {
      PayloadReadsBack(printable, leaf, es[0]);
      ItemsAreMisread(printable, leaf, es[1..], size);
    } else {
      PartIsMisread(printable, leaf, es[0]);
      ItemsKeepCount(printable, leaf, es, size);
    }
  }

  lemma ReadItemsStep(printable: char -> bool, leaf: string -> string, texts: seq<string>, size: nat)
    requires texts != [] && forall text <- texts :: |text| < size
    ensures var r := ReadItems(printable, leaf, texts, size);
            var first, rest := ReadPayload(printable, leaf, texts[0]), ReadItems(printable, leaf, texts[1..], size);
            (r.Some? <==> first.Some? && rest.Some?) && (r.Some? ==> r.value == [first.value] + rest.value)
  {
  }

  lemma {:induction false} ItemsKeepCount(printable: char -> bool, leaf: string -> string, es: seq<Expr>, size: nat)
    requires forall text <- RenderAll(printable, es) :: |text| < size
    ensures |Payloads(printable, leaf, es)| == |es|
    ensures var r := ReadItems(printable, leaf, RenderAll(printable, es), size); r.Some? ==> |r.value| == |es|
    decreases es
  {
    if es != [] {
      assert RenderAll(printable, es)[1..] == RenderAll(printable, es[1..]);
      ItemsKeepCount(printable, leaf, es[1..], size);
    }
  }

  /**
   * Reading the printed text back is right exactly if no index expression among the parts that make up the payload
   * has a list literal as its leftmost operand.
   */
  lemma PayloadReadsBackExactly(printable: char -> bool, leaf: string -> string, e: Expr)
    requires Named(e) && HasPlainKeys(printable, e)
    requires BorrowsLists(leaf)
    ensures ReadPayload(printable, leaf, Render(printable, e)) == Some(PayloadOf(printable, leaf, e))
            <==> Readable(printable, e)
  {
    if Readable(printable, e) {
      PayloadReadsBack(printable, leaf, e);
    } else {
      PartIsMisread(printable, leaf, e);
    }
  }

  // The program's own leaf renderer -----------------------------------------------------------

  /** Names, separated by dots: the only texts that can be a context lookup. */
  predicate IsDottedName(letters: set<char>, numbers: set<char>, code: string) {
    forall part <- SplitOn('.', code) ::
      && part != "" && (part[0] == '_' || part[0] in letters)
      && forall c <- part :: c == '_' || c in letters || c in numbers
  }

  /** A context lookup is rendered as it is looked up, which need not be a borrow; any other expression is borrowed. */
  function BorrowedExpr(letters: set<char>, numbers: set<char>, lookup: string -> Option<string>,
      codegen: string -> string,
      code: string): string {
    if IsDottedName(letters, numbers, code) && lookup(code).Some? then lookup(code).value else "&" + codegen(code)
  }

  lemma ListIsNoName(letters: set<char>, numbers: set<char>, code: string)
    requires '!' !in letters + numbers && HasPrefix(code, "vec![")
    ensures !IsDottedName(letters, numbers, code)
  {
    assert code[..5] == "vec![" && code[0] == 'v' && code[1] == 'e' && code[2] == 'c' && code[3] == '!';
    FirstPartHolds(code, 3);
    var part := SplitOn('.', code)[0];
    assert part in SplitOn('.', code) && part[3] in part;
  }

  /** A character before the first dot is in the first part. */
  lemma {:induction false} FirstPartHolds(s: string, i: nat)
    requires i < |s| && forall j | 0 <= j <= i :: s[j] != '.'
    ensures |SplitOn('.', s)[0]| > i && SplitOn('.', s)[0][i] == s[i]
  {
    if i > 0 {
      FirstPartHolds(s[1..], i - 1);
    }
  }

  /** The exact condition, for the leaf renderer that the code generator uses. */
  lemma GeneratedPayloadReadsBackExactly(printable: char -> bool, letters: set<char>, numbers: set<char>,
      lookup: string -> Option<string>,
      codegen: string -> string, e: Expr)
    requires Named(e) && HasPlainKeys(printable, e) && '!' !in letters + numbers
    ensures var leaf := code => BorrowedExpr(letters, numbers, lookup, codegen, code);
            ReadPayload(printable, leaf, Render(printable, e)) == Some(PayloadOf(printable, leaf, e))
            <==> Readable(printable, e)
  {
    var leaf := code => BorrowedExpr(letters, numbers, lookup, codegen, code);
    forall code | HasPrefix(code, "vec![") ensures leaf(code) != "" && leaf(code)[0] == '&' {
      ListIsNoName(letters, numbers, code);
    }
    PayloadReadsBackExactly(printable, leaf, e);
  }
}
