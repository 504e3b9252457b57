/** The parts of the code generator that read rendered expressions back from their text. */
module CodegenReaders {
  import opened Text
  import opened LoweringModel
  import opened ArgSplitter
  import opened ExprPrinter

  /** What is between a prefix and a suffix that do not overlap. */
  function Between(text: string, prefix: string, suffix: string): Option<string> {
    if HasPrefix(text, prefix) && HasSuffix(text[|prefix|..], suffix) then
      Some(text[|prefix|..|text| - |suffix|])
    else None
  }

  lemma BetweenMiddle(prefix: string, middle: string, suffix: string)
    ensures Between(prefix + middle + suffix, prefix, suffix) == Some(middle)
  {
    var text := prefix + middle + suffix;
    assert text[|prefix|..] == middle + suffix;
    assert (middle + suffix)[|middle|..] == suffix;
  }

  // The login throttle hook -------------------------------------------------------------------

  const MAX_U64: nat := 0xffff_ffff_ffff_ffff

  datatype Hook = NoHook | InvalidHook | Throttle(key: string, attempts: nat, seconds: nat)

  function ParseThrottle(code: string): Hook {
    var code := Trim(code);
    if HasPrefix(code, "Login.throttle") then InvalidHook
    else if !HasPrefix(code, "Login::throttle") then NoHook
    else match Between(code, "Login::throttle(", ")")
      case None => InvalidHook
      case Some(inner) => ReadInner(inner)
  }

  function MakeThrottle(key: string, attempts: string, seconds: string): Hook {
    var a, s := ParseUnsigned(Trim(attempts), MAX_U32), ParseUnsigned(Trim(seconds), MAX_U64);
    if a.None? || s.None? || Trim(key) == "" || !(1 <= a.value <= 1000) || !(1 <= s.value <= 86400) then InvalidHook
    else Throttle(Trim(key), a.value, s.value)
  }

  /** Only number literals print as digits. */
  lemma OnlyNumbersAreDigits(printable: char -> bool, e: Expr)
    requires Named(e) && (e.NumLit? ==> e.n < 0)
    ensures NotDigits(Render(printable, e))
  {
    if SpecialText(printable, e).Some? {
      SpecialStarts(printable, e);
      NotDigitsAt(Render(printable, e), 0);
    } else {
      PlainHasNoDigits(printable, e);
    }
  }

  lemma SpecialStarts(printable: char -> bool, e: Expr)
    requires SpecialText(printable, e).Some?
    ensures SpecialText(printable, e).value[0] == 'r' || SpecialText(printable, e).value[0] == 'A'
  {
  }

  /** A text with a character that is no digit, and no plus sign in front. */
  predicate NotDigits(s: string) {
    s != "" && s[0] != '+' && exists c <- s :: !('0' <= c <= '9')
  }

  lemma NotDigitsAt(s: string, i: nat)
    requires i < |s| && !('0' <= s[i] <= '9') && s[0] != '+'
    ensures NotDigits(s)
  {
    assert s[i] in s;
  }

  lemma PlainHasNoDigits(printable: char -> bool, e: Expr)
    requires Named(e) && (e.NumLit? ==> e.n < 0)
    ensures NotDigits(RenderPlain(printable, e))
  {
    var s := RenderPlain(printable, e);
    match e {
      case StrLit(_) => NotDigitsAt(s, 0);
      case NumLit(n) => NotDigitsAt(s, 0);
      case FltLit(text) => FloatHasNoDigits(text);
      case BoolLit(_) => NotDigitsAt(s, 0);
      case ListLit(_) => NotDigitsAt(s, 0);
      case ObjLit(_) => NotDigitsAt(s, 0);
      case Ident(name) =>
        assert name[0] in name && IsWordChar(name[0]);
        NotDigitsAt(s, 0);
      case Unary(_, _) => NotDigitsAt(s, 0);
      case Binary(op, left, right) =>
        RenderIsArg(printable, left);
        RenderIsArg(printable, right);
        BinaryHasNoDigits(op, left, right, Render(printable, left), Render(printable, right));
      case Index(base, index) =>
        RenderIsArg(printable, base);
        RenderStarts(printable, base);
        assert s[|s| - 1] == ']';
        NotDigitsAt(s, |s| - 1);
      case Member(base, property) =>
        RenderIsArg(printable, base);
        RenderStarts(printable, base);
        if property == "length" {
          NotDigitsAt(s, 0);
        } else {
          assert s[|Render(printable, base)|] == '.';
          NotDigitsAt(s, |Render(printable, base)|);
        }
      case OptionalMember(_, _) => NotDigitsAt(s, 0);
      case Call(path, args) => CallHasNoDigits(path, RenderAll(printable, args));
    }
  }

  lemma FloatHasNoDigits(text: string)
    requires IsFloatText(text)
    ensures NotDigits(text + "_f64")
  {
    var s := text + "_f64";
    assert text[0] in text;
    assert s[|text|] == '_';
    NotDigitsAt(s, |text|);
  }

  lemma BinaryHasNoDigits(op: BinaryOp, left: Expr, right: Expr, l: string, r: string)
    ensures NotDigits(RenderBinary(op, left, right, l, r))
  {
    NotDigitsAt(RenderBinary(op, left, right, l, r), 0);
  }

  lemma CallHasNoDigits(path: seq<string>, texts: seq<string>)
    requires forall part <- path :: IsWord(part)
    ensures NotDigits(CallText(path, texts))
  {
    var s := CallText(path, texts);
    if path == ["list"] {
      NotDigitsAt(s, 0);
    } else {
      var front := JoinWith("::", path);
      PathStarts(path);
      assert s[|front|] == '(';
      NotDigitsAt(s, |front|);
    }
  }

  lemma PathStarts(path: seq<string>)
    requires forall part <- path :: IsWord(part)
    ensures var s := JoinWith("::", path); s != "" ==> s[0] != '+'
  {
    if path != [] {
      assert IsWord(path[0]) && path[0][0] in path[0];
    }
  }

  /** No rendered text starts with a plus sign. */
  lemma {:induction false} RenderStarts(printable: char -> bool, e: Expr)
    requires Named(e)
    ensures Render(printable, e) != "" && Render(printable, e)[0] != '+'
    decreases e, 1
  {
    RenderIsArg(printable, e);
    if SpecialText(printable, e).Some? {
      SpecialStarts(printable, e);
    } else {
      PlainStarts(printable, e);
    }
  }

  lemma {:induction false} PlainStarts(printable: char -> bool, e: Expr)
    requires Named(e)
    ensures RenderPlain(printable, e) != "" ==> RenderPlain(printable, e)[0] != '+'
    decreases e, 0
  {
    match e {
      case NumLit(n) => assert IntText(n)[0] in IntText(n);
      case FltLit(text) => assert text[0] in text;
      case Ident(name) => assert name[0] in name && IsWordChar(name[0]);
      case Index(base, index) =>
        RenderStarts(printable, base);
        IndexStarts(base.Binary? || base.Unary?, Render(printable, base), Render(printable, index));
      case Member(base, property) =>
        RenderStarts(printable, base);
        MemberStarts(Render(printable, base), property);
      case Binary(op, left, right) =>
        BinaryHasNoDigits(op, left, right, Render(printable, left), Render(printable, right));
      case Call(path, args) =>
        CallHasNoDigits(path, RenderAll(printable, args));
      case _ =>
    }
  }

  lemma IndexStarts(grouped: bool, base: string, index: string)
    requires base != "" && base[0] != '+'
    ensures IndexText(grouped, base, index)[0] != '+'
  {
  }

  lemma MemberStarts(base: string, property: string)
    requires base != "" && base[0] != '+'
    ensures MemberText(base, property)[0] != '+'
  {
  }

  predicate IsLiteralIn(e: Expr, max: nat) {
    e.NumLit? && 1 <= e.n <= max
  }

  lemma NotDigitsIsNoNumber(s: string, limit: nat)
    requires NotDigits(s)
    ensures ParseUnsigned(s, limit).None?
  {
  }

  lemma NatIsNumber(n: nat, limit: nat)
    ensures ParseUnsigned(NatText(n), limit) == if n <= limit then Some(n) else None
  {
    DigitsOfNat(n);
    assert NatText(n)[0] in NatText(n);
  }

  /** What the hook reader makes of one printed number argument. */
  lemma ParsePrinted(printable: char -> bool, e: Expr, max: nat, limit: nat)
    requires Named(e) && max <= limit
    ensures var r := ParseUnsigned(Trim(Render(printable, e)), limit);
            (r.Some? && 1 <= r.value <= max <==> IsLiteralIn(e, max)) && (IsLiteralIn(e, max) ==> r == Some(e.n))
  {
    var s := Render(printable, e);
    RenderIsArg(printable, e);
    TightTrim(s);
    if e.NumLit? && e.n >= 0 {
      assert MemberPath(e).None? && s == RenderPlain(printable, e) == NatText(e.n);
      NatIsNumber(e.n, limit);
    } else {
      OnlyNumbersAreDigits(printable, e);
      NotDigitsIsNoNumber(s, limit);
    }
  }

  lemma CommaIsNoNumber(s: string, i: nat, limit: nat)
    requires i < |s| && s[i] == ','
    ensures ParseUnsigned(s, limit).None?
  {
    assert s[i] in s;
    if HasPrefix(s, "+") {
      assert s[0] == '+' && s[1..][i - 1] == ',';
      assert s[1..][i - 1] in s[1..];
    }
  }

  /** Two or more printed arguments are no number. */
  lemma JoinedIsNoNumber(texts: seq<string>, limit: nat)
    requires |texts| >= 2 && Args(texts)
    ensures ParseUnsigned(Trim(Join(texts)), limit).None?
  {
    TightJoin(texts);
    TightTrim(Join(texts));
    assert Join(texts)[|texts[0]|] == ',';
    CommaIsNoNumber(Join(texts), |texts[0]|, limit);
  }

  /** Reading a printed throttle call gives back its arguments, exactly when they are acceptable. */
  lemma ThrottleUndoesPrinting(printable: char -> bool, args: seq<Expr>)
    requires AllNamed(args)
    ensures ParseThrottle(Render(printable, Call(["Login", "throttle"], args))) ==
              if |args| == 3 && IsLiteralIn(args[1], 1000) && IsLiteralIn(args[2], 86400)
              then Throttle(Render(printable, args[0]), args[1].n, args[2].n)
              else InvalidHook
  {
    var texts := RenderAll(printable, args);
    RenderAllAreArgs(printable, args);
    ReadsTexts(texts);
    CallPrints(printable, ["Login", "throttle"], args);
    if |args| == 3 {
      ThrottleNumbers(printable, args[0], args[1], args[2]);
    }
  }

  lemma CallPrints(printable: char -> bool, path: seq<string>, args: seq<Expr>)
    ensures Render(printable, Call(path, args)) == CallText(path, RenderAll(printable, args))
  {
    assert MemberPath(Call(path, args)).None?;
  }

  lemma ReadsTexts(texts: seq<string>)
    requires Args(texts)
    ensures ParseThrottle(CallText(["Login", "throttle"], texts)) ==
              if |texts| == 3 then MakeThrottle(texts[0], texts[1], texts[2]) else InvalidHook
  {
    ThrottleCall(texts);
    ThrottleText(Join(texts));
    ThrottleInner(texts);
  }

  lemma ThrottleCall(texts: seq<string>)
    ensures CallText(["Login", "throttle"], texts) == "Login::throttle(" + Join(texts) + ")"
  {
    var path := ["Login", "throttle"];
    assert path[1..] == ["throttle"];
    assert JoinWith("::", path) == "Login" + "::" + "throttle" == "Login::throttle";
    assert path != ["list"];
    assert "Login::throttle" + Paren(Join(texts)) == "Login::throttle(" + Join(texts) + ")";
  }

  lemma ThrottleText(inner: string)
    ensures var code := "Login::throttle(" + inner + ")";
            && Trim(code) == code
            && !HasPrefix(code, "Login.throttle") && HasPrefix(code, "Login::throttle")
            && Between(code, "Login::throttle(", ")") == Some(inner)
  {
    var code := "Login::throttle(" + inner + ")";
    BetweenMiddle("Login::throttle(", inner, ")");
    assert code[5] == ':' && "Login.throttle"[5] == '.';
    assert code[..15] == "Login::throttle";
    assert code[0] == 'L' && code[|code| - 1] == ')';
    TightTrim(code);
  }

  /** The reader's outcome on the text between the parentheses. */
  function ReadInner(inner: string): Hook {
    match BinaryArgs(inner)
    case None => InvalidHook
    case Some((key, rest)) =>
      match BinaryArgs(rest)
      case None => InvalidHook
      case Some((attempts, seconds)) => MakeThrottle(key, attempts, seconds)
  }

  lemma ThrottleInner(texts: seq<string>)
    requires Args(texts)
    ensures ReadInner(Join(texts)) == if |texts| == 3 then MakeThrottle(texts[0], texts[1], texts[2]) else InvalidHook
  {
    if texts == [] {
      assert |SplitArgs("")| == 1;
    } else {
      assert texts == [texts[0]] + texts[1..] && Arg(texts[0]);
      BinaryArgsOfJoin(texts[0], texts[1..]);
      if |texts| >= 2 {
        var others := texts[1..];
        assert others == [others[0]] + others[1..] && Arg(others[0]);
        BinaryArgsOfJoin(others[0], others[1..]);
        if |texts| > 3 {
          JoinedIsNoNumber(others[1..], MAX_U64);
        }
      }
    }
  }

  lemma ThrottleNumbers(printable: char -> bool, key: Expr, attempts: Expr, seconds: Expr)
    requires Named(key) && Named(attempts) && Named(seconds)
    ensures MakeThrottle(Render(printable, key), Render(printable, attempts), Render(printable, seconds)) ==
              if IsLiteralIn(attempts, 1000) && IsLiteralIn(seconds, 86400)
              then Throttle(Render(printable, key), attempts.n, seconds.n)
              else InvalidHook
  {
    RenderIsArg(printable, key);
    TightTrim(Render(printable, key));
    ParsePrinted(printable, attempts, 1000, MAX_U32);
    ParsePrinted(printable, seconds, 86400, MAX_U64);
  }
}
