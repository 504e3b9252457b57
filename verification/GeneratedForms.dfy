/** How the reader of generated code reads the forms that the printer builds its texts from. */
module GeneratedForms {
  import opened Text
  import opened ExprPrinter
  import opened GeneratedCode
  import ArgSplitter

  // Texts and trees ---------------------------------------------------------------------------

  /** What can stand behind an expression that is part of another one. */
  predicate Follows(t: string) {
    t == "" || t[0] in {',', ')', ']', '}', ' '}
  }

  /** What can stand behind an operand. */
  predicate Stops(t: string) {
    || Follows(t) || t[0] in {'?', '[', '('}
    || (t[0] == '.' && |t| > 1 && IsWordChar(t[1]) && !IsDigit(t[1]))
  }

  /** The text is read as the tree, whatever follows. */
  ghost predicate ReadsAs(text: string, code: Code) {
    forall t | Follows(t) :: ReadUnary(text + t) == Some((code, t))
  }

  /** The text is read as the tree, and what follows may go on from it. */
  ghost predicate OperandIs(text: string, code: Code) {
    forall t | Stops(t) :: ReadOperand(text + t) == ReadTail(code, t)
  }

  ghost predicate ItemsAre(text: string, close: char, codes: seq<Code>) {
    forall t: string :: ReadItems(text + ([close] + t), close) == Some((codes, t))
  }

  lemma ReadsWhole(text: string, code: Code)
    requires ReadsAs(text, code)
    ensures Read(text) == Some(code)
  {
    assert text + "" == text && Follows("");
  }

  lemma PrefixAt(s: string, prefix: string, k: nat)
    requires k < |prefix|
    ensures HasPrefix(s, prefix) ==> s[k] == prefix[k]
  {
    assert HasPrefix(s, prefix) ==> s[k] == s[..|prefix|][k];
  }

  /** No operand starts with a prefix operator, a closing bracket, a comma or a blank. */
  lemma NoOperandAt(s: string)
    ensures s == "" || s[0] in {'!', '-', '&', ')', ']', '}', ',', ' '} ==> ReadOperand(s).None?
  {
    PrefixAt(s, "vec![", 0);
    PrefixAt(s, "json!({", 0);
    if s != "" && s[0] in {'!', '-', '&', ')', ']', '}', ',', ' '} {
      assert WordAt(s) == "" && !IsDigit(s[0]);
      assert ReadPath(s).None? && ReadPrimary(s).None?;
    }
  }

  lemma NothingAt(s: string)
    ensures s != "" && s[0] in {')', ']', '}', ',', ' '} ==> ReadUnary(s).None?
  {
    NoOperandAt(s);
  }

  lemma OperandReads(text: string, code: Code)
    requires OperandIs(text, code)
    ensures ReadsAs(text, code)
  {
    forall t | Follows(t) ensures ReadUnary(text + t) == Some((code, t)) {
      assert Stops(t);
      assert ReadOperand(text + t) == ReadTail(code, t) == Some((code, t));
      NoOperandAt(text + t);
    }
  }

  lemma PrefixReads(text: string, code: Code)
    requires ReadsAs(text, code)
    ensures ReadsAs("!" + text, Not(code)) && ReadsAs("-" + text, Negative(code)) && ReadsAs("&" + text, Borrow(code))
  {
    forall t, c | Follows(t) && c in {'!', '-', '&'}
      ensures ReadUnary([c] + text + t) ==
              Some((if c == '!' then Not(code) else if c == '-' then Negative(code) else Borrow(code), t))
    {
      assert ([c] + text + t)[0] == c && ([c] + text + t)[1..] == text + t;
    }
  }

  // Behind an operand -------------------------------------------------------------------------

  lemma {:induction false} WordTaken(name: string, t: string)
    requires (forall c <- name :: IsWordChar(c)) && (t == "" || !IsWordChar(t[0]))
    ensures WordAt(name + t) == name
  {
    if name == "" {
      assert name + t == t;
    } else {
      assert (name + t)[1..] == name[1..] + t && name[0] in name && forall c <- name[1..] :: c in name;
      WordTaken(name[1..], t);
    }
  }

  lemma StopEndsWord(t: string)
    requires Stops(t)
    ensures t == "" || !IsWordChar(t[0])
  {
  }

  lemma SelectReads(text: string, code: Code, name: string)
    requires OperandIs(text, code) && IsWord(name)
    ensures OperandIs(text + "." + name, Select(code, name))
  {
    forall t | Stops(t) ensures ReadOperand(text + "." + name + t) == ReadTail(Select(code, name), t) {
      var tail := "." + (name + t);
      assert text + "." + name + t == text + tail;
      assert tail[0] == '.' && tail[1] == name[0] && name[0] in name && tail[1..] == name + t;
      assert Stops(tail);
      StopEndsWord(t);
      WordTaken(name, t);
      assert (name + t)[|name|..] == t;
    }
  }

  lemma ApplyReads(text: string, code: Code, inner: string, args: seq<Code>)
    requires OperandIs(text, code) && ItemsAre(inner, ')', args)
    ensures OperandIs(text + Paren(inner), Apply(code, args))
  {
    forall t | Stops(t) ensures ReadOperand(text + Paren(inner) + t) == ReadTail(Apply(code, args), t) {
      var back := inner + ([')'] + t);
      var tail := "(" + back;
      ParenAround(text, inner, t);
      assert tail[0] == '(' && tail[1..] == back && Stops(tail);
      assert ReadItems(back, ')') == Some((args, t));
    }
  }

  lemma ParenAround(text: string, inner: string, t: string)
    ensures text + Paren(inner) + t == text + ("(" + (inner + ([')'] + t)))
  {
    assert Paren(inner) + t == "(" + (inner + ([')'] + t));
  }

  lemma AtReads(text: string, code: Code, inner: string, index: Code)
    requires OperandIs(text, code) && ReadsAs(inner, index)
    ensures OperandIs(text + Square(inner), At(code, index))
  {
    forall t | Stops(t) ensures ReadOperand(text + Square(inner) + t) == ReadTail(At(code, index), t) {
      var tail := "[" + (inner + ("]" + t));
      assert text + Square(inner) + t == text + tail;
      assert tail[0] == '[' && tail[1..] == inner + ("]" + t);
      assert Stops(tail) && Follows("]" + t);
      assert ("]" + t)[1..] == t;
    }
  }

  lemma TryReads(text: string, code: Code)
    requires OperandIs(text, code)
    ensures OperandIs(text + "?", Try(code))
  {
    forall t | Stops(t) ensures ReadOperand(text + "?" + t) == ReadTail(Try(code), t) {
      var tail := "?" + t;
      assert text + "?" + t == text + tail;
      assert tail[0] == '?' && tail[1..] == t;
      assert Stops(tail);
    }
  }

  // Operands ----------------------------------------------------------------------------------

  /** What is read from a text on its own is an operand when it is a primary. */
  lemma PrimaryReads(text: string, code: Code)
    requires forall t | Stops(t) :: ReadPrimary(text + t) == Some((code, t))
    ensures OperandIs(text, code)
  {
  }

  lemma GroupReads(text: string, code: Code)
    requires ReadsAs(text, code)
    ensures OperandIs(Paren(text), code)
  {
    forall t | Stops(t) ensures ReadPrimary(Paren(text) + t) == Some((code, t)) {
      var s := Paren(text) + t;
      assert s[0] == '(' && s[1..] == text + (")" + t);
      assert Follows(")" + t) && (")" + t)[1..] == t;
    }
    PrimaryReads(Paren(text), code);
  }

  lemma {:induction false} SymbolTaken(symbol: string, t: string)
    requires ' ' !in symbol
    ensures UntilBlank(symbol + (" " + t)) == symbol
  {
    if symbol == "" {
      assert symbol + (" " + t) == " " + t;
    } else {
      assert (symbol + (" " + t))[1..] == symbol[1..] + (" " + t);
      SymbolTaken(symbol[1..], t);
    }
  }

  lemma OperationReads(left: string, symbol: string, right: string, l: Code, r: Code)
    requires ReadsAs(left, l) && ReadsAs(right, r) && symbol in OPERATORS && ' ' !in symbol
    ensures OperandIs(Paren(left + " " + symbol + " " + right), Operation(OPERATORS[symbol], l, r))
  {
    var text, code := Paren(left + " " + symbol + " " + right), Operation(OPERATORS[symbol], l, r);
    forall t | Stops(t) ensures ReadPrimary(text + t) == Some((code, t)) {
      OperationTaken(left, symbol, right, l, r, t);
    }
    PrimaryReads(text, code);
  }

  lemma OperationTaken(left: string, symbol: string, right: string, l: Code, r: Code, t: string)
    requires ReadsAs(left, l) && ReadsAs(right, r) && symbol in OPERATORS && ' ' !in symbol
    ensures ReadPrimary(Paren(left + " " + symbol + " " + right) + t)
         == Some((Operation(OPERATORS[symbol], l, r), t))
  {
    var s, last := Paren(left + " " + symbol + " " + right) + t, ")" + t;
    var back := " " + (right + last);
    var middle := " " + (symbol + back);
    OperationText(left, symbol, right, t);
    assert s[0] == '(' && s[1..] == left + middle;
    assert Follows(middle) && Follows(last) && last[1..] == t;
    InfixReads(left + middle, middle, symbol, back, right + last, last, l, r);
  }

  lemma OperationText(left: string, symbol: string, right: string, t: string)
    ensures Paren(left + " " + symbol + " " + right) + t
         == "(" + (left + (" " + (symbol + (" " + (right + (")" + t))))))
  {
  }

  lemma InfixReads(s: string, middle: string, symbol: string, back: string, second: string, last: string, l: Code,
      r: Code)
    requires ReadUnary(s) == Some((l, middle)) && ReadUnary(second) == Some((r, last))
    requires middle == " " + (symbol + back) && back == " " + second && symbol in OPERATORS && ' ' !in symbol
    requires HasPrefix(last, ")")
    ensures ReadGroup(s) == Some((Operation(OPERATORS[symbol], l, r), last[1..]))
  {
    assert middle[1..] == symbol + back && back[1..] == second;
    SymbolTaken(symbol, second);
    assert (symbol + back)[|symbol|..] == back;
  }

  lemma {:induction false} PathReads(names: seq<string>)
    requires names != [] && forall name <- names :: IsWord(name)
    ensures OperandIs(JoinWith("::", names), Path(names))
  {
    var text := JoinWith("::", names);
    forall t | Stops(t) ensures ReadPrimary(text + t) == Some((Path(names), t)) {
      PathTaken(names, t);
      PathIsNoMacro(names, t);
    }
    PrimaryReads(text, Path(names));
  }

  lemma {:induction false} PathTaken(names: seq<string>, t: string)
    requires names != [] && Stops(t) && forall name <- names :: IsWord(name)
    ensures ReadPath(JoinWith("::", names) + t) == Some((names, t))
    decreases |names|
  {
    var first := names[0];
    assert IsWord(first);
    if |names| == 1 {
      assert names == [first];
      StopEndsWord(t);
      WordTaken(first, t);
      assert (first + t)[|first|..] == t;
    } else {
      var rest := JoinWith("::", names[1..]) + t;
      assert JoinWith("::", names) + t == first + ("::" + rest);
      WordTaken(first, "::" + rest);
      assert (first + ("::" + rest))[|first|..] == "::" + rest && ("::" + rest)[2..] == rest;
      assert ("::" + rest)[..2] == "::" && names == [first] + names[1..];
      PathTaken(names[1..], t);
    }
  }

  /** A path is not taken for a literal, a group or a macro. */
  lemma PathIsNoMacro(names: seq<string>, t: string)
    requires names != [] && Stops(t) && forall name <- names :: IsWord(name)
    ensures var s := JoinWith("::", names) + t;
            && s != "" && s[0] != '"' && !IsDigit(s[0]) && s[0] != '('
            && !HasPrefix(s, "vec![") && !HasPrefix(s, "json!({")
  {
    var s, first := JoinWith("::", names) + t, names[0];
    assert IsWord(first) && first[0] in first;
    var rest := if |names| == 1 then t else "::" + JoinWith("::", names[1..]) + t;
    assert s == first + rest;
    StopEndsWord(t);
    assert rest == "" || (!IsWordChar(rest[0]) && rest[0] != '!');
    WordIsNoMacro(first, rest, "vec");
    WordIsNoMacro(first, rest, "json");
    assert HasPrefix(s, "vec![") ==> HasPrefix(s, "vec!") by { assert "vec!["[..4] == "vec!"; }
    assert HasPrefix(s, "json!({") ==> HasPrefix(s, "json!") by { assert "json!({"[..5] == "json!"; }
  }

  lemma WordIsNoMacro(word: string, rest: string, name: string)
    requires IsWord(word) && (rest == "" || (!IsWordChar(rest[0]) && rest[0] != '!'))
    requires forall c <- name :: IsWordChar(c)
    ensures !HasPrefix(word + rest, name + "!")
  {
    var s, macro := word + rest, name + "!";
    PrefixAt(s, macro, |name|);
    if |name| < |word| {
      assert word[|name|] in word && s[|name|] == word[|name|];
    } else if |name| == |word| {
      assert |s| > |name| ==> s[|name|] == rest[0];
    } else {
      PrefixAt(s, macro, |word|);
      assert name[|word|] in name && (|s| > |word| ==> s[|word|] == rest[0]);
    }
  }

  // Lists -------------------------------------------------------------------------------------

  ghost predicate AllRead(texts: seq<string>, codes: seq<Code>) {
    |texts| == |codes| && forall i | 0 <= i < |texts| :: ReadsAs(texts[i], codes[i])
  }

  lemma {:induction false} MoreRead(texts: seq<string>, codes: seq<Code>, close: char, t: string)
    requires texts != [] && AllRead(texts, codes) && close in {')', ']'}
    ensures ReadMore(ArgSplitter.Join(texts) + ([close] + t), close) == Some((codes, t))
    decreases |texts|
  {
    var last := [close] + t;
    assert ReadsAs(texts[0], codes[0]);
    if |texts| == 1 {
      assert Follows(last) && last[1..] == t;
      assert codes == [codes[0]];
    } else {
      var rest := ArgSplitter.Join(texts[1..]) + last;
      assert AllRead(texts[1..], codes[1..]);
      MoreRead(texts[1..], codes[1..], close, t);
      assert ArgSplitter.Join(texts) + last == texts[0] + (", " + rest);
      assert Follows(", " + rest) && (", " + rest)[0] == ',' && (", " + rest)[2..] == rest;
      assert codes == [codes[0]] + codes[1..];
    }
  }

  lemma ItemsRead(texts: seq<string>, codes: seq<Code>, close: char)
    requires AllRead(texts, codes) && close in {')', ']'}
    ensures ItemsAre(ArgSplitter.Join(texts), close, codes)
  {
    forall t: string ensures ReadItems(ArgSplitter.Join(texts) + ([close] + t), close) == Some((codes, t)) {
      var s := ArgSplitter.Join(texts) + ([close] + t);
      if texts == [] {
        assert s == [close] + t && s[1..] == t;
      } else {
        MoreRead(texts, codes, close, t);
        NothingAt(s);
      }
    }
  }

  lemma ListReads(texts: seq<string>, codes: seq<Code>)
    requires AllRead(texts, codes)
    ensures OperandIs(ListText(texts), ListOf(codes))
  {
    ItemsRead(texts, codes, ']');
    var inner := ArgSplitter.Join(texts);
    forall t | Stops(t) ensures ReadPrimary(ListText(texts) + t) == Some((ListOf(codes), t)) {
      var s := ListText(texts) + t;
      assert s == "vec![" + (inner + ([']'] + t));
      assert s[..5] == "vec![" && s[5..] == inner + ([']'] + t);
    }
    PrimaryReads(ListText(texts), ListOf(codes));
  }

  ghost predicate FieldIs(text: string, field: (string, Code)) {
    forall t | Follows(t) :: ReadField(text + t) == Some((field, t))
  }

  ghost predicate FieldsAre(texts: seq<string>, fields: seq<(string, Code)>) {
    |texts| == |fields| && forall i | 0 <= i < |texts| :: FieldIs(texts[i], fields[i])
  }

  lemma {:induction false} MoreFieldsRead(texts: seq<string>, fields: seq<(string, Code)>, t: string)
    requires texts != [] && FieldsAre(texts, fields)
    ensures ReadMoreFields(ArgSplitter.Join(texts) + ("}" + t)) == Some((fields, t))
    decreases |texts|
  {
    var last := "}" + t;
    assert FieldIs(texts[0], fields[0]);
    if |texts| == 1 {
      assert Follows(last) && last[1..] == t;
      assert fields == [fields[0]];
    } else {
      var rest := ArgSplitter.Join(texts[1..]) + last;
      assert FieldsAre(texts[1..], fields[1..]);
      MoreFieldsRead(texts[1..], fields[1..], t);
      assert ArgSplitter.Join(texts) + last == texts[0] + (", " + rest);
      assert Follows(", " + rest) && (", " + rest)[0] == ',' && (", " + rest)[2..] == rest;
      assert fields == [fields[0]] + fields[1..];
    }
  }

  lemma ObjectReads(texts: seq<string>, fields: seq<(string, Code)>)
    requires FieldsAre(texts, fields)
    ensures OperandIs(ObjectText(texts), ObjectOf(fields))
  {
    var inner := ArgSplitter.Join(texts);
    forall t | Stops(t) ensures ReadPrimary(ObjectText(texts) + t) == Some((ObjectOf(fields), t)) {
      var s, last := ObjectText(texts) + t, "}" + (")" + t);
      assert s == "json!({" + (inner + last);
      assert s[..7] == "json!({" && s[7..] == inner + last;
      assert s[0] == 'j' && !HasPrefix(s, "vec![");
      FieldsRead(texts, fields, ")" + t);
      assert (")" + t)[1..] == t;
    }
    PrimaryReads(ObjectText(texts), ObjectOf(fields));
  }

  lemma FieldsRead(texts: seq<string>, fields: seq<(string, Code)>, t: string)
    requires FieldsAre(texts, fields)
    ensures ReadFields(ArgSplitter.Join(texts) + ("}" + t)) == Some((fields, t))
  {
    var s := ArgSplitter.Join(texts) + ("}" + t);
    if texts == [] {
      assert s == "}" + t && s[1..] == t;
    } else {
      MoreFieldsRead(texts, fields, t);
      PrefixAt(s, "}", 0);
      PrefixAt(s, "\"", 0);
    }
  }

  // Literals ----------------------------------------------------------------------------------

  lemma HexDigitReads(n: nat, value: nat, t: string)
    requires n < 16
    ensures ReadHex([HexDigit(n)] + t, value) == ReadHex(t, 16 * value + n)
  {
    assert ([HexDigit(n)] + t)[1..] == t;
  }

  lemma {:induction false} HexReads(n: nat, t: string)
    ensures ReadHex(HexText(n) + t, 0) == ReadHex(t, n)
    decreases n
  {
    if n < 16 {
      HexDigitReads(n, 0, t);
    } else {
      var last := [HexDigit(n % 16)];
      ConcatTwice(HexText(n / 16), last, t);
      HexReads(n / 16, last + t);
      HexDigitReads(n % 16, n / 16, t);
    }
  }

  /** A character's text is read as the character, or the backslash's text as what it stands for. */
  lemma CharReads(printable: char -> bool, c: char, t: string)
    ensures var s := DebugChar(printable, c) + t;
            && s[0] != '"'
            && (s[0] == '\\' ==> ReadEscape(s[1..]) == Some((c, t)))
            && (s[0] != '\\' ==> s[0] == c && s[1..] == t)
  {
    var text := DebugChar(printable, c);
    var s := text + t;
    if text[0] == '\\' && |text| == 2 {
      assert s[1..] == [text[1]] + t;
    } else if text[0] == '\\' {
      var tail := "}" + t;
      assert s[1..] == "u{" + (HexText(c as int) + tail);
      assert s[1..][2..] == HexText(c as int) + tail;
      HexReads(c as int, tail);
      assert tail[1..] == t;
      assert s[1..][..2] == "u{";
    } else {
      assert text == [c] && s[1..] == t;
    }
  }

  lemma {:induction false} BodyReads(printable: char -> bool, text: string, t: string)
    ensures ReadQuoted(DebugBody(printable, text) + ("\"" + t)) == Some((text, t))
    decreases |text|
  {
    if text == "" {
      assert "" + ("\"" + t) == "\"" + t && ("\"" + t)[1..] == t;
    } else {
      var tail := DebugBody(printable, text[1..]) + ("\"" + t);
      assert DebugBody(printable, text) + ("\"" + t) == DebugChar(printable, text[0]) + tail;
      CharReads(printable, text[0], tail);
      BodyReads(printable, text[1..], t);
      assert [text[0]] + text[1..] == text;
    }
  }

  lemma QuotedReads(printable: char -> bool, text: string)
    ensures OperandIs(DebugText(printable, text), Quoted(text))
  {
    forall t | Stops(t) ensures ReadPrimary(DebugText(printable, text) + t) == Some((Quoted(text), t)) {
      var s := DebugText(printable, text) + t;
      assert s[0] == '"' && s[1..] == DebugBody(printable, text) + ("\"" + t);
      BodyReads(printable, text, t);
    }
    PrimaryReads(DebugText(printable, text), Quoted(text));
  }

  lemma FieldReads(printable: char -> bool, key: string, text: string, code: Code)
    requires ReadsAs(text, code)
    ensures FieldIs(DebugText(printable, key) + ": " + text, (key, code))
  {
    forall t | Follows(t) ensures ReadField(DebugText(printable, key) + ": " + text + t) == Some(((key, code), t)) {
      var tail := ": " + (text + t);
      FieldText(printable, key, text, t);
      BodyReads(printable, key, tail);
      assert tail[..2] == ": " && tail[2..] == text + t;
    }
  }

  lemma FieldText(printable: char -> bool, key: string, text: string, t: string)
    ensures var s := DebugText(printable, key) + ": " + text + t;
            && HasPrefix(s, "\"") && s[1..] == DebugBody(printable, key) + ("\"" + (": " + (text + t)))
  {
    assert DebugText(printable, key) + ": " + text + t
        == "\"" + (DebugBody(printable, key) + ("\"" + (": " + (text + t))));
  }

  lemma {:induction false} DigitsTaken(d: string, t: string)
    requires (forall c <- d :: IsDigit(c)) && (t == "" || !IsDigit(t[0]))
    ensures DigitsAt(d + t) == d
  {
    if d == "" {
      assert d + t == t;
    } else {
      assert (d + t)[1..] == d[1..] + t && d[0] in d && forall c <- d[1..] :: c in d;
      DigitsTaken(d[1..], t);
    }
  }

  lemma WholeReads(n: nat)
    ensures OperandIs(NatText(n), Whole(n))
  {
    var d := NatText(n);
    assert IsDigit(d[0]) by { assert d[0] in d; }
    forall t | Stops(t) ensures ReadPrimary(d + t) == Some((Whole(n), t)) {
      assert (d + t)[0] == d[0];
      WholeTaken(n, t);
    }
    PrimaryReads(d, Whole(n));
  }

  lemma StopEndsNumber(t: string)
    requires Stops(t)
    ensures FractionAt(t) == "" && ExponentAt(t) == "" && !HasPrefix(t, "_f64") && (t == "" || !IsDigit(t[0]))
  {
    PrefixAt(t, "_f64", 0);
    assert IsWordChar('e') && IsWordChar('_');
    StopEndsWord(t);
  }

  lemma WholeTaken(n: nat, t: string)
    requires Stops(t)
    ensures ReadNumber(NatText(n) + t) == Some((Whole(n), t))
  {
    var d := NatText(n);
    StopEndsNumber(t);
    DigitsTaken(d, t);
    DigitsOfNat(n);
    assert (d + t)[|d|..] == t && t[0..] == t;
  }

  /** Digits, perhaps a fraction and perhaps an exponent. */
  ghost predicate IsMagnitude(d: string, f: string, x: string) {
    && IsDigits(d)
    && (f == "" || (f[0] == '.' && IsDigits(f[1..])))
    && (x == "" || (x[0] == 'e' && IsDigits(x[1..])) || (HasPrefix(x, "e-") && IsDigits(x[2..])))
  }

  lemma FractionTaken(f: string, t: string)
    requires f == "" || (f[0] == '.' && IsDigits(f[1..]))
    requires t == "" || (!IsDigit(t[0]) && t[0] != '.')
    ensures FractionAt(f + t) == f
  {
    if f == "" {
      assert f + t == t;
    } else {
      DigitsTaken(f[1..], t);
      assert (f + t)[1..] == f[1..] + t && (f + t)[1] == f[1..][0] && f[1..][0] in f[1..];
    }
  }

  lemma ExponentTaken(x: string, t: string)
    requires x == "" || (x[0] == 'e' && IsDigits(x[1..])) || (HasPrefix(x, "e-") && IsDigits(x[2..]))
    requires t != "" && t[0] == '_'
    ensures ExponentAt(x + t) == x
  {
    if x == "" {
      assert x + t == t;
    } else if IsDigits(x[1..]) {
      DigitsTaken(x[1..], t);
      assert (x + t)[1..] == x[1..] + t && (x + t)[1] == x[1..][0] && x[1..][0] in x[1..];
    } else {
      DigitsTaken(x[2..], t);
      assert x[..2] == "e-" && x[1] == x[..2][1];
      assert (x + t)[2..] == x[2..] + t && (x + t)[2] == x[2..][0] && x[2..][0] in x[2..];
      assert x == "e-" + x[2..];
    }
  }

  lemma DecimalReads(d: string, f: string, x: string)
    requires IsMagnitude(d, f, x)
    ensures OperandIs(d + f + x + "_f64", Decimal(d + f + x))
  {
    var text := d + f + x + "_f64";
    forall t | Stops(t) ensures ReadPrimary(text + t) == Some((Decimal(d + f + x), t)) {
      var s := text + t;
      var end := "_f64" + t;
      assert s == d + (f + (x + end));
      assert d[0] in d && s[0] == d[0];
      NumberReads(s, d, f, x, end);
      assert end[..4] == "_f64" && end[4..] == t;
    }
    PrimaryReads(text, Decimal(d + f + x));
  }

  lemma NumberReads(s: string, d: string, f: string, x: string, end: string)
    requires IsMagnitude(d, f, x) && s == d + (f + (x + end)) && HasPrefix(end, "_f64")
    ensures ReadNumber(s) == Some((Decimal(d + f + x), end[4..]))
  {
    assert end[0] == end[..4][0];
    DigitsTaken(d, f + (x + end));
    FractionTaken(f, x + end);
    ExponentTaken(x, end);
    assert s[|d|..] == f + (x + end) && (f + (x + end))[|f|..] == x + end && (x + end)[|x|..] == end;
  }
}
