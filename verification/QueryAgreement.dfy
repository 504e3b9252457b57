/** A fluent chain and the same clauses line by line, as calls or with keywords, are the same query. */
module QueryAgreement {
  import opened Text
  import opened Queries
  import LoweringModel

  datatype Clause = Clause(name: string, args: string)

  function ClauseText(c: Clause): string {
    c.name + ("(" + (c.args + ")"))
  }

  function ChainRun(st: ChainState, s: string): ChainState
    decreases s
  {
    if s == "" then st else ChainRun(ChainStep(st, s[0]), s[1..])
  }

  predicate NoCut(st: ChainState, s: string)
    decreases s
  {
    s == "" || (!CutsChain(st, s[0]) && NoCut(ChainStep(st, s[0]), s[1..]))
  }

  /** Text that leaves the scanner where it found it, and in which no dot stands outside brackets and quotes. */
  predicate Balanced(depth: nat, s: string) {
    ChainRun(ChainState(depth, None), s) == ChainState(depth, None) && NoCut(ChainState(depth, None), s)
  }

  predicate ClauseOk(c: Clause) {
    c.name in METHODS && Balanced(1, c.args)
  }

  const TERMINALS: seq<string> := ["all", "first", "one"]

  // Segments of a chain -----------------------------------------------------------------------

  lemma {:induction false} RunConcat(st: ChainState, a: string, b: string)
    ensures ChainRun(st, a + b) == ChainRun(ChainRun(st, a), b)
    ensures NoCut(st, a + b) <==> NoCut(st, a) && NoCut(ChainRun(st, a), b)
    decreases a
  {
    if a == "" {
      assert a + b == b;
    } else {
      assert (a + b)[0] == a[0] && (a + b)[1..] == a[1..] + b;
      RunConcat(ChainStep(st, a[0]), a[1..], b);
    }
  }

  lemma {:induction false} PartsWithoutCut(st: ChainState, s: string)
    requires NoCut(st, s)
    ensures ChainParts(st, s) == [s]
    decreases s
  {
    if s != "" {
      PartsWithoutCut(ChainStep(st, s[0]), s[1..]);
      assert [s[0]] + s[1..] == s;
    }
  }

  lemma {:induction false} PartsAfterCut(st: ChainState, s: string, rest: string)
    requires NoCut(st, s) && ChainRun(st, s) == TOP
    ensures ChainParts(st, s + ("." + rest)) == [s] + ChainParts(TOP, rest)
    decreases s
  {
    var text := s + ("." + rest);
    if s == "" {
      assert text == "." + rest && text[1..] == rest;
    } else {
      assert text[0] == s[0] && text[1..] == s[1..] + ("." + rest);
      PartsAfterCut(ChainStep(st, s[0]), s[1..], rest);
      assert [s[0]] + s[1..] == s;
    }
  }

  predicate SegmentOk(s: string) {
    Balanced(0, s) && Trim(s) == s
  }

  lemma {:induction false} SegmentsOfChain(parts: seq<string>)
    requires parts != [] && forall p <- parts :: SegmentOk(p)
    ensures ChainParts(TOP, JoinDots(parts)) == parts
  {
    assert SegmentOk(parts[0]);
    if |parts| == 1 {
      PartsWithoutCut(TOP, parts[0]);
    } else {
      SegmentsOfChain(parts[1..]);
      PartsAfterCut(TOP, parts[0], JoinDots(parts[1..]));
      assert JoinDots(parts) == parts[0] + ("." + JoinDots(parts[1..]));
      assert parts == [parts[0]] + parts[1..];
    }
  }

  lemma ChainSplits(parts: seq<string>)
    requires parts != [] && forall p <- parts :: SegmentOk(p)
    ensures Segments(JoinDots(parts)) == parts
  {
    SegmentsOfChain(parts);
    forall i | 0 <= i < |parts| ensures Trim(parts[i]) == parts[i] {
      assert SegmentOk(parts[i]);
    }
    assert TrimParts(parts) == parts;
  }

  // Single clauses ----------------------------------------------------------------------------

  predicate IsPlain(name: string) {
    name != "" && forall c <- name :: 'a' <= c <= 'z' || 'A' <= c <= 'Z' || '0' <= c <= '9' || c == '_'
  }

  lemma {:induction false} PlainIsBalanced(depth: nat, name: string)
    requires forall c <- name :: 'a' <= c <= 'z' || 'A' <= c <= 'Z' || '0' <= c <= '9' || c == '_'
    ensures Balanced(depth, name)
  {
    if name != "" {
      assert forall c <- name[1..] :: c in name;
      assert name[0] in name && ChainStep(ChainState(depth, None), name[0]) == ChainState(depth, None);
      PlainIsBalanced(depth, name[1..]);
    }
  }

  lemma PlainIsTight(name: string)
    requires IsPlain(name)
    ensures Tight(name)
  {
    assert name[0] in name && name[|name| - 1] in name;
  }

  lemma MethodsArePlain()
    ensures forall m <- METHODS :: IsPlain(m)
  {
    assert IsPlain("join") && IsPlain("where") && IsPlain("whereNot") && IsPlain("whereIn") && IsPlain("whereNotIn");
    assert IsPlain("whereNull") && IsPlain("whereNotNull") && IsPlain("order") && IsPlain("limit") && IsPlain("offset");
  }

  /** A call's text as a segment: balanced, and tight at both ends. */
  lemma CallIsSegment(name: string, args: string)
    requires IsPlain(name) && Balanced(1, args)
    ensures SegmentOk(name + ("(" + (args + ")")))
  {
    var st, inner := TOP, ChainState(1, None);
    PlainIsBalanced(0, name);
    RunConcat(st, name, "(" + (args + ")"));
    assert ("(" + (args + ")"))[1..] == args + ")";
    assert ChainStep(st, '(') == inner;
    RunConcat(inner, args, ")");
    assert ")"[1..] == "" && ChainStep(inner, ')') == st;
    var text := name + ("(" + (args + ")"));
    PlainIsTight(name);
    assert text[0] == name[0] && text[|text| - 1] == ')';
    TightTrim(text);
  }

  lemma {:induction false} OpenAfterName(name: string, rest: string, i: nat)
    requires IsPlain(name) && i <= |name|
    ensures CallOpenFrom(name + ("(" + rest), i, None) == Some(|name|)
    decreases |name| - i
  {
    var s := name + ("(" + rest);
    if i < |name| {
      assert s[i] == name[i] && name[i] in name;
      OpenAfterName(name, rest, i + 1);
    }
  }

  lemma CallReads(name: string, args: string)
    requires IsPlain(name)
    ensures var text := name + ("(" + (args + ")"));
            && ReadCall(text) == Called(name, Trim(args))
            && CallOpenFrom(text, 0, None) == Some(|name|) && Trim(text[..|name|]) == name
  {
    var text := name + ("(" + (args + ")"));
    OpenAfterName(name, args + ")", 0);
    PlainIsTight(name);
    TightTrim(name);
    assert text[..|name|] == name && text[|name| + 1..] == args + ")";
    assert (args + ")")[..|text| - |name| - 2] == args;
    NoDotInPlain(name);
  }

  lemma NoDotInPlain(name: string)
    requires IsPlain(name)
    ensures '.' !in name
  {
  }

  // Runs of clauses ---------------------------------------------------------------------------

  function ApplyAll(r: Reader, clauses: seq<Clause>, q: Query): Option<Query> {
    if clauses == [] then Some(q)
    else match Apply(r, q, clauses[0].name, Trim(clauses[0].args))
      case None => None
      case Some(next) => ApplyAll(r, clauses[1..], next)
  }

  function Texts(clauses: seq<Clause>): seq<string> {
    if clauses == [] then [] else [ClauseText(clauses[0])] + Texts(clauses[1..])
  }

  /** How a clause stands on a line of its own: as a call, perhaps with a leading dot, or with a keyword. */
  datatype Style = AsCall(dotted: bool) | AsKeyword(keyword: Keyword)

  function KeywordText(k: Keyword): string {
    match k
    case WhereIs(field, value) => "where " + (field + ("=" + value))
    case OrderBy(order) => "order " + (order.field + if order.descending then " desc" else "")
    case LimitTo(n) => "limit " + NatText(n)
    case OffsetBy(n) => "offset " + NatText(n)
  }

  function LineText(c: Clause, style: Style): string {
    match style
    case AsCall(dotted) => (if dotted then "." else "") + ClauseText(c)
    case AsKeyword(k) => KeywordText(k)
  }

  function ClauseLines(clauses: seq<Clause>, styles: seq<Style>, indent: nat): seq<Line>
    requires |styles| == |clauses|
  {
    if clauses == [] then []
    else [Line(indent, LineText(clauses[0], styles[0]))] + ClauseLines(clauses[1..], styles[1..], indent)
  }

  /** Field names are plain, the value on a keyword line is not blank, and numbers have 32 bits. */
  predicate KeywordOk(k: Keyword) {
    match k
    case WhereIs(field, value) => IsPlain(field) && Tight(value)
    case OrderBy(order) => IsPlain(order.field)
    case LimitTo(n) => n <= MAX_U32
    case OffsetBy(n) => n <= MAX_U32
  }

  /** The arguments of a call read as what the keyword line says. */
  predicate Means(r: Reader, k: Keyword, c: Clause) {
    var args := Trim(c.args);
    match k
    case WhereIs(field, value) =>
      c.name == "where" && args in r.fields && value in r.exprs && r.fields[args] == [(field, r.exprs[value])]
    case OrderBy(order) => c.name == "order" && args in r.orders && r.orders[args] == [order]
    case LimitTo(n) => c.name == "limit" && args in r.numbers && r.numbers[args] == n
    case OffsetBy(n) => c.name == "offset" && args in r.numbers && r.numbers[args] == n
  }

  predicate StyleOk(r: Reader, c: Clause, style: Style) {
    style.AsKeyword? ==> KeywordOk(style.keyword) && Means(r, style.keyword, c)
  }

  function CallsOf(clauses: seq<Clause>): seq<Call> {
    if clauses == [] then [] else [Called(clauses[0].name, Trim(clauses[0].args))] + CallsOf(clauses[1..])
  }

  function SaidBy(c: Clause, style: Style): Said {
    match style
    case AsCall(_) => ByCall(Called(c.name, Trim(c.args)))
    case AsKeyword(k) => ByKeyword(Some(k))
  }

  function LineCallsOf(clauses: seq<Clause>, styles: seq<Style>, indent: nat): seq<LineCall>
    requires |styles| == |clauses|
  {
    if clauses == [] then []
    else [LineCall(indent, SaidBy(clauses[0], styles[0]))] + LineCallsOf(clauses[1..], styles[1..], indent)
  }

  lemma ClauseReads(c: Clause)
    requires ClauseOk(c)
    ensures ReadCall(ClauseText(c)) == Called(c.name, Trim(c.args))
    ensures IsPlain(c.name) && IsMethodClause(ClauseText(c)) && c.name !in TERMINALS
  {
    MethodsArePlain();
    CallReads(c.name, c.args);
  }

  lemma LineReads(r: Reader, c: Clause, style: Style, indent: nat)
    requires ClauseOk(c) && StyleOk(r, c, style)
    ensures ReadLine(Line(indent, LineText(c, style))) == LineCall(indent, SaidBy(c, style))
  {
    match style {
      case AsCall(dotted) =>
        ClauseReads(c);
        DotIsDropped(c, dotted);
      case AsKeyword(k) =>
        KeywordReads(k);
        KeywordIsNoCall(k);
    }
  }

  lemma {:induction false} ReadCallsConcat(xs: seq<string>, ys: seq<string>)
    ensures ReadCalls(xs + ys) == ReadCalls(xs) + ReadCalls(ys)
  {
    if xs == [] {
      assert xs + ys == ys;
    } else {
      ReadCallsConcat(xs[1..], ys);
      assert (xs + ys)[0] == xs[0] && (xs + ys)[1..] == xs[1..] + ys;
    }
  }

  lemma OneCall(text: string, call: Call)
    requires ReadCall(text) == call
    ensures ReadCalls([text]) == [call]
  {
    assert [text][1..] == [];
  }

  lemma {:induction false} TextsRead(clauses: seq<Clause>)
    requires forall c <- clauses :: ClauseOk(c)
    ensures ReadCalls(Texts(clauses)) == CallsOf(clauses)
  {
    if clauses != [] {
      var c := clauses[0];
      ClauseReads(c);
      OneCall(ClauseText(c), Called(c.name, Trim(c.args)));
      ReadCallsConcat([ClauseText(c)], Texts(clauses[1..]));
      TextsRead(clauses[1..]);
    }
  }

  lemma {:induction false} LinesRead(r: Reader, clauses: seq<Clause>, styles: seq<Style>, indent: nat)
    requires |styles| == |clauses| && forall i | 0 <= i < |clauses| ::
               ClauseOk(clauses[i]) && StyleOk(r, clauses[i], styles[i])
    ensures ReadLines(ClauseLines(clauses, styles, indent)) == LineCallsOf(clauses, styles, indent)
  {
    if clauses != [] {
      LineReads(r, clauses[0], styles[0], indent);
      LinesRead(r, clauses[1..], styles[1..], indent);
      assert ClauseLines(clauses, styles, indent)[1..] == ClauseLines(clauses[1..], styles[1..], indent);
    }
  }

  /** What a chain goes on with after some of its clauses. */
  function ChainOn(r: Reader, rest: seq<Call>, q: Option<Query>, terminal: bool): Parsed {
    match q
    case None => BadQuery
    case Some(next) => ChainFrom(r, rest, next, terminal)
  }

  function LinesEnd(q: Option<Query>, lines: nat): Clauses {
    match q
    case None => Refused
    case Some(query) => Read(query, lines)
  }

  lemma {:induction false} ChainApplies(r: Reader, clauses: seq<Clause>, rest: seq<Call>, q: Query, terminal: bool)
    requires forall c <- clauses :: c.name !in TERMINALS
    ensures ChainFrom(r, CallsOf(clauses) + rest, q, terminal) == ChainOn(r, rest, ApplyAll(r, clauses, q), terminal)
  {
    var calls := CallsOf(clauses) + rest;
    if clauses == [] {
      assert calls == rest;
    } else {
      var c := clauses[0];
      assert "all" in TERMINALS && "first" in TERMINALS && "one" in TERMINALS && c.name !in TERMINALS;
      assert calls[0] == Called(c.name, Trim(c.args)) && calls[1..] == CallsOf(clauses[1..]) + rest;
      var next := Apply(r, q, c.name, Trim(c.args));
      if next.Some? {
        ChainApplies(r, clauses[1..], rest, next.value, terminal);
      }
    }
  }

  lemma SaidApplies(r: Reader, c: Clause, style: Style, q: Query)
    requires StyleOk(r, c, style)
    ensures ApplySaid(r, q, SaidBy(c, style)) == Apply(r, q, c.name, Trim(c.args))
  {
    if style.AsKeyword? && style.keyword.WhereIs? {
      var k := style.keyword;
      var fields := [(k.field, r.exprs[k.value])];
      assert FiltersOf(Eq, fields[..0]) == [];
      assert FiltersOf(Eq, fields) == [Filter(k.field, Eq, r.exprs[k.value])];
    }
  }

  lemma {:induction false} LinesApply(r: Reader, clauses: seq<Clause>, styles: seq<Style>, indent: nat, q: Query,
      done: nat)
    requires |styles| == |clauses| && forall i | 0 <= i < |clauses| :: StyleOk(r, clauses[i], styles[i])
    ensures ClausesFrom(r, LineCallsOf(clauses, styles, indent), indent, q, done)
            == LinesEnd(ApplyAll(r, clauses, q), done + |clauses|)
  {
    if clauses != [] {
      var next := Apply(r, q, clauses[0].name, Trim(clauses[0].args));
      SaidApplies(r, clauses[0], styles[0], q);
      if next.Some? {
        LinesApply(r, clauses[1..], styles[1..], indent, next.value, done + 1);
      }
    }
  }

  // Keyword lines -----------------------------------------------------------------------------

  lemma {:induction false} SplitOnceFirst(sep: char, front: string, back: string)
    requires sep !in front
    ensures SplitOnce(sep, front + ([sep] + back)) == Some((front, back))
  {
    var s := front + ([sep] + back);
    if front == "" {
      assert s == [sep] + back && s[1..] == back;
    } else {
      assert s[0] == front[0] && s[1..] == front[1..] + ([sep] + back);
      SplitOnceFirst(sep, front[1..], back);
      assert [front[0]] + front[1..] == front;
    }
  }

  lemma {:induction false} WordEnds(word: string, rest: string)
    requires (forall c <- word :: !IsSpace(c)) && (rest == "" || IsSpace(rest[0]))
    ensures WordLength(word + rest) == |word|
  {
    if word == "" {
      assert word + rest == rest;
    } else {
      assert (word + rest)[1..] == word[1..] + rest;
      WordEnds(word[1..], rest);
    }
  }

  lemma OneWord(word: string, rest: string)
    requires word != "" && (forall c <- word :: !IsSpace(c)) && (rest == "" || IsSpace(rest[0]))
    ensures Words(word + rest) == [word] + Words(rest)
  {
    WordEnds(word, rest);
    assert word[0] in word && TrimStart(word + rest) == word + rest;
    assert (word + rest)[..|word|] == word && (word + rest)[|word|..] == rest;
  }

  lemma OrderReads(order: Order)
    requires IsPlain(order.field)
    ensures ReadOrder(Words(order.field + if order.descending then " desc" else "")) == Some(order)
  {
    if order.descending {
      OneWord(order.field, " desc");
      assert " desc"[1..] == "desc" && TrimStart(" desc") == TrimStart("desc") == "desc";
      assert Words(" desc") == Words("desc");
      assert "desc" + "" == "desc";
      OneWord("desc", "");
      assert Lower("desc") == "desc";
      assert Words(order.field + " desc") == [order.field, "desc"];
    } else {
      assert order.field + "" == order.field;
      OneWord(order.field, "");
      assert Words(order.field) == [order.field];
    }
  }

  lemma NumberReads(n: nat)
    requires n <= MAX_U32
    ensures ReadNumber(NatText(n)) == Some(n)
  {
    var s := NatText(n);
    assert s[0] in s && s[|s| - 1] in s;
    TightTrim(s);
    DigitsOfNat(n);
    assert !HasPrefix(s, "+") by {
      assert s[0] != "+"[0];
    }
  }

  /** A keyword line reads as what it says. */
  lemma KeywordReads(k: Keyword)
    requires KeywordOk(k)
    ensures ReadKeyword(KeywordText(k)) == Some(k)
  {
    var text := KeywordText(k);
    match k {
      case WhereIs(field, value) =>
        assert text[..6] == "where " && text[6..] == field + ("=" + value);
        assert '=' !in field;
        SplitOnceFirst('=', field, value);
        PlainIsTight(field);
        TightTrim(field);
        TightTrim(value);
      case OrderBy(order) =>
        assert text[..6] == "order " && text[6..] == order.field + if order.descending then " desc" else "";
        OrderReads(order);
      case LimitTo(n) =>
        assert text[..6] == "limit " && text[6..] == NatText(n);
        NumberReads(n);
      case OffsetBy(n) =>
        assert text[..6] == "offset" && text[..7] == "offset " && text[7..] == NatText(n);
        NumberReads(n);
    }
  }

  lemma {:induction false} OpenComesLater(s: string, i: nat, start: nat)
    requires i <= start <= |s| && forall k | 0 <= k < start :: s[k] != '(' && !IsQuote(s[k])
    ensures CallOpenFrom(s, i, None) == CallOpenFrom(s, start, None)
    decreases start - i
  {
    if i < start {
      OpenComesLater(s, i + 1, start);
    }
  }

  lemma {:induction false} TrimEndKeeps(s: string, k: nat)
    requires k < |s| && !IsSpace(s[k])
    ensures k < |TrimEnd(s)| <= |s| && TrimEnd(s) == s[..|TrimEnd(s)|]
  {
    if IsSpace(s[|s| - 1]) {
      TrimEndKeeps(s[..|s| - 1], k);
      assert s[..|s| - 1][..|TrimEnd(s)|] == s[..|TrimEnd(s)|];
    }
  }

  lemma BlankInside(s: string, k: nat)
    requires 0 < k < |s| && !IsSpace(s[0]) && !IsSpace(s[k]) && s[k - 1] == ' '
    ensures Trim(s) !in METHODS
  {
    TrimEndKeeps(s, k);
    MethodsArePlain();
    assert !IsPlain(Trim(s)) by {
      assert Trim(s)[k - 1] in Trim(s);
    }
  }

  function KeywordStart(k: Keyword): string {
    match k
    case WhereIs(_, _) => "where "
    case OrderBy(_) => "order "
    case LimitTo(_) => "limit "
    case OffsetBy(_) => "offset "
  }

  lemma KeywordGoesOn(k: Keyword)
    requires KeywordOk(k)
    ensures var text, start := KeywordText(k), |KeywordStart(k)|;
            && start < |text| && text[..start] == KeywordStart(k)
            && !IsSpace(text[start]) && text[start] != '(' && !IsQuote(text[start])
  {
    match k {
      case WhereIs(field, _) => assert field[0] in field;
      case OrderBy(order) => assert order.field[0] in order.field;
      case LimitTo(n) => assert NatText(n)[0] in NatText(n);
      case OffsetBy(n) => assert NatText(n)[0] in NatText(n);
    }
  }

  /** Whatever bracket a keyword line has, what stands before it is no method's name: it has a blank inside. */
  lemma KeywordIsNoCall(k: Keyword)
    requires KeywordOk(k)
    ensures WithoutDot(KeywordText(k)) == KeywordText(k) && !IsMethodClause(KeywordText(k))
  {
    var text, front := KeywordText(k), KeywordStart(k);
    KeywordGoesOn(k);
    assert forall i | 0 <= i < |front| :: text[i] == front[i];
    assert text[..1][0] != '.';
    OpenComesLater(text, 0, |front| + 1);
    var open := CallOpenFrom(text, 0, None);
    if open.Some? {
      BlankInside(text[..open.value], |front|);
    }
  }

  lemma DotIsDropped(c: Clause, dotted: bool)
    requires IsPlain(c.name)
    ensures WithoutDot((if dotted then "." else "") + ClauseText(c)) == ClauseText(c)
  {
    var text := ClauseText(c);
    assert c.name[0] in c.name && text[0] == c.name[0];
    assert ("." + text)[..1] == "." && ("." + text)[1..] == text;
    assert "" + text == text && text[..1] == [text[0]];
  }

  /** Asking for the first row before a clause or after it is the same. */
  lemma FirstCommutes(r: Reader, q: Query, name: string, args: string)
    ensures Apply(r, First(q), name, args)
            == match Apply(r, q, name, args)
               case None => None
               case Some(next) => Some(First(next))
  {
  }

  lemma {:induction false} FirstCommutesAll(r: Reader, clauses: seq<Clause>, q: Query)
    ensures ApplyAll(r, clauses, First(q))
            == match ApplyAll(r, clauses, q)
               case None => None
               case Some(next) => Some(First(next))
  {
    if clauses != [] {
      FirstCommutes(r, q, clauses[0].name, Trim(clauses[0].args));
      var next := Apply(r, q, clauses[0].name, Trim(clauses[0].args));
      if next.Some? {
        FirstCommutesAll(r, clauses[1..], next.value);
      }
    }
  }

  lemma {:induction false} ApplyAllConcat(r: Reader, xs: seq<Clause>, ys: seq<Clause>, q: Query)
    ensures ApplyAll(r, xs + ys, q)
            == match ApplyAll(r, xs, q)
               case None => None
               case Some(next) => ApplyAll(r, ys, next)
  {
    if xs == [] {
      assert xs + ys == ys;
    } else {
      assert (xs + ys)[0] == xs[0] && (xs + ys)[1..] == xs[1..] + ys;
      var next := Apply(r, q, xs[0].name, Trim(xs[0].args));
      if next.Some? {
        ApplyAllConcat(r, xs[1..], ys, next.value);
      }
    }
  }

  // Agreement ---------------------------------------------------------------------------------

  /** A chain whose terminal call stands among the clauses. */
  function ChainText(collection: string, before: seq<Clause>, terminal: string, after: seq<Clause>): string {
    JoinDots(["db", collection] + Texts(before) + [TerminalText(terminal)] + Texts(after))
  }

  function AsParsed(c: Clauses): Parsed {
    match c
    case Read(query, _) => Done(query)
    case _ => BadQuery
  }

  lemma {:induction false} TextsAreSegments(clauses: seq<Clause>)
    requires forall c <- clauses :: ClauseOk(c)
    ensures forall s <- Texts(clauses) :: SegmentOk(s)
  {
    if clauses != [] {
      MethodsArePlain();
      assert ClauseOk(clauses[0]);
      CallIsSegment(clauses[0].name, clauses[0].args);
      TextsAreSegments(clauses[1..]);
    }
  }

  lemma NameIsSegment(name: string)
    requires IsPlain(name)
    ensures SegmentOk(name)
  {
    PlainIsBalanced(0, name);
    PlainIsTight(name);
    TightTrim(name);
  }

  function TerminalText(terminal: string): string {
    terminal + ("(" + ("" + ")"))
  }

  lemma TerminalReads(terminal: string)
    requires terminal in TERMINALS
    ensures SegmentOk(TerminalText(terminal)) && ReadCall(TerminalText(terminal)) == Called(terminal, "")
  {
    assert IsPlain("all") && IsPlain("first") && IsPlain("one");
    assert Balanced(1, "") && Trim("") == "";
    CallIsSegment(terminal, "");
    CallReads(terminal, "");
  }

  lemma ChainIsSplit(collection: string, before: seq<Clause>, terminal: string, after: seq<Clause>)
    requires IsPlain(collection) && terminal in TERMINALS
    requires forall c <- before + after :: ClauseOk(c)
    ensures Segments(ChainText(collection, before, terminal, after))
            == ["db", collection] + Texts(before) + [TerminalText(terminal)] + Texts(after)
  {
    var parts := ["db", collection] + Texts(before) + [TerminalText(terminal)] + Texts(after);
    assert forall c <- before :: c in before + after;
    assert forall c <- after :: c in before + after;
    TextsAreSegments(before);
    TextsAreSegments(after);
    assert IsPlain("db");
    NameIsSegment("db");
    NameIsSegment(collection);
    TerminalReads(terminal);
    ChainSplits(parts);
  }

  lemma ChainCalls(before: seq<Clause>, terminal: string, after: seq<Clause>)
    requires terminal in TERMINALS
    requires forall c <- before + after :: ClauseOk(c)
    ensures ReadCalls(Texts(before) + ([TerminalText(terminal)] + Texts(after)))
            == CallsOf(before) + ([Called(terminal, "")] + CallsOf(after))
  {
    assert forall c <- before :: c in before + after;
    assert forall c <- after :: c in before + after;
    TextsRead(before);
    TextsRead(after);
    TerminalReads(terminal);
    OneCall(TerminalText(terminal), Called(terminal, ""));
    ReadCallsConcat([TerminalText(terminal)], Texts(after));
    ReadCallsConcat(Texts(before), [TerminalText(terminal)] + Texts(after));
  }

  lemma NoTerminals(clauses: seq<Clause>)
    requires forall c <- clauses :: ClauseOk(c)
    ensures forall c <- clauses :: c.name !in TERMINALS
  {
    forall c <- clauses ensures c.name !in TERMINALS {
      ClauseReads(c);
    }
  }

  /** The clauses of a chain around its terminal call. */
  lemma ChainIsFold(r: Reader, before: seq<Clause>, terminal: string, after: seq<Clause>, q: Query)
    requires terminal in TERMINALS
    requires forall c <- before + after :: c.name !in TERMINALS
    ensures var whole := ApplyAll(r, before + after, if terminal == "all" then q else First(q));
            ChainFrom(r, CallsOf(before) + ([Called(terminal, "")] + CallsOf(after)), q, false)
            == if whole.Some? then Done(whole.value) else BadQuery
  {
    assert forall c <- before :: c in before + after;
    assert forall c <- after :: c in before + after;
    var rest := [Called(terminal, "")] + CallsOf(after);
    ChainApplies(r, before, rest, q, false);
    ApplyAllConcat(r, before, after, q);
    FirstCommutesAll(r, before + after, q);
    var middle := ApplyAll(r, before, q);
    if middle.Some? {
      var next := if terminal == "all" then middle.value else First(middle.value);
      FirstCommutesAll(r, after, middle.value);
      assert rest[1..] == CallsOf(after) + [];
      assert ChainFrom(r, rest, middle.value, false) == ChainFrom(r, CallsOf(after) + [], next, true);
      ChainApplies(r, after, [], next, true);
    }
  }

  /**
   * The chain and the lines give the same query or are both refused, wherever the terminal call stands and in
   * whichever style each line is written.
   */
  lemma FrontEndsAgree(r: Reader, collection: string, before: seq<Clause>, terminal: string, after: seq<Clause>,
      styles: seq<Style>, indent: nat)
    requires IsPlain(collection) && terminal in TERMINALS && before + after != []
    requires forall c <- before + after :: ClauseOk(c)
    requires |styles| == |before + after|
             && forall i | 0 <= i < |styles| :: StyleOk(r, (before + after)[i], styles[i])
    ensures Fluent(r, ChainText(collection, before, terminal, after))
            == AsParsed(ClausesFrom(r, ReadLines(ClauseLines(before + after, styles, indent)), indent,
                HeaderQuery(collection, terminal != "all"), 0))
  {
    NoTerminals(before + after);
    ChainReads(r, collection, before, terminal, after);
    ChainIsFold(r, before, terminal, after, NewQuery(collection));
    LinesRead(r, before + after, styles, indent);
    LinesApply(r, before + after, styles, indent, HeaderQuery(collection, terminal != "all"), 0);
  }

  lemma ChainReads(r: Reader, collection: string, before: seq<Clause>, terminal: string, after: seq<Clause>)
    requires IsPlain(collection) && terminal in TERMINALS && before + after != []
    requires forall c <- before + after :: ClauseOk(c)
    ensures Fluent(r, ChainText(collection, before, terminal, after))
            == ChainFrom(r, CallsOf(before) + ([Called(terminal, "")] + CallsOf(after)), NewQuery(collection), false)
  {
    var parts := ["db", collection] + Texts(before) + [TerminalText(terminal)] + Texts(after);
    ChainIsSplit(collection, before, terminal, after);
    LengthOfTexts(before);
    LengthOfTexts(after);
    assert |parts| >= 4 && parts[0] == "db" && parts[1] == collection;
    assert parts[2..] == Texts(before) + ([TerminalText(terminal)] + Texts(after));
    ChainCalls(before, terminal, after);
  }

  lemma {:induction false} LengthOfTexts(clauses: seq<Clause>)
    ensures |Texts(clauses)| == |clauses|
  {
    if clauses != [] {
      LengthOfTexts(clauses[1..]);
    }
  }

  // What each method asks for -----------------------------------------------------------------

  const COMPARES: map<string, FilterOp> := map["where" := Eq, "whereNot" := Ne, "whereIn" := In, "whereNotIn" := NotIn]
  const TESTS: map<string, FilterOp> := map["whereNull" := IsNull, "whereNotNull" := IsNotNull]

  /** The fields of a call become filters with its operator, in order. */
  predicate AreFilters(filters: seq<Filter>, op: FilterOp, fields: seq<(string, Expr)>) {
    && |filters| == |fields|
    && forall i | 0 <= i < |fields| :: filters[i] == Filter(fields[i].0, op, fields[i].1)
  }

  /** The arguments read as what the method takes. */
  predicate Readable(r: Reader, name: string, args: string) {
    || (name == "join" && args in r.joins)
    || (name in COMPARES && args in r.fields)
    || (name in TESTS && args in r.names)
    || (name == "order" && args in r.orders)
    || (name in {"limit", "offset"} && args in r.numbers)
  }

  /** What a query asks for after a call, part by part. */
  ghost predicate Asks(r: Reader, q: Query, name: string, args: string, next: Query)
    requires Readable(r, name, args)
  {
    && next.collection == q.collection && next.first == q.first
    && next.joins == q.joins + (if name == "join" then [r.joins[args]] else [])
    && next.orders == q.orders + (if name == "order" then r.orders[args] else [])
    && next.limit == (if name == "limit" then Some(r.numbers[args]) else q.limit)
    && next.offset == (if name == "offset" then Some(r.numbers[args]) else q.offset)
    && exists added ::
         && next.filters == q.filters + added
         && if name in COMPARES then AreFilters(added, COMPARES[name], r.fields[args])
            else if name in TESTS then added == [Filter(r.names[args], TESTS[name], LoweringModel.BoolLit(true))]
            else added == []
  }

  lemma {:induction false} FiltersAre(op: FilterOp, fields: seq<(string, Expr)>)
    ensures AreFilters(FiltersOf(op, fields), op, fields)
  {
    if fields != [] {
      FiltersAre(op, fields[..|fields| - 1]);
    }
  }

  /** A call changes the part of the query that its name says, and is refused exactly when it does not read. */
  lemma ClauseMeans(r: Reader, q: Query, name: string, args: string)
    ensures Apply(r, q, name, args).Some? <==> Readable(r, name, args)
    ensures Readable(r, name, args) ==> Asks(r, q, name, args, Apply(r, q, name, args).value)
  {
    if Readable(r, name, args) {
      var next := Apply(r, q, name, args).value;
      var added := next.filters[|q.filters|..];
      if name in COMPARES {
        FiltersAre(COMPARES[name], r.fields[args]);
        assert added == FiltersOf(COMPARES[name], r.fields[args]);
      }
      assert next.filters == q.filters + added;
      assert q.joins + [] == q.joins && q.orders + [] == q.orders;
    }
  }

  /** Asking for the first row limits a query to one row, unless it has a limit of its own. */
  lemma FirstMeans(q: Query)
    ensures First(q).first && First(q).limit == Some(if q.limit.Some? then q.limit.value else 1)
    ensures First(q) == q.(first := true, limit := First(q).limit)
  {
  }
}
