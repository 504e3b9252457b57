/** Two ways to write a query: a fluent chain on one line, and a header with one clause a line. */
module Queries {
  import opened Text
  import LoweringModel

  type Expr = LoweringModel.Expr

  // Query specifications ----------------------------------------------------------------------

  datatype FilterOp = Eq | Ne | In | NotIn | IsNull | IsNotNull

  datatype Filter = Filter(field: string, op: FilterOp, value: Expr)

  datatype Join = Join(collection: string, columns: seq<(string, string)>)

  datatype Order = Order(field: string, descending: bool)

  datatype Query = Query(collection: string, joins: seq<Join>, filters: seq<Filter>, orders: seq<Order>,
                         limit: Option<nat>, offset: Option<nat>, first: bool)

  function NewQuery(collection: string): Query {
    Query(collection, [], [], [], None, None, false)
  }

  /** Only the first row is wanted; an explicit limit stays. */
  function First(q: Query): Query {
    q.(first := true, limit := if q.limit.None? then Some(1) else q.limit)
  }

  class QuerySpec {
    var collection: string
    var joins: seq<Join>
    var filters: seq<Filter>
    var orders: seq<Order>
    var limit: Option<nat>
    var offset: Option<nat>
    var first: bool

    constructor (collection: string)
      ensures Value() == NewQuery(collection)
    {
      this.collection, joins, filters, orders, limit, offset, first := collection, [], [], [], None, None, false;
    }

    function Value(): Query
      reads this
    {
      Query(collection, joins, filters, orders, limit, offset, first)
    }

    method AddJoin(join: Join)
      modifies this
      ensures Value() == old(Value()).(joins := old(joins) + [join])
    {
      joins := joins + [join];
    }

    method AddFilter(filter: Filter)
      modifies this
      ensures Value() == old(Value()).(filters := old(filters) + [filter])
    {
      filters := filters + [filter];
    }

    method AddOrder(order: Order)
      modifies this
      ensures Value() == old(Value()).(orders := old(orders) + [order])
    {
      orders := orders + [order];
    }

    method SetLimit(n: nat)
      modifies this
      ensures Value() == old(Value()).(limit := Some(n))
    {
      limit := Some(n);
    }

    method SetOffset(n: nat)
      modifies this
      ensures Value() == old(Value()).(offset := Some(n))
    {
      offset := Some(n);
    }

    method SetFirst()
      modifies this
      ensures Value() == First(old(Value()))
    {
      first := true;
      if limit.None? {
        limit := Some(1);
      }
    }
  }

  // Clauses -----------------------------------------------------------------------------------

  /** How the argument texts of clauses read, where they do. */
  datatype Reader = Reader(joins: imap<string, Join>, fields: imap<string, seq<(string, Expr)>>, orders: imap<string,
      seq<Order>>,
                           names: imap<string, string>, numbers: imap<string, nat>, exprs: imap<string, Expr>)

  const METHODS: seq<string> :=
    ["join", "where", "whereNot", "whereIn", "whereNotIn", "whereNull", "whereNotNull", "order", "limit", "offset"]

  function FieldOp(name: string): Option<FilterOp> {
    if name == "where" then Some(Eq)
    else if name == "whereNot" then Some(Ne)
    else if name == "whereIn" then Some(In)
    else if name == "whereNotIn" then Some(NotIn)
    else None
  }

  function NullOp(name: string): Option<FilterOp> {
    if name == "whereNull" then Some(IsNull) else if name == "whereNotNull" then Some(IsNotNull) else None
  }

  function FiltersOf(op: FilterOp, fields: seq<(string, Expr)>): seq<Filter> {
    if fields == [] then []
    else
      FiltersOf(op, fields[..|fields| - 1])
      + [Filter(fields[|fields| - 1].0, op, fields[|fields| - 1].1)]
  }

  /** The query after one clause, or nothing when the clause does not read. */
  function Apply(r: Reader, q: Query, name: string, args: string): Option<Query> {
    if name == "join" then
      if args in r.joins then Some(q.(joins := q.joins + [r.joins[args]])) else None
    else if FieldOp(name).Some? then
      if args in r.fields then Some(q.(filters := q.filters + FiltersOf(FieldOp(name).value, r.fields[args]))) else None
    else if NullOp(name).Some? then
      if args in r.names then Some(q.(filters := q.filters
          + [Filter(r.names[args], NullOp(name).value, LoweringModel.BoolLit(true))])) else None
    else if name == "order" then
      if args in r.orders then Some(q.(orders := q.orders + r.orders[args])) else None
    else if name == "limit" then
      if args in r.numbers then Some(q.(limit := Some(r.numbers[args]))) else None
    else if name == "offset" then
      if args in r.numbers then Some(q.(offset := Some(r.numbers[args]))) else None
    else None
  }

  method ApplyClause(r: Reader, query: QuerySpec, name: string, args: string) returns (ok: bool)
    modifies query
    ensures ok == Apply(r, old(query.Value()), name, args).Some?
    ensures ok ==> query.Value() == Apply(r, old(query.Value()), name, args).value
  {
    ok := true;
    if name == "join" && args in r.joins {
      query.AddJoin(r.joins[args]);
    } else if FieldOp(name).Some? && args in r.fields {
      AddFilters(query, FieldOp(name).value, r.fields[args]);
    } else if NullOp(name).Some? && args in r.names {
      query.AddFilter(Filter(r.names[args], NullOp(name).value, LoweringModel.BoolLit(true)));
    } else if name == "order" && args in r.orders {
      AddOrders(query, r.orders[args]);
    } else if name == "limit" && args in r.numbers {
      query.SetLimit(r.numbers[args]);
    } else if name == "offset" && args in r.numbers {
      query.SetOffset(r.numbers[args]);
    } else {
      ok := false;
    }
  }

  method AddFilters(query: QuerySpec, op: FilterOp, fields: seq<(string, Expr)>)
    modifies query
    ensures query.Value() == old(query.Value()).(filters := old(query.filters) + FiltersOf(op, fields))
  {
    for i := 0 to |fields|
      invariant query.Value() == old(query.Value()).(filters := old(query.filters) + FiltersOf(op, fields[..i]))
    {
      query.AddFilter(Filter(fields[i].0, op, fields[i].1));
      assert fields[..i + 1][..i] == fields[..i];
    }
    assert fields[..|fields|] == fields;
  }

  method AddOrders(query: QuerySpec, orders: seq<Order>)
    modifies query
    ensures query.Value() == old(query.Value()).(orders := old(query.orders) + orders)
  {
    for i := 0 to |orders|
      invariant query.Value() == old(query.Value()).(orders := old(query.orders) + orders[..i])
    {
      query.AddOrder(orders[i]);
      assert orders[..i + 1] == orders[..i] + [orders[i]];
    }
    assert orders[..|orders|] == orders;
  }

  // Reading a call ----------------------------------------------------------------------------

  predicate IsQuote(c: char) {
    c == '"' || c == '\''
  }

  function CallOpenFrom(s: string, i: nat, quote: Option<char>): (r: Option<nat>)
    requires i <= |s|
    ensures r.Some? ==> i <= r.value < |s| && s[r.value] == '('
    decreases |s| - i
  {
    if i == |s| then None
    else if quote.Some? then CallOpenFrom(s, i + 1, if s[i] == quote.value then None else quote)
    else if IsQuote(s[i]) then CallOpenFrom(s, i + 1, Some(s[i]))
    else if s[i] == '(' then Some(i)
    else CallOpenFrom(s, i + 1, None)
  }

  datatype Call = NoCall | BadCall | Called(name: string, args: string)

  function ReadCall(s: string): Call {
    match CallOpenFrom(s, 0, None)
    case None => NoCall
    case Some(open) =>
      if s[|s| - 1] != ')' then BadCall
      else
        var name := Trim(s[..open]);
        if name == "" || '.' in name then BadCall else Called(name, Trim(s[open + 1..][..|s| - open - 2]))
  }

  // The fluent chain --------------------------------------------------------------------------

  datatype ChainState = ChainState(depth: nat, quote: Option<char>)

  const TOP := ChainState(0, None)

  function ChainStep(st: ChainState, c: char): ChainState {
    if st.quote.Some? then if c == st.quote.value then st.(quote := None) else st
    else if IsQuote(c) then st.(quote := Some(c))
    else if c == '(' || c == '[' || c == '{' then st.(depth := st.depth + 1)
    else if c == ')' || c == ']' || c == '}' then st.(depth := if st.depth == 0 then 0 else st.depth - 1)
    else st
  }

  predicate CutsChain(st: ChainState, c: char) {
    st == TOP && c == '.'
  }

  function ChainParts(st: ChainState, s: string): (parts: seq<string>)
    ensures parts != []
    decreases s
  {
    if s == "" then [""]
    else if CutsChain(st, s[0]) then [""] + ChainParts(st, s[1..])
    else AddToHead(s[0], ChainParts(ChainStep(st, s[0]), s[1..]))
  }

  function TrimParts(parts: seq<string>): seq<string> {
    seq(|parts|, i requires 0 <= i < |parts| => Trim(parts[i]))
  }

  function Segments(input: string): (r: seq<string>)
    ensures r != []
  {
    TrimParts(ChainParts(TOP, input))
  }

  function Prepend(front: string, parts: seq<string>): seq<string>
    requires parts != []
  {
    [front + parts[0]] + parts[1..]
  }

  /** The segments cut so far, and what the open one and the rest will give, are all the segments. */
  predicate Splits(result: seq<string>, input: string, start: nat, index: nat, st: ChainState) {
    start <= index <= |input|
    && result + TrimParts(Prepend(input[start..index], ChainParts(st, input[index..]))) == Segments(input)
  }

  method SplitSegments(input: string) returns (result: seq<string>)
    ensures result == Segments(input)
  {
    result := [];
    var start, depth: nat := 0, 0;
    var quote: Option<char> := None;
    SegmentsStart(input);
    for index := 0 to |input|
      invariant Splits(result, input, start, index, ChainState(depth, quote))
    {
      var c := input[index];
      ghost var st := ChainState(depth, quote);
      SegmentsStep(result, input, start, index, st);
      var cut;
      depth, quote, cut := ScanChar(depth, quote, c);
      if cut {
        result := result + [Trim(input[start..index])];
        start := index + 1;
      }
    }
    SegmentsEnd(result, input, start, ChainState(depth, quote));
    result := result + [Trim(input[start..])];
  }

  /** One character of a chain: it opens or closes a quote or a bracket, or cuts the chain. */
  method ScanChar(depth: nat, quote: Option<char>, c: char) returns (inner: nat, open: Option<char>, cut: bool)
    ensures var st := ChainState(depth, quote);
            cut == CutsChain(st, c) && ChainState(inner, open) == if cut then st else ChainStep(st, c)
  {
    inner, open, cut := depth, quote, false;
    if quote.Some? {
      if c == quote.value {
        open := None;
      }
    } else if IsQuote(c) {
      open := Some(c);
    } else if c == '(' || c == '[' || c == '{' {
      inner := depth + 1;
    } else if c == ')' || c == ']' || c == '}' {
      inner := if depth == 0 then 0 else depth - 1;
    } else if c == '.' && depth == 0 {
      cut := true;
    }
  }

  lemma SegmentsStart(input: string)
    ensures Splits([], input, 0, 0, TOP)
  {
    var parts := ChainParts(TOP, input);
    assert input[0..0] == "" && input[0..] == input;
    assert "" + parts[0] == parts[0] && Prepend("", parts) == parts;
  }

  lemma SegmentsEnd(result: seq<string>, input: string, start: nat, st: ChainState)
    requires Splits(result, input, start, |input|, st)
    ensures result + [Trim(input[start..])] == Segments(input)
  {
    var last := input[start..];
    assert input[|input|..] == "" && input[start..|input|] == last && last + "" == last;
    assert TrimParts(Prepend(last, [""])) == [Trim(last)];
  }

  lemma SegmentsStep(result: seq<string>, input: string, start: nat, index: nat, st: ChainState)
    requires index < |input| && Splits(result, input, start, index, st)
    ensures var c := input[index];
            if CutsChain(st, c) then Splits(result + [Trim(input[start..index])], input, index + 1, index + 1, st)
            else Splits(result, input, start, index + 1, ChainStep(st, c))
  {
    var c := input[index];
    var front, rest := input[start..index], input[index..];
    assert rest[0] == c && rest[1..] == input[index + 1..];
    if CutsChain(st, c) {
      CutHere(result, front, ChainParts(st, rest[1..]));
      assert input[index + 1..index + 1] == "";
    } else {
      TakeHere(front, c, ChainParts(ChainStep(st, c), rest[1..]));
      assert input[start..index + 1] == front + [c];
    }
  }

  lemma CutHere(result: seq<string>, front: string, parts: seq<string>)
    requires parts != []
    ensures result + TrimParts(Prepend(front, [""] + parts)) == (result + [Trim(front)]) + TrimParts(Prepend("", parts))
  {
    assert Prepend("", parts) == parts by { assert "" + parts[0] == parts[0]; }
    assert Prepend(front, [""] + parts) == [front] + parts by { assert front + "" == front; }
    assert TrimParts([front] + parts) == [Trim(front)] + TrimParts(parts);
  }

  lemma TakeHere(front: string, c: char, parts: seq<string>)
    requires parts != []
    ensures Prepend(front, AddToHead(c, parts)) == Prepend(front + [c], parts)
  {
    assert front + ([c] + parts[0]) == (front + [c]) + parts[0];
  }

  datatype Parsed = NoQuery | BadQuery | Done(query: Query)

  function ReadCalls(segments: seq<string>): seq<Call> {
    if segments == [] then [] else [ReadCall(segments[0])] + ReadCalls(segments[1..])
  }

  predicate IsTerminal(name: string, args: string) {
    args == "" && (name == "all" || name == "first" || name == "one")
  }

  /** The calls of a chain, one after the other. */
  function ChainFrom(r: Reader, calls: seq<Call>, q: Query, terminal: bool): Parsed {
    if calls == [] then if terminal then Done(q) else NoQuery
    else match calls[0]
      case NoCall => NoQuery
      case BadCall => BadQuery
      case Called(name, args) =>
        if IsTerminal(name, args) then ChainFrom(r, calls[1..], if name == "all" then q else First(q), true)
        else match Apply(r, q, name, args)
          case None => BadQuery
          case Some(next) => ChainFrom(r, calls[1..], next, terminal)
  }

  function Fluent(r: Reader, input: string): Parsed {
    var segments := Segments(input);
    if |segments| < 4 || segments[0] != "db" || segments[1] == "" then NoQuery
    else ChainFrom(r, ReadCalls(segments[2..]), NewQuery(segments[1]), false)
  }

  method ParseFluent(r: Reader, input: string) returns (p: Parsed)
    ensures p == Fluent(r, input)
  {
    var segments := SplitSegments(input);
    if |segments| < 4 || segments[0] != "db" || segments[1] == "" {
      return NoQuery;
    }
    var query := new QuerySpec(segments[1]);
    p := ParseMethods(r, segments[2..], query);
  }

  method ParseMethods(r: Reader, segments: seq<string>, query: QuerySpec) returns (p: Parsed)
    modifies query
    ensures p == ChainFrom(r, ReadCalls(segments), old(query.Value()), false)
  {
    var terminal := false;
    ghost var goal := ChainFrom(r, ReadCalls(segments), query.Value(), false);
    assert segments[0..] == segments;
    for i := 0 to |segments|
      invariant ChainFrom(r, ReadCalls(segments[i..]), query.Value(), terminal) == goal
    {
      var call := ReadCall(segments[i]);
      CallsFrom(segments, i);
      match call {
        case NoCall => return NoQuery;
        case BadCall => return BadQuery;
        case Called(name, args) =>
          if IsTerminal(name, args) {
            if name != "all" {
              query.SetFirst();
            }
            terminal := true;
          } else {
            var ok := ApplyClause(r, query, name, args);
            if !ok {
              return BadQuery;
            }
          }
      }
    }
    p := if terminal then Done(query.Value()) else NoQuery;
  }

  lemma CallsFrom(segments: seq<string>, i: nat)
    requires i < |segments|
    ensures ReadCalls(segments[i..]) == [ReadCall(segments[i])] + ReadCalls(segments[i + 1..])
  {
    assert segments[i..][0] == segments[i] && segments[i..][1..] == segments[i + 1..];
  }

  // One clause a line -------------------------------------------------------------------------

  datatype Line = Line(indent: nat, text: string)

  /** How a run of clause lines ends: with a query, or in an error. */
  datatype Clauses = Read(query: Query, lines: nat) | Refused

  function WithoutDot(text: string): string {
    if HasPrefix(text, ".") then text[1..] else text
  }

  predicate IsMethodClause(text: string) {
    match CallOpenFrom(text, 0, None)
    case None => false
    case Some(open) => Trim(text[..open]) in METHODS
  }

  /** A clause in the older syntax, which starts with a keyword. */
  datatype Keyword =
    | WhereIs(field: string, value: string)
    | OrderBy(order: Order)
    | LimitTo(n: nat)
    | OffsetBy(n: nat)

  function SplitOnce(sep: char, s: string): Option<(string, string)> {
    if s == "" then None
    else if s[0] == sep then Some(("", s[1..]))
    else match SplitOnce(sep, s[1..])
      case None => None
      case Some((front, back)) => Some(([s[0]] + front, back))
  }

  function WordLength(s: string): (n: nat)
    ensures n <= |s|
    ensures s != "" && !IsSpace(s[0]) ==> n > 0
  {
    if s == "" || IsSpace(s[0]) then 0 else 1 + WordLength(s[1..])
  }

  lemma {:induction false} TrimStartShrinks(s: string)
    ensures |TrimStart(s)| <= |s| && (TrimStart(s) != "" ==> !IsSpace(TrimStart(s)[0]))
  {
    if s != "" && IsSpace(s[0]) {
      TrimStartShrinks(s[1..]);
    }
  }

  /** The words of a text, without the blanks between them. */
  function Words(s: string): seq<string>
    decreases |s|
  {
    TrimStartShrinks(s);
    var t := TrimStart(s);
    if t == "" then [] else [t[..WordLength(t)]] + Words(t[WordLength(t)..])
  }

  function Lower(s: string): string {
    seq(|s|, i requires 0 <= i < |s| => if 'A' <= s[i] <= 'Z' then s[i] - 'A' + 'a' else s[i])
  }

  function ReadOrder(words: seq<string>): Option<Order> {
    if words == [] then None
    else if |words| == 1 || Lower(words[1]) == "asc" then Some(Order(words[0], false))
    else if Lower(words[1]) == "desc" then Some(Order(words[0], true))
    else None
  }

  function ReadNumber(rest: string): Option<nat> {
    ParseUnsigned(Trim(rest), MAX_U32)
  }

  function ReadKeyword(text: string): Option<Keyword> {
    if HasPrefix(text, "where ") then
      match SplitOnce('=', text[6..])
      case None => None
      case Some((field, value)) =>
        if Trim(field) == "" || Trim(value) == "" then None else Some(WhereIs(Trim(field), Trim(value)))
    else if HasPrefix(text, "order ") then
      match ReadOrder(Words(text[6..]))
      case None => None
      case Some(order) => Some(OrderBy(order))
    else if HasPrefix(text, "limit ") then
      match ReadNumber(text[6..])
      case None => None
      case Some(n) => Some(LimitTo(n))
    else if HasPrefix(text, "offset ") then
      match ReadNumber(text[7..])
      case None => None
      case Some(n) => Some(OffsetBy(n))
    else None
  }

  function ApplyKeyword(r: Reader, q: Query, k: Keyword): Option<Query> {
    match k
    case WhereIs(field, value) =>
      if value in r.exprs then Some(q.(filters := q.filters + [Filter(field, Eq, r.exprs[value])])) else None
    case OrderBy(order) => Some(q.(orders := q.orders + [order]))
    case LimitTo(n) => Some(q.(limit := Some(n)))
    case OffsetBy(n) => Some(q.(offset := Some(n)))
  }

  method ApplyKeywordClause(r: Reader, query: QuerySpec, k: Keyword) returns (ok: bool)
    modifies query
    ensures ok == ApplyKeyword(r, old(query.Value()), k).Some?
    ensures ok ==> query.Value() == ApplyKeyword(r, old(query.Value()), k).value
  {
    ok := true;
    match k {
      case WhereIs(field, value) =>
        if value in r.exprs {
          query.AddFilter(Filter(field, Eq, r.exprs[value]));
        } else {
          ok := false;
        }
      case OrderBy(order) => query.AddOrder(order);
      case LimitTo(n) => query.SetLimit(n);
      case OffsetBy(n) => query.SetOffset(n);
    }
  }

  /** What a clause line says: a call, or, without one, what its keyword says. */
  datatype Said = ByCall(call: Call) | ByKeyword(keyword: Option<Keyword>)

  datatype LineCall = LineCall(indent: nat, said: Said)

  function ReadLine(line: Line): LineCall {
    var text := WithoutDot(line.text);
    LineCall(line.indent, if IsMethodClause(text) then ByCall(ReadCall(text)) else ByKeyword(ReadKeyword(line.text)))
  }

  function ApplySaid(r: Reader, q: Query, said: Said): Option<Query> {
    match said
    case ByCall(Called(name, args)) => Apply(r, q, name, args)
    case ByKeyword(Some(k)) => ApplyKeyword(r, q, k)
    case _ => None
  }

  function ReadLines(lines: seq<Line>): seq<LineCall> {
    if lines == [] then [] else [ReadLine(lines[0])] + ReadLines(lines[1..])
  }

  method ApplyLine(r: Reader, query: QuerySpec, said: Said) returns (ok: bool)
    modifies query
    ensures ok == ApplySaid(r, old(query.Value()), said).Some?
    ensures ok ==> query.Value() == ApplySaid(r, old(query.Value()), said).value
  {
    ok := false;
    match said {
      case ByCall(Called(name, args)) => ok := ApplyClause(r, query, name, args);
      case ByKeyword(Some(k)) => ok := ApplyKeywordClause(r, query, k);
      case _ =>
    }
  }

  function ClausesFrom(r: Reader, calls: seq<LineCall>, indent: nat, q: Query, done: nat): Clauses {
    if calls == [] || calls[0].indent < indent then Read(q, done)
    else if calls[0].indent != indent then Refused
    else match ApplySaid(r, q, calls[0].said)
      case None => Refused
      case Some(next) => ClausesFrom(r, calls[1..], indent, next, done + 1)
  }

  /** The query that a header stands for: all rows of a collection, or the first. */
  function HeaderQuery(collection: string, first: bool): Query {
    if first then First(NewQuery(collection)) else NewQuery(collection)
  }

  method ParseClauses(r: Reader, collection: string, first: bool, lines: seq<Line>, indent: nat) returns (c: Clauses)
    ensures c == ClausesFrom(r, ReadLines(lines), indent, HeaderQuery(collection, first), 0)
  {
    var query := new QuerySpec(collection);
    if first {
      query.SetFirst();
    }
    c := ReadClauses(r, query, lines, indent);
  }

  method ReadClauses(r: Reader, query: QuerySpec, lines: seq<Line>, indent: nat) returns (c: Clauses)
    modifies query
    ensures c == ClausesFrom(r, ReadLines(lines), indent, old(query.Value()), 0)
  {
    var pos := 0;
    ghost var goal := ClausesFrom(r, ReadLines(lines), indent, query.Value(), 0);
    assert lines[0..] == lines;
    while pos < |lines| && lines[pos].indent >= indent
      invariant pos <= |lines| && ClausesFrom(r, ReadLines(lines[pos..]), indent, query.Value(), pos) == goal
      decreases |lines| - pos
    {
      var line := ReadLine(lines[pos]);
      LinesFrom(lines, pos);
      if line.indent != indent {
        return Refused;
      }
      var ok := ApplyLine(r, query, line.said);
      if !ok {
        return Refused;
      }
      pos := pos + 1;
    }
    if pos < |lines| {
      LinesFrom(lines, pos);
    }
    c := Read(query.Value(), pos);
  }

  lemma LinesFrom(lines: seq<Line>, i: nat)
    requires i < |lines|
    ensures ReadLines(lines[i..]) == [ReadLine(lines[i])] + ReadLines(lines[i + 1..])
  {
    assert lines[i..][0] == lines[i] && lines[i..][1..] == lines[i + 1..];
  }
}
