/** Markup that starts and ends on one line, and its expansion into one element a line. */
module InlineMarkup {
  import opened Text

  /** Where a scan through quotes stands. */
  datatype Quotes = Quotes(active: Option<char>, escaped: bool)

  const NO_QUOTE := Quotes(None, false)

  function InQuote(q: Quotes, active: char, c: char): Quotes {
    if q.escaped then q.(escaped := false)
    else if c == '\\' then q.(escaped := true)
    else if c == active then q.(active := None)
    else q
  }

  // The end of an expression in braces --------------------------------------------------------

  function ExpressionEndFrom(s: string, i: nat, depth: nat, q: Quotes): (end: Option<nat>)
    requires i <= |s|
    ensures end.Some? ==> i < end.value <= |s|
    decreases |s| - i
  {
    if i == |s| then None
    else
      var c := s[i];
      match q.active
      case Some(active) => ExpressionEndFrom(s, i + 1, depth, InQuote(q, active, c))
      case None =>
        if c == '\'' || c == '"' || c == '`' then ExpressionEndFrom(s, i + 1, depth, Quotes(Some(c), q.escaped))
        else if c == '{' then ExpressionEndFrom(s, i + 1, depth + 1, q)
        else if c == '}' then
          if depth == 0 then None
          else if depth == 1 then Some(i + 1)
          else ExpressionEndFrom(s, i + 1, depth - 1, q)
        else ExpressionEndFrom(s, i + 1, depth, q)
  }

  function ExpressionEnd(s: string): (end: Option<nat>)
    ensures end.Some? ==> 0 < end.value <= |s|
  {
    ExpressionEndFrom(s, 0, 0, NO_QUOTE)
  }

  method FindExpressionEnd(source: string) returns (end: Option<nat>)
    ensures end == ExpressionEnd(source)
  {
    var depth := 0;
    var quote: Option<char> := None;
    var escaped := false;
    for index := 0 to |source|
      invariant depth >= 0
      invariant ExpressionEndFrom(source, index, depth, Quotes(quote, escaped)) == ExpressionEnd(source)
    {
      var c := source[index];
      if quote.Some? {
        if escaped {
          escaped := false;
        } else if c == '\\' {
          escaped := true;
        } else if c == quote.value {
          quote := None;
        }
      } else if c == '\'' || c == '"' || c == '`' {
        quote := Some(c);
      } else if c == '{' {
        depth := depth + 1;
      } else if c == '}' {
        if depth == 0 {
          return None;
        }
        depth := depth - 1;
        if depth == 0 {
          return Some(index + 1);
        }
      }
    }
    end := None;
  }

  // The end of a tag --------------------------------------------------------------------------

  function TagEndFrom(s: string, i: nat, q: Quotes): (end: Option<nat>)
    requires i <= |s|
    ensures end.Some? ==> i < end.value <= |s| && s[end.value - 1] == '>'
    decreases |s| - i
  {
    if i == |s| then None
    else
      var c := s[i];
      match q.active
      case Some(active) => TagEndFrom(s, i + 1, InQuote(q, active, c))
      case None =>
        if c == '\'' || c == '"' then TagEndFrom(s, i + 1, Quotes(Some(c), q.escaped))
        else if c == '{' then
          match ExpressionEnd(s[i..])
          case None => None
          case Some(length) => TagEndFrom(s, i + length, q)
        else if c == '>' then Some(i + 1)
        else TagEndFrom(s, i + 1, q)
  }

  function TagEnd(s: string): (end: Option<nat>)
    ensures end.Some? ==> 1 < end.value <= |s| && s[end.value - 1] == '>'
  {
    if s == "" then None else TagEndFrom(s, 1, NO_QUOTE)
  }

  method FindTagEnd(source: string) returns (end: Option<nat>)
    ensures end == TagEnd(source)
  {
    if source == "" {
      return None;
    }
    var cursor := 1;
    var quote: Option<char> := None;
    var escaped := false;
    while cursor < |source|
      invariant 1 <= cursor <= |source|
      invariant TagEndFrom(source, cursor, Quotes(quote, escaped)) == TagEnd(source)
    {
      var c := source[cursor];
      if quote.Some? {
        if escaped {
          escaped := false;
        } else if c == '\\' {
          escaped := true;
        } else if c == quote.value {
          quote := None;
        }
      } else if c == '\'' || c == '"' {
        quote := Some(c);
      } else if c == '{' {
        var length := FindExpressionEnd(source[cursor..]);
        if length.None? {
          return None;
        }
        cursor := cursor + length.value;
        continue;
      } else if c == '>' {
        return Some(cursor + 1);
      }
      cursor := cursor + 1;
    }
    end := None;
  }

  // Elements ----------------------------------------------------------------------------------

  datatype Markup = Markup(source: string, open: string, close: string, children: seq<Markup>, mixed: bool)

  const MAX_DEPTH := 128

  function NameEnd(s: string, i: nat): (end: nat)
    requires i <= |s|
    ensures i <= end <= |s|
    decreases |s| - i
  {
    if i == |s| || s[i] == ' ' || s[i] == '\t' || s[i] == '/' || s[i] == '>' then i else NameEnd(s, i + 1)
  }

  /** The name in an opening tag, or nothing when it is no name. */
  function TagName(alphanumeric: set<char>, open: string): Option<string>
    requires open != ""
  {
    var name := open[1..NameEnd(open, 1)];
    if forall c <- name :: c in alphanumeric || c == '_' || c == '.' || c == '-' then Some(name) else None
  }

  predicate KeepsText(name: string) {
    name in {"pre", "code", "script", "style", "textarea"}
  }

  predicate IsPrefix(s: string, i: nat, prefix: string) {
    i + |prefix| <= |s| && s[i..i + |prefix|] == prefix
  }

  function Closing(name: string): string {
    "</" + name + ">"
  }

  /** The element that the source starts with. */
  function Parse(alphanumeric: set<char>, source: string, depth: nat): (r: Option<Markup>)
    ensures r.Some? ==> 1 < |r.value.source| <= |source|
    decreases |source|, 2, 0
  {
    if depth > MAX_DEPTH || !HasPrefix(source, "<") || HasPrefix(source, "</") then None
    else match TagEnd(source)
      case None => None
      case Some(end) =>
        var open := source[..end];
        match TagName(alphanumeric, open)
        case None => None
        case Some(name) =>
          if HasSuffix(open, "/>") then Some(Markup(open, open, "", [], false))
          else ParseChildren(alphanumeric, source, depth, open, name, end, [], KeepsText(name))
  }

  /** What comes next in an element: its closing tag, a child, text of its own, or nothing that can be read. */
  datatype Part = Close | Child(node: Markup) | OwnText(length: nat) | Unreadable

  function NextPart(alphanumeric: set<char>, source: string, depth: nat, name: string, cursor: nat): (p: Part)
    requires 1 < cursor <= |source|
    ensures p.Close? <==> IsPrefix(source, cursor, Closing(name))
    ensures p.Child? ==> 1 < |p.node.source| <= |source| - cursor
    ensures p.OwnText? ==> 0 < p.length <= |source| - cursor
    decreases |source|, 0, 0
  {
    if IsPrefix(source, cursor, Closing(name)) then Close
    else if cursor == |source| then Unreadable
    else if source[cursor] == '<' then
      match Parse(alphanumeric, source[cursor..], depth + 1)
      case None => Unreadable
      case Some(child) => Child(child)
    else if source[cursor] == '{' then
      match ExpressionEnd(source[cursor..])
      case None => Unreadable
      case Some(length) => OwnText(length)
    else OwnText(1)
  }

  /** The rest of an element whose opening tag and first children have been read. */
  function ParseChildren(alphanumeric: set<char>, source: string, depth: nat, open: string, name: string, cursor: nat,
      children: seq<Markup>, mixed: bool): (r: Option<Markup>)
    requires 1 < cursor <= |source|
    ensures r.Some? ==> 1 < |r.value.source| <= |source|
    decreases |source|, 1, |source| - cursor
  {
    match NextPart(alphanumeric, source, depth, name, cursor)
    case Close => Some(Markup(source[..cursor + |Closing(name)|], open, Closing(name), children, mixed))
    case Child(child) => ParseChildren(alphanumeric, source, depth, open, name, cursor + |child.source|,
        children + [child], mixed)
    case OwnText(length) => ParseChildren(alphanumeric, source, depth, open, name, cursor + length, children, true)
    case Unreadable => None
  }

  method ParseMarkup(alphanumeric: set<char>, source: string, depth: nat) returns (r: Option<Markup>)
    ensures r == Parse(alphanumeric, source, depth)
    decreases |source|, 2
  {
    if depth > MAX_DEPTH || !HasPrefix(source, "<") || HasPrefix(source, "</") {
      return None;
    }
    var end := FindTagEnd(source);
    if end.None? {
      return None;
    }
    var open := source[..end.value];
    var name := TagName(alphanumeric, open);
    if name.None? {
      return None;
    }
    if HasSuffix(open, "/>") {
      return Some(Markup(open, open, "", [], false));
    }
    r := ReadChildren(alphanumeric, source, depth, open, name.value, end.value);
  }

  method ReadChildren(alphanumeric: set<char>, source: string, depth: nat, open: string, name: string,
      start: nat) returns (r: Option<Markup>)
    requires 1 < start <= |source|
    ensures r == ParseChildren(alphanumeric, source, depth, open, name, start, [], KeepsText(name))
    decreases |source|, 1
  {
    var cursor := start;
    var children: seq<Markup> := [];
    var mixed := KeepsText(name);
    ghost var goal := ParseChildren(alphanumeric, source, depth, open, name, start, [], mixed);
    while true
      invariant 1 < cursor <= |source|
      invariant ParseChildren(alphanumeric, source, depth, open, name, cursor, children, mixed) == goal
      decreases |source| - cursor
    {
      var part := ReadPart(alphanumeric, source, depth, name, cursor);
      match part {
        case Close =>
          return Some(Markup(source[..cursor + |Closing(name)|], open, Closing(name), children, mixed));
        case Child(child) =>
          children := children + [child];
          cursor := cursor + |child.source|;
        case OwnText(length) =>
          mixed := true;
          cursor := cursor + length;
        case Unreadable =>
          return None;
      }
    }
  }

  method ReadPart(alphanumeric: set<char>, source: string, depth: nat, name: string, cursor: nat) returns (p: Part)
    requires 1 < cursor <= |source|
    ensures p == NextPart(alphanumeric, source, depth, name, cursor)
    decreases |source|, 0
  {
    if IsPrefix(source, cursor, Closing(name)) {
      return Close;
    }
    if cursor == |source| {
      return Unreadable;
    }
    if source[cursor] == '<' {
      var child := ParseMarkup(alphanumeric, source[cursor..], depth + 1);
      p := if child.Some? then Child(child.value) else Unreadable;
    } else if source[cursor] == '{' {
      var length := FindExpressionEnd(source[cursor..]);
      p := if length.Some? then OwnText(length.value) else Unreadable;
    } else {
      p := OwnText(1);
    }
  }

  // What parsed elements are made of ------------------------------------------------------------

  function Sources(nodes: seq<Markup>): string {
    if nodes == [] then "" else nodes[0].source + Sources(nodes[1..])
  }

  lemma {:induction false} SourcesConcat(nodes: seq<Markup>, node: Markup)
    ensures Sources(nodes + [node]) == Sources(nodes) + node.source
  {
    if nodes == [] {
      assert nodes + [node] == [node] && [node][1..] == [];
    } else {
      assert (nodes + [node])[1..] == nodes[1..] + [node];
      SourcesConcat(nodes[1..], node);
      assert nodes[0].source + (Sources(nodes[1..]) + node.source)
          == nodes[0].source + Sources(nodes[1..]) + node.source;
    }
  }

  lemma {:induction false} ParsedIsPrefix(alphanumeric: set<char>, source: string, depth: nat)
    requires Parse(alphanumeric, source, depth).Some?
    ensures var node := Parse(alphanumeric, source, depth).value; node.source == source[..|node.source|]
  {
    var end := TagEnd(source).value;
    var open := source[..end];
    var name := TagName(alphanumeric, open).value;
    if !HasSuffix(open, "/>") {
      ChildrenArePrefix(alphanumeric, source, depth, open, name, end, [], KeepsText(name));
    }
  }

  lemma {:induction false} ChildrenArePrefix(alphanumeric: set<char>, source: string, depth: nat, open: string,
      name: string, cursor: nat, children: seq<Markup>, mixed: bool)
    requires 1 < cursor <= |source|
    requires ParseChildren(alphanumeric, source, depth, open, name, cursor, children, mixed).Some?
    ensures var node := ParseChildren(alphanumeric, source, depth, open, name, cursor, children,
              mixed).value; node.source == source[..|node.source|]
    decreases |source| - cursor
  {
    match NextPart(alphanumeric, source, depth, name, cursor) {
      case Close =>
      case Child(child) => ChildrenArePrefix(alphanumeric, source, depth, open, name, cursor + |child.source|,
          children + [child], mixed);
      case OwnText(length) => ChildrenArePrefix(alphanumeric, source, depth, open, name, cursor + length, children,
          true);
    }
  }

  /** Without text of its own, an element is its opening tag, its children and its closing tag. */
  predicate Whole(node: Markup) {
    && (!node.mixed ==> node.source == node.open + Sources(node.children) + node.close)
    && forall child <- node.children :: Whole(child)
  }

  lemma {:induction false} ParsedIsWhole(alphanumeric: set<char>, source: string, depth: nat)
    requires Parse(alphanumeric, source, depth).Some?
    ensures Whole(Parse(alphanumeric, source, depth).value)
    decreases |source|, 1, 0
  {
    var end := TagEnd(source).value;
    var open := source[..end];
    var name := TagName(alphanumeric, open).value;
    if !HasSuffix(open, "/>") {
      assert source[end..end] == "";
      ChildrenAreWhole(alphanumeric, source, depth, open, name, end, [], KeepsText(name));
    }
  }

  lemma {:induction false} ChildrenAreWhole(alphanumeric: set<char>, source: string, depth: nat, open: string,
      name: string, cursor: nat, children: seq<Markup>, mixed: bool)
    requires 1 < cursor <= |source|
    requires ParseChildren(alphanumeric, source, depth, open, name, cursor, children, mixed).Some?
    requires !mixed ==> source[..cursor] == open + Sources(children)
    requires forall child <- children :: Whole(child)
    ensures Whole(ParseChildren(alphanumeric, source, depth, open, name, cursor, children, mixed).value)
    decreases |source|, 0, |source| - cursor
  {
    match NextPart(alphanumeric, source, depth, name, cursor) {
      case Close =>
        assert source[..cursor + |Closing(name)|] == source[..cursor] + Closing(name);
      case Child(child) =>
        ParsedIsPrefix(alphanumeric, source[cursor..], depth + 1);
        ParsedIsWhole(alphanumeric, source[cursor..], depth + 1);
        SourcesConcat(children, child);
        ExtendPrefix(source, cursor, child.source);
        ConcatTwice(open, Sources(children), child.source);
        ChildrenAreWhole(alphanumeric, source, depth, open, name, cursor + |child.source|, children + [child], mixed);
      case OwnText(length) =>
        ChildrenAreWhole(alphanumeric, source, depth, open, name, cursor + length, children, true);
    }
  }

  lemma ExtendPrefix(source: string, cursor: nat, part: string)
    requires cursor <= |source| && |part| <= |source[cursor..]| && part == source[cursor..][..|part|]
    ensures source[..cursor + |part|] == source[..cursor] + part
  {
  }

  // Expansion -----------------------------------------------------------------------------------

  predicate IsLeaf(node: Markup) {
    node.mixed || node.children == []
  }

  function Emit(node: Markup, prefix: string, indent: string): seq<string>
    decreases node, 1
  {
    if IsLeaf(node) then [prefix + node.source]
    else [prefix + node.open] + EmitAll(node.children, prefix + indent, indent) + [prefix + node.close]
  }

  function EmitAll(nodes: seq<Markup>, prefix: string, indent: string): seq<string>
    decreases nodes, 0
  {
    if nodes == [] then [] else Emit(nodes[0], prefix, indent) + EmitAll(nodes[1..], prefix, indent)
  }

  /** The lines of a compact element; `sameTree` says that the parser reads both texts alike. */
  function Expand(alphanumeric: set<char>, sameTree: iset<(string, seq<string>)>, line: string,
      indent: string): Option<seq<string>> {
    match Parse(alphanumeric, line, 0)
    case None => None
    case Some(node) =>
      if |node.source| != |line| || IsLeaf(node) then None
      else
        var lines := Emit(node, "", indent);
        if (line, lines) in sameTree then Some(lines) else None
  }

  /** A line's text and how often it is indented. */
  datatype Laid = Laid(depth: nat, text: string)

  function Layout(node: Markup, depth: nat): seq<Laid>
    decreases node, 1
  {
    if IsLeaf(node) then [Laid(depth, node.source)]
    else [Laid(depth, node.open)] + LayoutAll(node.children, depth + 1) + [Laid(depth, node.close)]
  }

  function LayoutAll(nodes: seq<Markup>, depth: nat): seq<Laid>
    decreases nodes, 0
  {
    if nodes == [] then [] else Layout(nodes[0], depth) + LayoutAll(nodes[1..], depth)
  }

  function Repeat(s: string, n: nat): string {
    if n == 0 then "" else Repeat(s, n - 1) + s
  }

  function LinesOf(laid: seq<Laid>, indent: string): seq<string> {
    if laid == [] then [] else [Repeat(indent, laid[0].depth) + laid[0].text] + LinesOf(laid[1..], indent)
  }

  /** The texts one after the other, without their indents. */
  function Content(laid: seq<Laid>): string {
    if laid == [] then "" else laid[0].text + Content(laid[1..])
  }

  lemma {:induction false} LaidConcat(xs: seq<Laid>, ys: seq<Laid>, indent: string)
    ensures LinesOf(xs + ys, indent) == LinesOf(xs, indent) + LinesOf(ys, indent)
    ensures Content(xs + ys) == Content(xs) + Content(ys)
  {
    if xs == [] {
      assert xs + ys == ys;
    } else {
      assert (xs + ys)[0] == xs[0] && (xs + ys)[1..] == xs[1..] + ys;
      LaidConcat(xs[1..], ys, indent);
      ConcatTwice(xs[0].text, Content(xs[1..]), Content(ys));
    }
  }

  lemma LaidOne(depth: nat, text: string, indent: string)
    ensures LinesOf([Laid(depth, text)], indent) == [Repeat(indent, depth) + text]
            && Content([Laid(depth, text)]) == text
  {
    assert [Laid(depth, text)][1..] == [];
  }

  lemma {:induction false} EmitIsLayout(node: Markup, depth: nat, indent: string)
    requires Whole(node)
    ensures Emit(node, Repeat(indent, depth), indent) == LinesOf(Layout(node, depth), indent)
    ensures Content(Layout(node, depth)) == node.source
    decreases node, 1
  {
    if IsLeaf(node) {
      LaidOne(depth, node.source, indent);
    } else {
      EmitAllIsLayout(node.children, depth + 1, indent);
      var open, inside, close := [Laid(depth, node.open)], LayoutAll(node.children, depth + 1),
          [Laid(depth, node.close)];
      LaidOne(depth, node.open, indent);
      LaidOne(depth, node.close, indent);
      LaidConcat(open, inside, indent);
      LaidConcat(open + inside, close, indent);
    }
  }

  lemma {:induction false} EmitAllIsLayout(nodes: seq<Markup>, depth: nat, indent: string)
    requires forall node <- nodes :: Whole(node)
    ensures EmitAll(nodes, Repeat(indent, depth), indent) == LinesOf(LayoutAll(nodes, depth), indent)
    ensures Content(LayoutAll(nodes, depth)) == Sources(nodes)
    decreases nodes, 0
  {
    if nodes != [] {
      EmitIsLayout(nodes[0], depth, indent);
      EmitAllIsLayout(nodes[1..], depth, indent);
      LaidConcat(Layout(nodes[0], depth), LayoutAll(nodes[1..], depth), indent);
    }
  }

  /** Expansion only inserts line breaks and indents: without them, the lines are the original line. */
  lemma ExpansionKeepsContent(alphanumeric: set<char>, sameTree: iset<(string, seq<string>)>, line: string,
      indent: string) returns (laid: seq<Laid>)
    requires Expand(alphanumeric, sameTree, line, indent).Some?
    ensures Expand(alphanumeric, sameTree, line, indent).value == LinesOf(laid, indent)
    ensures Content(laid) == line
  {
    var node := Parse(alphanumeric, line, 0).value;
    laid := Layout(node, 0);
    ParsedIsPrefix(alphanumeric, line, 0);
    ParsedIsWhole(alphanumeric, line, 0);
    EmitIsLayout(node, 0, indent);
  }
}
