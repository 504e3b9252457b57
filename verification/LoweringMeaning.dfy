/** What the lowerer gives for a page is what the page shows, and it fails only where the page shows nothing. */
module LoweringMeaning {
  import opened Text
  import opened LoweringModel
  import opened Evaluation
  import opened Lowering
  import opened PageMeaning
  import opened PageParts
  import LoweringPromises

  // Scopes left behind ------------------------------------------------------------------------

  lemma DataLeaves(env: Env, name: string, value: Expr, scope: Scope)
    requires LowerData(env, name, value, scope).Ok?
    ensures Val(env, value, VarsOf(scope)).Ok? && LowerData(env, name, value, scope).value.nodes == []
    ensures PlaceOf(LowerData(env, name, value, scope).value.scope)
         == PlaceOf(scope).(vars := VarsOf(scope)[User(name) := Val(env, value, VarsOf(scope)).value])
  {
    ValIs(env, value, scope);
    var v := Eval(env, value, scope).value;
    PlaceBound(scope, name, v);
    DataTracks(env, name, value, scope, v);
  }

  lemma DataTracks(env: Env, name: string, value: Expr, scope: Scope, v: Value)
    requires Eval(env, value, scope) == Ok(v)
    ensures LowerData(env, name, value, scope).Ok? && LowerData(env, name, value, scope).value.nodes == []
    ensures PlaceOf(LowerData(env, name, value, scope).value.scope) == PlaceOf(scope[User(name) := v])
  {
    var bound := scope[User(name) := v];
    PlaceMarked(ReferencesItem(value, bound), bound);
    if EachRenderPath(value, bound).Some? {
      PlaceAlias(bound, name, EachRenderPath(value, bound).value);
    }
  }

  lemma PlaceAlias(scope: Scope, x: string, path: string)
    ensures PlaceOf(scope[EachParam(x) := Str(path)]) == PlaceOf(scope)
  {
    assert VarsOf(scope[EachParam(x) := Str(path)]) == VarsOf(scope);
  }

  /** A statement leaves the variables that the statements after it see. */
  lemma StatementLeaves(env: Env, fuel: nat, s: Statement, here: string, scope: Scope, slots: Slots)
    requires LowerStatement(env, fuel, s, here, scope, slots).Ok?
    ensures PlaceOf(LowerStatement(env, fuel, s, here, scope, slots).value.scope)
         == PlaceOf(scope).(vars := After(env, s, VarsOf(scope)))
  {
    if s.Data? {
      DataLeaves(env, s.name, s.value, scope);
    } else {
      OthersOnlyMark(env, fuel, s, here, scope, slots);
      PlaceMarked(true, scope);
    }
  }

  lemma OthersOnlyMark(env: Env, fuel: nat, s: Statement, here: string, scope: Scope, slots: Slots)
    requires !s.Data? && LowerStatement(env, fuel, s, here, scope, slots).Ok?
    ensures var left := LowerStatement(env, fuel, s, here, scope, slots).value.scope;
            left == scope || left == MarkIf(true, scope)
  {
    if s.Use? {
      LoweringPromises.ComponentOnlyMarks(env, fuel, s.component, scope, slots);
    }
  }

  lemma {:induction false} FromLeaves(env: Env, fuel: nat, statements: seq<Statement>, index: nat, parent: string,
      scope: Scope, slots: Slots)
    requires parent != "" && LowerFrom(env, fuel, statements, index, parent, scope, slots).Ok?
    ensures var left := PlaceOf(LowerFrom(env, fuel, statements, index, parent, scope, slots).value.scope);
            left.vars == AfterAll(env, statements, VarsOf(scope)) && left.instance == PlaceOf(scope).instance
    decreases statements
  {
    if statements != [] {
      var here := parent + "." + NatText(index);
      var first := LowerStatement(env, fuel, statements[0], here, At(scope, here), slots).value;
      PlaceAt(scope, here);
      StatementLeaves(env, fuel, statements[0], here, At(scope, here), slots);
      FromLeaves(env, fuel, statements[1..], index + 1, parent, first.scope, slots);
    }
  }

  /** After statements, the place is the same and the variables are those they declare and those before. */
  lemma StatementsLeave(env: Env, fuel: nat, statements: seq<Statement>, scope: Scope, slots: Slots)
    requires LowerStatements(env, fuel, statements, scope, slots).Ok?
    ensures PlaceOf(LowerStatements(env, fuel, statements, scope, slots).value.scope)
         == PlaceOf(scope).(vars := AfterAll(env, statements, VarsOf(scope)))
  {
    var parent := RenderPathOf(scope);
    var r := LowerFrom(env, fuel, statements, 0, parent, scope, slots).value;
    FromLeaves(env, fuel, statements, 0, parent, scope, slots);
    PlaceAt(r.scope, parent);
  }

  // What is lowered is shown ------------------------------------------------------------------

  /** The nodes that statements are lowered to are nodes that they show. */
  lemma {:induction false} StatementsShown(env: Env, fuel: nat, statements: seq<Statement>, scope: Scope, slots: Slots,
      r: Lowered)
    requires LowerStatements(env, fuel, statements, scope, slots) == Ok(r)
    ensures Shows(env, fuel, statements, PlaceOf(scope), slots, r.nodes)
    decreases fuel, slots, statements, 3
  {
    var parent := RenderPathOf(scope);
    var inner := LowerFrom(env, fuel, statements, 0, parent, scope, slots).value;
    FromShown(env, fuel, statements, 0, parent, scope, slots);
    FinishedNodes(env, fuel, statements, scope, slots);
    FromIsShown(env, fuel, statements, PlaceOf(scope), slots, inner.nodes);
  }

  lemma FinishedNodes(env: Env, fuel: nat, statements: seq<Statement>, scope: Scope, slots: Slots)
    requires LowerStatements(env, fuel, statements, scope, slots).Ok?
    ensures LowerFrom(env, fuel, statements, 0, RenderPathOf(scope), scope, slots).Ok?
    ensures var nodes := LowerStatements(env, fuel, statements, scope, slots).value.nodes;
            var r := LowerFrom(env, fuel, statements, 0, RenderPathOf(scope), scope, slots).value;
            nodes == r.nodes || nodes == r.nodes + [MARKER]
  {
  }

  lemma FromIsShown(env: Env, fuel: nat, statements: seq<Statement>, p: Place, slots: Slots, nodes: seq<Node>)
    requires ShowsFrom(env, fuel, statements, 0, p, slots, nodes)
    ensures Shows(env, fuel, statements, p, slots, nodes) && Shows(env, fuel, statements, p, slots, nodes + [MARKER])
  {
    assert (nodes + [MARKER])[..|nodes|] == nodes;
  }

  lemma {:induction false} FromShown(env: Env, fuel: nat, statements: seq<Statement>, index: nat, parent: string,
      scope: Scope, slots: Slots)
    requires parent != "" && LowerFrom(env, fuel, statements, index, parent, scope, slots).Ok?
    ensures ShowsFrom(env, fuel, statements, index, PlaceOf(scope).(path := parent), slots,
              LowerFrom(env, fuel, statements, index, parent, scope, slots).value.nodes)
    decreases fuel, slots, statements, 2
  {
    if statements != [] {
      var here := parent + "." + NatText(index);
      var first := LowerStatement(env, fuel, statements[0], here, At(scope, here), slots).value;
      var rest := LowerFrom(env, fuel, statements[1..], index + 1, parent, first.scope, slots).value;
      PlaceAt(scope, here);
      StatementShown(env, fuel, statements[0], here, At(scope, here), slots, first);
      StatementLeaves(env, fuel, statements[0], here, At(scope, here), slots);
      FromShown(env, fuel, statements[1..], index + 1, parent, first.scope, slots);
      ConcatTwice(parent, ".", NatText(index));
      OneMoreShown(env, fuel, statements, index, PlaceOf(scope).(path := parent), slots, first.nodes, rest.nodes);
    }
  }

  lemma OneMoreShown(env: Env, fuel: nat, statements: seq<Statement>, index: nat, p: Place, slots: Slots,
      first: seq<Node>, rest: seq<Node>)
    requires statements != [] && ShowsOne(env, fuel, statements[0], Below(p, "." + NatText(index)), slots, first)
    requires ShowsFrom(env, fuel, statements[1..], index + 1, p.(vars := After(env, statements[0], p.vars)), slots,
               rest)
    ensures ShowsFrom(env, fuel, statements, index, p, slots, first + rest)
  {
    BothParts(first, rest);
  }

  lemma BothParts(a: seq<Node>, b: seq<Node>)
    ensures (a + b)[..|a|] == a && (a + b)[|a|..] == b
  {
  }

  lemma {:induction false} StatementShown(env: Env, fuel: nat, s: Statement, here: string, scope: Scope, slots: Slots,
      r: Lowered)
    requires here == RenderPathOf(scope) && LowerStatement(env, fuel, s, here, scope, slots) == Ok(r)
    ensures ShowsOne(env, fuel, s, PlaceOf(scope), slots, r.nodes)
    decreases fuel, slots, s, 2
  {
    if s.Data? || s.TextOf? {
      LeafShown(env, fuel, s, here, scope, slots, r);
    } else if s.Use? {
      UseShown(env, fuel, s, here, scope, slots, r);
    } else {
      BranchesShown(env, fuel, s, here, scope, slots, r);
    }
  }

  lemma LeafShown(env: Env, fuel: nat, s: Statement, here: string, scope: Scope, slots: Slots, r: Lowered)
    requires s.Data? || s.TextOf?
    requires LowerStatement(env, fuel, s, here, scope, slots) == Ok(r)
    ensures ShowsOne(env, fuel, s, PlaceOf(scope), slots, r.nodes)
  {
    if s.Data? {
      DataLeaves(env, s.name, s.value, scope);
    } else {
      TextShown(env, s.text, scope);
    }
  }

  lemma {:induction false} BranchesShown(env: Env, fuel: nat, s: Statement, here: string, scope: Scope, slots: Slots,
      r: Lowered)
    requires s.If? || s.Match? || s.Each? || s.Pipeline?
    requires here == RenderPathOf(scope) && LowerStatement(env, fuel, s, here, scope, slots) == Ok(r)
    ensures ShowsOne(env, fuel, s, PlaceOf(scope), slots, r.nodes)
    decreases fuel, slots, s, 1
  {
    match s {
      case If(_, _, _) => IfShown(env, fuel, s, here, scope, slots, r);
      case Match(_, _, _) => MatchShown(env, fuel, s, here, scope, slots, r);
      case Each(_, _, _, _, _) => EachShown(env, fuel, s, here, scope, slots, r);
      case Pipeline(_, _) => PipelineShown(env, fuel, s, scope, slots, r);
    }
  }

  lemma UseShown(env: Env, fuel: nat, s: Statement, here: string, scope: Scope, slots: Slots, r: Lowered)
    requires s.Use? && LowerStatement(env, fuel, s, here, scope, slots) == Ok(r)
    ensures ShowsComponent(env, fuel, s.component, PlaceOf(scope), slots, r.nodes)
    decreases fuel, slots, s, 0
  {
    ComponentShown(env, fuel, s.component, scope, slots);
  }

  lemma TextShown(env: Env, e: Expr, scope: Scope)
    requires LowerText(env, e, scope).Ok?
    ensures var r := Val(env, e, VarsOf(scope));
            r.Ok? && ShowsText(AsString(r.value), LowerText(env, e, scope).value.nodes)
  {
    ValIs(env, e, scope);
    var path := EachRenderPath(e, scope);
    if path.Some? {
      TargetIsText(path.value, AsString(Eval(env, e, scope).value));
    }
  }

  lemma TargetIsText(path: string, text: string)
    ensures ShowsText(text, [TargetNode(path, text)])
  {
    assert TargetNode(path, text).attrs == map["style" := "display: contents", "data-ax-each-render-target" := "text",
        "data-ax-each-render-path" := path];
  }

  lemma NestedPlace(bad: bool, scope: Scope, path: string)
    requires path != ""
    ensures PlaceOf(At(MarkIf(bad, scope), path)) == PlaceOf(scope).(path := path)
  {
    PlaceMarked(bad, scope);
    PlaceAt(MarkIf(bad, scope), path);
  }

  lemma ValMarked(env: Env, e: Expr, bad: bool, scope: Scope)
    ensures Val(env, e, VarsOf(scope)) == Eval(env, e, MarkIf(bad, scope))
  {
    PlaceMarked(bad, scope);
    ValIs(env, e, MarkIf(bad, scope));
  }

  lemma {:induction false} NonemptyShown(env: Env, fuel: nat, body: seq<Statement>, nested: Scope, slots: Slots,
      r: Lowered)
    requires LowerNonempty(env, fuel, body, nested, slots) == Ok(r)
    ensures Shows(env, fuel, body, PlaceOf(nested), slots, r.nodes)
    decreases fuel, slots, body, 4
  {
    if body != [] {
      StatementsShown(env, fuel, body, nested, slots, r);
    }
  }

  lemma {:induction false} IfShown(env: Env, fuel: nat, s: Statement, here: string, scope: Scope, slots: Slots,
      r: Lowered)
    requires s.If? && here == RenderPathOf(scope) && LowerIf(env, fuel, s, here, scope, slots) == Ok(r)
    ensures ShowsIf(env, fuel, s, PlaceOf(scope), slots, r.nodes)
    decreases fuel, slots, s, 0
  {
    var bad := ReferencesItem(s.condition, scope);
    ValMarked(env, s.condition, bad, scope);
    var v := Eval(env, s.condition, MarkIf(bad, scope)).value;
    var path := here + (if Truthy(v) then ".if1" else ".if0");
    NestedPlace(bad, scope, path);
    var body, at := if Truthy(v) then s.body else s.elseBody, At(MarkIf(bad, scope), path);
    NonemptyShown(env, fuel, body, at, slots, LowerNonempty(env, fuel, body, at, slots).value);
  }

  lemma {:induction false} MatchShown(env: Env, fuel: nat, s: Statement, here: string, scope: Scope, slots: Slots,
      r: Lowered)
    requires s.Match? && here == RenderPathOf(scope) && LowerMatch(env, fuel, s, here, scope, slots) == Ok(r)
    ensures ShowsMatch(env, fuel, s, PlaceOf(scope), slots, r.nodes)
    decreases fuel, slots, s, 0
  {
    var bad := ReferencesItem(s.value, scope);
    var v := Eval(env, s.value, MarkIf(bad, scope)).value;
    var body, at := CaseBody(s, AsString(v)), At(MarkIf(bad, scope), here + ".match");
    MatchedNodes(env, fuel, s, here, scope, slots, v, body, at, r);
    var inner := LowerNonempty(env, fuel, body, at, slots).value;
    NonemptyShown(env, fuel, body, at, slots, inner);
    MatchIsShown(env, fuel, s, here, scope, slots, v, body, at, inner.nodes);
  }

  lemma MatchedNodes(env: Env, fuel: nat, s: Statement, here: string, scope: Scope, slots: Slots, v: Value,
      body: seq<Statement>, at: Scope, r: Lowered)
    requires s.Match? && LowerMatch(env, fuel, s, here, scope, slots) == Ok(r)
    requires var bad := ReferencesItem(s.value, scope);
             Eval(env, s.value, MarkIf(bad, scope)) == Ok(v) && at == At(MarkIf(bad, scope), here + ".match")
    requires body == CaseBody(s, AsString(v))
    ensures LowerNonempty(env, fuel, body, at, slots).Ok?
    ensures r.nodes == LowerNonempty(env, fuel, body, at, slots).value.nodes
  {
  }

  function CaseBody(s: Statement, text: string): seq<Statement>
    requires s.Match?
  {
    var found := FindCase(s.cases, text);
    if found.Some? then s.cases[found.value].body else s.defaultBody
  }

  lemma MatchIsShown(env: Env, fuel: nat, s: Statement, here: string, scope: Scope, slots: Slots, v: Value,
      body: seq<Statement>, at: Scope, nodes: seq<Node>)
    requires s.Match? && here == RenderPathOf(scope) && body == CaseBody(s, AsString(v))
    requires var bad := ReferencesItem(s.value, scope);
             Eval(env, s.value, MarkIf(bad, scope)) == Ok(v) && at == At(MarkIf(bad, scope), here + ".match")
    requires Shows(env, fuel, body, PlaceOf(at), slots, nodes)
    ensures ShowsMatch(env, fuel, s, PlaceOf(scope), slots, nodes)
  {
    ValMarked(env, s.value, ReferencesItem(s.value, scope), scope);
    NestedPlace(ReferencesItem(s.value, scope), scope, here + ".match");
    CaseIsShown(env, fuel, s, PlaceOf(scope), slots, v, nodes);
  }

  lemma CaseIsShown(env: Env, fuel: nat, s: Statement, p: Place, slots: Slots, v: Value, nodes: seq<Node>)
    requires s.Match? && Val(env, s.value, p.vars) == Ok(v)
    requires Shows(env, fuel, CaseBody(s, AsString(v)), Below(p, ".match"), slots, nodes)
    ensures ShowsMatch(env, fuel, s, p, slots, nodes)
  {
    CaseExactly(s.cases, AsString(v));
  }

  lemma ListNodeIs(binding: string, key: Expr, kind: string, children: seq<Node>)
    ensures KeyedNode(binding, key, kind, children) ==
            ListNode(binding, kind, KeyPath(key, binding),
              if exists child <- children :: child.Element? && child.tag == "template" then "ready" else "fallback",
              children)
    ensures IsKeyPath(key, binding, KeyPath(key, binding))
  {
    KeyPathExactly(key, binding, KeyPath(key, binding));
    var ready := exists child <- children :: child.Element? && child.tag == "template";
    assert KeyedNode(binding, key, kind, children).attrs == map["style" := "display: contents",
        "data-ax-each-protocol" := "ax-each/1", "data-ax-each-binding" := binding, "data-ax-each-key-kind" := kind,
        "data-ax-each-key-path" := KeyPath(key, binding),
        "data-ax-each-render-status" := if ready then "ready" else "fallback"];
  }

  lemma {:induction false} EachShown(env: Env, fuel: nat, s: Statement, here: string, scope: Scope, slots: Slots,
      r: Lowered)
    requires s.Each? && here == RenderPathOf(scope) && LowerEach(env, fuel, s, here, scope, slots) == Ok(r)
    ensures ShowsEach(env, fuel, s, PlaceOf(scope), slots, r.nodes)
    decreases fuel, slots, s, 0
  {
    var bad := ReferencesItem(s.source, scope);
    var marked := MarkIf(bad, scope);
    ValMarked(env, s.source, bad, scope);
    PlaceMarked(bad, scope);
    var items := Eval(env, s.source, marked).value.items;
    if items == [] {
      EmptyShown(env, fuel, s, marked, slots);
    } else if s.key.None? {
      ItemsShown(env, fuel, s.binding, s.body, here, marked, slots, items, 0);
    } else {
      KeyedShown(env, fuel, s.binding, s.key.value, s.body, here, marked, slots, items);
    }
  }

  lemma {:induction false} EmptyShown(env: Env, fuel: nat, s: Statement, scope: Scope, slots: Slots)
    requires s.Each? && LowerStatements(env, fuel, s.emptyBody, scope, slots).Ok?
    ensures ShowsEmpty(env, fuel, s, PlaceOf(scope), slots,
              EmptyEachNodes(s, LowerStatements(env, fuel, s.emptyBody, scope, slots).value.nodes))
    decreases fuel, slots, s.emptyBody, 4
  {
    StatementsShown(env, fuel, s.emptyBody, scope, slots, LowerStatements(env, fuel, s.emptyBody, scope, slots).value);
    EmptyIsShown(env, fuel, s, PlaceOf(scope), slots,
        LowerStatements(env, fuel, s.emptyBody, scope, slots).value.nodes);
  }

  lemma EmptyIsShown(env: Env, fuel: nat, s: Statement, p: Place, slots: Slots, inner: seq<Node>)
    requires s.Each? && Shows(env, fuel, s.emptyBody, p, slots, inner)
    ensures ShowsEmpty(env, fuel, s, p, slots, EmptyEachNodes(s, inner))
  {
    if s.key.Some? {
      var fallback := if inner == [] then [] else [Element("ax-each-empty", CONTENTS, [], inner)];
      ListNodeIs(s.binding, s.key.value, "", fallback);
      assert EmptyEachNodes(s, inner)
          == [ListNode(s.binding, "", KeyPath(s.key.value, s.binding), "fallback", fallback)];
    }
  }

  lemma {:induction false} ItemsShown(env: Env, fuel: nat, binding: string, body: seq<Statement>, here: string,
      scope: Scope, slots: Slots, items: seq<Value>, index: nat)
    requires here == RenderPathOf(scope)
    requires LowerItems(env, fuel, binding, body, here, scope, slots, items, index).Ok?
    ensures ShowsItems(env, fuel, binding, body, PlaceOf(scope), slots, items, index,
              LowerItems(env, fuel, binding, body, here, scope, slots, items, index).value.nodes)
    decreases fuel, slots, body, 4, |items|
  {
    if items != [] {
      var path := here + ".each" + NatText(index);
      var nested := At(scope[User(binding) := items[0]], path);
      var first := LowerStatements(env, fuel, body, nested, slots).value;
      var rest := LowerItems(env, fuel, binding, body, here, scope, slots, items[1..], index + 1).value;
      ConcatTwice(here, ".each", NatText(index));
      PlaceBound(scope, binding, items[0]);
      PlaceAt(scope[User(binding) := items[0]], path);
      StatementsShown(env, fuel, body, nested, slots, first);
      ItemsShown(env, fuel, binding, body, here, scope, slots, items[1..], index + 1);
      BothParts(first.nodes, rest.nodes);
    }
  }

  // Keyed loops -------------------------------------------------------------------------------

  lemma {:induction false} ItemShown(env: Env, fuel: nat, binding: string, key: Expr, body: seq<Statement>,
      here: string, scope: Scope, slots: Slots, item: Value, seen: set<string>, kind: Option<string>)
    requires here == RenderPathOf(scope)
    requires AcceptKey(env, key, ItemScope(scope, binding, item), seen, kind).Ok?
    requires var identity := AcceptKey(env, key, ItemScope(scope, binding, item), seen, kind).value;
             LowerItem(env, fuel, binding, body, ItemPath(env, here, identity.0 + ":" + identity.1), scope, slots,
               item).Ok?
    ensures var identity := AcceptKey(env, key, ItemScope(scope, binding, item), seen, kind).value;
            var id := identity.0 + ":" + identity.1;
            ShowsItem(env, fuel, binding, key, body, PlaceOf(scope), slots, item, identity.0, identity.1,
              EachItemNode(identity,
                LowerItem(env, fuel, binding, body, ItemPath(env, here, id), scope, slots, item).value.nodes))
    decreases fuel, slots, body, 4
  {
    var inLoop := ItemScope(scope, binding, item);
    var identity := AcceptKey(env, key, inLoop, seen, kind).value;
    var path := ItemPath(env, here, identity.0 + ":" + identity.1);
    var r := LowerItem(env, fuel, binding, body, path, scope, slots, item).value;
    StatementsShown(env, fuel, body, At(inLoop, path), slots, r);
    ItemIsShown(env, fuel, binding, key, body, here, scope, slots, item, seen, kind, path, r.nodes);
  }

  lemma ItemIsShown(env: Env, fuel: nat, binding: string, key: Expr, body: seq<Statement>, here: string, scope: Scope,
      slots: Slots, item: Value, seen: set<string>, kind: Option<string>, path: string, children: seq<Node>)
    requires here == RenderPathOf(scope)
    requires AcceptKey(env, key, ItemScope(scope, binding, item), seen, kind).Ok?
    requires var identity := AcceptKey(env, key, ItemScope(scope, binding, item), seen, kind).value;
             path == ItemPath(env, here, identity.0 + ":" + identity.1)
    requires Shows(env, fuel, body, PlaceOf(At(ItemScope(scope, binding, item), path)), slots, children)
    ensures var identity := AcceptKey(env, key, ItemScope(scope, binding, item), seen, kind).value;
            ShowsItem(env, fuel, binding, key, body, PlaceOf(scope), slots, item, identity.0, identity.1,
              EachItemNode(identity, children))
  {
    var inLoop := ItemScope(scope, binding, item);
    var identity := AcceptKey(env, key, inLoop, seen, kind).value;
    KeyIs(env, key, scope, binding, item, seen, kind);
    PlaceInLoop(scope, binding, item);
    ConcatTwice(here, ".key", env.hash(identity.0 + ":" + identity.1));
    PlaceAt(inLoop, path);
    ItemNodeIs(identity, children);
  }

  lemma KeyIs(env: Env, key: Expr, scope: Scope, binding: string, item: Value, seen: set<string>, kind: Option<string>)
    requires AcceptKey(env, key, ItemScope(scope, binding, item), seen, kind).Ok?
    ensures var (k, text) := AcceptKey(env, key, ItemScope(scope, binding, item), seen, kind).value;
            var r := Val(env, key, VarsOf(scope)[User(binding) := item]);
            && r.Ok? && IsKey(r.value, k, text)
            && k + ":" + text !in seen && (kind.Some? ==> kind.value == k)
  {
    var inLoop := ItemScope(scope, binding, item);
    PlaceInLoop(scope, binding, item);
    ValIs(env, key, inLoop);
    var identity := AcceptKey(env, key, inLoop, seen, kind).value;
    KeyExactly(Eval(env, key, inLoop).value, identity.0, identity.1);
  }

  lemma ItemNodeIs(identity: (string, string), children: seq<Node>)
    ensures EachItemNode(identity, children) ==
            Element("ax-each-item", map["style" := "display: contents", "data-ax-each-key" := identity.1,
                "data-ax-each-key-id" := identity.0 + ":" + identity.1], [], children)
  {
  }

  predicate AreItems(children: seq<Node>) {
    forall child <- children :: child.Element? && child.tag == "ax-each-item"
  }

  lemma {:induction false} AllItemsShown(env: Env, fuel: nat, binding: string, key: Expr, body: seq<Statement>,
      here: string, scope: Scope, slots: Slots, items: seq<Value>, seen: set<string>, kind: Option<string>)
    requires here == RenderPathOf(scope)
    requires LowerKeyed(env, fuel, binding, key, body, here, scope, slots, items, seen, kind).Ok?
    ensures var r := LowerKeyed(env, fuel, binding, key, body, here, scope, slots, items, seen, kind).value;
            ShowsAllItems(env, fuel, binding, key, body, PlaceOf(scope), slots, items, seen, r.kind, r.children)
    decreases fuel, slots, body, 5, |items|
  {
    if items != [] {
      var identity := AcceptKey(env, key, ItemScope(scope, binding, items[0]), seen, kind).value;
      var id := identity.0 + ":" + identity.1;
      KeyedParts(env, fuel, binding, key, body, here, scope, slots, items, seen, kind, identity, id);
      ItemShown(env, fuel, binding, key, body, here, scope, slots, items[0], seen, kind);
      AllItemsShown(env, fuel, binding, key, body, here, scope, slots, items[1..], seen + {id}, Some(identity.0));
      KindStays(env, fuel, binding, key, body, here, scope, slots, items[1..], seen + {id}, Some(identity.0));
      KeyIs(env, key, scope, binding, items[0], seen, kind);
      var first := LowerItem(env, fuel, binding, body, ItemPath(env, here, id), scope, slots, items[0]).value;
      var rest := LowerKeyed(env, fuel, binding, key, body, here, scope, slots, items[1..], seen + {id},
          Some(identity.0)).value;
      OneMoreItem(env, fuel, binding, key, body, PlaceOf(scope), slots, items, seen, identity,
          EachItemNode(identity, first.nodes), rest.children);
    }
  }

  lemma {:induction false} KindStays(env: Env, fuel: nat, binding: string, key: Expr, body: seq<Statement>,
      here: string, scope: Scope, slots: Slots, items: seq<Value>, seen: set<string>, kind: Option<string>)
    requires LowerKeyed(env, fuel, binding, key, body, here, scope, slots, items, seen, kind).Ok? && kind.Some?
    ensures LowerKeyed(env, fuel, binding, key, body, here, scope, slots, items, seen, kind).value.kind == kind.value
    decreases |items|
  {
    if items != [] {
      var identity := AcceptKey(env, key, ItemScope(scope, binding, items[0]), seen, kind).value;
      var id := identity.0 + ":" + identity.1;
      KindStays(env, fuel, binding, key, body, here, scope, slots, items[1..], seen + {id}, Some(identity.0));
    }
  }

  /** The first item of a keyed loop, and the others. */
  lemma KeyedParts(env: Env, fuel: nat, binding: string, key: Expr, body: seq<Statement>, here: string, scope: Scope,
      slots: Slots, items: seq<Value>, seen: set<string>, kind: Option<string>, identity: (string, string), id: string)
    requires items != [] && LowerKeyed(env, fuel, binding, key, body, here, scope, slots, items, seen, kind).Ok?
    requires AcceptKey(env, key, ItemScope(scope, binding, items[0]), seen, kind) == Ok(identity)
    requires id == identity.0 + ":" + identity.1
    ensures LowerItem(env, fuel, binding, body, ItemPath(env, here, id), scope, slots, items[0]).Ok?
    ensures var first := LowerItem(env, fuel, binding, body, ItemPath(env, here, id), scope, slots, items[0]).value;
            var rest := LowerKeyed(env, fuel, binding, key, body, here, scope, slots, items[1..], seen + {id},
              Some(identity.0));
            var r := LowerKeyed(env, fuel, binding, key, body, here, scope, slots, items, seen, kind).value;
            && rest.Ok? && r.kind == rest.value.kind
            && r.children == [EachItemNode(identity, first.nodes)] + rest.value.children
            && (r.template == Some(first.nodes) || r.template == rest.value.template)
  {
  }

  lemma OneMoreItem(env: Env, fuel: nat, binding: string, key: Expr, body: seq<Statement>, p: Place, slots: Slots,
      items: seq<Value>, seen: set<string>, identity: (string, string), first: Node, rest: seq<Node>)
    requires items != [] && identity.0 + ":" + identity.1 !in seen
    requires ShowsItem(env, fuel, binding, key, body, p, slots, items[0], identity.0, identity.1, first)
    requires ShowsAllItems(env, fuel, binding, key, body, p, slots, items[1..], seen + {identity.0 + ":" + identity.1},
               identity.0, rest)
    ensures ShowsAllItems(env, fuel, binding, key, body, p, slots, items, seen, identity.0, [first] + rest)
  {
    assert ([first] + rest)[0] == first && ([first] + rest)[1..] == rest;
  }

  lemma {:induction false} KeyedIsItems(env: Env, fuel: nat, binding: string, key: Expr, body: seq<Statement>,
      here: string, scope: Scope, slots: Slots, items: seq<Value>, seen: set<string>, kind: Option<string>)
    requires LowerKeyed(env, fuel, binding, key, body, here, scope, slots, items, seen, kind).Ok?
    ensures var r := LowerKeyed(env, fuel, binding, key, body, here, scope, slots, items, seen, kind).value;
            AreItems(r.children) && IsTemplateOf(r.children, TemplateNodes(r.template))
    decreases |items|
  {
    if items != [] {
      var identity := AcceptKey(env, key, ItemScope(scope, binding, items[0]), seen, kind).value;
      var id := identity.0 + ":" + identity.1;
      KeyedIsItems(env, fuel, binding, key, body, here, scope, slots, items[1..], seen + {id}, Some(identity.0));
      var r := LowerKeyed(env, fuel, binding, key, body, here, scope, slots, items, seen, kind).value;
      assert r.children[0] in r.children && forall e <- r.children[1..] :: e in r.children;
    }
  }

  lemma {:induction false} KeyedShown(env: Env, fuel: nat, binding: string, key: Expr, body: seq<Statement>,
      here: string, scope: Scope, slots: Slots, items: seq<Value>)
    requires here == RenderPathOf(scope)
    requires LowerKeyed(env, fuel, binding, key, body, here, scope, slots, items, {}, None).Ok?
    ensures var r := LowerKeyed(env, fuel, binding, key, body, here, scope, slots, items, {}, None).value;
            ShowsKeyed(env, fuel, binding, key, body, PlaceOf(scope), slots, items,
              [KeyedNode(binding, key, r.kind, r.children + TemplateNodes(r.template))])
    decreases fuel, slots, body, 6
  {
    var r := LowerKeyed(env, fuel, binding, key, body, here, scope, slots, items, {}, None).value;
    AllItemsShown(env, fuel, binding, key, body, here, scope, slots, items, {}, None);
    KeyedIsItems(env, fuel, binding, key, body, here, scope, slots, items, {}, None);
    KeyedNodeIs(binding, key, r.kind, r.children, r.template);
  }

  lemma KeyedNodeIs(binding: string, key: Expr, kind: string, elements: seq<Node>, template: Option<seq<Node>>)
    requires AreItems(elements)
    ensures KeyedNode(binding, key, kind, elements + TemplateNodes(template)) ==
            ListNode(binding, kind, KeyPath(key, binding),
              if TemplateNodes(template) == [] then "fallback" else "ready",
              elements + TemplateNodes(template))
    ensures IsKeyPath(key, binding, KeyPath(key, binding))
  {
    var children := elements + TemplateNodes(template);
    ListNodeIs(binding, key, kind, children);
    if template.Some? {
      assert children[|elements|].tag == "template" && children[|elements|] in children;
    }
  }

  // Pipelines ---------------------------------------------------------------------------------

  lemma {:induction false} PipelineShown(env: Env, fuel: nat, s: Statement, scope: Scope, slots: Slots,
      r: Lowered)
    requires s.Pipeline? && LowerPipeline(env, fuel, s, scope, slots) == Ok(r)
    ensures ShowsPipeline(env, fuel, s, PlaceOf(scope), slots, r.nodes)
    decreases fuel, slots, s, 0
  {
    var bad := ReferencesItem(s.source, scope);
    ValMarked(env, s.source, bad, scope);
    PlaceMarked(bad, scope);
    var v := Eval(env, s.source, MarkIf(bad, scope)).value;
    StagesShown(env, fuel, s.stages, MarkIf(bad, scope), slots);
    SectionIs(v, LowerStages(env, fuel, s.stages, MarkIf(bad, scope), slots).value.nodes);
  }

  lemma SectionIs(v: Value, inner: seq<Node>)
    ensures PipelineElement(v, inner) == Element("section",
              if v.List? then map["data-ax-pipeline" := "true", "data-items" := NatText(|v.items|)]
              else map["data-ax-pipeline" := "true"], [], [TextNode(AsString(v))] + inner)
  {
  }

  lemma {:induction false} StagesShown(env: Env, fuel: nat, stages: seq<Stage>, scope: Scope, slots: Slots)
    requires LowerStages(env, fuel, stages, scope, slots).Ok?
    ensures ShowsStages(env, fuel, stages, PlaceOf(scope), slots,
              LowerStages(env, fuel, stages, scope, slots).value.nodes)
    decreases fuel, slots, stages, 0
  {
    if stages != [] {
      var first := LowerStage(env, fuel, stages[0], scope, slots).value;
      var rest := LowerStages(env, fuel, stages[1..], scope, slots).value;
      StageShown(env, fuel, stages[0], scope, slots);
      StagesShown(env, fuel, stages[1..], scope, slots);
      BothParts(first.nodes, rest.nodes);
    }
  }

  lemma {:induction false} StageShown(env: Env, fuel: nat, stage: Stage, scope: Scope, slots: Slots)
    requires LowerStage(env, fuel, stage, scope, slots).Ok?
    ensures ShowsStage(env, fuel, stage, PlaceOf(scope), slots, LowerStage(env, fuel, stage, scope, slots).value.nodes)
    decreases fuel, slots, stage, 0
  {
    if stage.ComponentStage? {
      ComponentShown(env, fuel, stage.component, scope, slots);
    }
  }

  // Components --------------------------------------------------------------------------------

  lemma {:induction false} ComponentShown(env: Env, fuel: nat, c: Component, scope: Scope, slots: Slots)
    requires LowerComponentNodes(env, fuel, c, scope, slots).Ok?
    ensures ShowsComponent(env, fuel, c, PlaceOf(scope), slots,
              LowerComponentNodes(env, fuel, c, scope, slots).value.nodes)
    decreases fuel, slots, c, 2
  {
    if c.name == "Slot" {
      if slots.SlotOf? {
        SlotShown(env, fuel, c, scope, slots);
      }
    } else if c.name == "Fragment" {
      ChildrenShown(env, fuel, c, scope, slots);
    } else {
      var found := FindComponent(env.components, c.name);
      if found.Some? {
        DefinedExactly(env.components, c.name, found.value);
        LocalShown(env, fuel, c, found.value, scope, slots);
      } else {
        NotDefined(env.components, c.name);
        TagNamesExactly(c.name);
        ElementShown(env, fuel, c, scope, slots);
      }
    }
  }

  lemma NotDefined(components: seq<ComponentDef>, name: string)
    ensures FindComponent(components, name).Some? <==> IsDefined(components, name)
  {
    DefinedExactly(components, name, ComponentDef("", [], [], []));
  }

  lemma {:induction false} SlotShown(env: Env, fuel: nat, c: Component, scope: Scope, slots: Slots)
    requires c.name == "Slot" && slots.SlotOf? && LowerComponentNodes(env, fuel, c, scope, slots).Ok?
    ensures ShowsSlot(env, fuel, c, PlaceOf(scope), slots,
              LowerComponentNodes(env, fuel, c, scope, slots).value.nodes)
    decreases fuel, slots, c, 1
  {
    var requested := SlotName(env, c.props, {"name", "slot"}, scope).value;
    var selected := SelectSlot(env, slots.body, requested, scope).value;
    NamesSlotExactly(env, c.props, {"name", "slot"}, scope, requested);
    SelectsExactly(env, slots.body, requested, scope, selected);
    StatementsShown(env, fuel, selected, scope, slots.parent,
        LowerStatements(env, fuel, selected, scope, slots.parent).value);
  }

  lemma {:induction false} ChildrenShown(env: Env, fuel: nat, c: Component, scope: Scope, slots: Slots)
    requires LowerChildren(env, fuel, c, scope, slots).Ok?
    ensures ShowsChildren(env, fuel, c, PlaceOf(scope), slots, LowerChildren(env, fuel, c, scope, slots).value.nodes)
    decreases fuel, slots, c, 0
  {
    match c.body {
      case Empty =>
      case Inline(text) => TextShown(env, text, scope);
      case Block(statements) =>
        StatementsShown(env, fuel, statements, scope, slots,
            LowerStatements(env, fuel, statements, scope, slots).value);
    }
  }

  lemma {:induction false} ElementShown(env: Env, fuel: nat, c: Component, scope: Scope, slots: Slots)
    requires LowerNative(env, fuel, c, scope, slots).Ok?
    ensures ShowsElement(env, fuel, c, PlaceOf(scope), slots, LowerNative(env, fuel, c, scope, slots).value.nodes)
    decreases fuel, slots, c, 1
  {
    var inner := LowerChildren(env, fuel, c, scope, slots).value;
    ChildrenShown(env, fuel, c, scope, slots);
    LoweringPromises.ChildrenOnlyMark(env, fuel, c, scope, slots);
    PlaceMarked(true, scope);
    AttrsShown(env, c, inner.nodes, inner.scope);
    assert LowerNative(env, fuel, c, scope, slots).value.nodes
        == NativeElement(env, c, inner.nodes, inner.scope).value.nodes;
  }

  lemma AttrsShown(env: Env, c: Component, children: seq<Node>, scope: Scope)
    requires NativeElement(env, c, children, scope).Ok?
    ensures var nodes := NativeElement(env, c, children, scope).value.nodes;
            && StyleOk(env, c, VarsOf(scope))
            && |nodes| == 1 && nodes[0].Element? && nodes[0].tag == c.name && nodes[0].children == children
            && exists m ::
                 PropsAre(env, c.props, PlaceOf(scope), m) && AttrsAre(env, c, PlaceOf(scope), m, nodes[0].attrs)
  {
    var m := EvalProps(env, c.props, scope).value.props;
    StyleExactly(env, c, scope);
    PropsExactly(env, c.props, scope);
    AttrsExactly(env, c, scope, m, ElementAttrs(StyleAttrs(env, c, scope).value, m));
  }

  /** The scope a component's body starts in is the place of its body. */
  ghost predicate EntersAs(env: Env, c: Component, def: ComponentDef, scope: Scope, entry: LocalEntry) {
    && PlaceOf(entry.scope) == Place(VarsOf(entry.scope), RenderPathOf(scope), RenderPathOf(scope))
    && StyleAttrs(env, c, scope).Ok?
    && exists m, bound ::
         && PropsAre(env, c.props, PlaceOf(scope), m)
         && entry.attrs == Passthrough(def, m) + StyleAttrs(env, c, scope).value
         && Binds(env, def.params, m, VarsOf(scope), bound) && Starts(env, def.states, bound, VarsOf(entry.scope))
  }

  lemma EntryIs(env: Env, c: Component, def: ComponentDef, scope: Scope)
    requires EnterLocal(env, c, def, scope).Ok?
    ensures EntersAs(env, c, def, scope, EnterLocal(env, c, def, scope).value)
  {
    var m := EvalProps(env, c.props, scope).value.props;
    PropsExactly(env, c.props, scope);
    var own := OwnScope(c, scope);
    OwnPlace(c, scope);
    var bound := BindParams(env, def, def.params, m, own).value;
    BindingKeepsPlace(env, def, def.params, m, own);
    BindsExactly(env, def, def.params, m, own, VarsOf(own), VarsOf(bound));
    StartingKeepsPlace(env, def.states, bound);
    var ready := BindStates(env, def.states, bound).value;
    StartsExactly(env, def.states, bound, VarsOf(bound), VarsOf(ready));
    assert EnterLocal(env, c, def, scope).value.scope == ready;
    assert EnterLocal(env, c, def, scope).value.attrs == Passthrough(def, m) + StyleAttrs(env, c, scope).value;
    assert Binds(env, def.params, m, VarsOf(scope), VarsOf(bound));
  }

  function OwnScope(c: Component, scope: Scope): Scope {
    PropagateParams(c.props, scope, scope[InstancePath := Str(RenderPathOf(scope))])
  }

  lemma OwnPlace(c: Component, scope: Scope)
    ensures PlaceOf(OwnScope(c, scope)) == Place(VarsOf(scope), RenderPathOf(scope), RenderPathOf(scope))
  {
    var here := scope[InstancePath := Str(RenderPathOf(scope))];
    assert VarsOf(here) == VarsOf(scope);
    PlacePropagated(c.props, scope, here);
  }

  lemma {:induction false} LocalShown(env: Env, fuel: nat, c: Component, def: ComponentDef, scope: Scope, slots: Slots)
    requires fuel > 0 && LowerLocal(env, fuel, c, def, scope, slots).Ok?
    ensures ShowsLocal(env, fuel, c, def, PlaceOf(scope), slots,
              LowerLocal(env, fuel, c, def, scope, slots).value.nodes)
    decreases fuel, slots, c, 1
  {
    var less, handed := Inside(fuel), SlotOf(ChildStatements(c.body), slots);
    LocalParts(env, fuel, less, c, def, scope, slots, handed);
    var entry := EnterLocal(env, c, def, scope).value;
    var r := LowerStatements(env, less, def.body, entry.scope, handed).value;
    StatementsShown(env, less, def.body, entry.scope, handed, r);
    LocalFinished(env, fuel, c, def, scope, slots, entry, handed, r.nodes);
  }

  lemma LocalFinished(env: Env, fuel: nat, c: Component, def: ComponentDef, scope: Scope, slots: Slots,
      entry: LocalEntry, handed: Slots, inner: seq<Node>)
    requires fuel > 0 && EnterLocal(env, c, def, scope) == Ok(entry) && handed == SlotOf(ChildStatements(c.body), slots)
    requires Shows(env, Inside(fuel), def.body, PlaceOf(entry.scope), handed, inner)
    ensures ShowsLocal(env, fuel, c, def, PlaceOf(scope), slots, AttrsToFirst(inner, entry.attrs))
  {
    EntryIs(env, c, def, scope);
    HandedIs(c.body);
    var nodes := AttrsToFirst(inner, entry.attrs);
    var m, bound := EntryParts(env, c, def, scope, entry, inner, nodes);
    LocalAtPlace(env, fuel, c, def, PlaceOf(scope), slots, m, bound, VarsOf(entry.scope), handed, inner, nodes);
  }

  lemma LocalParts(env: Env, fuel: nat, less: nat, c: Component, def: ComponentDef, scope: Scope, slots: Slots,
      handed: Slots)
    requires fuel > 0 && LowerLocal(env, fuel, c, def, scope, slots).Ok?
    requires less == fuel - 1 && handed == SlotOf(ChildStatements(c.body), slots)
    ensures EnterLocal(env, c, def, scope).Ok?
    ensures var entry := EnterLocal(env, c, def, scope).value;
            var r := LowerStatements(env, less, def.body, entry.scope, handed);
            r.Ok? && LowerLocal(env, fuel, c, def, scope, slots).value.nodes == AttrsToFirst(r.value.nodes, entry.attrs)
  {
    var entry := EnterLocal(env, c, def, scope);
    if entry.Ok? {
      SameDepth(env, fuel - 1, less, def.body, entry.value.scope, handed);
    }
  }

  lemma SameDepth(env: Env, fuel: nat, less: nat, statements: seq<Statement>, scope: Scope, slots: Slots)
    requires fuel == less
    ensures LowerStatements(env, fuel, statements, scope, slots) == LowerStatements(env, less, statements, scope, slots)
  {
  }

  lemma EntryParts(env: Env, c: Component, def: ComponentDef, scope: Scope, entry: LocalEntry, inner: seq<Node>,
      nodes: seq<Node>) returns (m: map<string, Value>, bound: Vars)
    requires EntersAs(env, c, def, scope, entry) && nodes == AttrsToFirst(inner, entry.attrs)
    ensures StyleOk(env, c, VarsOf(scope)) && PropsAre(env, c.props, PlaceOf(scope), m)
    ensures Binds(env, def.params, m, VarsOf(scope), bound) && Starts(env, def.states, bound, VarsOf(entry.scope))
    ensures PassesTo(env, c, def, VarsOf(scope), m, inner, nodes)
  {
    StyleExactly(env, c, scope);
    m, bound :|
      && PropsAre(env, c.props, PlaceOf(scope), m)
      && entry.attrs == Passthrough(def, m) + StyleAttrs(env, c, scope).value
      && Binds(env, def.params, m, VarsOf(scope), bound) && Starts(env, def.states, bound, VarsOf(entry.scope));
    PassesExactly(env, c, def, scope, m, inner, nodes);
  }

  lemma HandedIs(body: Body)
    ensures ChildStatements(body) == Handed(body)
  {
  }

  lemma LocalAtPlace(env: Env, fuel: nat, c: Component, def: ComponentDef, p: Place, slots: Slots,
      m: map<string, Value>, bound: Vars, ready: Vars, handed: Slots, inner: seq<Node>, nodes: seq<Node>)
    requires fuel > 0 && handed == SlotOf(Handed(c.body), slots)
    requires StyleOk(env, c, p.vars) && PropsAre(env, c.props, p, m)
    requires Binds(env, def.params, m, p.vars, bound) && Starts(env, def.states, bound, ready)
    requires Shows(env, Inside(fuel), def.body, Place(ready, p.path, p.path), handed, inner)
    requires PassesTo(env, c, def, p.vars, m, inner, nodes)
    ensures ShowsLocal(env, fuel, c, def, p, slots, nodes)
  {
    assert ShowsBody(env, fuel, c, def, p, slots, m, bound, ready, inner, nodes);
  }

  /** A page's nodes are nodes that it shows. */
  lemma PageShown(env: Env, fuel: nat, page: Page, scope: Scope)
    requires LowerPage(env, fuel, page, scope).Ok?
    ensures ShowsPage(env, fuel, page, PlaceOf(scope), LowerPage(env, fuel, page, scope).value.nodes)
  {
    var start := At(scope, "0");
    var bound := BindPageParams(env, page.params, start).value;
    PlaceAt(scope, "0");
    PageKeepsPlace(env, page.params, start);
    BindsPageExactly(env, page.params, start, VarsOf(start), VarsOf(bound));
    StatementsShown(env, fuel, page.body, bound, NoSlot, LowerStatements(env, fuel, page.body, bound, NoSlot).value);
  }
}
