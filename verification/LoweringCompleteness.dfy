/** Where a page shows something, the lowerer succeeds: it fails on no page that has a meaning. */
module LoweringCompleteness {
  import opened Text
  import opened LoweringModel
  import opened Evaluation
  import opened Lowering
  import opened PageMeaning
  import opened PageParts
  import opened LoweringMeaning
  import LoweringPromises

  // Each lemma here has two helpers: what is shown has parts that are shown, and a run succeeds if its parts do.

  // Statements --------------------------------------------------------------------------------

  /** Statements that show something are lowered. */
  lemma {:induction false} StatementsLower(env: Env, fuel: nat, statements: seq<Statement>, scope: Scope, slots: Slots,
      nodes: seq<Node>)
    requires Shows(env, fuel, statements, PlaceOf(scope), slots, nodes)
    ensures LowerStatements(env, fuel, statements, scope, slots).Ok?
    decreases fuel, slots, statements, 3
  {
    var parent := RenderPathOf(scope);
    var inner := InnerShown(env, fuel, statements, scope, slots, nodes, parent);
    FromLowers(env, fuel, statements, 0, parent, scope, slots, inner);
    StatementsSucceed(env, fuel, statements, scope, slots, parent);
  }

  lemma InnerShown(env: Env, fuel: nat, statements: seq<Statement>, scope: Scope, slots: Slots, nodes: seq<Node>,
      parent: string) returns (inner: seq<Node>)
    requires parent == RenderPathOf(scope) && Shows(env, fuel, statements, PlaceOf(scope), slots, nodes)
    ensures ShowsFrom(env, fuel, statements, 0, PlaceOf(scope).(path := parent), slots, inner)
  {
    assert PlaceOf(scope).(path := parent) == PlaceOf(scope);
    if ShowsFrom(env, fuel, statements, 0, PlaceOf(scope), slots, nodes) {
      inner := nodes;
    } else {
      inner := nodes[..|nodes| - 1];
    }
  }

  lemma StatementsSucceed(env: Env, fuel: nat, statements: seq<Statement>, scope: Scope, slots: Slots, parent: string)
    requires parent == RenderPathOf(scope) && LowerFrom(env, fuel, statements, 0, parent, scope, slots).Ok?
    ensures LowerStatements(env, fuel, statements, scope, slots).Ok?
  {
  }

  lemma {:induction false} FromLowers(env: Env, fuel: nat, statements: seq<Statement>, index: nat, parent: string,
      scope: Scope, slots: Slots, nodes: seq<Node>)
    requires parent != ""
    requires ShowsFrom(env, fuel, statements, index, PlaceOf(scope).(path := parent), slots, nodes)
    ensures LowerFrom(env, fuel, statements, index, parent, scope, slots).Ok?
    decreases fuel, slots, statements, 2
  {
    if statements != [] {
      var here, after := parent + "." + NatText(index), index + 1;
      var at := At(scope, here);
      var front, back := FirstShown(env, fuel, statements, index, after, parent, scope, slots, nodes, here, at);
      StatementLowers(env, fuel, statements[0], here, at, slots, front);
      var first := LowerStatement(env, fuel, statements[0], here, at, slots).value;
      RestShown(env, fuel, statements, after, parent, scope, slots, back, here, at, first);
      FromLowers(env, fuel, statements[1..], after, parent, first.scope, slots, back);
      FromSucceeds(env, fuel, statements, index, after, parent, scope, slots, here, first);
    }
  }

  lemma FirstShown(env: Env, fuel: nat, statements: seq<Statement>, index: nat, after: nat, parent: string,
      scope: Scope, slots: Slots, nodes: seq<Node>, here: string, at: Scope)
    returns (front: seq<Node>, back: seq<Node>)
    requires statements != [] && here == parent + "." + NatText(index) && at == At(scope, here) && after == index + 1
    requires ShowsFrom(env, fuel, statements, index, PlaceOf(scope).(path := parent), slots, nodes)
    ensures here == RenderPathOf(at) && ShowsOne(env, fuel, statements[0], PlaceOf(at), slots, front)
    ensures ShowsFrom(env, fuel, statements[1..], after,
              PlaceOf(scope).(path := parent, vars := After(env, statements[0], VarsOf(scope))), slots, back)
  {
    var p := PlaceOf(scope).(path := parent);
    var k :| && 0 <= k <= |nodes|
             && ShowsOne(env, fuel, statements[0], Below(p, "." + NatText(index)), slots, nodes[..k])
             && ShowsFrom(env, fuel, statements[1..], index + 1, p.(vars := After(env, statements[0], p.vars)), slots,
                  nodes[k..]);
    ConcatTwice(parent, ".", NatText(index));
    PlaceAt(scope, here);
    front, back := nodes[..k], nodes[k..];
  }

  lemma RestShown(env: Env, fuel: nat, statements: seq<Statement>, after: nat, parent: string, scope: Scope,
      slots: Slots, back: seq<Node>, here: string, at: Scope, first: Lowered)
    requires statements != [] && here != "" && at == At(scope, here)
    requires LowerStatement(env, fuel, statements[0], here, at, slots) == Ok(first)
    requires ShowsFrom(env, fuel, statements[1..], after,
               PlaceOf(scope).(path := parent, vars := After(env, statements[0], VarsOf(scope))), slots, back)
    ensures ShowsFrom(env, fuel, statements[1..], after, PlaceOf(first.scope).(path := parent), slots, back)
  {
    PlaceAt(scope, here);
    StatementLeaves(env, fuel, statements[0], here, at, slots);
  }

  lemma FromSucceeds(env: Env, fuel: nat, statements: seq<Statement>, index: nat, after: nat, parent: string,
      scope: Scope, slots: Slots, here: string, first: Lowered)
    requires statements != [] && here == parent + "." + NatText(index) && after == index + 1
    requires LowerStatement(env, fuel, statements[0], here, At(scope, here), slots) == Ok(first)
    requires LowerFrom(env, fuel, statements[1..], after, parent, first.scope, slots).Ok?
    ensures LowerFrom(env, fuel, statements, index, parent, scope, slots).Ok?
  {
  }

  lemma {:induction false} StatementLowers(env: Env, fuel: nat, s: Statement, here: string, scope: Scope, slots: Slots,
      nodes: seq<Node>)
    requires here == RenderPathOf(scope) && ShowsOne(env, fuel, s, PlaceOf(scope), slots, nodes)
    ensures LowerStatement(env, fuel, s, here, scope, slots).Ok?
    decreases fuel, slots, s, 2
  {
    match s {
      case Data(_, value) => ValIs(env, value, scope);
      case TextOf(text) => ValIs(env, text, scope);
      case If(_, _, _) => IfLowers(env, fuel, s, here, scope, slots, nodes);
      case Match(_, _, _) => MatchLowers(env, fuel, s, here, scope, slots, nodes);
      case Each(_, _, _, _, _) => EachLowers(env, fuel, s, here, scope, slots, nodes);
      case Use(c) => ComponentLowers(env, fuel, c, scope, slots, nodes);
      case Pipeline(_, _) => PipelineLowers(env, fuel, s, scope, slots, nodes);
    }
  }

  lemma {:induction false} NonemptyLowers(env: Env, fuel: nat, body: seq<Statement>, scope: Scope, slots: Slots,
      nodes: seq<Node>)
    requires Shows(env, fuel, body, PlaceOf(scope), slots, nodes)
    ensures LowerNonempty(env, fuel, body, scope, slots).Ok?
    decreases fuel, slots, body, 4
  {
    if body != [] {
      StatementsLower(env, fuel, body, scope, slots, nodes);
    }
  }

  lemma {:induction false} IfLowers(env: Env, fuel: nat, s: Statement, here: string, scope: Scope, slots: Slots,
      nodes: seq<Node>)
    requires s.If? && here == RenderPathOf(scope) && ShowsIf(env, fuel, s, PlaceOf(scope), slots, nodes)
    ensures LowerIf(env, fuel, s, here, scope, slots).Ok?
    decreases fuel, slots, s, 0
  {
    var body, at := BranchShown(env, fuel, s, here, scope, slots, nodes);
    NonemptyLowers(env, fuel, body, at, slots, nodes);
    IfSucceeds(env, fuel, s, here, scope, slots, body, at);
  }

  ghost predicate IsBranch(env: Env, s: Statement, here: string, scope: Scope, body: seq<Statement>, at: Scope) {
    && s.If?
    && var marked := MarkIf(ReferencesItem(s.condition, scope), scope);
       var r := Eval(env, s.condition, marked);
       && r.Ok? && body == (if Truthy(r.value) then s.body else s.elseBody)
       && at == At(marked, here + if Truthy(r.value) then ".if1" else ".if0")
  }

  lemma BranchShown(env: Env, fuel: nat, s: Statement, here: string, scope: Scope, slots: Slots, nodes: seq<Node>)
    returns (body: seq<Statement>, at: Scope)
    requires s.If? && here == RenderPathOf(scope) && ShowsIf(env, fuel, s, PlaceOf(scope), slots, nodes)
    ensures IsBranch(env, s, here, scope, body, at) && Shows(env, fuel, body, PlaceOf(at), slots, nodes)
  {
    var bad := ReferencesItem(s.condition, scope);
    ValMarked(env, s.condition, bad, scope);
    var truthy := Truthy(Val(env, s.condition, VarsOf(scope)).value);
    var end := if truthy then ".if1" else ".if0";
    body, at := if truthy then s.body else s.elseBody, At(MarkIf(bad, scope), here + end);
    NestedPlace(bad, scope, here + end);
  }

  lemma IfSucceeds(env: Env, fuel: nat, s: Statement, here: string, scope: Scope, slots: Slots, body: seq<Statement>,
      at: Scope)
    requires IsBranch(env, s, here, scope, body, at) && LowerNonempty(env, fuel, body, at, slots).Ok?
    ensures LowerIf(env, fuel, s, here, scope, slots).Ok?
  {
  }

  lemma {:induction false} MatchLowers(env: Env, fuel: nat, s: Statement, here: string, scope: Scope, slots: Slots,
      nodes: seq<Node>)
    requires s.Match? && here == RenderPathOf(scope) && ShowsMatch(env, fuel, s, PlaceOf(scope), slots, nodes)
    ensures LowerMatch(env, fuel, s, here, scope, slots).Ok?
    decreases fuel, slots, s, 0
  {
    var v, body, at := CaseShown(env, fuel, s, here, scope, slots, nodes);
    NonemptyLowers(env, fuel, body, at, slots, nodes);
    MatchSucceeds(env, fuel, s, here, scope, slots, v, body, at);
  }

  lemma CaseShown(env: Env, fuel: nat, s: Statement, here: string, scope: Scope, slots: Slots, nodes: seq<Node>)
    returns (v: Value, body: seq<Statement>, at: Scope)
    requires s.Match? && here == RenderPathOf(scope) && ShowsMatch(env, fuel, s, PlaceOf(scope), slots, nodes)
    ensures IsCase(env, s, here, scope, v, body, at) && Shows(env, fuel, body, PlaceOf(at), slots, nodes)
  {
    var bad := ReferencesItem(s.value, scope);
    ValMarked(env, s.value, bad, scope);
    NestedPlace(bad, scope, here + ".match");
    v, at := Val(env, s.value, VarsOf(scope)).value, At(MarkIf(bad, scope), here + ".match");
    body := CaseBody(s, AsString(v));
    CaseExactly(s.cases, AsString(v));
    assert forall i | 0 <= i < |s.cases| :: s.cases[i] in s.cases;
  }

  ghost predicate IsCase(env: Env, s: Statement, here: string, scope: Scope, v: Value, body: seq<Statement>,
      at: Scope) {
    && s.Match? && body == CaseBody(s, AsString(v))
    && var marked := MarkIf(ReferencesItem(s.value, scope), scope);
       Eval(env, s.value, marked) == Ok(v) && at == At(marked, here + ".match")
  }

  lemma MatchSucceeds(env: Env, fuel: nat, s: Statement, here: string, scope: Scope, slots: Slots, v: Value,
      body: seq<Statement>, at: Scope)
    requires IsCase(env, s, here, scope, v, body, at) && LowerNonempty(env, fuel, body, at, slots).Ok?
    ensures LowerMatch(env, fuel, s, here, scope, slots).Ok?
  {
  }

  // Loops -------------------------------------------------------------------------------------

  lemma {:induction false} EachLowers(env: Env, fuel: nat, s: Statement, here: string, scope: Scope, slots: Slots,
      nodes: seq<Node>)
    requires s.Each? && here == RenderPathOf(scope) && ShowsEach(env, fuel, s, PlaceOf(scope), slots, nodes)
    ensures LowerEach(env, fuel, s, here, scope, slots).Ok?
    decreases fuel, slots, s, 0
  {
    var items, marked := LoopShown(env, fuel, s, here, scope, slots, nodes);
    if items == [] {
      EmptyLowers(env, fuel, s, marked, slots, nodes);
    } else if s.key.None? {
      ItemsLower(env, fuel, s.binding, s.body, here, marked, slots, items, 0, nodes);
    } else {
      KeyedLowers(env, fuel, s.binding, s.key.value, s.body, here, marked, slots, items, nodes);
    }
    EachSucceeds(env, fuel, s, here, scope, slots, items, marked);
  }

  lemma LoopShown(env: Env, fuel: nat, s: Statement, here: string, scope: Scope, slots: Slots, nodes: seq<Node>)
    returns (items: seq<Value>, marked: Scope)
    requires s.Each? && here == RenderPathOf(scope) && ShowsEach(env, fuel, s, PlaceOf(scope), slots, nodes)
    ensures IsLoop(env, s, scope, items, marked) && here == RenderPathOf(marked)
    ensures items == [] ==> ShowsEmpty(env, fuel, s, PlaceOf(marked), slots, nodes)
    ensures items != [] && s.key.None? ==>
              ShowsItems(env, fuel, s.binding, s.body, PlaceOf(marked), slots, items, 0, nodes)
    ensures items != [] && s.key.Some? ==>
              ShowsKeyed(env, fuel, s.binding, s.key.value, s.body, PlaceOf(marked), slots, items, nodes)
  {
    var bad := ReferencesItem(s.source, scope);
    ValMarked(env, s.source, bad, scope);
    PlaceMarked(bad, scope);
    items, marked := Val(env, s.source, VarsOf(scope)).value.items, MarkIf(bad, scope);
  }

  ghost predicate IsLoop(env: Env, s: Statement, scope: Scope, items: seq<Value>, marked: Scope) {
    && s.Each? && marked == MarkIf(ReferencesItem(s.source, scope), scope)
    && Eval(env, s.source, marked) == Ok(List(items))
  }

  lemma EachSucceeds(env: Env, fuel: nat, s: Statement, here: string, scope: Scope, slots: Slots, items: seq<Value>,
      marked: Scope)
    requires IsLoop(env, s, scope, items, marked)
    requires items == [] ==> LowerStatements(env, fuel, s.emptyBody, marked, slots).Ok?
    requires items != [] && s.key.None? ==>
               LowerItems(env, fuel, s.binding, s.body, here, marked, slots, items, 0).Ok?
    requires items != [] && s.key.Some? ==>
               LowerKeyed(env, fuel, s.binding, s.key.value, s.body, here, marked, slots, items, {}, None).Ok?
    ensures LowerEach(env, fuel, s, here, scope, slots).Ok?
  {
  }

  lemma {:induction false} EmptyLowers(env: Env, fuel: nat, s: Statement, scope: Scope, slots: Slots, nodes: seq<Node>)
    requires s.Each? && ShowsEmpty(env, fuel, s, PlaceOf(scope), slots, nodes)
    ensures LowerStatements(env, fuel, s.emptyBody, scope, slots).Ok?
    decreases fuel, slots, s.emptyBody, 4
  {
    var inner := FallbackShown(env, fuel, s, PlaceOf(scope), slots, nodes);
    StatementsLower(env, fuel, s.emptyBody, scope, slots, inner);
  }

  lemma FallbackShown(env: Env, fuel: nat, s: Statement, p: Place, slots: Slots, nodes: seq<Node>)
    returns (inner: seq<Node>)
    requires s.Each? && ShowsEmpty(env, fuel, s, p, slots, nodes)
    ensures Shows(env, fuel, s.emptyBody, p, slots, inner)
  {
    if s.key.None? {
      inner := nodes;
    } else {
      inner :| Shows(env, fuel, s.emptyBody, p, slots, inner);
    }
  }

  lemma {:induction false} ItemsLower(env: Env, fuel: nat, binding: string, body: seq<Statement>, here: string,
      scope: Scope, slots: Slots, items: seq<Value>, index: nat, nodes: seq<Node>)
    requires here == RenderPathOf(scope)
    requires ShowsItems(env, fuel, binding, body, PlaceOf(scope), slots, items, index, nodes)
    ensures LowerItems(env, fuel, binding, body, here, scope, slots, items, index).Ok?
    decreases fuel, slots, body, 4, |items|
  {
    if items != [] {
      var after := index + 1;
      var at := At(scope[User(binding) := items[0]], here + ".each" + NatText(index));
      var front, back := FirstItemShown(env, fuel, binding, body, here, scope, slots, items, index, after, nodes, at);
      StatementsLower(env, fuel, body, at, slots, front);
      ItemsLower(env, fuel, binding, body, here, scope, slots, items[1..], after, back);
      ItemsSucceed(env, fuel, binding, body, here, scope, slots, items, index, after, at);
    }
  }

  lemma FirstItemShown(env: Env, fuel: nat, binding: string, body: seq<Statement>, here: string,
      scope: Scope, slots: Slots, items: seq<Value>, index: nat, after: nat, nodes: seq<Node>, at: Scope)
    returns (front: seq<Node>, back: seq<Node>)
    requires here == RenderPathOf(scope) && items != [] && after == index + 1
    requires at == At(scope[User(binding) := items[0]], here + ".each" + NatText(index))
    requires ShowsItems(env, fuel, binding, body, PlaceOf(scope), slots, items, index, nodes)
    ensures Shows(env, fuel, body, PlaceOf(at), slots, front)
    ensures ShowsItems(env, fuel, binding, body, PlaceOf(scope), slots, items[1..], after, back)
  {
    var p := PlaceOf(scope);
    var k :| && 0 <= k <= |nodes|
             && Shows(env, fuel, body, Below(p.(vars := p.vars[User(binding) := items[0]]), ".each" + NatText(index)),
                  slots, nodes[..k])
             && ShowsItems(env, fuel, binding, body, p, slots, items[1..], index + 1, nodes[k..]);
    front, back := nodes[..k], nodes[k..];
    ConcatTwice(here, ".each", NatText(index));
    PlaceBound(scope, binding, items[0]);
    PlaceAt(scope[User(binding) := items[0]], here + ".each" + NatText(index));
  }

  lemma ItemsSucceed(env: Env, fuel: nat, binding: string, body: seq<Statement>, here: string, scope: Scope,
      slots: Slots, items: seq<Value>, index: nat, after: nat, at: Scope)
    requires items != [] && at == At(scope[User(binding) := items[0]], here + ".each" + NatText(index))
    requires after == index + 1
    requires LowerStatements(env, fuel, body, at, slots).Ok?
    requires LowerItems(env, fuel, binding, body, here, scope, slots, items[1..], after).Ok?
    ensures LowerItems(env, fuel, binding, body, here, scope, slots, items, index).Ok?
  {
  }

  // Keyed loops -------------------------------------------------------------------------------

  lemma {:induction false} KeyedLowers(env: Env, fuel: nat, binding: string, key: Expr, body: seq<Statement>,
      here: string, scope: Scope, slots: Slots, items: seq<Value>, nodes: seq<Node>)
    requires here == RenderPathOf(scope)
    requires ShowsKeyed(env, fuel, binding, key, body, PlaceOf(scope), slots, items, nodes)
    ensures LowerKeyed(env, fuel, binding, key, body, here, scope, slots, items, {}, None).Ok?
    decreases fuel, slots, body, 6
  {
    var kind, elements := ElementsShown(env, fuel, binding, key, body, PlaceOf(scope), slots, items, nodes);
    AllItemsLower(env, fuel, binding, key, body, here, scope, slots, items, {}, None, kind, elements);
  }

  lemma ElementsShown(env: Env, fuel: nat, binding: string, key: Expr, body: seq<Statement>, p: Place,
      slots: Slots, items: seq<Value>, nodes: seq<Node>) returns (kind: string, elements: seq<Node>)
    requires ShowsKeyed(env, fuel, binding, key, body, p, slots, items, nodes)
    ensures ShowsAllItems(env, fuel, binding, key, body, p, slots, items, {}, kind, elements)
  {
    kind, elements :| ShowsAllItems(env, fuel, binding, key, body, p, slots, items, {}, kind, elements);
  }

  predicate KindFits(before: Option<string>, kind: string) {
    before.Some? ==> before.value == kind
  }

  lemma {:induction false} AllItemsLower(env: Env, fuel: nat, binding: string, key: Expr, body: seq<Statement>,
      here: string, scope: Scope, slots: Slots, items: seq<Value>, seen: set<string>, before: Option<string>,
      kind: string, nodes: seq<Node>)
    requires here == RenderPathOf(scope) && KindFits(before, kind)
    requires ShowsAllItems(env, fuel, binding, key, body, PlaceOf(scope), slots, items, seen, kind, nodes)
    ensures LowerKeyed(env, fuel, binding, key, body, here, scope, slots, items, seen, before).Ok?
    decreases fuel, slots, body, 5, |items|
  {
    if items != [] {
      var text, id, at, children := KeyShown(env, fuel, binding, key, body, here, scope, slots, items, seen, before,
          kind, nodes);
      StatementsLower(env, fuel, body, at, slots, children);
      AllItemsLower(env, fuel, binding, key, body, here, scope, slots, items[1..], seen + {id}, Some(kind), kind,
          nodes[1..]);
      KeyedSucceeds(env, fuel, binding, key, body, here, scope, slots, items, seen, before, (kind, text), id, at);
    }
  }

  lemma KeyedSucceeds(env: Env, fuel: nat, binding: string, key: Expr, body: seq<Statement>, here: string,
      scope: Scope, slots: Slots, items: seq<Value>, seen: set<string>, before: Option<string>,
      identity: (string, string), id: string, at: Scope)
    requires items != [] && AcceptKey(env, key, ItemScope(scope, binding, items[0]), seen, before) == Ok(identity)
    requires id == identity.0 + ":" + identity.1
    requires at == At(ItemScope(scope, binding, items[0]), ItemPath(env, here, id))
    requires LowerStatements(env, fuel, body, at, slots).Ok?
    requires LowerKeyed(env, fuel, binding, key, body, here, scope, slots, items[1..], seen + {id},
               Some(identity.0)).Ok?
    ensures LowerKeyed(env, fuel, binding, key, body, here, scope, slots, items, seen, before).Ok?
  {
  }

  /** The first item's key is accepted, and its body shows something in its scope. */
  lemma KeyShown(env: Env, fuel: nat, binding: string, key: Expr, body: seq<Statement>, here: string, scope: Scope,
      slots: Slots, items: seq<Value>, seen: set<string>, before: Option<string>, kind: string, nodes: seq<Node>)
    returns (text: string, id: string, at: Scope, children: seq<Node>)
    requires items != [] && here == RenderPathOf(scope) && KindFits(before, kind)
    requires ShowsAllItems(env, fuel, binding, key, body, PlaceOf(scope), slots, items, seen, kind, nodes)
    ensures nodes != [] && id == kind + ":" + text
    ensures AcceptKey(env, key, ItemScope(scope, binding, items[0]), seen, before) == Ok((kind, text))
    ensures at == At(ItemScope(scope, binding, items[0]), ItemPath(env, here, id))
    ensures Shows(env, fuel, body, PlaceOf(at), slots, children)
    ensures ShowsAllItems(env, fuel, binding, key, body, PlaceOf(scope), slots, items[1..], seen + {id}, kind,
              nodes[1..])
  {
    var p := PlaceOf(scope);
    text := FirstKey(env, fuel, binding, key, body, p, slots, items, seen, kind, nodes);
    id := kind + ":" + text;
    children := nodes[0].children;
    KeyAccepted(env, key, scope, binding, items[0], seen, kind, text, before);
    at := ItemPlace(env, here, scope, binding, items[0], id);
  }

  lemma ItemPlace(env: Env, here: string, scope: Scope, binding: string, item: Value, id: string) returns (at: Scope)
    requires here == RenderPathOf(scope)
    ensures at == At(ItemScope(scope, binding, item), ItemPath(env, here, id))
    ensures PlaceOf(at) == Below(PlaceOf(scope).(vars := VarsOf(scope)[User(binding) := item]), ".key" + env.hash(id))
  {
    var inLoop, path := ItemScope(scope, binding, item), ItemPath(env, here, id);
    at := At(inLoop, path);
    PlaceInLoop(scope, binding, item);
    ConcatTwice(here, ".key", env.hash(id));
    PlaceAt(inLoop, path);
  }

  lemma FirstKey(env: Env, fuel: nat, binding: string, key: Expr, body: seq<Statement>, p: Place, slots: Slots,
      items: seq<Value>, seen: set<string>, kind: string, nodes: seq<Node>) returns (text: string)
    requires items != [] && ShowsAllItems(env, fuel, binding, key, body, p, slots, items, seen, kind, nodes)
    ensures nodes != [] && kind + ":" + text !in seen && nodes[0].Element?
    ensures var r := Val(env, key, p.vars[User(binding) := items[0]]); r.Ok? && IsKey(r.value, kind, text)
    ensures var at := p.(vars := p.vars[User(binding) := items[0]]);
            Shows(env, fuel, body, Below(at, ".key" + env.hash(kind + ":" + text)), slots, nodes[0].children)
    ensures ShowsAllItems(env, fuel, binding, key, body, p, slots, items[1..], seen + {kind + ":" + text}, kind,
              nodes[1..])
  {
    text :| && nodes != [] && kind + ":" + text !in seen
            && ShowsItem(env, fuel, binding, key, body, p, slots, items[0], kind, text, nodes[0])
            && ShowsAllItems(env, fuel, binding, key, body, p, slots, items[1..], seen + {kind + ":" + text}, kind,
                 nodes[1..]);
  }

  lemma KeyAccepted(env: Env, key: Expr, scope: Scope, binding: string, item: Value, seen: set<string>, kind: string,
      text: string, before: Option<string>)
    requires var r := Val(env, key, VarsOf(scope)[User(binding) := item]); r.Ok? && IsKey(r.value, kind, text)
    requires kind + ":" + text !in seen && KindFits(before, kind)
    ensures AcceptKey(env, key, ItemScope(scope, binding, item), seen, before) == Ok((kind, text))
  {
    var inLoop := ItemScope(scope, binding, item);
    PlaceInLoop(scope, binding, item);
    ValIs(env, key, inLoop);
    KeyExactly(Eval(env, key, inLoop).value, kind, text);
  }

  // Pipelines ---------------------------------------------------------------------------------

  lemma {:induction false} PipelineLowers(env: Env, fuel: nat, s: Statement, scope: Scope, slots: Slots,
      nodes: seq<Node>)
    requires s.Pipeline? && ShowsPipeline(env, fuel, s, PlaceOf(scope), slots, nodes)
    ensures LowerPipeline(env, fuel, s, scope, slots).Ok?
    decreases fuel, slots, s, 0
  {
    var marked, inner := SourceShown(env, fuel, s, scope, slots, nodes);
    StagesLower(env, fuel, s.stages, marked, slots, inner);
  }

  lemma SourceShown(env: Env, fuel: nat, s: Statement, scope: Scope, slots: Slots, nodes: seq<Node>)
    returns (marked: Scope, inner: seq<Node>)
    requires s.Pipeline? && ShowsPipeline(env, fuel, s, PlaceOf(scope), slots, nodes)
    ensures marked == MarkIf(ReferencesItem(s.source, scope), scope) && Eval(env, s.source, marked).Ok?
    ensures ShowsStages(env, fuel, s.stages, PlaceOf(marked), slots, inner)
  {
    var bad := ReferencesItem(s.source, scope);
    ValMarked(env, s.source, bad, scope);
    PlaceMarked(bad, scope);
    marked := MarkIf(bad, scope);
    inner :| ShowsStages(env, fuel, s.stages, PlaceOf(scope), slots, inner);
  }

  lemma {:induction false} StagesLower(env: Env, fuel: nat, stages: seq<Stage>, scope: Scope, slots: Slots,
      nodes: seq<Node>)
    requires ShowsStages(env, fuel, stages, PlaceOf(scope), slots, nodes)
    ensures LowerStages(env, fuel, stages, scope, slots).Ok?
    decreases fuel, slots, stages, 0
  {
    if stages != [] {
      var front, back := FirstStage(env, fuel, stages, PlaceOf(scope), slots, nodes);
      StageLowers(env, fuel, stages[0], scope, slots, front);
      StagesLower(env, fuel, stages[1..], scope, slots, back);
    }
  }

  lemma FirstStage(env: Env, fuel: nat, stages: seq<Stage>, p: Place, slots: Slots, nodes: seq<Node>)
    returns (front: seq<Node>, back: seq<Node>)
    requires stages != [] && ShowsStages(env, fuel, stages, p, slots, nodes)
    ensures ShowsStage(env, fuel, stages[0], p, slots, front) && ShowsStages(env, fuel, stages[1..], p, slots, back)
  {
    var k :| 0 <= k <= |nodes| && ShowsStage(env, fuel, stages[0], p, slots, nodes[..k])
             && ShowsStages(env, fuel, stages[1..], p, slots, nodes[k..]);
    front, back := nodes[..k], nodes[k..];
  }

  lemma {:induction false} StageLowers(env: Env, fuel: nat, stage: Stage, scope: Scope, slots: Slots, nodes: seq<Node>)
    requires ShowsStage(env, fuel, stage, PlaceOf(scope), slots, nodes)
    ensures LowerStage(env, fuel, stage, scope, slots).Ok?
    decreases fuel, slots, stage, 0
  {
    if stage.ComponentStage? {
      ComponentLowers(env, fuel, stage.component, scope, slots, nodes);
    }
  }

  // Components --------------------------------------------------------------------------------

  lemma {:induction false} ComponentLowers(env: Env, fuel: nat, c: Component, scope: Scope, slots: Slots,
      nodes: seq<Node>)
    requires ShowsComponent(env, fuel, c, PlaceOf(scope), slots, nodes)
    ensures LowerComponentNodes(env, fuel, c, scope, slots).Ok?
    decreases fuel, slots, c, 2
  {
    if c.name == "Slot" {
      if slots.SlotOf? {
        SlotLowers(env, fuel, c, scope, slots, nodes);
      }
    } else if c.name == "Fragment" {
      ChildrenLower(env, fuel, c, scope, slots, nodes);
    } else if FindComponent(env.components, c.name).Some? {
      var def := DefinitionShown(env, fuel, c, PlaceOf(scope), slots, nodes);
      LocalLowers(env, fuel, c, def, scope, slots, nodes);
    } else {
      NotDefined(env.components, c.name);
      TagNamesExactly(c.name);
      ElementLowers(env, fuel, c, scope, slots, nodes);
    }
  }

  lemma DefinitionShown(env: Env, fuel: nat, c: Component, p: Place, slots: Slots, nodes: seq<Node>)
    returns (def: ComponentDef)
    requires c.name != "Slot" && c.name != "Fragment" && FindComponent(env.components, c.name).Some?
    requires ShowsComponent(env, fuel, c, p, slots, nodes)
    ensures fuel > 0 && FindComponent(env.components, c.name) == Some(def)
    ensures ShowsLocal(env, fuel, c, def, p, slots, nodes)
  {
    NotDefined(env.components, c.name);
    def :| IsDefinedAs(env.components, c.name, def) && fuel > 0 && ShowsLocal(env, fuel, c, def, p, slots, nodes);
    DefinedExactly(env.components, c.name, def);
  }

  lemma {:induction false} SlotLowers(env: Env, fuel: nat, c: Component, scope: Scope, slots: Slots, nodes: seq<Node>)
    requires c.name == "Slot" && slots.SlotOf? && ShowsSlot(env, fuel, c, PlaceOf(scope), slots, nodes)
    ensures LowerComponentNodes(env, fuel, c, scope, slots).Ok?
    decreases fuel, slots, c, 1
  {
    var requested, selected := SelectionShown(env, fuel, c, scope, slots, nodes);
    StatementsLower(env, fuel, selected, scope, slots.parent, nodes);
  }

  lemma SelectionShown(env: Env, fuel: nat, c: Component, scope: Scope, slots: Slots, nodes: seq<Node>)
    returns (requested: Option<string>, selected: seq<Statement>)
    requires slots.SlotOf? && ShowsSlot(env, fuel, c, PlaceOf(scope), slots, nodes)
    ensures SlotName(env, c.props, {"name", "slot"}, scope) == Ok(requested)
    ensures SelectSlot(env, slots.body, requested, scope) == Ok(selected)
    ensures Shows(env, fuel, selected, PlaceOf(scope), slots.parent, nodes)
  {
    requested, selected :|
      && NamesSlot(env, c.props, {"name", "slot"}, VarsOf(scope), requested)
      && Selects(env, slots.body, requested, VarsOf(scope), selected)
      && Shows(env, fuel, selected, PlaceOf(scope), slots.parent, nodes);
    NamesSlotExactly(env, c.props, {"name", "slot"}, scope, requested);
    SelectsExactly(env, slots.body, requested, scope, selected);
  }

  lemma {:induction false} ChildrenLower(env: Env, fuel: nat, c: Component, scope: Scope, slots: Slots,
      nodes: seq<Node>)
    requires ShowsChildren(env, fuel, c, PlaceOf(scope), slots, nodes)
    ensures LowerChildren(env, fuel, c, scope, slots).Ok?
    decreases fuel, slots, c, 0
  {
    match c.body {
      case Empty =>
      case Inline(text) => ValIs(env, text, scope);
      case Block(statements) => StatementsLower(env, fuel, statements, scope, slots, nodes);
    }
  }

  lemma {:induction false} ElementLowers(env: Env, fuel: nat, c: Component, scope: Scope, slots: Slots,
      nodes: seq<Node>)
    requires ShowsElement(env, fuel, c, PlaceOf(scope), slots, nodes)
    ensures LowerNative(env, fuel, c, scope, slots).Ok?
    decreases fuel, slots, c, 1
  {
    ChildrenLower(env, fuel, c, scope, slots, nodes[0].children);
    var inner := LowerChildren(env, fuel, c, scope, slots).value;
    LoweringPromises.ChildrenOnlyMark(env, fuel, c, scope, slots);
    ElementSucceeds(env, fuel, c, scope, slots, nodes, inner);
  }

  lemma ElementSucceeds(env: Env, fuel: nat, c: Component, scope: Scope, slots: Slots, nodes: seq<Node>,
      inner: Lowered)
    requires ShowsElement(env, fuel, c, PlaceOf(scope), slots, nodes)
    requires inner.scope == scope || inner.scope == MarkIf(true, scope)
    ensures NativeElement(env, c, inner.nodes, inner.scope).Ok?
  {
    PlaceMarked(true, scope);
    StyleExactly(env, c, inner.scope);
    PropsExactly(env, c.props, inner.scope);
    var m :| PropsAre(env, c.props, PlaceOf(scope), m);
  }

  lemma {:induction false} LocalLowers(env: Env, fuel: nat, c: Component, def: ComponentDef, scope: Scope,
      slots: Slots, nodes: seq<Node>)
    requires fuel > 0 && ShowsLocal(env, fuel, c, def, PlaceOf(scope), slots, nodes)
    ensures LowerLocal(env, fuel, c, def, scope, slots).Ok?
    decreases fuel, slots, c, 1
  {
    var less, handed := Inside(fuel), SlotOf(ChildStatements(c.body), slots);
    var entry, inner := BodyShown(env, fuel, less, c, def, scope, slots, nodes, handed);
    StatementsLower(env, less, def.body, entry.scope, handed, inner);
    LocalSucceeds(env, fuel, less, c, def, scope, slots, handed, entry);
  }

  /** A component that shows something is entered, and its body shows something there. */
  lemma BodyShown(env: Env, fuel: nat, less: nat, c: Component, def: ComponentDef, scope: Scope, slots: Slots,
      nodes: seq<Node>, handed: Slots) returns (entry: LocalEntry, inner: seq<Node>)
    requires fuel > 0 && less == Inside(fuel) && handed == SlotOf(ChildStatements(c.body), slots)
    requires ShowsLocal(env, fuel, c, def, PlaceOf(scope), slots, nodes)
    ensures EnterLocal(env, c, def, scope) == Ok(entry)
    ensures Shows(env, less, def.body, PlaceOf(entry.scope), handed, inner)
  {
    var p := PlaceOf(scope);
    var m, bound, ready, body :| ShowsBody(env, fuel, c, def, p, slots, m, bound, ready, body, nodes);
    HandedIs(c.body);
    inner := body;
    entry := LocalEnters(env, c, def, scope, m, bound, ready);
  }

  lemma LocalEnters(env: Env, c: Component, def: ComponentDef, scope: Scope, m: map<string, Value>, bound: Vars,
      ready: Vars) returns (entry: LocalEntry)
    requires StyleOk(env, c, VarsOf(scope)) && PropsAre(env, c.props, PlaceOf(scope), m)
    requires Binds(env, def.params, m, VarsOf(scope), bound) && Starts(env, def.states, bound, ready)
    ensures EnterLocal(env, c, def, scope) == Ok(entry)
    ensures PlaceOf(entry.scope) == Place(ready, RenderPathOf(scope), RenderPathOf(scope))
  {
    StyleExactly(env, c, scope);
    PropsExactly(env, c.props, scope);
    PropsAreOnly(env, c.props, scope, m, EvalProps(env, c.props, scope).value.props);
    var own := OwnScope(c, scope);
    OwnPlace(c, scope);
    BindsExactly(env, def, def.params, m, own, VarsOf(own), bound);
    BindingKeepsPlace(env, def, def.params, m, own);
    var after := BindParams(env, def, def.params, m, own).value;
    StartsExactly(env, def.states, after, bound, ready);
    StartingKeepsPlace(env, def.states, after);
    entry := EnterLocal(env, c, def, scope).value;
  }

  lemma LocalSucceeds(env: Env, fuel: nat, less: nat, c: Component, def: ComponentDef, scope: Scope, slots: Slots,
      handed: Slots, entry: LocalEntry)
    requires fuel > 0 && less == Inside(fuel) && handed == SlotOf(ChildStatements(c.body), slots)
    requires EnterLocal(env, c, def, scope) == Ok(entry)
    requires LowerStatements(env, less, def.body, entry.scope, handed).Ok?
    ensures LowerLocal(env, fuel, c, def, scope, slots).Ok?
  {
    SameDepth(env, fuel - 1, less, def.body, entry.scope, handed);
  }

  // Results -----------------------------------------------------------------------------------

  /** Statements are lowered to nodes that they show, and fail if and only if they show nothing. */
  lemma StatementsLowerExactly(env: Env, fuel: nat, statements: seq<Statement>, scope: Scope, slots: Slots)
    ensures var r := LowerStatements(env, fuel, statements, scope, slots);
            && (r.Ok? ==> Shows(env, fuel, statements, PlaceOf(scope), slots, r.value.nodes))
            && (r.Err? ==> forall nodes :: !Shows(env, fuel, statements, PlaceOf(scope), slots, nodes))
  {
    var r := LowerStatements(env, fuel, statements, scope, slots);
    if r.Ok? {
      StatementsShown(env, fuel, statements, scope, slots, r.value);
    } else {
      NothingShown(env, fuel, statements, scope, slots);
    }
  }

  lemma NothingShown(env: Env, fuel: nat, statements: seq<Statement>, scope: Scope, slots: Slots)
    requires LowerStatements(env, fuel, statements, scope, slots).Err?
    ensures forall nodes :: !Shows(env, fuel, statements, PlaceOf(scope), slots, nodes)
  {
    forall nodes ensures !Shows(env, fuel, statements, PlaceOf(scope), slots, nodes) {
      if Shows(env, fuel, statements, PlaceOf(scope), slots, nodes) {
        StatementsLower(env, fuel, statements, scope, slots, nodes);
      }
    }
  }

  /** A page is lowered to nodes that it shows, and fails if and only if it shows nothing. */
  lemma PageLowersExactly(env: Env, fuel: nat, page: Page, scope: Scope)
    ensures var r := LowerPage(env, fuel, page, scope);
            && (r.Ok? ==> ShowsPage(env, fuel, page, PlaceOf(scope), r.value.nodes))
            && (r.Err? ==> forall nodes :: !ShowsPage(env, fuel, page, PlaceOf(scope), nodes))
  {
    if LowerPage(env, fuel, page, scope).Ok? {
      PageShown(env, fuel, page, scope);
    }
    forall nodes | ShowsPage(env, fuel, page, PlaceOf(scope), nodes) ensures LowerPage(env, fuel, page, scope).Ok? {
      PageLowers(env, fuel, page, nodes, scope);
    }
  }

  lemma PageLowers(env: Env, fuel: nat, page: Page, nodes: seq<Node>, scope: Scope)
    requires ShowsPage(env, fuel, page, PlaceOf(scope), nodes)
    ensures LowerPage(env, fuel, page, scope).Ok?
  {
    var start := PageBodyShown(env, fuel, page, nodes, scope);
    StatementsLower(env, fuel, page.body, start, NoSlot, nodes);
  }

  lemma PageBodyShown(env: Env, fuel: nat, page: Page, nodes: seq<Node>, scope: Scope) returns (start: Scope)
    requires ShowsPage(env, fuel, page, PlaceOf(scope), nodes)
    ensures BindPageParams(env, page.params, At(scope, "0")) == Ok(start)
    ensures Shows(env, fuel, page.body, PlaceOf(start), NoSlot, nodes)
  {
    var at := At(scope, "0");
    PlaceAt(scope, "0");
    var bound :| BindsPage(env, page.params, VarsOf(scope), bound)
                 && Shows(env, fuel, page.body, Place(bound, "0", PlaceOf(scope).instance), NoSlot, nodes);
    BindsPageExactly(env, page.params, at, VarsOf(at), bound);
    PageKeepsPlace(env, page.params, at);
    start := BindPageParams(env, page.params, at).value;
  }
}
