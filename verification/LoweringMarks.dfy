/** No mark is lost: a mark made anywhere under a loop item keeps that item from being a template. */
module LoweringMarks {
  import opened Text
  import opened LoweringModel
  import opened Evaluation
  import opened Lowering

  predicate MarkerIn(nodes: seq<Node>)
    decreases nodes, 0
  {
    nodes != [] && (MarkerAt(nodes[0]) || MarkerIn(nodes[1..]))
  }

  predicate MarkerAt(node: Node)
    decreases node, 1
  {
    node.Element? && (node.tag == MARKER_TAG || MarkerIn(node.children))
  }

  lemma {:induction false} MarkerInConcat(a: seq<Node>, b: seq<Node>)
    ensures MarkerIn(a + b) == (MarkerIn(a) || MarkerIn(b))
  {
    if a == [] {
      assert a + b == b;
    } else {
      assert (a + b)[1..] == a[1..] + b;
      MarkerInConcat(a[1..], b);
    }
  }

  lemma MarkerInOne(node: Node)
    ensures MarkerIn([node]) == MarkerAt(node)
  {
    assert [node][1..] == [];
  }

  lemma {:induction false} MarkerIsUnsafe(nodes: seq<Node>)
    requires MarkerIn(nodes)
    ensures !TemplateIsSafe(nodes)
    decreases nodes, 0
  {
    if MarkerAt(nodes[0]) {
      MarkerAtIsUnsafe(nodes[0]);
    } else {
      MarkerIsUnsafe(nodes[1..]);
    }
  }

  lemma {:induction false} MarkerAtIsUnsafe(node: Node)
    requires MarkerAt(node)
    ensures !NodeIsSafe(node)
    decreases node, 1
  {
    if node.tag != MARKER_TAG {
      MarkerIsUnsafe(node.children);
    }
  }

  /** Something happened that keeps the nodes from being a template: a mark, or an element with the marker's tag. */
  predicate Spoils(trace: seq<Event>) {
    Marked in trace || MarkerNamed in trace
  }

  /** The flag, once set, stays; in a loop it stays out of nothing else than the binding. */
  ghost predicate FlagStays(entry: Scope, left: Scope) {
    EachBinding in entry ==> EachBinding in left && (!Supported(entry) ==> !Supported(left))
  }

  /** Under a loop item, a mark leaves the flag or a marker behind, and nothing else does. */
  ghost predicate Kept(entry: Scope, r: Lowered) {
    && FlagStays(entry, r.scope) && OwnMark !in r.trace
    && (EachBinding in entry && Supported(entry) ==> (Spoils(r.trace) <==> !Supported(r.scope) || MarkerIn(r.nodes)))
  }

  /** A call that works on its own copy of the scope passes its caller the marker, if not the flag. */
  ghost predicate KeptInNodes(entry: Scope, nodes: seq<Node>, trace: seq<Event>) {
    && OwnMark !in trace
    && (EachBinding in entry && Supported(entry) ==> (Spoils(trace) <==> MarkerIn(nodes)))
  }

  /** An element's own marks leave the flag, those of the statements inside it leave a marker. */
  ghost predicate KeptApart(entry: Scope, r: Lowered) {
    && FlagStays(entry, r.scope)
    && (EachBinding in entry && Supported(entry) ==>
          && (OwnMark in r.trace <==> !Supported(r.scope))
          && (Spoils(r.trace) <==> MarkerIn(r.nodes)))
  }

  lemma RenamedHolds(trace: seq<Event>, mark: Event, e: Event)
    ensures e in Renamed(trace, mark) <==> (e in trace && e != OwnMark) || (e == mark && OwnMark in trace)
  {
    var renamed := Renamed(trace, mark);
    forall i | 0 <= i < |trace| ensures renamed[i] == if trace[i] == OwnMark then mark else trace[i] {}
    if e in trace && e != OwnMark {
      var i :| 0 <= i < |trace| && trace[i] == e;
      assert renamed[i] == e;
    }
    if e == mark && OwnMark in trace {
      var i :| 0 <= i < |trace| && trace[i] == OwnMark;
      assert renamed[i] == e;
    }
  }

  /** What an element keeps apart, its statement keeps. */
  lemma RenamedKeeps(entry: Scope, r: Lowered)
    requires KeptApart(entry, r)
    ensures Kept(entry, r.(trace := Renamed(r.trace, Marked)))
  {
    RenamedHolds(r.trace, Marked, Marked);
    RenamedHolds(r.trace, Marked, MarkerNamed);
    RenamedHolds(r.trace, Marked, OwnMark);
  }

  /** A stage keeps what the statements inside its element mark. */
  lemma StrayedKeeps(entry: Scope, r: Lowered)
    requires KeptApart(entry, r)
    ensures forall c, s :: KeptInNodes(entry, r.nodes, [PipelineStage(c, s)] + Renamed(r.trace, StrayMark))
  {
    RenamedHolds(r.trace, StrayMark, Marked);
    RenamedHolds(r.trace, StrayMark, MarkerNamed);
    RenamedHolds(r.trace, StrayMark, OwnMark);
  }

  lemma {:induction false} StatementsKeep(env: Env, fuel: nat, statements: seq<Statement>, scope: Scope, slots: Slots)
    requires LowerStatements(env, fuel, statements, scope, slots).Ok?
    ensures var r := LowerStatements(env, fuel, statements, scope, slots).value;
            Kept(scope, r) && KeptInNodes(scope, r.nodes, r.trace)
    decreases fuel, slots, statements, 3
  {
    var parent := RenderPathOf(scope);
    var r := LowerFrom(env, fuel, statements, 0, parent, scope, slots).value;
    FromKeeps(env, fuel, statements, 0, parent, scope, slots);
    assert MarkerAt(MARKER);
    MarkerInOne(MARKER);
    MarkerInConcat(r.nodes, [MARKER]);
  }

  lemma {:induction false} FromKeeps(env: Env, fuel: nat, statements: seq<Statement>, index: nat, parent: string,
      scope: Scope, slots: Slots)
    requires LowerFrom(env, fuel, statements, index, parent, scope, slots).Ok?
    ensures Kept(scope, LowerFrom(env, fuel, statements, index, parent, scope, slots).value)
    decreases fuel, slots, statements, 2
  {
    if statements != [] {
      var here := parent + "." + NatText(index);
      var first := LowerStatement(env, fuel, statements[0], here, At(scope, here), slots).value;
      var rest := LowerFrom(env, fuel, statements[1..], index + 1, parent, first.scope, slots).value;
      StatementKeeps(env, fuel, statements[0], here, At(scope, here), slots);
      FromKeeps(env, fuel, statements[1..], index + 1, parent, first.scope, slots);
      MarkerInConcat(first.nodes, rest.nodes);
    }
  }

  lemma {:induction false} StatementKeeps(env: Env, fuel: nat, s: Statement, here: string, scope: Scope, slots: Slots)
    requires LowerStatement(env, fuel, s, here, scope, slots).Ok?
    ensures Kept(scope, LowerStatement(env, fuel, s, here, scope, slots).value)
    decreases fuel, slots, s, 1
  {
    match s {
      case Data(_, _) =>
      case TextOf(text) => TextIsUnmarked(env, text, scope);
      case If(_, _, _) => IfKeeps(env, fuel, s, here, scope, slots);
      case Match(_, _, _) => MatchKeeps(env, fuel, s, here, scope, slots);
      case Each(_, _, _, _, _) => EachKeeps(env, fuel, s, here, scope, slots);
      case Use(component) =>
        ComponentKeeps(env, fuel, component, scope, slots);
        RenamedKeeps(scope, LowerComponentNodes(env, fuel, component, scope, slots).value);
      case Pipeline(_, _) => PipelineKeeps(env, fuel, s, scope, slots);
    }
  }

  lemma TextIsUnmarked(env: Env, e: Expr, scope: Scope)
    requires LowerText(env, e, scope).Ok?
    ensures !MarkerIn(LowerText(env, e, scope).value.nodes)
  {
    var node := LowerText(env, e, scope).value.nodes[0];
    MarkerInOne(node);
    if node.Element? {
      MarkerInOne(node.children[0]);
    }
  }

  /** Nested runs that keep their marks make a statement that does. */
  lemma NestedKeeps(bad: bool, scope: Scope, nodes: seq<Node>, trace: seq<Event>)
    requires KeptInNodes(MarkIf(bad, scope), nodes, trace)
    ensures Kept(scope, Nested(bad, scope, nodes, trace))
  {
  }

  lemma {:induction false} IfKeeps(env: Env, fuel: nat, s: Statement, here: string, scope: Scope, slots: Slots)
    requires s.If? && LowerIf(env, fuel, s, here, scope, slots).Ok?
    ensures Kept(scope, LowerIf(env, fuel, s, here, scope, slots).value)
    decreases fuel, slots, s, 0
  {
    var bad := ReferencesItem(s.condition, scope);
    var v := Eval(env, s.condition, MarkIf(bad, scope)).value;
    var nested := At(MarkIf(bad, scope), here + (if Truthy(v) then ".if1" else ".if0"));
    var body := if Truthy(v) then s.body else s.elseBody;
    var r := LowerNonempty(env, fuel, body, nested, slots).value;
    NonemptyKeeps(env, fuel, body, nested, slots);
    NestedKeeps(bad, scope, r.nodes, r.trace);
  }

  lemma {:induction false} MatchKeeps(env: Env, fuel: nat, s: Statement, here: string, scope: Scope, slots: Slots)
    requires s.Match? && LowerMatch(env, fuel, s, here, scope, slots).Ok?
    ensures Kept(scope, LowerMatch(env, fuel, s, here, scope, slots).value)
    decreases fuel, slots, s, 0
  {
    var bad := ReferencesItem(s.value, scope);
    var v := Eval(env, s.value, MarkIf(bad, scope)).value;
    var found := FindCase(s.cases, AsString(v));
    var body := if found.Some? then s.cases[found.value].body else s.defaultBody;
    var nested := At(MarkIf(bad, scope), here + ".match");
    var r := LowerNonempty(env, fuel, body, nested, slots).value;
    NonemptyKeeps(env, fuel, body, nested, slots);
    NestedKeeps(bad, scope, r.nodes, r.trace);
  }

  lemma {:induction false} EachKeeps(env: Env, fuel: nat, s: Statement, here: string, scope: Scope, slots: Slots)
    requires s.Each? && LowerEach(env, fuel, s, here, scope, slots).Ok?
    ensures Kept(scope, LowerEach(env, fuel, s, here, scope, slots).value)
    decreases fuel, slots, s, 0
  {
    var bad := ReferencesItem(s.source, scope);
    var marked := MarkIf(bad, scope);
    var items := Eval(env, s.source, marked).value.items;
    if items == [] {
      var r := LowerStatements(env, fuel, s.emptyBody, marked, slots).value;
      StatementsKeep(env, fuel, s.emptyBody, marked, slots);
      EmptyKeepsMarker(s, r.nodes);
      NestedKeeps(bad, scope, EmptyEachNodes(s, r.nodes), r.trace);
    } else if s.key.Some? {
      var r := LowerKeyed(env, fuel, s.binding, s.key.value, s.body, here, marked, slots, items, {}, None).value;
      KeyedKeeps(env, fuel, s.binding, s.key.value, s.body, here, marked, slots, items, {}, None);
      var node := KeyedNode(s.binding, s.key.value, r.kind, r.children + TemplateNodes(r.template));
      MarkerInConcat(r.children, TemplateNodes(r.template));
      MarkerInOne(node);
      NestedKeeps(bad, scope, [node], r.trace);
    } else {
      var r := LowerItems(env, fuel, s.binding, s.body, here, marked, slots, items, 0).value;
      ItemsKeep(env, fuel, s.binding, s.body, here, marked, slots, items, 0);
      NestedKeeps(bad, scope, r.nodes, r.trace);
    }
  }

  lemma EmptyKeepsMarker(s: Statement, nodes: seq<Node>)
    requires s.Each?
    ensures MarkerIn(EmptyEachNodes(s, nodes)) == MarkerIn(nodes)
  {
    if s.key.Some? {
      MarkerInOne(Element("ax-each-empty", CONTENTS, [], nodes));
      MarkerInOne(EmptyEachNodes(s, nodes)[0]);
    }
  }

  lemma {:induction false} PipelineKeeps(env: Env, fuel: nat, s: Statement, scope: Scope, slots: Slots)
    requires s.Pipeline? && LowerPipeline(env, fuel, s, scope, slots).Ok?
    ensures Kept(scope, LowerPipeline(env, fuel, s, scope, slots).value)
    decreases fuel, slots, s, 0
  {
    var bad := ReferencesItem(s.source, scope);
    var v := Eval(env, s.source, MarkIf(bad, scope)).value;
    var r := LowerStages(env, fuel, s.stages, MarkIf(bad, scope), slots).value;
    StagesKeep(env, fuel, s.stages, MarkIf(bad, scope), slots);
    MarkerInConcat([TextNode(AsString(v))], r.nodes);
    MarkerInOne(PipelineElement(v, r.nodes));
    NestedKeeps(bad, scope, [PipelineElement(v, r.nodes)], [RunOf(env, s.stages, MarkIf(bad, scope), slots)] + r.trace);
  }

  lemma {:induction false} NonemptyKeeps(env: Env, fuel: nat, body: seq<Statement>, nested: Scope, slots: Slots)
    requires LowerNonempty(env, fuel, body, nested, slots).Ok?
    ensures var r := LowerNonempty(env, fuel, body, nested, slots).value; KeptInNodes(nested, r.nodes, r.trace)
    decreases fuel, slots, body, 4
  {
    if body != [] {
      StatementsKeep(env, fuel, body, nested, slots);
    }
  }

  lemma {:induction false} ItemsKeep(env: Env, fuel: nat, binding: string, body: seq<Statement>, here: string,
      scope: Scope, slots: Slots, items: seq<Value>, index: nat)
    requires LowerItems(env, fuel, binding, body, here, scope, slots, items, index).Ok?
    ensures var r := LowerItems(env, fuel, binding, body, here, scope, slots, items, index).value;
            KeptInNodes(scope, r.nodes, r.trace)
    decreases fuel, slots, body, 4, |items|
  {
    if items != [] {
      var nested := At(scope[User(binding) := items[0]], here + ".each" + NatText(index));
      var first := LowerStatements(env, fuel, body, nested, slots).value;
      var rest := LowerItems(env, fuel, binding, body, here, scope, slots, items[1..], index + 1).value;
      StatementsKeep(env, fuel, body, nested, slots);
      ItemsKeep(env, fuel, binding, body, here, scope, slots, items[1..], index + 1);
      MarkerInConcat(first.nodes, rest.nodes);
    }
  }

  lemma TemplateIsUnmarked(nodes: seq<Node>)
    requires TemplateIsSafe(nodes)
    ensures !MarkerIn(TemplateNodes(Some(nodes)))
  {
    MarkerInOne(TemplateNodes(Some(nodes))[0]);
    if MarkerIn(nodes) {
      MarkerIsUnsafe(nodes);
    }
  }

  lemma {:induction false} KeyedKeeps(env: Env, fuel: nat, binding: string, key: Expr, body: seq<Statement>,
      here: string, scope: Scope, slots: Slots, items: seq<Value>, seen: set<string>, kind: Option<string>)
    requires LowerKeyed(env, fuel, binding, key, body, here, scope, slots, items, seen, kind).Ok?
    ensures var r := LowerKeyed(env, fuel, binding, key, body, here, scope, slots, items, seen, kind).value;
            KeptInNodes(scope, r.children, r.trace) && !MarkerIn(TemplateNodes(r.template))
    decreases fuel, slots, body, 5, |items|
  {
    if items != [] {
      var identity := AcceptKey(env, key, ItemScope(scope, binding, items[0]), seen, kind).value;
      var id := identity.0 + ":" + identity.1;
      var first := LowerItem(env, fuel, binding, body, ItemPath(env, here, id), scope, slots, items[0]).value;
      var rest := LowerKeyed(env, fuel, binding, key, body, here, scope, slots, items[1..], seen + {id},
          Some(identity.0)).value;
      StatementsKeep(env, fuel, body, At(ItemScope(scope, binding, items[0]), ItemPath(env, here, id)), slots);
      KeyedKeeps(env, fuel, binding, key, body, here, scope, slots, items[1..], seen + {id}, Some(identity.0));
      MarkerInOne(EachItemNode(identity, first.nodes));
      MarkerInConcat([EachItemNode(identity, first.nodes)], rest.children);
      if CanBeTemplate(first) {
        TemplateIsUnmarked(first.nodes);
      }
    }
  }

  lemma {:induction false} StagesKeep(env: Env, fuel: nat, stages: seq<Stage>, scope: Scope, slots: Slots)
    requires LowerStages(env, fuel, stages, scope, slots).Ok?
    ensures var r := LowerStages(env, fuel, stages, scope, slots).value;
            KeptInNodes(scope, r.nodes, r.trace)
    decreases fuel, slots, stages, 0
  {
    if stages != [] {
      StagesKeep(env, fuel, stages[1..], scope, slots);
      var first := LowerStage(env, fuel, stages[0], scope, slots).value;
      var rest := LowerStages(env, fuel, stages[1..], scope, slots).value;
      match stages[0] {
        case EachStage(_) => MarkerInOne(first.nodes[0]);
        case ComponentStage(c) =>
          assert c < stages[0];
          ComponentKeeps(env, fuel, c, scope, slots);
          StrayedKeeps(scope, LowerComponentNodes(env, fuel, c, scope, slots).value);
      }
      MarkerInConcat(first.nodes, rest.nodes);
    }
  }

  lemma {:induction false} ComponentKeeps(env: Env, fuel: nat, c: Component, scope: Scope, slots: Slots)
    requires LowerComponentNodes(env, fuel, c, scope, slots).Ok?
    ensures KeptApart(scope, LowerComponentNodes(env, fuel, c, scope, slots).value)
    decreases fuel, slots, c, 2
  {
    if c.name == "Slot" {
      if slots.SlotOf? {
        var requested := SlotName(env, c.props, {"name", "slot"}, scope).value;
        var selected := SelectSlot(env, slots.body, requested, scope).value;
        StatementsKeep(env, fuel, selected, scope, slots.parent);
      }
    } else if c.name == "Fragment" {
      ChildrenKeep(env, fuel, c, scope, slots);
    } else if FindComponent(env.components, c.name).Some? {
      LocalKeeps(env, fuel, c, FindComponent(env.components, c.name).value, scope, slots);
    } else {
      NativeKeeps(env, fuel, c, scope, slots);
    }
  }

  lemma {:induction false} ChildrenKeep(env: Env, fuel: nat, c: Component, scope: Scope, slots: Slots)
    requires LowerChildren(env, fuel, c, scope, slots).Ok?
    ensures KeptApart(scope, LowerChildren(env, fuel, c, scope, slots).value)
    decreases fuel, slots, c, 0
  {
    match c.body {
      case Empty =>
      case Inline(text) => TextIsUnmarked(env, text, scope);
      case Block(statements) => StatementsKeep(env, fuel, statements, scope, slots);
    }
  }

  lemma {:induction false} NativeKeeps(env: Env, fuel: nat, c: Component, scope: Scope, slots: Slots)
    requires LowerNative(env, fuel, c, scope, slots).Ok?
    ensures KeptApart(scope, LowerNative(env, fuel, c, scope, slots).value)
    decreases fuel, slots, c, 1
  {
    var inner := LowerChildren(env, fuel, c, scope, slots).value;
    ChildrenKeep(env, fuel, c, scope, slots);
    ElementKeeps(env, c, scope, inner);
  }

  /** What an element's trace and scope are made of. */
  lemma ElementParts(env: Env, c: Component, children: seq<Node>, scope: Scope) returns (attrs: map<string, string>)
    requires NativeElement(env, c, children, scope).Ok?
    ensures EvalProps(env, c.props, scope).Ok?
    ensures var r, attached := NativeElement(env, c, children, scope).value, Attach(c, attrs, scope);
            && r.nodes == [Element(c.name, attrs, attached.bindings, children)] && r.scope == attached.scope
            && r.trace == EvalProps(env, c.props, scope).value.trace + attached.trace + TagEvents(c.name)
  {
    attrs := NativeElement(env, c, children, scope).value.nodes[0].attrs;
  }

  lemma ElementKeeps(env: Env, c: Component, entry: Scope, inner: Lowered)
    requires KeptApart(entry, inner) && NativeElement(env, c, inner.nodes, inner.scope).Ok?
    ensures var outer := NativeElement(env, c, inner.nodes, inner.scope).value;
            KeptApart(entry, Lowered(outer.nodes, outer.scope, inner.trace + outer.trace))
  {
    var outer := NativeElement(env, c, inner.nodes, inner.scope).value;
    PropsAreMarkFree(env, c.props, inner.scope);
    AttachKeeps(c, outer.nodes[0].attrs, inner.scope);
    MarkerInOne(outer.nodes[0]);
  }

  predicate Markless(trace: seq<Event>) {
    Marked !in trace && OwnMark !in trace && MarkerNamed !in trace
  }

  lemma {:induction false} PropsAreMarkFree(env: Env, props: seq<Prop>, scope: Scope)
    requires EvalProps(env, props, scope).Ok?
    ensures Markless(EvalProps(env, props, scope).value.trace)
  {
    if props != [] {
      PropsAreMarkFree(env, props[1..], scope);
    }
  }

  ghost predicate AttachedKeeps(entry: Scope, a: Attached) {
    && Marked !in a.trace && MarkerNamed !in a.trace
    && (EachBinding in entry ==>
      && EachBinding in a.scope
      && (!Supported(entry) || OwnMark in a.trace <==> !Supported(a.scope)))
  }

  lemma AttachKeeps(c: Component, attrs: map<string, string>, scope: Scope)
    ensures AttachedKeeps(scope, Attach(c, attrs, scope))
  {
    AttachPropsKeep(c.props, attrs, scope);
  }

  lemma {:induction false} AttachPropsKeep(props: seq<Prop>, attrs: map<string, string>, scope: Scope)
    ensures AttachedKeeps(scope, AttachProps(props, attrs, scope))
  {
    if props != [] {
      AttachPropsKeep(props[1..], attrs, AttachProp(props[0], attrs, scope).scope);
    }
  }

  lemma {:induction false} LocalKeeps(env: Env, fuel: nat, c: Component, def: ComponentDef, scope: Scope, slots: Slots)
    requires fuel > 0 && LowerLocal(env, fuel, c, def, scope, slots).Ok?
    ensures KeptApart(scope, LowerLocal(env, fuel, c, def, scope, slots).value)
    decreases fuel, slots, c, 1
  {
    LocalIsOf(env, fuel, c, def, scope, slots);
    var entry := EnterLocal(env, c, def, scope).value;
    var handed := SlotOf(ChildStatements(c.body), slots);
    EntryKeepsFlag(env, c, def, scope);
    StatementsKeep(env, fuel - 1, def.body, entry.scope, handed);
    BodyKeeps(scope, entry, LowerStatements(env, fuel - 1, def.body, entry.scope, handed).value);
  }

  lemma LocalIsOf(env: Env, fuel: nat, c: Component, def: ComponentDef, scope: Scope, slots: Slots)
    requires fuel > 0 && LowerLocal(env, fuel, c, def, scope, slots).Ok?
    ensures EnterLocal(env, c, def, scope).Ok?
    ensures var entry := EnterLocal(env, c, def, scope).value;
            var r := LowerStatements(env, fuel - 1, def.body, entry.scope, SlotOf(ChildStatements(c.body), slots));
            r.Ok? && LowerLocal(env, fuel, c, def, scope, slots) == Ok(LocalOf(entry, r.value, scope))
  {
  }

  lemma BodyKeeps(scope: Scope, entry: LocalEntry, r: Lowered)
    requires SameFlag(scope, entry.scope) && Markless(entry.trace)
    requires Kept(entry.scope, r) && KeptInNodes(entry.scope, r.nodes, r.trace)
    ensures KeptApart(scope, LocalOf(entry, r, scope))
  {
    AttrsKeepMarker(r.nodes, entry.attrs);
  }

  lemma EntryKeepsFlag(env: Env, c: Component, def: ComponentDef, scope: Scope)
    requires EnterLocal(env, c, def, scope).Ok?
    ensures var entry := EnterLocal(env, c, def, scope).value; SameFlag(scope, entry.scope) && Markless(entry.trace)
  {
    var evaluated := EvalProps(env, c.props, scope).value;
    var entered := scope[InstancePath := Str(RenderPathOf(scope))];
    var own := PropagateParams(c.props, scope, entered);
    var bound := BindParams(env, def, def.params, evaluated.props, own).value;
    PropsAreMarkFree(env, c.props, scope);
    PropagateKeepsFlag(c.props, scope, entered);
    ParamsKeepFlag(env, def, def.params, evaluated.props, own);
    StatesKeepFlag(env, def.states, bound);
  }

  /** The flag and the loop binding are the same in both scopes. */
  ghost predicate SameFlag(s: Scope, t: Scope) {
    Supported(s) == Supported(t) && (EachBinding in s <==> EachBinding in t)
  }

  lemma {:induction false} PropagateKeepsFlag(props: seq<Prop>, source: Scope, target: Scope)
    ensures SameFlag(target, PropagateParams(props, source, target))
  {
    if props != [] {
      PropagateKeepsFlag(props[1..], source,
        match EachRenderPath(props[0].value, source)
        case Some(path) => target[EachParam(props[0].name) := Str(path)]
        case None => target);
    }
  }

  lemma {:induction false} ParamsKeepFlag(env: Env, def: ComponentDef, params: seq<Param>, props: map<string, Value>,
      scope: Scope)
    requires BindParams(env, def, params, props, scope).Ok?
    ensures SameFlag(scope, BindParams(env, def, params, props, scope).value)
  {
    if params != [] {
      var p := params[0];
      var v := if p.name in props then props[p.name]
               else if p.default.Some? then Eval(env, p.default.value, scope).value
               else Null;
      ParamsKeepFlag(env, def, params[1..], props, scope[User(p.name) := v]);
    }
  }

  lemma {:induction false} StatesKeepFlag(env: Env, states: seq<State>, scope: Scope)
    requires BindStates(env, states, scope).Ok?
    ensures SameFlag(scope, BindStates(env, states, scope).value)
  {
    if states != [] {
      var v := Eval(env, states[0].initial, scope).value;
      StatesKeepFlag(env, states[1..], scope[User(states[0].name) := v]);
    }
  }

  lemma AttrsKeepMarker(nodes: seq<Node>, incoming: map<string, string>)
    ensures MarkerIn(AttrsToFirst(nodes, incoming)) == MarkerIn(nodes)
  {
    var changed := AttrsToFirst(nodes, incoming);
    if nodes != [] && nodes[0].Element? {
      assert changed[1..] == nodes[1..];
    }
  }

  // Marks of an element's own -----------------------------------------------------------------

  /** An expression that depends on the item and has no path that a client could follow. */
  predicate IsUntracked(e: Expr, scope: Scope) {
    ReferencesItem(e, scope) && EachRenderPath(e, scope).None?
  }

  /** A property that cannot be patched although it depends on the item. */
  predicate IsUnpatched(p: Prop, scope: Scope) {
    match EachRenderPath(p.value, scope)
    case None => ReferencesItem(p.value, scope)
    case Some(_) => RenderTarget(p.name).None? || IsUnpatchable(p.name)
  }

  /** Whether a component marks the scope it is lowered in, which its text shows before it is lowered. */
  predicate MarksItself(env: Env, c: Component, scope: Scope) {
    if c.name == "Slot" then false
    else if c.name == "Fragment" then c.body.Inline? && IsUntracked(c.body.text, scope)
    else if FindComponent(env.components, c.name).Some? then false
    else
      || (c.body.Inline? && IsUntracked(c.body.text, scope))
      || (exists p <- c.props :: IsUnpatched(p, scope))
      || (c.class_.Some? && ReferencesItem(c.class_.value, scope))
      || (c.recipe.Some? && IsUntracked(c.recipe.value, scope))
  }

  /** A component's own marks are there exactly if its text, properties or style make them. */
  lemma OwnMarksExactly(env: Env, fuel: nat, c: Component, scope: Scope, slots: Slots)
    requires LowerComponentNodes(env, fuel, c, scope, slots).Ok?
    ensures OwnMark in LowerComponentNodes(env, fuel, c, scope, slots).value.trace
            <==> EachBinding in scope && MarksItself(env, c, scope)
  {
    if EachBinding in scope {
      LoopMarksExactly(env, fuel, c, scope, slots);
    } else if IsLocal(env, c) {
      LocalHasNoMark(env, fuel, c, FindComponent(env.components, c.name).value, scope, slots);
    } else {
      OutsideNothingMarks(env, fuel, c, scope, slots);
    }
  }

  /** Outside of loops nothing is marked. */
  lemma OutsideNothingMarks(env: Env, fuel: nat, c: Component, scope: Scope, slots: Slots)
    requires EachBinding !in scope && !IsLocal(env, c) && LowerComponentNodes(env, fuel, c, scope, slots).Ok?
    ensures OwnMark !in LowerComponentNodes(env, fuel, c, scope, slots).value.trace
  {
    if c.name == "Slot" {
      if slots.SlotOf? {
        StatementsKeep(env, fuel, Visited(env, c, scope, slots), scope, slots.parent);
      }
    } else {
      OutsideChildrenMarkNothing(env, fuel, c, scope, slots);
      if c.name != "Fragment" {
        var inner := LowerChildren(env, fuel, c, scope, slots).value;
        OutsideElementMarksNothing(env, c, inner.nodes, inner.scope);
      }
    }
  }

  lemma OutsideChildrenMarkNothing(env: Env, fuel: nat, c: Component, scope: Scope, slots: Slots)
    requires EachBinding !in scope && LowerChildren(env, fuel, c, scope, slots).Ok?
    ensures var r := LowerChildren(env, fuel, c, scope, slots).value; r.scope == scope && OwnMark !in r.trace
  {
    if c.body.Block? {
      StatementsKeep(env, fuel, c.body.statements, scope, slots);
    }
  }

  lemma OutsideElementMarksNothing(env: Env, c: Component, children: seq<Node>, scope: Scope)
    requires EachBinding !in scope && NativeElement(env, c, children, scope).Ok?
    ensures OwnMark !in NativeElement(env, c, children, scope).value.trace
  {
    var attrs := ElementParts(env, c, children, scope);
    PropsAreMarkFree(env, c.props, scope);
    OutsideNothingIsAttached(c.props, attrs, scope);
  }

  lemma {:induction false} OutsideNothingIsAttached(props: seq<Prop>, attrs: map<string, string>, scope: Scope)
    requires EachBinding !in scope
    ensures var a := AttachProps(props, attrs, scope); a.scope == scope && a.trace == []
  {
    if props != [] {
      OutsideNothingIsAttached(props[1..], attrs, scope);
    }
  }

  lemma LoopMarksExactly(env: Env, fuel: nat, c: Component, scope: Scope, slots: Slots)
    requires EachBinding in scope && LowerComponentNodes(env, fuel, c, scope, slots).Ok?
    ensures OwnMark in LowerComponentNodes(env, fuel, c, scope, slots).value.trace <==> MarksItself(env, c, scope)
  {
    if c.name == "Slot" {
      if slots.SlotOf? {
        var requested := SlotName(env, c.props, {"name", "slot"}, scope).value;
        var selected := SelectSlot(env, slots.body, requested, scope).value;
        StatementsKeep(env, fuel, selected, scope, slots.parent);
      }
    } else if c.name == "Fragment" {
      ChildrenMarkExactly(env, fuel, c, scope, slots);
    } else if FindComponent(env.components, c.name).Some? {
      LocalHasNoMark(env, fuel, c, FindComponent(env.components, c.name).value, scope, slots);
    } else {
      NativeMarksExactly(env, fuel, c, scope, slots);
    }
  }

  lemma LocalHasNoMark(env: Env, fuel: nat, c: Component, def: ComponentDef, scope: Scope, slots: Slots)
    requires fuel > 0 && LowerLocal(env, fuel, c, def, scope, slots).Ok?
    ensures OwnMark !in LowerLocal(env, fuel, c, def, scope, slots).value.trace
  {
    LocalIsOf(env, fuel, c, def, scope, slots);
    var entry := EnterLocal(env, c, def, scope).value;
    EntryKeepsFlag(env, c, def, scope);
    StatementsKeep(env, fuel - 1, def.body, entry.scope, SlotOf(ChildStatements(c.body), slots));
  }

  lemma NativeMarksExactly(env: Env, fuel: nat, c: Component, scope: Scope, slots: Slots)
    requires EachBinding in scope && LowerNative(env, fuel, c, scope, slots).Ok?
    ensures OwnMark in LowerNative(env, fuel, c, scope, slots).value.trace <==>
              || (c.body.Inline? && IsUntracked(c.body.text, scope))
              || (exists p <- c.props :: IsUnpatched(p, scope))
              || (c.class_.Some? && ReferencesItem(c.class_.value, scope))
              || (c.recipe.Some? && IsUntracked(c.recipe.value, scope))
  {
    var inner := LowerChildren(env, fuel, c, scope, slots).value;
    ChildrenMarkExactly(env, fuel, c, scope, slots);
    ElementMarksExactly(env, c, inner.nodes, scope, inner.scope);
  }

  lemma ChildrenMarkExactly(env: Env, fuel: nat, c: Component, scope: Scope, slots: Slots)
    requires EachBinding in scope && LowerChildren(env, fuel, c, scope, slots).Ok?
    ensures var r := LowerChildren(env, fuel, c, scope, slots).value;
            && (OwnMark in r.trace <==> c.body.Inline? && IsUntracked(c.body.text, scope))
            && (r.scope == scope || r.scope == MarkIf(true, scope))
  {
    match c.body {
      case Empty =>
      case Inline(_) =>
      case Block(statements) => StatementsKeep(env, fuel, statements, scope, slots);
    }
  }

  /** Marking a scope changes neither paths nor references. */
  lemma MarkingIsNeutral(e: Expr, s: Scope)
    requires EachBinding in s
    ensures EachRenderPath(e, MarkIf(true, s)) == EachRenderPath(e, s)
    ensures ReferencesItem(e, MarkIf(true, s)) == ReferencesItem(e, s)
  {
    SameEntries(e, s, MarkIf(true, s));
  }

  lemma ElementMarksExactly(env: Env, c: Component, children: seq<Node>, outer: Scope, scope: Scope)
    requires EachBinding in outer && (scope == outer || scope == MarkIf(true, outer))
    requires NativeElement(env, c, children, scope).Ok?
    ensures OwnMark in NativeElement(env, c, children, scope).value.trace <==>
              || (exists p <- c.props :: IsUnpatched(p, outer))
              || (c.class_.Some? && ReferencesItem(c.class_.value, outer))
              || (c.recipe.Some? && IsUntracked(c.recipe.value, outer))
  {
    var evaluated := EvalProps(env, c.props, scope).value;
    var attrs := NativeElement(env, c, children, scope).value.nodes[0].attrs;
    PropsAreMarkFree(env, c.props, scope);
    PropsAreNamed(env, c.props, scope);
    assert forall p <- c.props | !IsBehavior(p.name) && !IsBooleanAttr(p.name) ::
        p.name in NativeAttrs(evaluated.props);
    PropsMarkExactly(c.props, attrs, outer, scope);
    if c.class_.Some? { MarkingIsNeutral(c.class_.value, outer); }
    if c.recipe.Some? { MarkingIsNeutral(c.recipe.value, outer); }
  }

  lemma {:induction false} PropsAreNamed(env: Env, props: seq<Prop>, scope: Scope)
    requires EvalProps(env, props, scope).Ok?
    ensures forall p <- props :: p.name in EvalProps(env, props, scope).value.props
  {
    if props != [] {
      PropsAreNamed(env, props[1..], scope);
      assert forall p <- props :: p == props[0] || p in props[1..];
    }
  }

  lemma {:induction false} PropsMarkExactly(props: seq<Prop>, attrs: map<string, string>, outer: Scope, scope: Scope)
    requires EachBinding in outer && (scope == outer || scope == MarkIf(true, outer))
    requires forall p <- props | !IsBehavior(p.name) && !IsBooleanAttr(p.name) :: p.name in attrs
    ensures var a := AttachProps(props, attrs, scope);
            && (OwnMark in a.trace <==> exists p <- props :: IsUnpatched(p, outer))
            && (a.scope == outer || a.scope == MarkIf(true, outer))
  {
    if props != [] {
      MarkingIsNeutral(props[0].value, outer);
      var first := AttachProp(props[0], attrs, scope);
      assert props[0] in props;
      assert OwnMark in first.trace <==> IsUnpatched(props[0], outer);
      PropsMarkExactly(props[1..], attrs, outer, first.scope);
      assert forall p <- props :: p == props[0] || p in props[1..];
    }
  }

  /** A pipeline stage loses marks exactly if its component marks itself, or contains a pipeline that loses marks. */
  lemma StageStraysExactly(env: Env, fuel: nat, c: Component, scope: Scope, slots: Slots)
    requires LowerComponentNodes(env, fuel, c, scope, slots).Ok?
    ensures var inner, r := LowerComponentNodes(env, fuel, c, scope, slots).value.trace,
                            LowerStage(env, fuel, ComponentStage(c), scope, slots);
            && r.Ok?
            && (StrayMark in r.value.trace <==>
                  StrayMark in inner || (EachBinding in scope && MarksItself(env, c, scope)))
  {
    OwnMarksExactly(env, fuel, c, scope, slots);
    RenamedHolds(LowerComponentNodes(env, fuel, c, scope, slots).value.trace, StrayMark, StrayMark);
  }

  // What becomes of marks ---------------------------------------------------------------------

  /** Nodes without signals, state, behaviour or a template of their own. */
  predicate Harmless(nodes: seq<Node>)
    decreases nodes, 0
  {
    nodes == [] || (HarmlessNode(nodes[0]) && Harmless(nodes[1..]))
  }

  predicate HarmlessNode(node: Node)
    decreases node, 1
  {
    node.Element? ==>
      && node.tag != "template"
      && (forall name <- node.attrs :: AttrIsSafe(name))
      && Harmless(node.children)
  }

  lemma {:induction false} SafeExactly(nodes: seq<Node>)
    ensures TemplateIsSafe(nodes) <==> !MarkerIn(nodes) && Harmless(nodes)
    decreases nodes, 0
  {
    if nodes != [] {
      if nodes[0].Element? { SafeExactly(nodes[0].children); }
      SafeExactly(nodes[1..]);
    }
  }

  /**
   * An item can be the template exactly if its scope was supported, no mark was made in it that did not stray,
   * no element bears the marker's tag, and its nodes are harmless.
   */
  lemma TemplateExactly(env: Env, fuel: nat, binding: string, body: seq<Statement>, path: string, scope: Scope,
      slots: Slots, item: Value)
    requires LowerItem(env, fuel, binding, body, path, scope, slots, item).Ok?
    ensures var r := LowerItem(env, fuel, binding, body, path, scope, slots, item).value;
            CanBeTemplate(r) <==> Supported(scope) && !Spoils(r.trace) && Harmless(r.nodes)
  {
    var r := LowerItem(env, fuel, binding, body, path, scope, slots, item).value;
    StatementsKeep(env, fuel, body, At(ItemScope(scope, binding, item), path), slots);
    SafeExactly(r.nodes);
  }

  /** An item under which anything was marked for good is refused as a template. */
  lemma NoMarkIsLost(env: Env, fuel: nat, binding: string, body: seq<Statement>, path: string, scope: Scope,
      slots: Slots, item: Value)
    requires LowerItem(env, fuel, binding, body, path, scope, slots, item).Ok?
    requires Marked in LowerItem(env, fuel, binding, body, path, scope, slots, item).value.trace || !Supported(scope)
    ensures !CanBeTemplate(LowerItem(env, fuel, binding, body, path, scope, slots, item).value)
  {
    TemplateExactly(env, fuel, binding, body, path, scope, slots, item);
  }
}
