/** Bodies outside the fragment for which a keyed loop emits a template that is wrong. */
module LoweringLimits {
  import opened Text
  import opened LoweringModel
  import opened Evaluation
  import opened Lowering
  import opened LoweringFragment
  import opened LoweringCoupling
  import opened LoweringElements
  import opened LoweringTemplate

  /** The body's nodes for `true` become the template although they are wrong for `false`. */
  ghost predicate Misleads(env: Env, fuel: nat, b: string, body: seq<Statement>, scope: Scope, slots: Slots) {
    var r, q := LowerItem(env, fuel, b, body, "0", scope, slots, Bool(true)),
        LowerItem(env, fuel, b, body, "0", scope, slots, Bool(false));
    r.Ok? && q.Ok? && CanBeTemplate(r.value) && Instantiate(r.value.nodes, Bool(false)) != q.value.nodes
  }

  /** A statement that lowers to one harmless node without bindings, different for the two items. */
  lemma OneNodeMisleads(env: Env, fuel: nat, b: string, st: Statement, scope: Scope, slots: Slots, x: Node, y: Node)
    requires forall here :: Yields(env, fuel, b, st, scope, slots, Bool(true), here, x)
    requires forall here :: Yields(env, fuel, b, st, scope, slots, Bool(false), here, y)
    requires TemplateIsSafe([x]) && InstantiateNode(x, Bool(false)) == x && x != y
    ensures Misleads(env, fuel, b, [st], scope, slots)
  {
    OneNode(env, fuel, b, st, scope, slots, Bool(true), x);
    OneNode(env, fuel, b, st, scope, slots, Bool(false), y);
    InstantiateOne(x, Bool(false));
    assert [x][0] != [y][0];
  }

  ghost predicate Yields(env: Env, fuel: nat, b: string, st: Statement, scope: Scope, slots: Slots, item: Value,
      here: string, node: Node) {
    var r := LowerStatement(env, fuel, st, here, At(At(ItemScope(scope, b, item), "0"), here), slots);
    r.Ok? && r.value.nodes == [node] && Supported(r.value.scope)
  }

  ghost predicate YieldsMarked(env: Env, fuel: nat, b: string, st: Statement, scope: Scope, slots: Slots, item: Value,
      here: string, node: Node) {
    && Yields(env, fuel, b, st, scope, slots, item, here, node)
    && StrayMark in LowerStatement(env, fuel, st, here, At(At(ItemScope(scope, b, item), "0"), here), slots).value.trace
  }

  lemma OneNode(env: Env, fuel: nat, b: string, st: Statement, scope: Scope, slots: Slots, item: Value, node: Node)
    requires forall here :: Yields(env, fuel, b, st, scope, slots, item, here, node)
    ensures var r := LowerItem(env, fuel, b, [st], "0", scope, slots, item);
            && r.Ok? && r.value.nodes == [node] && Supported(r.value.scope)
            && (var here := "0" + "." + NatText(0);
                var inner := LowerStatement(env, fuel, st, here, At(At(ItemScope(scope, b, item), "0"), here), slots);
                inner.Ok? && forall e <- inner.value.trace :: e in r.value.trace)
  {
    var s := At(ItemScope(scope, b, item), "0");
    var here := RenderPathOf(s) + "." + NatText(0);
    OneStatement(env, fuel, st, RenderPathOf(s), s, slots);
    assert Yields(env, fuel, b, st, scope, slots, item, here, node);
  }

  // A pipeline stage --------------------------------------------------------------------------

  function StageTag(b: string): Component {
    Component("p", [Prop("title", Unary(Not, Ident(b)))], None, None, Empty)
  }

  function StageNode(title: string): Node {
    Element("p", map["title" := title], [], [])
  }

  function PipelineNode(title: string): Node {
    Element("section", map["data-ax-pipeline" := "true"], [], [TextNode(""), StageNode(title)])
  }

  predicate InLoop(scope: Scope, b: string) {
    b != "null" && User(b) in scope && EachBinding in scope && scope[EachBinding] == Str(b)
  }

  lemma StageProps(env: Env, b: string, scope: Scope)
    requires InLoop(scope, b)
    ensures EvalProps(env, StageTag(b).props, scope) == Ok(Evaluated(map["title" := Bool(!Truthy(scope[User(b)]))], []))
  {
    var props := StageTag(b).props;
    var v := Bool(!Truthy(scope[User(b)]));
    assert Eval(env, Ident(b), scope) == Ok(scope[User(b)]);
    assert Eval(env, props[0].value, scope) == Ok(v);
    assert props[1..] == [];
    assert EvalProps(env, props[1..], scope) == Ok(Evaluated(map[], []));
    assert map["title" := v] + map[] == map["title" := v];
    assert SignalEvents(v, scope) + [] == [];
  }

  lemma StageAttached(b: string, attrs: map<string, string>, scope: Scope)
    requires InLoop(scope, b)
    ensures Attach(StageTag(b), attrs, scope) == Attached([], MarkIf(true, scope), [OwnMark])
  {
    var c := StageTag(b);
    assert ReferencesItem(Ident(b), scope);
    assert ReferencesItem(c.props[0].value, scope) && EachRenderPath(c.props[0].value, scope).None?;
    assert c.props[1..] == [];
    assert AttachProps(c.props[1..], attrs, MarkIf(true, scope)) == Attached([], MarkIf(true, scope), []);
    assert AttachProps(c.props, attrs, scope) == Attached([], MarkIf(true, scope), [OwnMark]);
    assert AttachStyle(c, MarkIf(true, scope)) == Attached([], MarkIf(true, scope), []);
  }

  lemma StageElement(env: Env, b: string, scope: Scope, v: Value)
    requires InLoop(scope, b) && v == Bool(!Truthy(scope[User(b)]))
    ensures NativeElement(env, StageTag(b), [], scope)
            == Ok(Lowered([StageNode(AsString(v))], MarkIf(true, scope), [OwnMark]))
  {
    var attrs := map["title" := AsString(v)];
    StageProps(env, b, scope);
    TitleAttrs(v);
    StageStyle(env, b, scope);
    StageAttached(b, attrs, scope);
    ElementOf(env, StageTag(b), [], scope, map["title" := v], map[], attrs,
        Attached([], MarkIf(true, scope), [OwnMark]));
  }

  lemma StageStyle(env: Env, b: string, scope: Scope)
    ensures StyleAttrs(env, StageTag(b), scope) == Ok(map[])
  {
    assert map[] + map[] == StyleAttrs(env, StageTag(b), scope).value;
  }

  lemma ElementOf(env: Env, c: Component, children: seq<Node>, scope: Scope, props: map<string, Value>,
      style: map<string, string>, attrs: map<string, string>, attached: Attached)
    requires EvalProps(env, c.props, scope) == Ok(Evaluated(props, [])) && StyleAttrs(env, c, scope) == Ok(style)
    requires attrs == AttrsOf(style, props) && Attach(c, attrs, scope) == attached && TagEvents(c.name) == []
    ensures NativeElement(env, c, children, scope)
            == Ok(Lowered([Element(c.name, attrs, attached.bindings, children)], attached.scope, attached.trace))
  {
    NothingBefore(attached.trace);
    assert attached.trace + [] == attached.trace;
  }

  lemma NothingBefore(trace: seq<Event>)
    ensures [] + trace == trace
  {
  }

  lemma PIsNative()
    ensures IsNativeTag("p") && "p" != "Slot" && "p" != "Fragment"
  {
  }

  lemma StageTagLowers(env: Env, fuel: nat, b: string, scope: Scope, slots: Slots)
    requires InLoop(scope, b) && FindComponent(env.components, "p").None?
    ensures LowerComponentNodes(env, fuel, StageTag(b), scope, slots)
            == Ok(Lowered([StageNode(BoolText(!Truthy(scope[User(b)])))], MarkIf(true, scope), [OwnMark]))
  {
    var c := StageTag(b);
    PIsNative();
    assert LowerComponentNodes(env, fuel, c, scope, slots) == LowerNative(env, fuel, c, scope, slots);
    assert LowerChildren(env, fuel, c, scope, slots) == Ok(Lowered([], scope, []));
    StageElement(env, b, scope, Bool(!Truthy(scope[User(b)])));
    NothingBefore([OwnMark]);
  }

  lemma TitleAttrs(v: Value)
    requires v.Bool?
    ensures AttrsOf(map[], map["title" := v]) == map["title" := AsString(v)]
  {
    var props := map["title" := v];
    forall name ensures Get(AttrsOf(map[], props), name) == Get(map["title" := AsString(v)], name) {
      AttrLookup(map[], props, name);
      NoBehaviors(BEHAVIOR_PROPS, props);
    }
    SameAttrs(AttrsOf(map[], props), map["title" := AsString(v)]);
  }

  lemma {:induction false} NoBehaviors(mappings: seq<(string, string)>, props: map<string, Value>)
    requires forall m <- mappings :: m.0 !in props
    ensures BehaviorAttrs(mappings, props) == map[]
  {
    if mappings != [] {
      assert mappings[0] in mappings;
      NoBehaviors(mappings[1..], props);
    }
  }

  lemma StagesLower(env: Env, fuel: nat, b: string, scope: Scope, slots: Slots)
    requires InLoop(scope, b) && FindComponent(env.components, "p").None?
    ensures LowerStages(env, fuel, [ComponentStage(StageTag(b))], scope, slots)
            == Ok(Lowered([StageNode(BoolText(!Truthy(scope[User(b)])))], scope,
                          [PipelineStage(StageTag(b), scope), StrayMark]))
  {
    var stages := [ComponentStage(StageTag(b))];
    StageTagLowers(env, fuel, b, scope, slots);
    assert stages[1..] == [];
    assert LowerStages(env, fuel, stages[1..], scope, slots) == Ok(Lowered([], scope, []));
    var first := LowerStage(env, fuel, stages[0], scope, slots).value;
    assert first.nodes + [] == first.nodes && first.trace + [] == first.trace;
    assert Renamed([OwnMark], StrayMark) == [StrayMark];
    assert first.trace == [PipelineStage(StageTag(b), scope), StrayMark];
  }

  lemma PipelineLowers(env: Env, fuel: nat, b: string, scope: Scope, slots: Slots, item: Value, here: string,
      node: Node)
    requires node == PipelineNode(BoolText(!Truthy(item)))
    requires b != "null" && Supported(scope) && FindComponent(env.components, "p").None?
    ensures var st := Pipeline(StrLit(""), [ComponentStage(StageTag(b))]);
            YieldsMarked(env, fuel, b, st, scope, slots, item, here, node)
  {
    var st := Pipeline(StrLit(""), [ComponentStage(StageTag(b))]);
    var s := At(At(ItemScope(scope, b, item), "0"), here);
    StagesLower(env, fuel, b, s, slots);
    PipelineElementOf(BoolText(!Truthy(item)));
    PipelineOf(env, fuel, st, s, slots, StageNode(BoolText(!Truthy(item))), [PipelineStage(StageTag(b), s), StrayMark]);
  }

  lemma PipelineOf(env: Env, fuel: nat, st: Statement, scope: Scope, slots: Slots, stage: Node,
      trace: seq<Event>)
    requires st.Pipeline? && st.source == StrLit("") && Supported(scope)
    requires LowerStages(env, fuel, st.stages, scope, slots) == Ok(Lowered([stage], scope, trace))
    ensures LowerPipeline(env, fuel, st, scope, slots)
            == Ok(Lowered([PipelineElement(Str(""), [stage])], scope, [RunOf(env, st.stages, scope, slots)] + trace))
  {
    NothingBefore([RunOf(env, st.stages, scope, slots)] + trace);
  }

  lemma PipelineElementOf(title: string)
    ensures PipelineElement(Str(""), [StageNode(title)]) == PipelineNode(title)
  {
    assert map["data-ax-pipeline" := "true"] + map[] == map["data-ax-pipeline" := "true"];
    assert [TextNode("")] + [StageNode(title)] == PipelineNode(title).children;
  }

  /** A mark that a pipeline's stage makes itself is lost with the stage's copy of the scope. */
  lemma PipelineLosesMark(env: Env, fuel: nat, b: string, scope: Scope, slots: Slots)
    requires b != "null" && Supported(scope) && FindComponent(env.components, "p").None?
    ensures var body := [Pipeline(StrLit(""), [ComponentStage(StageTag(b))])];
            && Misleads(env, fuel, b, body, scope, slots)
            && StrayMark in LowerItem(env, fuel, b, body, "0", scope, slots, Bool(true)).value.trace
  {
    var st := Pipeline(StrLit(""), [ComponentStage(StageTag(b))]);
    var x, y := PipelineNode("false"), PipelineNode("true");
    PipelineAlwaysLowers(env, fuel, b, scope, slots, Bool(true), x);
    PipelineAlwaysLowers(env, fuel, b, scope, slots, Bool(false), y);
    PipelineNodes();
    MarkedNode(env, fuel, b, st, scope, slots, Bool(true), x);
    MarkedNode(env, fuel, b, st, scope, slots, Bool(false), y);
    OneNodeMisleads(env, fuel, b, st, scope, slots, x, y);
  }

  /** A statement that always marks leaves its mark in the trace of the item it makes up. */
  lemma MarkedNode(env: Env, fuel: nat, b: string, st: Statement, scope: Scope, slots: Slots, item: Value, node: Node)
    requires forall here :: YieldsMarked(env, fuel, b, st, scope, slots, item, here, node)
    ensures forall here :: Yields(env, fuel, b, st, scope, slots, item, here, node)
    ensures var r := LowerItem(env, fuel, b, [st], "0", scope, slots, item); r.Ok? && StrayMark in r.value.trace
  {
    forall here ensures Yields(env, fuel, b, st, scope, slots, item, here, node) {
      assert YieldsMarked(env, fuel, b, st, scope, slots, item, here, node);
    }
    OneNode(env, fuel, b, st, scope, slots, item, node);
    assert YieldsMarked(env, fuel, b, st, scope, slots, item, "0" + "." + NatText(0), node);
  }

  lemma PipelineAlwaysLowers(env: Env, fuel: nat, b: string, scope: Scope, slots: Slots, item: Value, node: Node)
    requires node == PipelineNode(BoolText(!Truthy(item)))
    requires b != "null" && Supported(scope) && FindComponent(env.components, "p").None?
    ensures var st := Pipeline(StrLit(""), [ComponentStage(StageTag(b))]);
            forall here :: YieldsMarked(env, fuel, b, st, scope, slots, item, here, node)
  {
    var st := Pipeline(StrLit(""), [ComponentStage(StageTag(b))]);
    forall here
      ensures YieldsMarked(env, fuel, b, st, scope, slots, item, here, node)
    {
      PipelineLowers(env, fuel, b, scope, slots, item, here, node);
    }
  }

  lemma PipelineNodes()
    ensures var x, y := PipelineNode("false"), PipelineNode("true");
            TemplateIsSafe([x]) && InstantiateNode(x, Bool(false)) == x && x != y
  {
    var x, y := PipelineNode("false"), PipelineNode("true");
    var inner := StageNode("false");
    assert [x][1..] == [] && [inner][1..] == [];
    assert x.children[1..] == [inner];
    assert "data-ax-pipeline"[8] == 'p' && "data-ax-on-"[8] == 'o' && "data-ax-state-"[8] == 's';
    assert AttrIsSafe("data-ax-pipeline") && AttrIsSafe("title");
    assert NodeIsSafe(inner) && TemplateIsSafe([inner]);
    assert TemplateIsSafe(x.children) && NodeIsSafe(x);
    assert InstantiateNode(inner, Bool(false)) == inner;
    InstantiateOne(inner, Bool(false));
    assert Instantiate(x.children, Bool(false)) == [TextNode("")] + [inner] == x.children;
    assert x.children[1].attrs["title"] != y.children[1].attrs["title"];
  }

  // A component -------------------------------------------------------------------------------

  /** A component that shows its one parameter. */
  function Showing(name: string, x: string): ComponentDef {
    ComponentDef(name, [Param(x, [], None)], [], [TextOf(Ident(x))])
  }

  function Passing(name: string, x: string, e: Expr): Component {
    Component(name, [Prop(x, e)], None, None, Empty)
  }

  function Entered(s: Scope, x: string, e: Expr, v: Value): Scope {
    var own := s[InstancePath := Str(RenderPathOf(s))];
    (match EachRenderPath(e, s)
     case Some(path) => own[EachParam(x) := Str(path)]
     case None => own)[User(x) := v]
  }

  lemma EnteredIsSupported(s: Scope, x: string, e: Expr, v: Value)
    requires Supported(s)
    ensures Supported(Entered(s, x, e, v))
  {
  }

  lemma EnteredBody(env: Env, fuel: nat, x: string, e: Expr, s: Scope, slots: Slots, v: Value, node: Node)
    requires Supported(s) && Shows(env, x, Entered(s, x, e, v), node)
    ensures var r := LowerStatements(env, fuel, [TextOf(Ident(x))], Entered(s, x, e, v), slots);
            r.Ok? && r.value.nodes == [node]
  {
    EnteredIsSupported(s, x, e, v);
    ShowingBody(env, fuel, x, Entered(s, x, e, v), slots, node);
  }

  lemma PassingEnters(env: Env, name: string, x: string, e: Expr, s: Scope, v: Value)
    requires Eval(env, e, s) == Ok(v) && !v.Str?
    ensures EnterLocal(env, Passing(name, x, e), Showing(name, x), s)
            == Ok(LocalEntry(map[], Entered(s, x, e, v), [Instance(RenderPathOf(s))]))
  {
    var c, def := Passing(name, x, e), Showing(name, x);
    var props := map[x := v];
    assert c.props[1..] == [] && def.params[1..] == [];
    assert EvalProps(env, c.props[1..], s) == Ok(Evaluated(map[], []));
    assert map[x := v] + map[] == props;
    assert SignalEvents(v, s) + [] == [] && Materialize(v, s) == v;
    assert EvalProps(env, c.props, s) == Ok(Evaluated(props, []));
    assert StyleAttrs(env, c, s).value == map[];
    assert Passthrough(def, props) == map[] by {
      assert def.params[0].name == x;
    }
    assert Passthrough(def, props) + map[] == map[];
    var own := PropagateParams(c.props, s, s[InstancePath := Str(RenderPathOf(s))]);
    PassingPropagates(name, x, e, s, s[InstancePath := Str(RenderPathOf(s))]);
    assert own[User(x) := v] == Entered(s, x, e, v);
    assert BindParams(env, def, def.params[1..], props, own[User(x) := v]) == Ok(own[User(x) := v]);
    assert BindParams(env, def, def.params, props, own) == Ok(own[User(x) := v]);
    NothingBefore([Instance(RenderPathOf(s))]);
  }

  lemma PassingPropagates(name: string, x: string, e: Expr, s: Scope, own: Scope)
    ensures PropagateParams(Passing(name, x, e).props, s, own)
            == match EachRenderPath(e, s)
               case Some(path) => own[EachParam(x) := Str(path)]
               case None => own
  {
    assert Passing(name, x, e).props[1..] == [];
  }

  /** Wherever it is lowered from this scope, the variable gives the node. */
  ghost predicate Shows(env: Env, x: string, entered: Scope, node: Node) {
    forall here :: LowerText(env, Ident(x), At(entered, here)) == Ok(Lowered([node], At(entered, here), []))
  }

  /** Wherever it is lowered from this scope, the statement gives the node and changes nothing. */
  ghost predicate Gives(env: Env, fuel: nat, st: Statement, entered: Scope, slots: Slots, node: Node) {
    forall here ::
      LowerStatement(env, fuel, st, here, At(entered, here), slots) == Ok(Lowered([node], At(entered, here), []))
  }

  lemma SteadyBody(env: Env, fuel: nat, st: Statement, entered: Scope, slots: Slots, node: Node)
    requires Supported(entered) && Gives(env, fuel, st, entered, slots, node)
    ensures var r := LowerStatements(env, fuel, [st], entered, slots); r.Ok? && r.value.nodes == [node]
  {
    var here := RenderPathOf(entered) + "." + NatText(0);
    OneStatement(env, fuel, st, RenderPathOf(entered), entered, slots);
    assert LowerStatement(env, fuel, st, here, At(entered, here), slots)
        == Ok(Lowered([node], At(entered, here), []));
  }

  lemma ShowingBody(env: Env, fuel: nat, x: string, entered: Scope, slots: Slots, node: Node)
    requires Supported(entered) && Shows(env, x, entered, node)
    ensures var r := LowerStatements(env, fuel, [TextOf(Ident(x))], entered, slots); r.Ok? && r.value.nodes == [node]
  {
    forall here
      ensures LowerStatement(env, fuel, TextOf(Ident(x)), here, At(entered, here), slots)
              == Ok(Lowered([node], At(entered, here), []))
    {
      assert LowerText(env, Ident(x), At(entered, here)) == Ok(Lowered([node], At(entered, here), []));
    }
    SteadyBody(env, fuel, TextOf(Ident(x)), entered, slots, node);
  }

  /** A component that shows its parameter lowers to the text, as its own scope has it. */
  lemma ShowingLowers(env: Env, fuel: nat, name: string, x: string, e: Expr, s: Scope, slots: Slots, v: Value,
      node: Node)
    requires fuel > 0 && IsLocalOf(env, Passing(name, x, e), Showing(name, x))
    requires Eval(env, e, s) == Ok(v) && !v.Str? && Supported(s) && Shows(env, x, Entered(s, x, e, v), node)
    ensures var r := LowerComponentNodes(env, fuel, Passing(name, x, e), s, slots);
            r.Ok? && r.value.nodes == [node] && r.value.scope == s
  {
    var entry := LocalEntry(map[], Entered(s, x, e, v), [Instance(RenderPathOf(s))]);
    ShowingBodyIs(env, fuel, name, x, e, s, slots, v, node);
    PassingEnters(env, name, x, e, s, v);
    NothingMerges([node]);
    LocalLowers(env, fuel, Passing(name, x, e), Showing(name, x), s, slots, entry, [node]);
  }

  lemma ShowingBodyIs(env: Env, fuel: nat, name: string, x: string, e: Expr, s: Scope, slots: Slots, v: Value,
      node: Node)
    requires fuel > 0 && Supported(s) && Shows(env, x, Entered(s, x, e, v), node)
    ensures var handed := SlotOf(ChildStatements(Passing(name, x, e).body), slots);
            var r := LowerStatements(env, fuel - 1, Showing(name, x).body, Entered(s, x, e, v), handed);
            r.Ok? && r.value.nodes == [node]
  {
    EnteredBody(env, fuel - 1, x, e, s, SlotOf([], slots), v, node);
  }

  lemma LocalLowers(env: Env, fuel: nat, c: Component, def: ComponentDef, s: Scope, slots: Slots, entry: LocalEntry,
      nodes: seq<Node>)
    requires fuel > 0 && IsLocalOf(env, c, def) && EnterLocal(env, c, def, s) == Ok(entry)
    requires var r := LowerStatements(env, fuel - 1, def.body, entry.scope, SlotOf(ChildStatements(c.body), slots));
             r.Ok? && r.value.nodes == nodes
    ensures var r := LowerComponentNodes(env, fuel, c, s, slots);
            r.Ok? && r.value.nodes == AttrsToFirst(nodes, entry.attrs) && r.value.scope == s
  {
  }

  lemma NothingMerges(nodes: seq<Node>)
    ensures AttrsToFirst(nodes, map[]) == nodes
  {
    if nodes != [] && nodes[0].Element? {
      assert MergeAttrs(nodes[0].attrs, map[]) == nodes[0].attrs;
      assert nodes[0].(attrs := nodes[0].attrs) == nodes[0];
    }
  }

  lemma UseYields(env: Env, fuel: nat, b: string, c: Component, scope: Scope, slots: Slots, item: Value, node: Node)
    requires Supported(scope)
    requires forall here ::
               var r := LowerComponentNodes(env, fuel, c, At(At(ItemScope(scope, b, item), "0"), here), slots);
               && r.Ok? && r.value.nodes == [node]
               && r.value.scope == At(At(ItemScope(scope, b, item), "0"), here)
    ensures forall here :: Yields(env, fuel, b, Use(c), scope, slots, item, here, node)
  {
    forall here ensures Yields(env, fuel, b, Use(c), scope, slots, item, here, node) {
      var s := At(At(ItemScope(scope, b, item), "0"), here);
      var r := LowerComponentNodes(env, fuel, c, s, slots);
      assert r.Ok? && r.value.nodes == [node] && r.value.scope == s;
    }
  }

  /** What depends on the item but is no chain can be passed to a component without a mark. */
  lemma UntrackedPropMisleads(env: Env, fuel: nat, b: string, name: string, x: string, scope: Scope, slots: Slots)
    requires b != "null" && x != "null" && x != b && EachParam(x) !in scope && Supported(scope)
    requires fuel > 0 && IsLocalOf(env, Passing(name, x, Unary(Not, Ident(b))), Showing(name, x))
    ensures Misleads(env, fuel, b, [Use(Passing(name, x, Unary(Not, Ident(b))))], scope, slots)
  {
    var c := Passing(name, x, Unary(Not, Ident(b)));
    UntrackedYields(env, fuel, b, name, x, scope, slots, true);
    UntrackedYields(env, fuel, b, name, x, scope, slots, false);
    UseYields(env, fuel, b, c, scope, slots, Bool(true), TextNode("false"));
    UseYields(env, fuel, b, c, scope, slots, Bool(false), TextNode("true"));
    assert TemplateIsSafe([TextNode("false")]) by {
      SafeOne(TextNode("false"));
    }
    assert "false"[0] != "true"[0];
    OneNodeMisleads(env, fuel, b, Use(c), scope, slots, TextNode("false"), TextNode("true"));
  }

  lemma UntrackedYields(env: Env, fuel: nat, b: string, name: string, x: string, scope: Scope, slots: Slots, item: bool)
    requires b != "null" && x != "null" && x != b && EachParam(x) !in scope && Supported(scope)
    requires fuel > 0 && IsLocalOf(env, Passing(name, x, Unary(Not, Ident(b))), Showing(name, x))
    ensures forall here ::
              var s := At(At(ItemScope(scope, b, Bool(item)), "0"), here);
              var r := LowerComponentNodes(env, fuel, Passing(name, x, Unary(Not, Ident(b))), s, slots);
              r.Ok? && r.value.nodes == [TextNode(BoolText(!item))] && r.value.scope == s
  {
    var e, v := Unary(Not, Ident(b)), Bool(!item);
    forall here
      ensures var s := At(At(ItemScope(scope, b, Bool(item)), "0"), here);
              var r := LowerComponentNodes(env, fuel, Passing(name, x, e), s, slots);
              r.Ok? && r.value.nodes == [TextNode(BoolText(!item))] && r.value.scope == s
    {
      var s := At(At(ItemScope(scope, b, Bool(item)), "0"), here);
      assert Eval(env, Ident(b), s) == Ok(Bool(item));
      forall at ensures LowerText(env, Ident(x), At(Entered(s, x, e, v), at))
                        == Ok(Lowered([TextNode(BoolText(!item))], At(Entered(s, x, e, v), at), []))
      {
        assert Eval(env, Ident(x), At(Entered(s, x, e, v), at)) == Ok(v);
        assert ChainOf(Ident(x)) == Some((x, []));
      }
      assert s[User(b)] == Bool(item);
      ShowingLowers(env, fuel, name, x, e, s, slots, v, TextNode(BoolText(!item)));
    }
  }

  /** A parameter with the loop's own name is taken for the whole item, whatever part of it is passed. */
  lemma ShadowedBindingMisleads(env: Env, fuel: nat, b: string, name: string, scope: Scope, slots: Slots)
    requires b != "null" && Supported(scope)
    requires fuel > 0 && IsLocalOf(env, Passing(name, b, OptionalMember(Ident(b), "f")), Showing(name, b))
    ensures Misleads(env, fuel, b, [Use(Passing(name, b, OptionalMember(Ident(b), "f")))], scope, slots)
  {
    var c := Passing(name, b, OptionalMember(Ident(b), "f"));
    var node := TargetNode("", "");
    ShadowedYields(env, fuel, b, name, scope, slots, true);
    ShadowedYields(env, fuel, b, name, scope, slots, false);
    UseYields(env, fuel, b, c, scope, slots, Bool(true), node);
    UseYields(env, fuel, b, c, scope, slots, Bool(false), node);
    OneNode(env, fuel, b, Use(c), scope, slots, Bool(true), node);
    OneNode(env, fuel, b, Use(c), scope, slots, Bool(false), node);
    TargetIsSafe("", "");
    InstantiateOne(node, Bool(false));
    assert InstantiateNode(node, Bool(false)).children == [TextNode("false")];
    assert node.children == [TextNode("")];
    assert Instantiate([node], Bool(false))[0] != [node][0];
  }

  lemma ShadowedYields(env: Env, fuel: nat, b: string, name: string, scope: Scope, slots: Slots, item: bool)
    requires b != "null" && Supported(scope)
    requires fuel > 0 && IsLocalOf(env, Passing(name, b, OptionalMember(Ident(b), "f")), Showing(name, b))
    ensures forall here ::
              var s := At(At(ItemScope(scope, b, Bool(item)), "0"), here);
              var r := LowerComponentNodes(env, fuel, Passing(name, b, OptionalMember(Ident(b), "f")), s, slots);
              r.Ok? && r.value.nodes == [TargetNode("", "")] && r.value.scope == s
  {
    var e := OptionalMember(Ident(b), "f");
    forall here
      ensures var s := At(At(ItemScope(scope, b, Bool(item)), "0"), here);
              var r := LowerComponentNodes(env, fuel, Passing(name, b, e), s, slots);
              r.Ok? && r.value.nodes == [TargetNode("", "")] && r.value.scope == s
    {
      var s := At(At(ItemScope(scope, b, Bool(item)), "0"), here);
      assert Eval(env, Ident(b), s) == Ok(Bool(item));
      assert Eval(env, e, s) == Ok(Null);
      forall at ensures LowerText(env, Ident(b), At(Entered(s, b, e, Null), at))
                        == Ok(Lowered([TargetNode("", "")], At(Entered(s, b, e, Null), at), []))
      {
        assert Eval(env, Ident(b), At(Entered(s, b, e, Null), at)) == Ok(Null);
        assert ChainOf(Ident(b)) == Some((b, []));
        assert EachRenderPath(Ident(b), At(Entered(s, b, e, Null), at)) == Some("");
      }
      ShowingLowers(env, fuel, name, b, e, s, slots, Null, TargetNode("", ""));
    }
  }

  // An overridden attribute -------------------------------------------------------------------

  /** A component whose element has its one parameter as title. */
  function Titled(name: string, x: string): ComponentDef {
    ComponentDef(name, [Param(x, [], None)], [], [Use(TitleTag(x))])
  }

  function TitleTag(x: string): Component {
    Component("p", [Prop("title", Ident(x))], None, None, Empty)
  }

  /** The component is passed the item, and a title that goes to its element. */
  function Retitling(name: string, x: string, b: string): Component {
    Component(name, [Prop(x, Ident(b)), Prop("title", StrLit("t"))], None, None, Empty)
  }

  function TitleNode(title: string): Node {
    Element("p", map["title" := title], [RenderBinding("title", "", SetAttribute)], [])
  }

  function Retitled(s: Scope, x: string, v: Value): Scope {
    s[InstancePath := Str(RenderPathOf(s))][EachParam(x) := Str("")][User(x) := v]
  }

  lemma RetitlingEnters(env: Env, name: string, x: string, b: string, s: Scope, v: bool)
    requires x != "title" && InLoop(s, b) && s[User(b)] == Bool(v)
    ensures EnterLocal(env, Retitling(name, x, b), Titled(name, x), s)
            == Ok(LocalEntry(map["title" := "t"], Retitled(s, x, Bool(v)), [Instance(RenderPathOf(s))]))
  {
    var c, def := Retitling(name, x, b), Titled(name, x);
    var props := map[x := Bool(v), "title" := Str("t")];
    RetitlingProps(env, name, x, b, s, v);
    assert StyleAttrs(env, c, s).value == map[];
    assert Passthrough(def, props) == map["title" := "t"] by {
      assert def.params == [Param(x, [], None)];
    }
    assert Passthrough(def, props) + map[] == map["title" := "t"];
    RetitlingPropagates(name, x, b, s, s[InstancePath := Str(RenderPathOf(s))]);
    OneParamBinds(env, def, x, props, PropagateParams(c.props, s, s[InstancePath := Str(RenderPathOf(s))]), Bool(v));
    NothingBefore([Instance(RenderPathOf(s))]);
  }

  lemma OneParamBinds(env: Env, def: ComponentDef, x: string, props: map<string, Value>, own: Scope, v: Value)
    requires def.params == [Param(x, [], None)] && x in props && props[x] == v
    ensures BindParams(env, def, def.params, props, own) == Ok(own[User(x) := v])
  {
    assert def.params[1..] == [];
    assert BindParams(env, def, def.params[1..], props, own[User(x) := v]) == Ok(own[User(x) := v]);
  }

  lemma RetitlingProps(env: Env, name: string, x: string, b: string, s: Scope, v: bool)
    requires x != "title" && InLoop(s, b) && s[User(b)] == Bool(v)
    ensures EvalProps(env, Retitling(name, x, b).props, s)
            == Ok(Evaluated(map[x := Bool(v), "title" := Str("t")], []))
  {
    var props := Retitling(name, x, b).props;
    assert props[1..] == [Prop("title", StrLit("t"))] && props[1..][1..] == [];
    assert !HasPrefix("t", STATE_PREFIX);
    assert EvalProps(env, props[1..][1..], s) == Ok(Evaluated(map[], []));
    assert EvalProps(env, props[1..], s) == Ok(Evaluated(map["title" := Str("t")], [])) by {
      assert map["title" := Str("t")] + map[] == map["title" := Str("t")];
      assert SignalEvents(Str("t"), s) + [] == [];
    }
    assert map[x := Bool(v)] + map["title" := Str("t")] == map[x := Bool(v), "title" := Str("t")];
    assert SignalEvents(Bool(v), s) + [] == [];
  }

  lemma RetitlingPropagates(name: string, x: string, b: string, s: Scope, own: Scope)
    requires InLoop(s, b)
    ensures PropagateParams(Retitling(name, x, b).props, s, own) == own[EachParam(x) := Str("")]
  {
    var props := Retitling(name, x, b).props;
    assert props[1..] == [Prop("title", StrLit("t"))] && props[1..][1..] == [];
    assert ChainOf(Ident(b)) == Some((b, []));
    assert EachRenderPath(Ident(b), s) == Some("");
    assert EachRenderPath(StrLit("t"), s) == None;
    var next := own[EachParam(x) := Str("")];
    assert PropagateParams(props[1..][1..], s, next) == next;
    assert PropagateParams(props[1..], s, next) == next;
  }

  lemma TitleProps(env: Env, x: string, s: Scope, v: bool)
    requires User(x) in s && s[User(x)] == Bool(v) && x != "null"
    ensures EvalProps(env, TitleTag(x).props, s) == Ok(Evaluated(map["title" := Bool(v)], []))
    ensures StyleAttrs(env, TitleTag(x), s) == Ok(map[])
  {
    var c := TitleTag(x);
    assert c.props[1..] == [];
    assert EvalProps(env, c.props[1..], s) == Ok(Evaluated(map[], []));
    assert map["title" := Bool(v)] + map[] == map["title" := Bool(v)];
    assert SignalEvents(Bool(v), s) + [] == [];
    assert map[] + map[] == StyleAttrs(env, c, s).value;
  }

  lemma TitleAttached(x: string, attrs: map<string, string>, s: Scope)
    requires EachRenderPath(Ident(x), s) == Some("") && "title" in attrs
    ensures Attach(TitleTag(x), attrs, s) == Attached([RenderBinding("title", "", SetAttribute)], s, [])
  {
    var c, binding := TitleTag(x), RenderBinding("title", "", SetAttribute);
    assert c.props[1..] == [];
    assert !IsUnpatchable("title") && RenderTarget("title") == Some("title") && !IsBooleanAttr("title");
    assert AttachProps(c.props[1..], attrs, s) == Attached([], s, []);
    assert [binding] + [] == [binding];
    assert AttachProps(c.props, attrs, s) == Attached([binding], s, []);
  }

  /** The component's element has the item's text as title, and the title's path. */
  lemma TitleLowers(env: Env, x: string, s: Scope, v: bool)
    requires User(x) in s && s[User(x)] == Bool(v) && x != "null" && EachRenderPath(Ident(x), s) == Some("")
    ensures NativeElement(env, TitleTag(x), [], s) == Ok(Lowered([TitleNode(BoolText(v))], s, []))
  {
    var attrs := map["title" := BoolText(v)];
    TitleProps(env, x, s, v);
    TitleAttrs(Bool(v));
    TitleAttached(x, attrs, s);
    ElementOf(env, TitleTag(x), [], s, map["title" := Bool(v)], map[], attrs,
        Attached([RenderBinding("title", "", SetAttribute)], s, []));
  }

  lemma TitleTagLowers(env: Env, fuel: nat, x: string, s: Scope, slots: Slots, v: bool)
    requires User(x) in s && s[User(x)] == Bool(v) && x != "null" && EachRenderPath(Ident(x), s) == Some("")
    requires FindComponent(env.components, "p").None?
    ensures LowerComponentNodes(env, fuel, TitleTag(x), s, slots) == Ok(Lowered([TitleNode(BoolText(v))], s, []))
  {
    PIsNative();
    TitleLowers(env, x, s, v);
    NothingBefore([]);
    assert LowerComponentNodes(env, fuel, TitleTag(x), s, slots) == LowerNative(env, fuel, TitleTag(x), s, slots);
    assert LowerChildren(env, fuel, TitleTag(x), s, slots) == Ok(Lowered([], s, []));
  }

  lemma TitleStatementLowers(env: Env, fuel: nat, x: string, here: string, s: Scope, slots: Slots, v: bool)
    requires User(x) in s && s[User(x)] == Bool(v) && x != "null" && EachRenderPath(Ident(x), s) == Some("")
    requires FindComponent(env.components, "p").None?
    ensures LowerStatement(env, fuel, Use(TitleTag(x)), here, s, slots)
            == Ok(Lowered([TitleNode(BoolText(v))], s, []))
  {
    TitleTagLowers(env, fuel, x, s, slots, v);
    UseOf(env, fuel, TitleTag(x), here, s, slots, [TitleNode(BoolText(v))]);
  }

  lemma UseOf(env: Env, fuel: nat, c: Component, here: string, s: Scope, slots: Slots, nodes: seq<Node>)
    requires LowerComponentNodes(env, fuel, c, s, slots) == Ok(Lowered(nodes, s, []))
    ensures LowerStatement(env, fuel, Use(c), here, s, slots) == Ok(Lowered(nodes, s, []))
  {
    assert Renamed([], Marked) == [];
  }

  lemma TitledBody(env: Env, fuel: nat, x: string, entered: Scope, slots: Slots, v: bool)
    requires User(x) in entered && entered[User(x)] == Bool(v) && x != "null" && Supported(entered)
    requires EachRenderPath(Ident(x), entered) == Some("") && FindComponent(env.components, "p").None?
    ensures var r := LowerStatements(env, fuel, [Use(TitleTag(x))], entered, slots);
            r.Ok? && r.value.nodes == [TitleNode(BoolText(v))]
  {
    var node := TitleNode(BoolText(v));
    forall here
      ensures LowerStatement(env, fuel, Use(TitleTag(x)), here, At(entered, here), slots)
              == Ok(Lowered([node], At(entered, here), []))
    {
      assert EachRenderPath(Ident(x), At(entered, here)) == EachRenderPath(Ident(x), entered);
      TitleStatementLowers(env, fuel, x, here, At(entered, here), slots, v);
    }
    SteadyBody(env, fuel, Use(TitleTag(x)), entered, slots, node);
  }

  lemma RetitledReads(s: Scope, b: string, x: string, v: Value)
    requires InLoop(s, b) && Supported(s)
    ensures EachRenderPath(Ident(x), Retitled(s, x, v)) == Some("") && Supported(Retitled(s, x, v))
  {
    assert ChainOf(Ident(x)) == Some((x, []));
  }

  lemma RetitlingLowers(env: Env, fuel: nat, name: string, x: string, b: string, s: Scope, slots: Slots, v: bool)
    requires x != "title" && x != "null" && InLoop(s, b) && s[User(b)] == Bool(v) && Supported(s)
    requires fuel > 0 && IsLocalOf(env, Retitling(name, x, b), Titled(name, x))
    requires FindComponent(env.components, "p").None?
    ensures var r := LowerComponentNodes(env, fuel, Retitling(name, x, b), s, slots);
            r.Ok? && r.value.nodes == [TitleNode("t")] && r.value.scope == s
  {
    var entry := LocalEntry(map["title" := "t"], Retitled(s, x, Bool(v)), [Instance(RenderPathOf(s))]);
    RetitledBodyIs(env, fuel, name, x, b, s, slots, v);
    RetitlingEnters(env, name, x, b, s, v);
    LocalLowers(env, fuel, Retitling(name, x, b), Titled(name, x), s, slots, entry, [TitleNode(BoolText(v))]);
    TitleIsReplaced(BoolText(v));
  }

  lemma TitleIsReplaced(title: string)
    ensures AttrsToFirst([TitleNode(title)], map["title" := "t"]) == [TitleNode("t")]
  {
    assert MergeAttrs(map["title" := title], map["title" := "t"]) == map["title" := "t"];
  }

  lemma RetitledBodyIs(env: Env, fuel: nat, name: string, x: string, b: string, s: Scope, slots: Slots, v: bool)
    requires fuel > 0 && x != "null" && InLoop(s, b) && Supported(s) && FindComponent(env.components, "p").None?
    ensures var handed := SlotOf(ChildStatements(Retitling(name, x, b).body), slots);
            var r := LowerStatements(env, fuel - 1, Titled(name, x).body, Retitled(s, x, Bool(v)), handed);
            r.Ok? && r.value.nodes == [TitleNode(BoolText(v))]
  {
    RetitledBody(env, fuel - 1, x, b, s, SlotOf([], slots), v);
  }

  lemma RetitledBody(env: Env, fuel: nat, x: string, b: string, s: Scope, slots: Slots, v: bool)
    requires x != "null" && InLoop(s, b) && Supported(s) && FindComponent(env.components, "p").None?
    ensures var r := LowerStatements(env, fuel, [Use(TitleTag(x))], Retitled(s, x, Bool(v)), slots);
            r.Ok? && r.value.nodes == [TitleNode(BoolText(v))]
  {
    RetitledReads(s, b, x, Bool(v));
    TitledBody(env, fuel, x, Retitled(s, x, Bool(v)), slots, v);
  }

  /** An attribute passed to a component replaces one with a path, but not the path. */
  lemma OverriddenAttrMisleads(env: Env, fuel: nat, b: string, name: string, x: string, scope: Scope, slots: Slots)
    requires b != "null" && x != "null" && x != "title" && Supported(scope) && FindComponent(env.components, "p").None?
    requires fuel > 0 && IsLocalOf(env, Retitling(name, x, b), Titled(name, x))
    ensures Misleads(env, fuel, b, [Use(Retitling(name, x, b))], scope, slots)
  {
    var c, node := Retitling(name, x, b), TitleNode("t");
    forall v: bool
      ensures forall here :: Yields(env, fuel, b, Use(c), scope, slots, Bool(v), here, node)
    {
      forall here
        ensures var s := At(At(ItemScope(scope, b, Bool(v)), "0"), here);
                var r := LowerComponentNodes(env, fuel, c, s, slots);
                r.Ok? && r.value.nodes == [node] && r.value.scope == s
      {
        RetitlingLowers(env, fuel, name, x, b, At(At(ItemScope(scope, b, Bool(v)), "0"), here), slots, v);
      }
      UseYields(env, fuel, b, c, scope, slots, Bool(v), node);
    }
    OneNode(env, fuel, b, Use(c), scope, slots, Bool(true), node);
    OneNode(env, fuel, b, Use(c), scope, slots, Bool(false), node);
    RetitledFills();
  }

  lemma RetitledFills()
    ensures TemplateIsSafe([TitleNode("t")]) && Instantiate([TitleNode("t")], Bool(false)) != [TitleNode("t")]
  {
    var node := TitleNode("t");
    SafeOne(node);
    InstantiateOne(node, Bool(false));
    assert node.bindings[1..] == [];
    assert InstantiateNode(node, Bool(false)).attrs["title"] == "false";
    assert Instantiate([node], Bool(false))[0] != [node][0];
  }
}
