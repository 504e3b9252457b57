/**
 * The page lowerer as a function of the scope it is given: the nodes, the scope it leaves, and a
 * trace of what happened on the way.
 */
module Lowering {
  import opened Text
  import opened LoweringModel
  import opened Evaluation

  /**
   * What the theorems observe of a run. An element marks the scope it is lowered in; the mark is its
   * statement's, or it strays when the scope is the copy that a pipeline stage works on. An attribute that is
   * passed through to an element may override one that has a path.
   */
  datatype Event =
    | Visit(path: string)
    | Instance(path: string)
    | Marked
    | OwnMark
    | StrayMark
    | MarkerNamed
    | Overridden
    | KeyedItem(path: string, identity: string)
    | StateSignal(instance: string, signal: string)
    | PipelineRun(locals: nat, visitors: nat)
    | PipelineStage(component: Component, scope: Scope)

  datatype Lowered = Lowered(nodes: seq<Node>, scope: Scope, trace: seq<Event>)

  /** The block handed to a component, and the block that was in force where it was handed over. */
  datatype Slots = NoSlot | SlotOf(body: seq<Statement>, parent: Slots)

  // Marks -------------------------------------------------------------------------------------

  predicate Supported(scope: Scope) {
    !(EachUnsupported in scope && scope[EachUnsupported] == Bool(true))
  }

  function MarkIf(bad: bool, scope: Scope): Scope {
    if bad && EachBinding in scope then scope[EachUnsupported := Bool(true)] else scope
  }

  function MarkEvents(bad: bool, scope: Scope): seq<Event> {
    if bad && EachBinding in scope then [Marked] else []
  }

  /** A mark of an element that is still on its way to the statement. */
  function OwnEvents(bad: bool, scope: Scope): seq<Event> {
    if bad && EachBinding in scope then [OwnMark] else []
  }

  /** The trace once it is known whose marks an element's own marks are. */
  function Renamed(trace: seq<Event>, mark: Event): seq<Event> {
    seq(|trace|, i requires 0 <= i < |trace| => if trace[i] == OwnMark then mark else trace[i])
  }

  const MARKER_TAG := "ax-each-render-unsupported"
  const MARKER: Node := Element(MARKER_TAG, map["hidden" := "true"], [], [])

  // Render paths ------------------------------------------------------------------------------

  function RenderPathOf(scope: Scope): string {
    if RenderPath in scope && AsString(scope[RenderPath]) != "" then AsString(scope[RenderPath]) else "0"
  }

  function At(scope: Scope, path: string): Scope {
    scope[RenderPath := Str(path)]
  }

  function InstancePathOf(scope: Scope): string {
    if InstancePath in scope && AsString(scope[InstancePath]) != "" then AsString(scope[InstancePath])
    else RenderPathOf(scope)
  }

  const STATE_PREFIX := "__ax_component_state__:"

  function SignalName(component: string, path: string, state: string, index: string): string {
    "component" + ":" + (component + ":" + (path + ":" + (state + ":" + index)))
  }

  /** The signal that a state marker turns into, when the value is one. */
  function StateSignalOf(v: Value, scope: Scope): Option<string> {
    if v.Str? && HasPrefix(v.text, STATE_PREFIX) then
      var parts := SplitOn(':', v.text[|STATE_PREFIX|..]);
      if |parts| == 3 then Some(SignalName(parts[0], InstancePathOf(scope), parts[1], parts[2])) else None
    else None
  }

  function Materialize(v: Value, scope: Scope): Value {
    match StateSignalOf(v, scope)
    case Some(signal) => Str(signal)
    case None => v
  }

  function SignalEvents(v: Value, scope: Scope): seq<Event> {
    match StateSignalOf(v, scope)
    case Some(signal) => [StateSignal(InstancePathOf(scope), signal)]
    case None => []
  }

  // Properties and attributes -----------------------------------------------------------------

  datatype Evaluated = Evaluated(props: map<string, Value>, trace: seq<Event>)

  function EvalProps(env: Env, props: seq<Prop>, scope: Scope): Result<Evaluated> {
    if props == [] then Ok(Evaluated(map[], []))
    else
      var v :- Eval(env, props[0].value, scope);
      var rest :- EvalProps(env, props[1..], scope);
      Ok(Evaluated(map[props[0].name := Materialize(v, scope)] + rest.props, SignalEvents(v, scope) + rest.trace))
  }

  function StyleAttrs(env: Env, c: Component, scope: Scope): Result<map<string, string>> {
    var recipe :- OptionalAttr(env, "data-recipe", c.recipe, scope);
    var class_ :- OptionalAttr(env, "class", c.class_, scope);
    Ok(recipe + class_)
  }

  function OptionalAttr(env: Env, name: string, e: Option<Expr>, scope: Scope): Result<map<string, string>> {
    match e
    case None => Ok(map[])
    case Some(e) =>
      var v :- Eval(env, e, scope);
      Ok(map[name := AsString(v)])
  }

  const BEHAVIOR_PROPS: seq<(string, string)> := [
    ("behavior", "data-ax-behavior"),
    ("behavior_target", "data-ax-behavior-target"),
    ("behaviorTarget", "data-ax-behavior-target"),
    ("behavior_action", "data-ax-behavior-action"),
    ("behaviorAction", "data-ax-behavior-action"),
    ("behavior_value", "data-ax-behavior-value"),
    ("behaviorValue", "data-ax-behavior-value")]

  predicate IsBehavior(prop: string) {
    exists m <- BEHAVIOR_PROPS :: m.0 == prop
  }

  function BehaviorAttrs(mappings: seq<(string, string)>, props: map<string, Value>): map<string, string> {
    if mappings == [] then map[]
    else
      var (prop, name) := mappings[0];
      (if prop in props then map[name := AsString(props[prop])] else map[])
      + BehaviorAttrs(mappings[1..], props)
  }

  predicate IsBooleanAttr(name: string) {
    name in {"disabled", "checked", "selected", "hidden", "required", "readonly", "multiple", "open"}
  }

  /** A boolean attribute that is false or null is not written. */
  predicate Omitted(name: string, v: Value) {
    IsBooleanAttr(name) && (v == Bool(false) || v == Null)
  }

  function NativeAttrs(props: map<string, Value>): map<string, string> {
    map name | name in props && !IsBehavior(name) && !Omitted(name, props[name]) :: AsString(props[name])
  }

  predicate IsLower(c: char) {
    'a' <= c <= 'z'
  }

  predicate IsNativeTag(name: string) {
    && name != "" && IsLower(name[0])
    && forall c <- name :: IsLower(c) || '0' <= c <= '9' || c == '-'
  }

  /** The attribute a native tag's property ends up in, unless it is reserved for behaviour. */
  function RenderTarget(prop: string): Option<string> {
    if IsBehavior(prop) || prop in {"html", "content", "as", "tag"} then None else Some(prop)
  }

  /** Attributes that carry a URL, a style or a handler are never patched. */
  predicate IsUnpatchable(target: string) {
    || target in {"href", "src", "action", "formaction", "style"}
    || (|target| >= 2 && target[0] in {'o', 'O'} && target[1] in {'n', 'N'})
  }

  datatype Attached = Attached(bindings: seq<RenderBinding>, scope: Scope, trace: seq<Event>)

  /** What one property adds: a binding, a mark, or nothing. */
  function AttachProp(p: Prop, attrs: map<string, string>, scope: Scope): Attached {
    match EachRenderPath(p.value, scope)
    case None => AttachMark(ReferencesItem(p.value, scope), scope)
    case Some(path) =>
      match RenderTarget(p.name)
      case None => AttachMark(true, scope)
      case Some(target) =>
        if IsUnpatchable(target) then AttachMark(true, scope)
        else if IsBooleanAttr(target) then Attached([RenderBinding(target, path, SetBoolean)], scope, [])
        else if target !in attrs then AttachMark(true, scope)
        else Attached([RenderBinding(target, path, SetAttribute)], scope, [])
  }

  function AttachMark(bad: bool, scope: Scope): Attached {
    Attached([], MarkIf(bad, scope), OwnEvents(bad, scope))
  }

  function AttachProps(props: seq<Prop>, attrs: map<string, string>, scope: Scope): Attached {
    if props == [] then Attached([], scope, [])
    else
      var first := AttachProp(props[0], attrs, scope);
      var rest := AttachProps(props[1..], attrs, first.scope);
      Attached(first.bindings + rest.bindings, rest.scope, first.trace + rest.trace)
  }

  function AttachStyle(c: Component, scope: Scope): Attached {
    var badClass := c.class_.Some? && ReferencesItem(c.class_.value, scope);
    var s := MarkIf(badClass, scope);
    var recipePath := if c.recipe.Some? then EachRenderPath(c.recipe.value, s) else None;
    match recipePath
    case Some(path) =>
      Attached([RenderBinding("data-recipe", path, SetAttribute)], s, OwnEvents(badClass, scope))
    case None =>
      var badRecipe := c.recipe.Some? && ReferencesItem(c.recipe.value, s);
      Attached([], MarkIf(badRecipe, s), OwnEvents(badClass, scope) + OwnEvents(badRecipe, s))
  }

  function Attach(c: Component, attrs: map<string, string>, scope: Scope): Attached {
    var props := AttachProps(c.props, attrs, scope);
    var style := AttachStyle(c, props.scope);
    Attached(props.bindings + style.bindings, style.scope, props.trace + style.trace)
  }

  // Templates ---------------------------------------------------------------------------------

  predicate AttrIsSafe(name: string) {
    && name !in {"data-ax-signal", "data-ax-state-name", "data-ax-behavior", "data-ax-expression-protocol"}
    && !HasPrefix(name, "data-ax-on-")
    && !HasPrefix(name, "data-ax-state-")
  }

  predicate TemplateIsSafe(nodes: seq<Node>)
    decreases nodes, 0
  {
    nodes == [] || (NodeIsSafe(nodes[0]) && TemplateIsSafe(nodes[1..]))
  }

  predicate NodeIsSafe(node: Node)
    decreases node, 1
  {
    match node
    case TextNode(_) => true
    case Element(tag, attrs, _, children) =>
      && tag != "template" && tag != MARKER_TAG
      && (forall name <- attrs :: AttrIsSafe(name))
      && TemplateIsSafe(children)
  }

  // Keys --------------------------------------------------------------------------------------

  /** The kind of a key and its text; only scalars can be keys. */
  function KeyIdentity(v: Value): Result<(string, string)> {
    match v
    case Str(text) => Ok(("string", text))
    case Num(n) => Ok(("number", IntText(n)))
    case Flt(text) => Ok(("float", text))
    case Bool(b) => Ok(("bool", BoolText(b)))
    case _ => Err(InvalidEachKey)
  }

  /** The key of an item, unless it is of another kind than the keys before it or one of them. */
  function AcceptKey(env: Env, key: Expr, scope: Scope, seen: set<string>,
      kind: Option<string>): Result<(string, string)> {
    var v :- Eval(env, key, scope);
    var identity :- KeyIdentity(v);
    if kind.Some? && kind.value != identity.0 then Err(InvalidEachKey)
    else if identity.0 + ":" + identity.1 in seen then Err(DuplicateEachKey(identity.1))
    else Ok(identity)
  }

  function KeyPath(key: Expr, binding: string): string {
    match ChainOf(key)
    case Some((root, parts)) => if root == binding then JoinDots(parts) else ""
    case None => ""
  }

  datatype KeyedItems = KeyedItems(
    children: seq<Node>,
    template: Option<seq<Node>>,
    kind: string,
    trace: seq<Event>)

  const CONTENTS: map<string, string> := map["style" := "display: contents"]

  function EachItemNode(identity: (string, string), children: seq<Node>): Node {
    Element("ax-each-item",
      CONTENTS["data-ax-each-key" := identity.1]["data-ax-each-key-id" := identity.0 + ":" + identity.1],
      [], children)
  }

  function TemplateNodes(template: Option<seq<Node>>): seq<Node> {
    match template
    case None => []
    case Some(nodes) =>
      [Element("template", map["data-ax-each-render-protocol" := "ax-each-render/1"], [], nodes)]
  }

  function KeyedNode(binding: string, key: Expr, kind: string, children: seq<Node>): Node {
    var ready := exists child <- children :: child.Element? && child.tag == "template";
    Element("ax-state-each",
      CONTENTS["data-ax-each-protocol" := "ax-each/1"]["data-ax-each-binding" := binding]
        ["data-ax-each-key-kind" := kind]["data-ax-each-key-path" := KeyPath(key, binding)]
        ["data-ax-each-render-status" := if ready then "ready" else "fallback"],
      [], children)
  }

  // Statements --------------------------------------------------------------------------------

  function LowerStatements(env: Env, fuel: nat, statements: seq<Statement>, scope: Scope, slots: Slots): Result<Lowered>
    decreases fuel, slots, statements, 3
  {
    var parent := RenderPathOf(scope);
    var r :- LowerFrom(env, fuel, statements, 0, parent, scope, slots);
    Ok(Finish(scope, r))
  }

  /** Restores the path, and leaves a marker when this call is where support was lost. */
  function Finish(entry: Scope, r: Lowered): Lowered {
    var scope := At(r.scope, RenderPathOf(entry));
    var lost := Supported(entry) && !Supported(scope) && EachBinding in scope;
    Lowered(if lost then r.nodes + [MARKER] else r.nodes, scope, r.trace)
  }

  function LowerFrom(env: Env, fuel: nat, statements: seq<Statement>, index: nat, parent: string, scope: Scope,
      slots: Slots): Result<Lowered>
    decreases fuel, slots, statements, 2
  {
    if statements == [] then Ok(Lowered([], scope, []))
    else
      var here := parent + "." + NatText(index);
      var first :- LowerStatement(env, fuel, statements[0], here, At(scope, here), slots);
      var rest :- LowerFrom(env, fuel, statements[1..], index + 1, parent, first.scope, slots);
      Ok(Lowered(first.nodes + rest.nodes, rest.scope, [Visit(here)] + first.trace + rest.trace))
  }

  function LowerStatement(env: Env, fuel: nat, s: Statement, here: string, scope: Scope, slots: Slots): Result<Lowered>
    decreases fuel, slots, s, 1
  {
    match s
    case Data(name, value) => LowerData(env, name, value, scope)
    case TextOf(text) => LowerText(env, text, scope)
    case If(_, _, _) => LowerIf(env, fuel, s, here, scope, slots)
    case Match(_, _, _) => LowerMatch(env, fuel, s, here, scope, slots)
    case Each(_, _, _, _, _) => LowerEach(env, fuel, s, here, scope, slots)
    case Use(component) =>
      var r :- LowerComponentNodes(env, fuel, component, scope, slots);
      Ok(r.(trace := Renamed(r.trace, Marked)))
    case Pipeline(_, _) => LowerPipeline(env, fuel, s, scope, slots)
  }

  /** The outcome of a statement whose nested runs worked on copies of its marked scope. */
  function Nested(bad: bool, scope: Scope, nodes: seq<Node>, trace: seq<Event>): Lowered {
    Lowered(nodes, MarkIf(bad, scope), MarkEvents(bad, scope) + trace)
  }

  function LowerIf(env: Env, fuel: nat, s: Statement, here: string, scope: Scope, slots: Slots): Result<Lowered>
    requires s.If?
    decreases fuel, slots, s, 0
  {
    var bad := ReferencesItem(s.condition, scope);
    var marked := MarkIf(bad, scope);
    var v :- Eval(env, s.condition, marked);
    var nested := At(marked, here + (if Truthy(v) then ".if1" else ".if0"));
    var r :- LowerNonempty(env, fuel, if Truthy(v) then s.body else s.elseBody, nested, slots);
    Ok(Nested(bad, scope, r.nodes, r.trace))
  }

  function LowerMatch(env: Env, fuel: nat, s: Statement, here: string, scope: Scope, slots: Slots): Result<Lowered>
    requires s.Match?
    decreases fuel, slots, s, 0
  {
    var bad := ReferencesItem(s.value, scope);
    var marked := MarkIf(bad, scope);
    var v :- Eval(env, s.value, marked);
    var found := FindCase(s.cases, AsString(v));
    var r :- LowerNonempty(env, fuel, if found.Some? then s.cases[found.value].body
        else s.defaultBody, At(marked, here + ".match"), slots);
    Ok(Nested(bad, scope, r.nodes, r.trace))
  }

  function LowerEach(env: Env, fuel: nat, s: Statement, here: string, scope: Scope, slots: Slots): Result<Lowered>
    requires s.Each?
    decreases fuel, slots, s, 0
  {
    var bad := ReferencesItem(s.source, scope);
    var marked := MarkIf(bad, scope);
    var v :- Eval(env, s.source, marked);
    if !v.List? then Err(EachRequiresList)
    else if v.items == [] then
      var r :- LowerStatements(env, fuel, s.emptyBody, marked, slots);
      Ok(Nested(bad, scope, EmptyEachNodes(s, r.nodes), r.trace))
    else if s.key.Some? then
      var r :- LowerKeyed(env, fuel, s.binding, s.key.value, s.body, here, marked, slots, v.items, {}, None);
      Ok(Nested(bad, scope, [KeyedNode(s.binding, s.key.value, r.kind, r.children + TemplateNodes(r.template))],
          r.trace))
    else
      var r :- LowerItems(env, fuel, s.binding, s.body, here, marked, slots, v.items, 0);
      Ok(Nested(bad, scope, r.nodes, r.trace))
  }

  /** A loop without items shows its empty body, inside its own element when it is keyed. */
  function EmptyEachNodes(s: Statement, nodes: seq<Node>): seq<Node>
    requires s.Each?
  {
    if s.key.None? then nodes
    else [KeyedNode(s.binding, s.key.value, "", if nodes == [] then []
        else [Element("ax-each-empty", CONTENTS, [], nodes)])]
  }

  function LowerPipeline(env: Env, fuel: nat, s: Statement, scope: Scope, slots: Slots): Result<Lowered>
    requires s.Pipeline?
    decreases fuel, slots, s, 0
  {
    var bad := ReferencesItem(s.source, scope);
    var marked := MarkIf(bad, scope);
    var v :- Eval(env, s.source, marked);
    var r :- LowerStages(env, fuel, s.stages, marked, slots);
    Ok(Nested(bad, scope, [PipelineElement(v, r.nodes)], [RunOf(env, s.stages, marked, slots)] + r.trace))
  }

  /** How many stages of a pipeline are component instances, and how many lower statements below the pipeline's path. */
  function RunOf(env: Env, stages: seq<Stage>, scope: Scope, slots: Slots): Event {
    PipelineRun(LocalStages(env, stages), VisitingStages(env, stages, scope, slots))
  }

  function LocalStages(env: Env, stages: seq<Stage>): nat {
    if stages == [] then 0
    else
      (if stages[0].ComponentStage? && IsLocal(env, stages[0].component) then 1 else 0) + LocalStages(env, stages[1..])
  }

  function VisitingStages(env: Env, stages: seq<Stage>, scope: Scope, slots: Slots): nat {
    if stages == [] then 0
    else
      (if stages[0].ComponentStage? && Visited(env, stages[0].component, scope, slots) != [] then 1 else 0)
      + VisitingStages(env, stages[1..], scope, slots)
  }

  predicate IsLocal(env: Env, c: Component) {
    c.name != "Slot" && c.name != "Fragment" && FindComponent(env.components, c.name).Some?
  }

  /** The statements that a component lowers below the path it is lowered at. */
  function Visited(env: Env, c: Component, scope: Scope, slots: Slots): seq<Statement> {
    if c.name == "Slot" then
      if slots.NoSlot? then []
      else
        match SlotName(env, c.props, {"name", "slot"}, scope)
        case Err(_) => []
        case Ok(requested) =>
          match SelectSlot(env, slots.body, requested, scope)
          case Err(_) => []
          case Ok(selected) => selected
    else if IsLocal(env, c) then FindComponent(env.components, c.name).value.body
    else if c.body.Block? then c.body.statements
    else []
  }

  function PipelineElement(source: Value, stages: seq<Node>): Node {
    var count := if source.List? then map["data-items" := NatText(|source.items|)] else map[];
    Element("section", map["data-ax-pipeline" := "true"] + count, [], [TextNode(AsString(source))] + stages)
  }

  function LowerData(env: Env, name: string, value: Expr, scope: Scope): Result<Lowered> {
    var v :- Eval(env, value, scope);
    var bound := scope[User(name) := v];
    match EachRenderPath(value, bound)
    case Some(path) => Ok(Lowered([], bound[EachParam(name) := Str(path)], []))
    case None =>
      var bad := ReferencesItem(value, bound);
      Ok(Lowered([], MarkIf(bad, bound), MarkEvents(bad, bound)))
  }

  function TargetNode(path: string, text: string): Node {
    Element("ax-each-value",
      CONTENTS["data-ax-each-render-target" := "text"]["data-ax-each-render-path" := path],
      [], [TextNode(text)])
  }

  function LowerText(env: Env, e: Expr, scope: Scope): Result<Lowered> {
    var v :- Eval(env, e, scope);
    match EachRenderPath(e, scope)
    case Some(path) => Ok(Lowered([TargetNode(path, AsString(v))], scope, []))
    case None =>
      var bad := ReferencesItem(e, scope);
      Ok(Lowered([TextNode(AsString(v))], MarkIf(bad, scope), MarkEvents(bad, scope)))
  }

  function FindCase(cases: seq<MatchCase>, text: string): (k: Option<nat>)
    ensures k.Some? ==> k.value < |cases| && cases[k.value].value == text
  {
    if cases == [] then None
    else if cases[0].value == text then Some(0)
    else match FindCase(cases[1..], text)
      case Some(k) => Some(k + 1)
      case None => None
  }

  /** Branches with no statements are not lowered at all. */
  function LowerNonempty(env: Env, fuel: nat, body: seq<Statement>, nested: Scope, slots: Slots): Result<Lowered>
    decreases fuel, slots, body, 4
  {
    if body == [] then Ok(Lowered([], nested, [])) else LowerStatements(env, fuel, body, nested, slots)
  }

  function LowerItems(env: Env, fuel: nat, binding: string, body: seq<Statement>, here: string, scope: Scope,
      slots: Slots, items: seq<Value>, index: nat): Result<Lowered>
    decreases fuel, slots, body, 4, |items|
  {
    if items == [] then Ok(Lowered([], scope, []))
    else
      var nested := At(scope[User(binding) := items[0]], here + ".each" + NatText(index));
      var first :- LowerStatements(env, fuel, body, nested, slots);
      var rest :- LowerItems(env, fuel, binding, body, here, scope, slots, items[1..], index + 1);
      Ok(Lowered(first.nodes + rest.nodes, scope, first.trace + rest.trace))
  }

  function ItemScope(scope: Scope, binding: string, item: Value): Scope {
    scope[User(binding) := item][EachBinding := Str(binding)]
  }

  /** The body of a keyed loop, lowered for one item at one path. */
  function LowerItem(env: Env, fuel: nat, binding: string, body: seq<Statement>, path: string, scope: Scope,
      slots: Slots, item: Value): Result<Lowered>
    decreases fuel, slots, body, 4
  {
    LowerStatements(env, fuel, body, At(ItemScope(scope, binding, item), path), slots)
  }

  predicate CanBeTemplate(item: Lowered) {
    Supported(item.scope) && TemplateIsSafe(item.nodes)
  }

  function ItemPath(env: Env, here: string, identity: string): string {
    here + ".key" + env.hash(identity)
  }

  function LowerKeyed(env: Env, fuel: nat, binding: string, key: Expr, body: seq<Statement>, here: string, scope: Scope,
      slots: Slots, items: seq<Value>, seen: set<string>, kind: Option<string>): Result<KeyedItems>
    decreases fuel, slots, body, 5, |items|
  {
    if items == [] then Ok(KeyedItems([], None, if kind.Some? then kind.value else "", []))
    else
      var identity :- AcceptKey(env, key, ItemScope(scope, binding, items[0]), seen, kind);
      var id := identity.0 + ":" + identity.1;
      var first :- LowerItem(env, fuel, binding, body, ItemPath(env, here, id), scope, slots, items[0]);
      var rest :- LowerKeyed(env, fuel, binding, key, body, here, scope, slots, items[1..], seen + {id},
          Some(identity.0));
      Ok(KeyedItems(
        [EachItemNode(identity, first.nodes)] + rest.children,
        if CanBeTemplate(first) then Some(first.nodes) else rest.template,
        rest.kind,
        [KeyedItem(here, id)] + first.trace + rest.trace))
  }

  function LowerStages(env: Env, fuel: nat, stages: seq<Stage>, scope: Scope, slots: Slots): Result<Lowered>
    decreases fuel, slots, stages, 0
  {
    if stages == [] then Ok(Lowered([], scope, []))
    else
      var first :- LowerStage(env, fuel, stages[0], scope, slots);
      var rest :- LowerStages(env, fuel, stages[1..], scope, slots);
      Ok(Lowered(first.nodes + rest.nodes, scope, first.trace + rest.trace))
  }

  function LowerStage(env: Env, fuel: nat, stage: Stage, scope: Scope, slots: Slots): Result<Lowered>
    decreases fuel, slots, stage, 0
  {
    match stage
    case EachStage(binding) =>
      Ok(Lowered([Element("div", map["data-stage" := "each", "data-binding" := binding], [], [])], scope, []))
    case ComponentStage(component) =>
      var r :- LowerComponentNodes(env, fuel, component, scope, slots);
      Ok(Lowered(r.nodes, r.scope, [PipelineStage(component, scope)] + Renamed(r.trace, StrayMark)))
  }

  // Pages -------------------------------------------------------------------------------------

  /** A page is lowered from the path "0", once its parameters are bound. */
  function LowerPage(env: Env, fuel: nat, page: Page, scope: Scope): Result<Lowered> {
    var bound :- BindPageParams(env, page.params, At(scope, "0"));
    LowerStatements(env, fuel, page.body, bound, NoSlot)
  }

  /** A parameter that the caller has not bound gets its default, or null. */
  function BindPageParams(env: Env, params: seq<Param>, scope: Scope): Result<Scope> {
    if params == [] then Ok(scope)
    else if User(params[0].name) in scope then BindPageParams(env, params[1..], scope)
    else
      var v :- if params[0].default.Some? then Eval(env, params[0].default.value, scope) else Ok(Null);
      BindPageParams(env, params[1..], scope[User(params[0].name) := v])
  }

  // Components --------------------------------------------------------------------------------

  function FindComponent(components: seq<ComponentDef>, name: string): Option<ComponentDef> {
    if components == [] then None
    else if components[|components| - 1].name == name then Some(components[|components| - 1])
    else FindComponent(components[..|components| - 1], name)
  }

  function LowerComponentNodes(env: Env, fuel: nat, c: Component, scope: Scope, slots: Slots): Result<Lowered>
    decreases fuel, slots, c, 2
  {
    if c.name == "Slot" then
      if slots.NoSlot? then Ok(Lowered([], scope, []))
      else
        var requested :- SlotName(env, c.props, {"name", "slot"}, scope);
        var selected :- SelectSlot(env, slots.body, requested, scope);
        var r :- LowerStatements(env, fuel, selected, scope, slots.parent);
        Ok(Lowered(r.nodes, scope, r.trace))
    else if c.name == "Fragment" then LowerChildren(env, fuel, c, scope, slots)
    else match FindComponent(env.components, c.name)
      case Some(def) => if fuel == 0 then Err(OutOfFuel) else LowerLocal(env, fuel, c, def, scope, slots)
      case None => if IsNativeTag(c.name) then LowerNative(env, fuel, c, scope, slots) else Err(OutsideModel(c.name))
  }

  function LowerChildren(env: Env, fuel: nat, c: Component, scope: Scope, slots: Slots): Result<Lowered>
    decreases fuel, slots, c, 0
  {
    match c.body
    case Empty => Ok(Lowered([], scope, []))
    case Inline(text) => LowerInline(env, text, scope)
    case Block(statements) =>
      var r :- LowerStatements(env, fuel, statements, scope, slots);
      Ok(Lowered(r.nodes, scope, r.trace))
  }

  /** An element's inline text: its mark is the element's own. */
  function LowerInline(env: Env, text: Expr, scope: Scope): Result<Lowered> {
    var r :- LowerText(env, text, scope);
    Ok(r.(trace := if r.trace == [] then [] else [OwnMark]))
  }

  function LowerNative(env: Env, fuel: nat, c: Component, scope: Scope, slots: Slots): Result<Lowered>
    decreases fuel, slots, c, 1
  {
    var inner :- LowerChildren(env, fuel, c, scope, slots);
    var outer :- NativeElement(env, c, inner.nodes, inner.scope);
    Ok(Lowered(outer.nodes, outer.scope, inner.trace + outer.trace))
  }

  function TagEvents(name: string): seq<Event> {
    if name == MARKER_TAG then [MarkerNamed] else []
  }

  function NativeElement(env: Env, c: Component, children: seq<Node>, scope: Scope): Result<Lowered> {
    var evaluated :- EvalProps(env, c.props, scope);
    var style :- StyleAttrs(env, c, scope);
    var attrs := style + BehaviorAttrs(BEHAVIOR_PROPS, evaluated.props) + NativeAttrs(evaluated.props);
    var attached := Attach(c, attrs, scope);
    Ok(Lowered([Element(c.name, attrs, attached.bindings, children)], attached.scope,
        evaluated.trace + attached.trace + TagEvents(c.name)))
  }

  function LowerLocal(env: Env, fuel: nat, c: Component, def: ComponentDef, scope: Scope, slots: Slots): Result<Lowered>
    requires fuel > 0
    decreases fuel, slots, c, 1
  {
    var entry :- EnterLocal(env, c, def, scope);
    var r :- LowerStatements(env, fuel - 1, def.body, entry.scope, SlotOf(ChildStatements(c.body), slots));
    Ok(LocalOf(entry, r, scope))
  }

  /** What a component leaves: its body's nodes under the attributes it passes through, and its caller's scope. */
  function LocalOf(entry: LocalEntry, r: Lowered, scope: Scope): Lowered {
    Lowered(AttrsToFirst(r.nodes, entry.attrs), scope, entry.trace + r.trace + OverrideEvents(r.nodes, entry.attrs))
  }

  function OverrideEvents(nodes: seq<Node>, incoming: map<string, string>): seq<Event> {
    if Overrides(nodes, incoming) then [Overridden] else []
  }

  /** A passed attribute meets one that the first element reads from a path. */
  predicate Overrides(nodes: seq<Node>, incoming: map<string, string>) {
    nodes != [] && nodes[0].Element? && exists x <- nodes[0].bindings :: x.target in incoming
  }

  datatype LocalEntry = LocalEntry(attrs: map<string, string>, scope: Scope, trace: seq<Event>)

  /** The scope a component's own body starts in, and the attributes that pass through to its first node. */
  function EnterLocal(env: Env, c: Component, def: ComponentDef, scope: Scope): Result<LocalEntry> {
    var evaluated :- EvalProps(env, c.props, scope);
    var style :- StyleAttrs(env, c, scope);
    var path := RenderPathOf(scope);
    var own := PropagateParams(c.props, scope, scope[InstancePath := Str(path)]);
    var bound :- BindParams(env, def, def.params, evaluated.props, own);
    var ready :- BindStates(env, def.states, bound);
    Ok(LocalEntry(Passthrough(def, evaluated.props) + style, ready, evaluated.trace + [Instance(path)]))
  }

  function PropagateParams(props: seq<Prop>, source: Scope, target: Scope): Scope {
    if props == [] then target
    else
      PropagateParams(props[1..], source,
        match EachRenderPath(props[0].value, source)
        case Some(path) => target[EachParam(props[0].name) := Str(path)]
        case None => target)
  }

  function BindParams(env: Env, def: ComponentDef, params: seq<Param>, props: map<string, Value>,
      scope: Scope): Result<Scope> {
    if params == [] then Ok(scope)
    else
      var p := params[0];
      var v :- if p.name in props then Ok(props[p.name])
               else if p.default.Some? then Eval(env, p.default.value, scope)
               else Ok(Null);
      if p.literals != [] && !(v.Str? && v.text in p.literals) then
        Err(InvalidComponentPropLiteral(def.name, p.name, if v.Null? then "null" else AsString(v), p.literals))
      else BindParams(env, def, params[1..], props, scope[User(p.name) := v])
  }

  function BindStates(env: Env, states: seq<State>, scope: Scope): Result<Scope> {
    if states == [] then Ok(scope)
    else
      var v :- Eval(env, states[0].initial, scope);
      BindStates(env, states[1..], scope[User(states[0].name) := v])
  }

  function ChildStatements(body: Body): seq<Statement> {
    match body
    case Empty => []
    case Inline(text) => [TextOf(text)]
    case Block(statements) => statements
  }

  function Passthrough(def: ComponentDef, props: map<string, Value>): map<string, string> {
    map name | name in props
      && (forall p <- def.params :: p.name != name)
      && (HasPrefix(name, "data-") || HasPrefix(name, "aria-") || name in {"id", "role", "title", "tabindex", "style"})
      :: AsString(props[name])
  }

  /** Class and style are appended to what is there; other attributes replace it. */
  function MergeAttr(name: string, existing: string, incoming: string): string {
    if name != "class" && name != "style" then incoming
    else if IsBlank(incoming) then existing
    else existing + (if name == "style" then ";" else " ") + incoming
  }

  function AttrsToFirst(nodes: seq<Node>, incoming: map<string, string>): seq<Node> {
    if nodes == [] || nodes[0].TextNode? then nodes
    else [nodes[0].(attrs := MergeAttrs(nodes[0].attrs, incoming))] + nodes[1..]
  }

  function MergeAttrs(attrs: map<string, string>, incoming: map<string, string>): map<string, string> {
    map name | name in attrs.Keys + incoming.Keys ::
      if name !in incoming then attrs[name]
      else if name !in attrs then incoming[name]
      else MergeAttr(name, attrs[name], incoming[name])
  }

  function SlotName(env: Env, props: seq<Prop>, names: set<string>, scope: Scope): Result<Option<string>> {
    if props == [] then Ok(None)
    else if props[0].name in names then
      var v :- Eval(env, props[0].value, scope);
      Ok(Some(AsString(v)))
    else SlotName(env, props[1..], names, scope)
  }

  /** The statements of a handed-over block that go to the requested slot. */
  function SelectSlot(env: Env, statements: seq<Statement>, requested: Option<string>,
      scope: Scope): Result<seq<Statement>> {
    if statements == [] then Ok([])
    else
      var s := statements[0];
      var name :- if s.Use? then SlotName(env, s.component.props, {"slot"}, scope) else Ok(None);
      var rest :- SelectSlot(env, statements[1..], requested, scope);
      Ok(if name == requested then [StripSlot(s)] + rest else rest)
  }

  function StripSlot(s: Statement): Statement {
    match s
    case Use(c) => Use(c.(props := WithoutSlot(c.props)))
    case _ => s
  }

  function WithoutSlot(props: seq<Prop>): seq<Prop> {
    if props == [] then []
    else (if props[0].name == "slot" then [] else [props[0]]) + WithoutSlot(props[1..])
  }
}
