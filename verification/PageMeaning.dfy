/**
 * What a page shows, said without the lowerer: which statements are shown, in which order, with which values. Whether
 * parts of it can be patched (paths, marks and templates) is left open here.
 */
module PageMeaning {
  import opened Text
  import opened LoweringModel
  import opened Evaluation
  import opened Lowering

  /** What a page sees of a scope: the user's own names. */
  type Vars = Scope

  /** Where a statement stands: the variables it sees, its path, and the component instance around it, if any. */
  datatype Place = Place(vars: Vars, path: string, instance: string)

  function Val(env: Env, e: Expr, vars: Vars): Result<Value> {
    Eval(env, e, vars)
  }

  function Below(p: Place, suffix: string): Place {
    p.(path := p.path + suffix)
  }

  // Properties --------------------------------------------------------------------------------

  predicate IsMarker(text: string, component: string, state: string, index: string) {
    && ':' !in component && ':' !in state && ':' !in index
    && text == "__ax_component_state__:" + (component + ":" + (state + ":" + index))
  }

  function Owner(p: Place): string {
    if p.instance != "" then p.instance else p.path
  }

  /** A property's value is written as it is, but a state marker as a signal of the instance around it. */
  ghost predicate Written(v: Value, p: Place, w: Value) {
    if exists c, s, i :: v.Str? && IsMarker(v.text, c, s, i) then
      exists c, s, i ::
        v.Str? && IsMarker(v.text, c, s, i) && w == Str("component:" + c + ":" + Owner(p) + ":" + s + ":" + i)
    else w == v
  }

  /** Of properties with the same name, the last one counts. */
  ghost predicate PropIs(env: Env, props: seq<Prop>, p: Place, name: string, w: Value) {
    exists i ::
      && 0 <= i < |props| && props[i].name == name && (forall j | i < j < |props| :: props[j].name != name)
      && Val(env, props[i].value, p.vars).Ok? && Written(Val(env, props[i].value, p.vars).value, p, w)
  }

  ghost predicate PropsAre(env: Env, props: seq<Prop>, p: Place, m: map<string, Value>) {
    && (forall x <- props :: Val(env, x.value, p.vars).Ok? && x.name in m)
    && (forall name <- m :: PropIs(env, props, p, name, m[name]))
  }

  // Attributes --------------------------------------------------------------------------------

  function Look(attrs: map<string, string>, name: string): Option<string> {
    if name in attrs then Some(attrs[name]) else None
  }

  /** The properties that describe behaviour, and their attributes; of two for one attribute the second counts. */
  const BEHAVIORS: map<string, (string, string)> := map[
    "data-ax-behavior" := ("behavior", "behavior"),
    "data-ax-behavior-target" := ("behavior_target", "behaviorTarget"),
    "data-ax-behavior-action" := ("behavior_action", "behaviorAction"),
    "data-ax-behavior-value" := ("behavior_value", "behaviorValue")]

  const BEHAVIOR_NAMES: set<string> := {"behavior", "behavior_target", "behaviorTarget", "behavior_action",
    "behaviorAction", "behavior_value", "behaviorValue"}

  const BOOLEAN_NAMES: set<string> := {"disabled", "checked", "selected", "hidden", "required", "readonly", "multiple",
    "open"}

  /** A property is written under its own name, unless it describes behaviour, or is a boolean one that is off. */
  function OwnText(m: map<string, Value>, name: string): Option<string> {
    if name !in m || name in BEHAVIOR_NAMES || (name in BOOLEAN_NAMES && m[name] in {Bool(false), Null}) then None
    else Some(AsString(m[name]))
  }

  function BehaviorText(m: map<string, Value>, name: string): Option<string> {
    if name !in BEHAVIORS then None
    else if BEHAVIORS[name].1 in m then Some(AsString(m[BEHAVIORS[name].1]))
    else if BEHAVIORS[name].0 in m then Some(AsString(m[BEHAVIORS[name].0]))
    else None
  }

  function StyleText(env: Env, c: Component, vars: Vars, name: string): Option<string> {
    var e := if name == "class" then c.class_ else if name == "data-recipe" then c.recipe else None;
    if e.Some? && Val(env, e.value, vars).Ok? then Some(AsString(Val(env, e.value, vars).value)) else None
  }

  function FirstOf(a: Option<string>, b: Option<string>): Option<string> {
    if a.Some? then a else b
  }

  predicate StyleOk(env: Env, c: Component, vars: Vars) {
    && (c.class_.Some? ==> Val(env, c.class_.value, vars).Ok?)
    && (c.recipe.Some? ==> Val(env, c.recipe.value, vars).Ok?)
  }

  /** An element's attributes: its properties before its behaviour, and both before its class and recipe. */
  ghost predicate AttrsAre(env: Env, c: Component, p: Place, m: map<string, Value>, attrs: map<string, string>) {
    forall name :: Look(attrs, name) ==
      FirstOf(OwnText(m, name), FirstOf(BehaviorText(m, name), StyleText(env, c, p.vars, name)))
  }

  const LOWER := {'a', 'b', 'c', 'd', 'e', 'f', 'g', 'h', 'i', 'j', 'k', 'l', 'm', 'n', 'o', 'p', 'q', 'r', 's', 't',
    'u', 'v', 'w', 'x', 'y', 'z'}

  /** The names of native tags: a small letter, and then these, digits and hyphens. */
  predicate IsTagName(name: string) {
    name != "" && name[0] in LOWER && forall c <- name :: c in LOWER || c in DIGITS || c == '-'
  }

  // Components --------------------------------------------------------------------------------

  /** Of components with the same name, the last one counts. */
  ghost predicate IsDefinedAs(components: seq<ComponentDef>, name: string, def: ComponentDef) {
    exists i ::
      && 0 <= i < |components| && components[i] == def && def.name == name
      && forall j | i < j < |components| :: components[j].name != name
  }

  predicate IsDefined(components: seq<ComponentDef>, name: string) {
    exists def <- components :: def.name == name
  }

  /** Parameters, in order: what is passed, or else the default, or else null; where literals are asked, one of them. */
  ghost predicate Binds(env: Env, params: seq<Param>, m: map<string, Value>, vars: Vars, bound: Vars)
    decreases params
  {
    if params == [] then bound == vars
    else
      exists v ::
        && ParamIs(env, params[0], m, vars, v)
        && Binds(env, params[1..], m, vars[User(params[0].name) := v], bound)
  }

  predicate ParamIs(env: Env, q: Param, m: map<string, Value>, vars: Vars, v: Value) {
    && (if q.name in m then v == m[q.name]
        else if q.default.Some? then Val(env, q.default.value, vars) == Ok(v)
        else v == Null)
    && (q.literals != [] ==> v.Str? && v.text in q.literals)
  }

  /** States, in order, each with its initial value. */
  ghost predicate Starts(env: Env, states: seq<State>, vars: Vars, ready: Vars)
    decreases states
  {
    if states == [] then ready == vars
    else
      exists v ::
        && Val(env, states[0].initial, vars) == Ok(v)
        && Starts(env, states[1..], vars[User(states[0].name) := v], ready)
  }

  predicate IsPassedOn(def: ComponentDef, name: string) {
    && (forall q <- def.params :: q.name != name)
    && (HasPrefix(name, "data-") || HasPrefix(name, "aria-") || name in {"id", "role", "title", "tabindex", "style"})
  }

  /** What a component passes on to the first node of its body. */
  function PassedText(env: Env, c: Component, def: ComponentDef, vars: Vars, m: map<string, Value>,
      name: string): Option<string> {
    FirstOf(StyleText(env, c, vars, name), if name in m && IsPassedOn(def, name) then Some(AsString(m[name])) else None)
  }

  /** A class or a style is added to the one that is there, any other attribute replaces it. */
  function MergedText(name: string, there: Option<string>, passed: Option<string>): Option<string> {
    if there.None? || passed.None? || name !in {"class", "style"} then FirstOf(passed, there)
    else if IsBlank(passed.value) then there
    else Some(there.value + (if name == "class" then " " else ";") + passed.value)
  }

  ghost predicate PassesTo(env: Env, c: Component, def: ComponentDef, vars: Vars, m: map<string, Value>,
      inner: seq<Node>, nodes: seq<Node>) {
    if inner == [] || inner[0].TextNode? then nodes == inner
    else
      && |nodes| == |inner| && nodes[1..] == inner[1..] && nodes[0].Element?
      && nodes[0] == inner[0].(attrs := nodes[0].attrs)
      && forall name :: Look(nodes[0].attrs, name)
           == MergedText(name, Look(inner[0].attrs, name), PassedText(env, c, def, vars, m, name))
  }

  // Slots -------------------------------------------------------------------------------------

  /** The text of the first property with one of the names, if there is one. */
  ghost predicate NamesSlot(env: Env, props: seq<Prop>, names: set<string>, vars: Vars, r: Option<string>) {
    match r
    case None => forall x <- props :: x.name !in names
    case Some(text) =>
      exists i ::
        && 0 <= i < |props| && props[i].name in names && (forall j | 0 <= j < i :: props[j].name !in names)
        && Val(env, props[i].value, vars).Ok? && text == AsString(Val(env, props[i].value, vars).value)
  }

  ghost predicate IsFor(env: Env, s: Statement, vars: Vars, r: Option<string>) {
    if s.Use? then NamesSlot(env, s.component.props, {"slot"}, vars, r) else r.None?
  }

  function Unslotted(props: seq<Prop>): seq<Prop> {
    if props == [] then [] else if props[0].name == "slot" then Unslotted(props[1..])
    else [props[0]] + Unslotted(props[1..])
  }

  /** The statements for a slot, in their order, without their `slot` properties. */
  ghost predicate Selects(env: Env, handed: seq<Statement>, requested: Option<string>, vars: Vars,
      selected: seq<Statement>)
    decreases handed
  {
    if handed == [] then selected == []
    else
      exists r ::
        && IsFor(env, handed[0], vars, r)
        && if r != requested then Selects(env, handed[1..], requested, vars, selected)
           else
             && selected != [] && Selects(env, handed[1..], requested, vars, selected[1..])
             && selected[0] == if handed[0].Use?
                  then Use(handed[0].component.(props := Unslotted(handed[0].component.props))) else handed[0]
  }

  // Statements --------------------------------------------------------------------------------

  /** A text is shown as it is, or as the one child of an element from which it can be patched. */
  ghost predicate ShowsText(text: string, nodes: seq<Node>) {
    || nodes == [TextNode(text)]
    || exists path: string ::
         nodes == [Element("ax-each-value",
           map["style" := "display: contents", "data-ax-each-render-target" := "text",
               "data-ax-each-render-path" := path], [], [TextNode(text)])]
  }

  const UNSUPPORTED := Element("ax-each-render-unsupported", map["hidden" := "true"], [], [])

  /** The statements one after the other; behind them there may be the mark that they cannot be patched. */
  ghost predicate Shows(env: Env, fuel: nat, statements: seq<Statement>, p: Place, slots: Slots, nodes: seq<Node>)
    decreases fuel, slots, statements, 3
  {
    || ShowsFrom(env, fuel, statements, 0, p, slots, nodes)
    || (nodes != [] && nodes[|nodes| - 1] == UNSUPPORTED
        && ShowsFrom(env, fuel, statements, 0, p, slots, nodes[..|nodes| - 1]))
  }

  ghost predicate ShowsFrom(env: Env, fuel: nat, statements: seq<Statement>, index: nat, p: Place, slots: Slots,
      nodes: seq<Node>)
    decreases fuel, slots, statements, 2
  {
    if statements == [] then nodes == []
    else
      exists k ::
        && 0 <= k <= |nodes|
        && ShowsOne(env, fuel, statements[0], Below(p, "." + NatText(index)), slots, nodes[..k])
        && ShowsFrom(env, fuel, statements[1..], index + 1, p.(vars := After(env, statements[0], p.vars)), slots,
             nodes[k..])
  }

  /** A declaration is seen by the statements after it. */
  function After(env: Env, s: Statement, vars: Vars): Vars {
    if s.Data? && Val(env, s.value, vars).Ok? then vars[User(s.name) := Val(env, s.value, vars).value] else vars
  }

  function AfterAll(env: Env, statements: seq<Statement>, vars: Vars): Vars {
    if statements == [] then vars else AfterAll(env, statements[1..], After(env, statements[0], vars))
  }

  ghost predicate ShowsOne(env: Env, fuel: nat, s: Statement, p: Place, slots: Slots, nodes: seq<Node>)
    decreases fuel, slots, s, 1
  {
    match s
    case Data(_, value) => nodes == [] && Val(env, value, p.vars).Ok?
    case TextOf(text) => Val(env, text, p.vars).Ok? && ShowsText(AsString(Val(env, text, p.vars).value), nodes)
    case If(_, _, _) => ShowsIf(env, fuel, s, p, slots, nodes)
    case Match(_, _, _) => ShowsMatch(env, fuel, s, p, slots, nodes)
    case Each(_, _, _, _, _) => ShowsEach(env, fuel, s, p, slots, nodes)
    case Use(c) => ShowsComponent(env, fuel, c, p, slots, nodes)
    case Pipeline(_, _) => ShowsPipeline(env, fuel, s, p, slots, nodes)
  }

  /** The body if the condition holds, and otherwise the other one. */
  ghost predicate ShowsIf(env: Env, fuel: nat, s: Statement, p: Place, slots: Slots, nodes: seq<Node>)
    requires s.If?
    decreases fuel, slots, s, 0
  {
    var r := Val(env, s.condition, p.vars);
    && r.Ok?
    && (Truthy(r.value) ==> Shows(env, fuel, s.body, Below(p, ".if1"), slots, nodes))
    && (!Truthy(r.value) ==> Shows(env, fuel, s.elseBody, Below(p, ".if0"), slots, nodes))
  }

  /** The first case with the value, and the default if no case has it. */
  ghost predicate ShowsMatch(env: Env, fuel: nat, s: Statement, p: Place, slots: Slots, nodes: seq<Node>)
    requires s.Match?
    decreases fuel, slots, s, 0
  {
    var r, at := Val(env, s.value, p.vars), Below(p, ".match");
    && r.Ok?
    && (|| (exists i ::
              && 0 <= i < |s.cases| && s.cases[i].value == AsString(r.value)
              && (forall j | 0 <= j < i :: s.cases[j].value != AsString(r.value))
              && Shows(env, fuel, s.cases[i].body, at, slots, nodes))
        || ((forall x <- s.cases :: x.value != AsString(r.value))
            && Shows(env, fuel, s.defaultBody, at, slots, nodes)))
  }

  /** The body for each item in order, and the empty body if there is none. */
  ghost predicate ShowsEach(env: Env, fuel: nat, s: Statement, p: Place, slots: Slots, nodes: seq<Node>)
    requires s.Each?
    decreases fuel, slots, s, 0
  {
    var r := Val(env, s.source, p.vars);
    && r.Ok? && r.value.List?
    && if r.value.items == [] then ShowsEmpty(env, fuel, s, p, slots, nodes)
       else if s.key.None? then ShowsItems(env, fuel, s.binding, s.body, p, slots, r.value.items, 0, nodes)
       else ShowsKeyed(env, fuel, s.binding, s.key.value, s.body, p, slots, r.value.items, nodes)
  }


  function ListNode(binding: string, kind: string, path: string, status: string, children: seq<Node>): Node {
    Element("ax-state-each",
      map["style" := "display: contents", "data-ax-each-protocol" := "ax-each/1", "data-ax-each-binding" := binding,
          "data-ax-each-key-kind" := kind, "data-ax-each-key-path" := path, "data-ax-each-render-status" := status],
      [], children)
  }

  ghost predicate ShowsEmpty(env: Env, fuel: nat, s: Statement, p: Place, slots: Slots, nodes: seq<Node>)
    requires s.Each?
    decreases fuel, slots, s.emptyBody, 4
  {
    if s.key.None? then Shows(env, fuel, s.emptyBody, p, slots, nodes)
    else
      exists path, inner ::
        && IsKeyPath(s.key.value, s.binding, path)
        && Shows(env, fuel, s.emptyBody, p, slots, inner)
        && nodes == [ListNode(s.binding, "", path, "fallback", if inner == [] then []
             else [Element("ax-each-empty", map["style" := "display: contents"], [], inner)])]
  }

  ghost predicate ShowsItems(env: Env, fuel: nat, binding: string, body: seq<Statement>, p: Place, slots: Slots,
      items: seq<Value>, index: nat, nodes: seq<Node>)
    decreases fuel, slots, body, 4, |items|
  {
    if items == [] then nodes == []
    else
      exists k ::
        && 0 <= k <= |nodes|
        && Shows(env, fuel, body, Below(p.(vars := p.vars[User(binding) := items[0]]), ".each" + NatText(index)), slots,
             nodes[..k])
        && ShowsItems(env, fuel, binding, body, p, slots, items[1..], index + 1, nodes[k..])
  }

  // Keyed loops -------------------------------------------------------------------------------

  /** A chain of members from a variable. */
  ghost predicate IsChain(e: Expr, root: string, parts: seq<string>) {
    match e
    case Ident(name) => name == root && parts == []
    case Member(base, property) =>
      parts != [] && parts[|parts| - 1] == property && IsChain(base, root, parts[..|parts| - 1])
    case OptionalMember(base, property) =>
      parts != [] && parts[|parts| - 1] == property && IsChain(base, root, parts[..|parts| - 1])
    case _ => false
  }

  /** The path of a key that is a chain from the item; any other key has none. */
  ghost predicate IsKeyPath(key: Expr, binding: string, path: string) {
    || (exists parts :: IsChain(key, binding, parts) && path == JoinDots(parts))
    || ((forall parts :: !IsChain(key, binding, parts)) && path == "")
  }

  /** Strings, integers, floats and booleans can be keys. */
  predicate IsKey(v: Value, kind: string, text: string) {
    && text == AsString(v)
    && (|| (v.Str? && kind == "string") || (v.Num? && kind == "number") || (v.Flt? && kind == "float")
        || (v.Bool? && kind == "bool"))
  }

  /** An item's element bears its key and holds its body, lowered at a place that the key's hash names. */
  ghost predicate ShowsItem(env: Env, fuel: nat, binding: string, key: Expr, body: seq<Statement>, p: Place,
      slots: Slots, item: Value, kind: string, text: string, node: Node)
    decreases fuel, slots, body, 4
  {
    var at := p.(vars := p.vars[User(binding) := item]);
    && Val(env, key, at.vars).Ok? && IsKey(Val(env, key, at.vars).value, kind, text)
    && node.Element?
    && node == Element("ax-each-item",
         map["style" := "display: contents", "data-ax-each-key" := text, "data-ax-each-key-id" := kind + ":" + text],
         [], node.children)
    && Shows(env, fuel, body, Below(at, ".key" + env.hash(kind + ":" + text)), slots, node.children)
  }

  /** One element for each item, in order; all keys are of one kind, and no two are the same. */
  ghost predicate ShowsAllItems(env: Env, fuel: nat, binding: string, key: Expr, body: seq<Statement>, p: Place,
      slots: Slots, items: seq<Value>, seen: set<string>, kind: string, nodes: seq<Node>)
    decreases fuel, slots, body, 5, |items|
  {
    if items == [] then nodes == []
    else
      exists text ::
        && nodes != [] && kind + ":" + text !in seen
        && ShowsItem(env, fuel, binding, key, body, p, slots, items[0], kind, text, nodes[0])
        && ShowsAllItems(env, fuel, binding, key, body, p, slots, items[1..], seen + {kind + ":" + text}, kind,
             nodes[1..])
  }

  /** The items' elements, and perhaps the body of one of them once more, as the template. */
  ghost predicate ShowsKeyed(env: Env, fuel: nat, binding: string, key: Expr, body: seq<Statement>, p: Place,
      slots: Slots, items: seq<Value>, nodes: seq<Node>)
    decreases fuel, slots, body, 6
  {
    exists kind, path, elements, template ::
      && IsKeyPath(key, binding, path)
      && ShowsAllItems(env, fuel, binding, key, body, p, slots, items, {}, kind, elements)
      && IsTemplateOf(elements, template)
      && nodes == [ListNode(binding, kind, path, if template == [] then "fallback" else "ready", elements + template)]
  }

  ghost predicate IsTemplateOf(elements: seq<Node>, template: seq<Node>) {
    || template == []
    || exists e <- elements ::
         && e.Element?
         && template == [Element("template", map["data-ax-each-render-protocol" := "ax-each-render/1"], [], e.children)]
  }

  // Pipelines ---------------------------------------------------------------------------------

  ghost predicate ShowsPipeline(env: Env, fuel: nat, s: Statement, p: Place, slots: Slots, nodes: seq<Node>)
    requires s.Pipeline?
    decreases fuel, slots, s, 0
  {
    var r := Val(env, s.source, p.vars);
    && r.Ok?
    && exists inner ::
         && ShowsStages(env, fuel, s.stages, p, slots, inner)
         && nodes == [Element("section",
              if r.value.List? then map["data-ax-pipeline" := "true", "data-items" := NatText(|r.value.items|)]
              else map["data-ax-pipeline" := "true"], [], [TextNode(AsString(r.value))] + inner)]
  }

  ghost predicate ShowsStages(env: Env, fuel: nat, stages: seq<Stage>, p: Place, slots: Slots, nodes: seq<Node>)
    decreases fuel, slots, stages, 0
  {
    if stages == [] then nodes == []
    else
      exists k ::
        && 0 <= k <= |nodes|
        && ShowsStage(env, fuel, stages[0], p, slots, nodes[..k])
        && ShowsStages(env, fuel, stages[1..], p, slots, nodes[k..])
  }

  ghost predicate ShowsStage(env: Env, fuel: nat, stage: Stage, p: Place, slots: Slots, nodes: seq<Node>)
    decreases fuel, slots, stage, 0
  {
    match stage
    case EachStage(binding) =>
      nodes == [Element("div", map["data-stage" := "each", "data-binding" := binding], [], [])]
    case ComponentStage(c) => ShowsComponent(env, fuel, c, p, slots, nodes)
  }

  // Components --------------------------------------------------------------------------------

  ghost predicate ShowsComponent(env: Env, fuel: nat, c: Component, p: Place, slots: Slots, nodes: seq<Node>)
    decreases fuel, slots, c, 2
  {
    if c.name == "Slot" then
      if slots.NoSlot? then nodes == [] else ShowsSlot(env, fuel, c, p, slots, nodes)
    else if c.name == "Fragment" then ShowsChildren(env, fuel, c, p, slots, nodes)
    else if IsDefined(env.components, c.name) then
      exists def ::
        IsDefinedAs(env.components, c.name, def) && fuel > 0 && ShowsLocal(env, fuel, c, def, p, slots, nodes)
    else IsTagName(c.name) && ShowsElement(env, fuel, c, p, slots, nodes)
  }

  /** The children handed over for the slot, in the place of the slot, with the slots of where they come from. */
  ghost predicate ShowsSlot(env: Env, fuel: nat, c: Component, p: Place, slots: Slots, nodes: seq<Node>)
    requires slots.SlotOf?
    decreases fuel, slots, c, 1
  {
    exists requested, selected ::
      && NamesSlot(env, c.props, {"name", "slot"}, p.vars, requested)
      && Selects(env, slots.body, requested, p.vars, selected)
      && Shows(env, fuel, selected, p, slots.parent, nodes)
  }

  ghost predicate ShowsChildren(env: Env, fuel: nat, c: Component, p: Place, slots: Slots, nodes: seq<Node>)
    decreases fuel, slots, c, 0
  {
    match c.body
    case Empty => nodes == []
    case Inline(text) => Val(env, text, p.vars).Ok? && ShowsText(AsString(Val(env, text, p.vars).value), nodes)
    case Block(statements) => Shows(env, fuel, statements, p, slots, nodes)
  }

  /** An element with its attributes around its children; which attributes can be patched is left open. */
  ghost predicate ShowsElement(env: Env, fuel: nat, c: Component, p: Place, slots: Slots, nodes: seq<Node>)
    decreases fuel, slots, c, 1
  {
    && StyleOk(env, c, p.vars)
    && |nodes| == 1 && nodes[0].Element? && nodes[0].tag == c.name
    && ShowsChildren(env, fuel, c, p, slots, nodes[0].children)
    && exists m :: PropsAre(env, c.props, p, m) && AttrsAre(env, c, p, m, nodes[0].attrs)
  }

  /** A component's body, with its parameters and states, as the instance at this place. */
  ghost predicate ShowsLocal(env: Env, fuel: nat, c: Component, def: ComponentDef, p: Place, slots: Slots,
      nodes: seq<Node>)
    requires fuel > 0
    decreases fuel, slots, c, 1
  {
    exists m, bound, ready, inner :: ShowsBody(env, fuel, c, def, p, slots, m, bound, ready, inner, nodes)
  }

  ghost predicate ShowsBody(env: Env, fuel: nat, c: Component, def: ComponentDef, p: Place, slots: Slots,
      m: map<string, Value>, bound: Vars, ready: Vars, inner: seq<Node>, nodes: seq<Node>)
    requires fuel > 0
    decreases fuel, slots, c, 0
  {
    && StyleOk(env, c, p.vars) && PropsAre(env, c.props, p, m)
    && Binds(env, def.params, m, p.vars, bound)
    && Starts(env, def.states, bound, ready)
    && Shows(env, Inside(fuel), def.body, Place(ready, p.path, p.path), SlotOf(Handed(c.body), slots), inner)
    && PassesTo(env, c, def, p.vars, m, inner, nodes)
  }

  /** The depth that is left inside a component. */
  function Inside(fuel: nat): nat
    requires fuel > 0
  {
    fuel - 1
  }

  function Handed(body: Body): seq<Statement> {
    match body
    case Empty => []
    case Inline(text) => [TextOf(text)]
    case Block(statements) => statements
  }

  // Pages -------------------------------------------------------------------------------------

  /** A page's parameters: what is bound stays, the others get their default, or null. */
  ghost predicate BindsPage(env: Env, params: seq<Param>, vars: Vars, bound: Vars)
    decreases params
  {
    if params == [] then bound == vars
    else
      exists v ::
        && (if User(params[0].name) in vars then v == vars[User(params[0].name)]
            else if params[0].default.Some? then Val(env, params[0].default.value, vars) == Ok(v)
            else v == Null)
        && BindsPage(env, params[1..], vars[User(params[0].name) := v], bound)
  }

  ghost predicate ShowsPage(env: Env, fuel: nat, page: Page, p: Place, nodes: seq<Node>) {
    exists bound ::
      && BindsPage(env, page.params, p.vars, bound)
      && Shows(env, fuel, page.body, Place(bound, "0", p.instance), NoSlot, nodes)
  }
}
