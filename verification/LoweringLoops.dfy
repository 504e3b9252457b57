/** The lowerer's loops over a scope that they update in place, against the functions of Lowering. */
module LoweringLoops {
  import opened Text
  import opened LoweringModel
  import opened Evaluation
  import opened Lowering
  import opened LoweringMarks
  import opened LoweringPromises
  import opened PageMeaning
  import opened PageParts
  import opened LoweringCompleteness
  import opened LoweringMeaning
  import LoweringPaths

  class ScopeMap {
    var entries: Scope

    constructor (entries: Scope)
      ensures this.entries == entries
    {
      this.entries := entries;
    }

    method Insert(key: Key, value: Value)
      modifies this
      ensures entries == old(entries)[key := value]
    {
      entries := entries[key := value];
    }

    method MarkUnsupported(bad: bool)
      modifies this
      ensures entries == MarkIf(bad, old(entries))
    {
      if bad && EachBinding in entries {
        Insert(EachUnsupported, Bool(true));
      }
    }

    method Clone() returns (copy: ScopeMap)
      ensures fresh(copy) && copy.entries == entries
    {
      copy := new ScopeMap(entries);
    }
  }

  /** A method's outcome is the function's: the nodes, the scope left behind and the trace. */
  ghost predicate Meets(r: Result<seq<Node>>, left: Scope, trace: seq<Event>, spec: Result<Lowered>) {
    match spec
    case Ok(l) => r == Ok(l.nodes) && left == l.scope && trace == l.trace
    case Err(e) => r == Err(e)
  }

  // These serve the three loops that collect nodes and events: LowerStatementListIn, LowerItemsIn and LowerStagesIn.

  ghost function Prefixed(nodes: seq<Node>, trace: seq<Event>, rest: Result<Lowered>): Result<Lowered> {
    match rest
    case Ok(l) => Ok(Lowered(nodes + l.nodes, l.scope, trace + l.trace))
    case Err(e) => Err(e)
  }

  lemma PrefixedStart(r: Result<Lowered>)
    ensures Prefixed([], [], r) == r
  {
    assert r.Ok? ==> [] + r.value.nodes == r.value.nodes && [] + r.value.trace == r.value.trace;
  }

  lemma PrefixedStep(nodes: seq<Node>, trace: seq<Event>, more: seq<Node>, events: seq<Event>, r: Result<Lowered>)
    ensures Prefixed(nodes, trace, Prefixed(more, events, r)) == Prefixed(nodes + more, trace + events, r)
  {
    if r.Ok? {
      assert nodes + (more + r.value.nodes) == nodes + more + r.value.nodes;
      assert trace + (events + r.value.trace) == trace + events + r.value.trace;
    }
  }

  lemma PrefixedEnd(nodes: seq<Node>, trace: seq<Event>, scope: Scope)
    ensures Prefixed(nodes, trace, Ok(Lowered([], scope, []))) == Ok(Lowered(nodes, scope, trace))
  {
    assert nodes + [] == nodes && trace + [] == trace;
  }

  // Statements --------------------------------------------------------------------------------

  // LowerStatementsIn is what callers use, LowerStatementListIn its loop; the others do one statement each.

  method LowerStatementsIn(env: Env, fuel: nat, statements: seq<Statement>, scope: ScopeMap, slots: Slots)
    returns (r: Result<seq<Node>>, trace: seq<Event>)
    modifies scope
    ensures Meets(r, scope.entries, trace, LowerStatements(env, fuel, statements, old(scope.entries), slots))
    ensures r.Ok? ==> StatementsPromise(statements, old(scope.entries), scope.entries, r.value, trace)
    ensures match r
            case Ok(nodes) => Shows(env, fuel, statements, PlaceOf(old(scope.entries)), slots, nodes)
            case Err(_) => forall nodes :: !Shows(env, fuel, statements, PlaceOf(old(scope.entries)), slots, nodes)
    ensures r.Ok? ==> VarsOf(scope.entries) == AfterAll(env, statements, VarsOf(old(scope.entries)))
    decreases fuel, slots, statements, 3
  {
    ghost var entry := scope.entries;
    r, trace := LowerStatementListIn(env, fuel, statements, scope, slots);
    if r.Ok? {
      StatementsTouch(env, fuel, statements, entry, slots);
      StatementsLeave(env, fuel, statements, entry, slots);
    }
    StatementsLowerExactly(env, fuel, statements, entry, slots);
  }

  /**
   * After statements were lowered, only entries of the names they declare and the flag differ, the path is
   * restored, and under a loop item the flag or a marker tells whether anything was marked.
   */
  ghost predicate StatementsPromise(statements: seq<Statement>, entry: Scope, left: Scope, nodes: seq<Node>,
      trace: seq<Event>) {
    && SameElsewhere(entry, left, DeclaredBy(statements)) && RenderPathOf(left) == RenderPathOf(entry)
    && Kept(entry, Lowered(nodes, left, trace)) && KeptInNodes(entry, nodes, trace)
  }

  method LowerStatementListIn(env: Env, fuel: nat, statements: seq<Statement>, scope: ScopeMap, slots: Slots)
    returns (r: Result<seq<Node>>, trace: seq<Event>)
    modifies scope
    ensures Meets(r, scope.entries, trace, LowerStatements(env, fuel, statements, old(scope.entries), slots))
    decreases fuel, slots, statements, 2
  {
    var nodes: seq<Node> := [];
    trace := [];
    var wasUnsupported := !Supported(scope.entries);
    var parent := RenderPathOf(scope.entries);
    ghost var whole := LowerFrom(env, fuel, statements, 0, parent, scope.entries, slots);
    PrefixedStart(whole);
    assert statements[0..] == statements;
    var index := 0;
    while index < |statements|
      invariant index <= |statements|
      invariant whole == Prefixed(nodes, trace,
               LowerFrom(env, fuel, statements[index..], index, parent, scope.entries, slots))
    {
      var here := parent + "." + NatText(index);
      ghost var before := scope.entries;
      scope.Insert(RenderPath, Str(here));
      assert statements[index..][0] == statements[index] && statements[index..][1..] == statements[index + 1..];
      var step, events := LowerStatementIn(env, fuel, statements[index], here, scope, slots);
      if step.Err? {
        return Err(step.error), trace;
      }
      PrefixedStep(nodes, trace, step.value, [Visit(here)] + events,
          LowerFrom(env, fuel, statements[index + 1..], index + 1, parent, scope.entries, slots));
      nodes, trace := nodes + step.value, trace + ([Visit(here)] + events);
      index := index + 1;
    }
    PrefixedEnd(nodes, trace, scope.entries);
    scope.Insert(RenderPath, Str(parent));
    if !wasUnsupported && !Supported(scope.entries) && EachBinding in scope.entries {
      nodes := nodes + [MARKER];
    }
    r := Ok(nodes);
  }

  method LowerStatementIn(env: Env, fuel: nat, s: Statement, here: string, scope: ScopeMap, slots: Slots)
    returns (r: Result<seq<Node>>, trace: seq<Event>)
    modifies scope
    ensures Meets(r, scope.entries, trace, LowerStatement(env, fuel, s, here, old(scope.entries), slots))
    decreases fuel, slots, s, 1
  {
    trace := [];
    match s {
      case Data(name, value) =>
        r, trace := LowerDataIn(env, name, value, scope);
      case TextOf(text) =>
        r, trace := LowerTextIn(env, text, scope);
      case If(condition, body, elseBody) =>
        r, trace := LowerIfIn(env, fuel, s, here, scope, slots);
      case Match(value, cases, defaultBody) =>
        r, trace := LowerMatchIn(env, fuel, s, here, scope, slots);
      case Each(binding, source, key, body, emptyBody) =>
        r, trace := LowerEachIn(env, fuel, s, here, scope, slots);
      case Use(component) =>
        r, trace := LowerComponentIn(env, fuel, component, scope, slots);
        trace := Renamed(trace, Marked);
      case Pipeline(source, stages) =>
        r, trace := LowerPipelineIn(env, fuel, s, scope, slots);
    }
  }

  method LowerDataIn(env: Env, name: string, value: Expr, scope: ScopeMap)
    returns (r: Result<seq<Node>>, trace: seq<Event>)
    modifies scope
    ensures Meets(r, scope.entries, trace, LowerData(env, name, value, old(scope.entries)))
  {
    trace := [];
    var v := Eval(env, value, scope.entries);
    if v.Err? {
      return Err(v.error), trace;
    }
    scope.Insert(User(name), v.value);
    match EachRenderPath(value, scope.entries) {
      case Some(path) =>
        scope.Insert(EachParam(name), Str(path));
      case None =>
        var bad := ReferencesItem(value, scope.entries);
        trace := MarkEvents(bad, scope.entries);
        scope.MarkUnsupported(bad);
    }
    r := Ok([]);
  }

  method LowerTextIn(env: Env, e: Expr, scope: ScopeMap)
    returns (r: Result<seq<Node>>, trace: seq<Event>)
    modifies scope
    ensures Meets(r, scope.entries, trace, LowerText(env, e, old(scope.entries)))
  {
    trace := [];
    var v := Eval(env, e, scope.entries);
    if v.Err? {
      return Err(v.error), trace;
    }
    match EachRenderPath(e, scope.entries) {
      case Some(path) =>
        r := Ok([TargetNode(path, AsString(v.value))]);
      case None =>
        var bad := ReferencesItem(e, scope.entries);
        trace := MarkEvents(bad, scope.entries);
        scope.MarkUnsupported(bad);
        r := Ok([TextNode(AsString(v.value))]);
    }
  }

  method LowerIfIn(env: Env, fuel: nat, s: Statement, here: string, scope: ScopeMap, slots: Slots)
    returns (r: Result<seq<Node>>, trace: seq<Event>)
    requires s.If?
    modifies scope
    ensures Meets(r, scope.entries, trace, LowerIf(env, fuel, s, here, old(scope.entries), slots))
    decreases fuel, slots, s, 0
  {
    trace := MarkEvents(ReferencesItem(s.condition, scope.entries), scope.entries);
    scope.MarkUnsupported(ReferencesItem(s.condition, scope.entries));
    var v := Eval(env, s.condition, scope.entries);
    if v.Err? {
      return Err(v.error), trace;
    }
    var body := if Truthy(v.value) then s.body else s.elseBody;
    r := Ok([]);
    if body != [] {
      var nested := scope.Clone();
      nested.Insert(RenderPath, Str(here + (if Truthy(v.value) then ".if1" else ".if0")));
      var events;
      r, events := LowerStatementsIn(env, fuel, body, nested, slots);
      trace := trace + events;
    }
  }

  method LowerMatchIn(env: Env, fuel: nat, s: Statement, here: string, scope: ScopeMap, slots: Slots)
    returns (r: Result<seq<Node>>, trace: seq<Event>)
    requires s.Match?
    modifies scope
    ensures Meets(r, scope.entries, trace, LowerMatch(env, fuel, s, here, old(scope.entries), slots))
    decreases fuel, slots, s, 0
  {
    trace := MarkEvents(ReferencesItem(s.value, scope.entries), scope.entries);
    scope.MarkUnsupported(ReferencesItem(s.value, scope.entries));
    var v := Eval(env, s.value, scope.entries);
    if v.Err? {
      return Err(v.error), trace;
    }
    var found := FindCase(s.cases, AsString(v.value));
    var body := if found.Some? then s.cases[found.value].body else s.defaultBody;
    r := Ok([]);
    if body != [] {
      var nested := scope.Clone();
      nested.Insert(RenderPath, Str(here + ".match"));
      var events;
      r, events := LowerStatementsIn(env, fuel, body, nested, slots);
      trace := trace + events;
    }
  }

  method LowerEachIn(env: Env, fuel: nat, s: Statement, here: string, scope: ScopeMap, slots: Slots)
    returns (r: Result<seq<Node>>, trace: seq<Event>)
    requires s.Each?
    modifies scope
    ensures Meets(r, scope.entries, trace, LowerEach(env, fuel, s, here, old(scope.entries), slots))
    decreases fuel, slots, s, 0
  {
    trace := MarkEvents(ReferencesItem(s.source, scope.entries), scope.entries);
    scope.MarkUnsupported(ReferencesItem(s.source, scope.entries));
    var v := Eval(env, s.source, scope.entries);
    if v.Err? {
      return Err(v.error), trace;
    }
    if !v.value.List? {
      return Err(EachRequiresList), trace;
    }
    var items := v.value.items;
    var events;
    if items == [] {
      var nested := scope.Clone();
      r, events := LowerStatementsIn(env, fuel, s.emptyBody, nested, slots);
      if r.Ok? {
        r := Ok(EmptyEachNodes(s, r.value));
      }
      trace := trace + events;
    } else if s.key.Some? {
      var keyed := LowerKeyedIn(env, fuel, s.binding, s.key.value, s.body, here, scope, slots, items);
      if keyed.Err? {
        return Err(keyed.error), trace;
      }
      trace := trace + keyed.value.trace;
      r := Ok([KeyedNode(s.binding, s.key.value, keyed.value.kind,
          keyed.value.children + TemplateNodes(keyed.value.template))]);
    } else {
      r, events := LowerItemsIn(env, fuel, s.binding, s.body, here, scope, slots, items);
      trace := trace + events;
    }
  }

  // The unkeyed loop --------------------------------------------------------------------------

  // LowerEachIn calls LowerItemsIn; the lemmas serve its loop.

  lemma LowerItemsUnfold(env: Env, fuel: nat, binding: string, body: seq<Statement>, here: string, scope: Scope,
      slots: Slots, items: seq<Value>, index: nat)
    requires index < |items|
    ensures var nested := At(scope[User(binding) := items[index]], here + ".each" + NatText(index));
            LowerItems(env, fuel, binding, body, here, scope, slots, items[index..], index) ==
              match LowerStatements(env, fuel, body, nested, slots)
              case Err(e) => Err(e)
              case Ok(l) => Prefixed(l.nodes, l.trace,
                  LowerItems(env, fuel, binding, body, here, scope, slots, items[index + 1..], index + 1))
  {
    assert items[index..][0] == items[index] && items[index..][1..] == items[index + 1..];
    if index + 1 < |items| {
      ItemsKeepScope(env, fuel, binding, body, here, scope, slots, items[index + 1..], index + 1);
    }
  }

  lemma ItemsKeepScope(env: Env, fuel: nat, binding: string, body: seq<Statement>, here: string, scope: Scope,
      slots: Slots, items: seq<Value>, index: nat)
    ensures var r := LowerItems(env, fuel, binding, body, here, scope, slots, items, index);
            r.Ok? ==> r.value.scope == scope
  {
  }

  method LowerItemsIn(env: Env, fuel: nat, binding: string, body: seq<Statement>, here: string, scope: ScopeMap,
      slots: Slots, items: seq<Value>)
    returns (r: Result<seq<Node>>, trace: seq<Event>)
    ensures Meets(r, scope.entries, trace, LowerItems(env, fuel, binding, body, here, scope.entries, slots, items, 0))
    decreases fuel, slots, body, 4
  {
    var nodes: seq<Node> := [];
    trace := [];
    ghost var whole := LowerItems(env, fuel, binding, body, here, scope.entries, slots, items, 0);
    PrefixedStart(whole);
    assert items[0..] == items;
    var index := 0;
    while index < |items|
      invariant index <= |items|
      invariant scope.entries == old(scope.entries)
      invariant whole == Prefixed(nodes, trace,
               LowerItems(env, fuel, binding, body, here, scope.entries, slots, items[index..], index))
    {
      LowerItemsUnfold(env, fuel, binding, body, here, scope.entries, slots, items, index);
      var nested := scope.Clone();
      nested.Insert(User(binding), items[index]);
      nested.Insert(RenderPath, Str(here + ".each" + NatText(index)));
      var step, events := LowerStatementsIn(env, fuel, body, nested, slots);
      if step.Err? {
        return Err(step.error), trace;
      }
      PrefixedStep(nodes, trace, step.value, events,
          LowerItems(env, fuel, binding, body, here, scope.entries, slots, items[index + 1..], index + 1));
      nodes, trace := nodes + step.value, trace + events;
      index := index + 1;
    }
    PrefixedEnd(nodes, trace, scope.entries);
    r := Ok(nodes);
  }

  // The keyed loop ----------------------------------------------------------------------------

  // LowerKeyedIn is what LowerEachIn calls; the lemmas serve its loop, LowerKeyedListIn.

  /** What the keyed loop has gathered so far, put in front of what the rest of the items give. */
  ghost function KeyedPrefix(children: seq<Node>, template: Option<seq<Node>>, trace: seq<Event>,
      rest: Result<KeyedItems>): Result<KeyedItems> {
    match rest
    case Ok(k) => Ok(KeyedItems(children + k.children, if template.Some? then template
        else k.template, k.kind, trace + k.trace))
    case Err(e) => Err(e)
  }

  lemma KeyedPrefixStart(r: Result<KeyedItems>)
    ensures KeyedPrefix([], None, [], r) == r
  {
    assert r.Ok? ==> [] + r.value.children == r.value.children && [] + r.value.trace == r.value.trace;
  }

  lemma KeyedPrefixStep(children: seq<Node>, template: Option<seq<Node>>, trace: seq<Event>, more: seq<Node>,
      next: Option<seq<Node>>, events: seq<Event>, r: Result<KeyedItems>)
    ensures KeyedPrefix(children, template, trace, KeyedPrefix(more, next, events, r))
            == KeyedPrefix(children + more, if template.Some? then template else next, trace + events, r)
  {
    if r.Ok? {
      assert children + (more + r.value.children) == children + more + r.value.children;
      assert trace + (events + r.value.trace) == trace + events + r.value.trace;
    }
  }

  lemma KeyedPrefixEnd(children: seq<Node>, template: Option<seq<Node>>, trace: seq<Event>, kind: string)
    ensures KeyedPrefix(children, template, trace, Ok(KeyedItems([], None, kind, [])))
            == Ok(KeyedItems(children, template, kind, trace))
  {
    assert children + [] == children && trace + [] == trace;
  }

  /** One turn of the keyed loop, once its key has been accepted. */
  lemma LowerKeyedUnfold(env: Env, fuel: nat, binding: string, key: Expr, body: seq<Statement>, here: string,
      scope: Scope, slots: Slots, items: seq<Value>, index: nat, seen: set<string>, kind: Option<string>,
      identity: (string, string))
    requires index < |items|
    requires AcceptKey(env, key, ItemScope(scope, binding, items[index]), seen, kind) == Ok(identity)
    ensures var id := identity.0 + ":" + identity.1;
            LowerKeyed(env, fuel, binding, key, body, here, scope, slots, items[index..], seen, kind) ==
              match LowerItem(env, fuel, binding, body, ItemPath(env, here, id), scope, slots, items[index])
              case Err(e) => Err(e)
              case Ok(l) =>
                KeyedPrefix([EachItemNode(identity, l.nodes)], if CanBeTemplate(l) then Some(l.nodes)
                    else None, [KeyedItem(here, id)] + l.trace,
                  LowerKeyed(env, fuel, binding, key, body, here, scope, slots, items[index + 1..], seen + {id},
                      Some(identity.0)))
  {
    assert items[index..][0] == items[index] && items[index..][1..] == items[index + 1..];
  }

  lemma LowerKeyedStops(env: Env, fuel: nat, binding: string, key: Expr, body: seq<Statement>, here: string,
      scope: Scope, slots: Slots, items: seq<Value>, index: nat, seen: set<string>, kind: Option<string>)
    requires index < |items|
    requires AcceptKey(env, key, ItemScope(scope, binding, items[index]), seen, kind).Err?
    ensures LowerKeyed(env, fuel, binding, key, body, here, scope, slots, items[index..], seen, kind)
            == Err(AcceptKey(env, key, ItemScope(scope, binding, items[index]), seen, kind).error)
  {
    assert items[index..][0] == items[index];
  }

  datatype KeyedStep = KeyedStep(identity: (string, string), node: Node, candidate: Option<seq<Node>>,
      trace: seq<Event>)

  /** One turn of the keyed loop on its own copy of the scope. */
  method LowerKeyedItemIn(env: Env, fuel: nat, binding: string, key: Expr, body: seq<Statement>, here: string,
      scope: ScopeMap, slots: Slots, items: seq<Value>, index: nat, seen: set<string>, kind: Option<string>)
    returns (r: Result<KeyedStep>)
    requires index < |items|
    ensures var rest := LowerKeyed(env, fuel, binding, key, body, here, scope.entries, slots, items[index..], seen,
              kind);
            match r
            case Err(e) => rest == Err(e)
            case Ok(step) =>
              var id := step.identity.0 + ":" + step.identity.1;
              rest == KeyedPrefix([step.node], step.candidate, step.trace,
                LowerKeyed(env, fuel, binding, key, body, here, scope.entries, slots, items[index + 1..], seen + {id},
                    Some(step.identity.0)))
    decreases fuel, slots, body, 4
  {
    var nested := scope.Clone();
    nested.Insert(User(binding), items[index]);
    nested.Insert(EachBinding, Str(binding));
    var accepted := AcceptKey(env, key, nested.entries, seen, kind);
    if accepted.Err? {
      LowerKeyedStops(env, fuel, binding, key, body, here, scope.entries, slots, items, index, seen, kind);
      return Err(accepted.error);
    }
    var identity := accepted.value;
    var id := identity.0 + ":" + identity.1;
    LowerKeyedUnfold(env, fuel, binding, key, body, here, scope.entries, slots, items, index, seen, kind, identity);
    nested.Insert(RenderPath, Str(ItemPath(env, here, id)));
    var nodes, events := LowerStatementsIn(env, fuel, body, nested, slots);
    if nodes.Err? {
      return Err(nodes.error);
    }
    var ready := Supported(nested.entries) && TemplateIsSafe(nodes.value);
    r := Ok(KeyedStep(identity, EachItemNode(identity, nodes.value), if ready then Some(nodes.value)
        else None, [KeyedItem(here, id)] + events));
  }

  method LowerKeyedIn(env: Env, fuel: nat, binding: string, key: Expr, body: seq<Statement>, here: string,
      scope: ScopeMap, slots: Slots, items: seq<Value>)
    returns (r: Result<KeyedItems>)
    ensures r == LowerKeyed(env, fuel, binding, key, body, here, scope.entries, slots, items, {}, None)
    ensures r.Ok? ==> KeyedPromise(env, fuel, binding, body, scope.entries, slots, items, r.value)
    decreases fuel, slots, body, 6
  {
    r := LowerKeyedListIn(env, fuel, binding, key, body, here, scope, slots, items);
    if r.Ok? {
      KeyedKeepsPromise(env, fuel, binding, key, body, here, scope.entries, slots, items);
    }
  }

  method LowerKeyedListIn(env: Env, fuel: nat, binding: string, key: Expr, body: seq<Statement>, here: string,
      scope: ScopeMap, slots: Slots, items: seq<Value>)
    returns (r: Result<KeyedItems>)
    ensures r == LowerKeyed(env, fuel, binding, key, body, here, scope.entries, slots, items, {}, None)
    decreases fuel, slots, body, 5
  {
    var children: seq<Node> := [];
    var template: Option<seq<Node>> := None;
    var seen: set<string> := {};
    var kind: Option<string> := None;
    var trace: seq<Event> := [];
    ghost var whole := LowerKeyed(env, fuel, binding, key, body, here, scope.entries, slots, items, {}, None);
    KeyedPrefixStart(whole);
    assert items[0..] == items;
    var index := 0;
    while index < |items|
      invariant index <= |items|
      invariant whole == KeyedPrefix(children, template, trace,
                           LowerKeyed(env, fuel, binding, key, body, here, scope.entries, slots, items[index..], seen,
                               kind))
    {
      var step := LowerKeyedItemIn(env, fuel, binding, key, body, here, scope, slots, items, index, seen, kind);
      if step.Err? {
        return Err(step.error);
      }
      var KeyedStep((current, display), node, candidate, events) := step.value;
      var id := current + ":" + display;
      KeyedPrefixStep(children, template, trace, [node], candidate, events,
        LowerKeyed(env, fuel, binding, key, body, here, scope.entries, slots, items[index + 1..], seen + {id},
            Some(current)));
      if template.None? {
        template := candidate;
      }
      children, trace := children + [node], trace + events;
      seen, kind := seen + {id}, Some(current);
      index := index + 1;
    }
    KeyedPrefixEnd(children, template, trace, if kind.Some? then kind.value else "");
    r := Ok(KeyedItems(children, template, if kind.Some? then kind.value else "", trace));
  }

  // Pipelines ---------------------------------------------------------------------------------

  method LowerPipelineIn(env: Env, fuel: nat, s: Statement, scope: ScopeMap, slots: Slots)
    returns (r: Result<seq<Node>>, trace: seq<Event>)
    requires s.Pipeline?
    modifies scope
    ensures Meets(r, scope.entries, trace, LowerPipeline(env, fuel, s, old(scope.entries), slots))
    decreases fuel, slots, s, 0
  {
    trace := MarkEvents(ReferencesItem(s.source, scope.entries), scope.entries);
    scope.MarkUnsupported(ReferencesItem(s.source, scope.entries));
    var v := Eval(env, s.source, scope.entries);
    if v.Err? {
      return Err(v.error), trace;
    }
    var stages, events := LowerStagesIn(env, fuel, s.stages, scope, slots);
    trace := trace + ([RunOf(env, s.stages, scope.entries, slots)] + events);
    if stages.Err? {
      return stages, trace;
    }
    r := Ok([PipelineElement(v.value, stages.value)]);
  }

  method LowerStagesIn(env: Env, fuel: nat, stages: seq<Stage>, scope: ScopeMap, slots: Slots)
    returns (r: Result<seq<Node>>, trace: seq<Event>)
    ensures Meets(r, scope.entries, trace, LowerStages(env, fuel, stages, scope.entries, slots))
    decreases fuel, slots, stages, 0
  {
    var nodes: seq<Node> := [];
    trace := [];
    ghost var whole := LowerStages(env, fuel, stages, scope.entries, slots);
    PrefixedStart(whole);
    assert stages[0..] == stages;
    var index := 0;
    while index < |stages|
      invariant index <= |stages|
      invariant whole == Prefixed(nodes, trace, LowerStages(env, fuel, stages[index..], scope.entries, slots))
    {
      assert stages[index..][0] == stages[index] && stages[index..][1..] == stages[index + 1..];
      var step, events := LowerStageIn(env, fuel, stages[index], scope, slots);
      if step.Err? {
        return step, trace;
      }
      PrefixedStep(nodes, trace, step.value, events, LowerStages(env, fuel, stages[index + 1..], scope.entries, slots));
      nodes, trace := nodes + step.value, trace + events;
      index := index + 1;
    }
    PrefixedEnd(nodes, trace, scope.entries);
    r := Ok(nodes);
  }

  /** A stage works on its own copy of the scope, so the marks of its element stray. */
  method LowerStageIn(env: Env, fuel: nat, stage: Stage, scope: ScopeMap, slots: Slots)
    returns (r: Result<seq<Node>>, trace: seq<Event>)
    ensures match LowerStage(env, fuel, stage, scope.entries, slots)
            case Ok(l) => r == Ok(l.nodes) && trace == l.trace
            case Err(e) => r == Err(e)
    decreases fuel, slots, stage, 0
  {
    match stage {
      case EachStage(binding) =>
        r, trace := Ok([Element("div", map["data-stage" := "each", "data-binding" := binding], [], [])]), [];
      case ComponentStage(component) =>
        var nested := scope.Clone();
        var events;
        r, events := LowerComponentIn(env, fuel, component, nested, slots);
        trace := [PipelineStage(component, scope.entries)] + Renamed(events, StrayMark);
    }
  }

  // Components --------------------------------------------------------------------------------

  method LowerComponentIn(env: Env, fuel: nat, c: Component, scope: ScopeMap, slots: Slots)
    returns (r: Result<seq<Node>>, trace: seq<Event>)
    modifies scope
    ensures Meets(r, scope.entries, trace, LowerComponentNodes(env, fuel, c, old(scope.entries), slots))
    decreases fuel, slots, c, 2
  {
    r, trace := Ok([]), [];
    if c.name == "Slot" {
      if slots.SlotOf? {
        var requested := SlotName(env, c.props, {"name", "slot"}, scope.entries);
        if requested.Err? {
          return Err(requested.error), trace;
        }
        var selected := SelectSlot(env, slots.body, requested.value, scope.entries);
        if selected.Err? {
          return Err(selected.error), trace;
        }
        var nested := scope.Clone();
        r, trace := LowerStatementsIn(env, fuel, selected.value, nested, slots.parent);
      }
    } else if c.name == "Fragment" {
      r, trace := LowerChildrenIn(env, fuel, c, scope, slots);
    } else {
      match FindComponent(env.components, c.name) {
        case Some(def) =>
          if fuel == 0 {
            return Err(OutOfFuel), trace;
          }
          r, trace := LowerLocalIn(env, fuel, c, def, scope, slots);
        case None =>
          if !IsNativeTag(c.name) {
            return Err(OutsideModel(c.name)), trace;
          }
          r, trace := LowerNativeIn(env, fuel, c, scope, slots);
      }
    }
  }

  method LowerChildrenIn(env: Env, fuel: nat, c: Component, scope: ScopeMap, slots: Slots)
    returns (r: Result<seq<Node>>, trace: seq<Event>)
    modifies scope
    ensures Meets(r, scope.entries, trace, LowerChildren(env, fuel, c, old(scope.entries), slots))
    decreases fuel, slots, c, 0
  {
    r, trace := Ok([]), [];
    match c.body {
      case Empty =>
      case Inline(text) =>
        r, trace := LowerTextIn(env, text, scope);
        trace := if trace == [] then [] else [OwnMark];
      case Block(statements) =>
        var nested := scope.Clone();
        r, trace := LowerStatementsIn(env, fuel, statements, nested, slots);
    }
  }

  method LowerNativeIn(env: Env, fuel: nat, c: Component, scope: ScopeMap, slots: Slots)
    returns (r: Result<seq<Node>>, trace: seq<Event>)
    modifies scope
    ensures Meets(r, scope.entries, trace, LowerNative(env, fuel, c, old(scope.entries), slots))
    decreases fuel, slots, c, 1
  {
    var children;
    children, trace := LowerChildrenIn(env, fuel, c, scope, slots);
    if children.Err? {
      return children, trace;
    }
    var evaluated := EvalProps(env, c.props, scope.entries);
    if evaluated.Err? {
      return Err(evaluated.error), trace;
    }
    var style := StyleAttrs(env, c, scope.entries);
    if style.Err? {
      return Err(style.error), trace;
    }
    var attrs := style.value + BehaviorAttrs(BEHAVIOR_PROPS, evaluated.value.props)
        + NativeAttrs(evaluated.value.props);
    var bindings, events := AttachIn(c, attrs, scope);
    trace := trace + (evaluated.value.trace + events + TagEvents(c.name));
    r := Ok([Element(c.name, attrs, bindings, children.value)]);
  }

  method AttachIn(c: Component, attrs: map<string, string>, scope: ScopeMap)
    returns (bindings: seq<RenderBinding>, trace: seq<Event>)
    modifies scope
    ensures Attach(c, attrs, old(scope.entries)) == Attached(bindings, scope.entries, trace)
  {
    bindings, trace := AttachPropsIn(c.props, attrs, scope);
    ghost var props := scope.entries;
    ghost var style := AttachStyle(c, scope.entries);
    var badClass := c.class_.Some? && ReferencesItem(c.class_.value, scope.entries);
    var events := OwnEvents(badClass, scope.entries);
    scope.MarkUnsupported(badClass);
    var recipePath := if c.recipe.Some? then EachRenderPath(c.recipe.value, scope.entries) else None;
    match recipePath {
      case Some(path) =>
        bindings := bindings + [RenderBinding("data-recipe", path, SetAttribute)];
      case None =>
        var badRecipe := c.recipe.Some? && ReferencesItem(c.recipe.value, scope.entries);
        events := events + OwnEvents(badRecipe, scope.entries);
        scope.MarkUnsupported(badRecipe);
        bindings := bindings + [];
    }
    trace := trace + events;
  }

  // LowerNativeIn calls AttachIn, whose loop over the properties is AttachPropsIn; these serve that loop.

  ghost function AttachedAfter(bindings: seq<RenderBinding>, trace: seq<Event>, rest: Attached): Attached {
    Attached(bindings + rest.bindings, rest.scope, trace + rest.trace)
  }

  lemma AttachedAfterStep(bindings: seq<RenderBinding>, trace: seq<Event>, more: seq<RenderBinding>, events: seq<Event>,
      rest: Attached)
    ensures AttachedAfter(bindings, trace, AttachedAfter(more, events, rest))
            == AttachedAfter(bindings + more, trace + events, rest)
    ensures AttachedAfter([], [], rest) == rest
  {
    assert bindings + (more + rest.bindings) == bindings + more + rest.bindings;
    assert trace + (events + rest.trace) == trace + events + rest.trace;
    assert [] + rest.bindings == rest.bindings && [] + rest.trace == rest.trace;
  }

  method AttachPropsIn(props: seq<Prop>, attrs: map<string, string>, scope: ScopeMap)
    returns (bindings: seq<RenderBinding>, trace: seq<Event>)
    modifies scope
    ensures AttachProps(props, attrs, old(scope.entries)) == Attached(bindings, scope.entries, trace)
  {
    bindings, trace := [], [];
    ghost var whole := AttachProps(props, attrs, scope.entries);
    AttachedAfterStep([], [], [], [], whole);
    assert props[0..] == props;
    var index := 0;
    while index < |props|
      invariant index <= |props|
      invariant whole == AttachedAfter(bindings, trace, AttachProps(props[index..], attrs, scope.entries))
    {
      assert props[index..][0] == props[index] && props[index..][1..] == props[index + 1..];
      var added, events := AttachPropIn(props[index], attrs, scope);
      AttachedAfterStep(bindings, trace, added, events, AttachProps(props[index + 1..], attrs, scope.entries));
      bindings, trace := bindings + added, trace + events;
      index := index + 1;
    }
    assert bindings + [] == bindings && trace + [] == trace;
  }

  method AttachPropIn(p: Prop, attrs: map<string, string>, scope: ScopeMap)
    returns (bindings: seq<RenderBinding>, trace: seq<Event>)
    modifies scope
    ensures AttachProp(p, attrs, old(scope.entries)) == Attached(bindings, scope.entries, trace)
  {
    bindings, trace := [], [];
    var bad := false;
    match EachRenderPath(p.value, scope.entries) {
      case None =>
        bad := ReferencesItem(p.value, scope.entries);
      case Some(path) =>
        match RenderTarget(p.name) {
          case None =>
            bad := true;
          case Some(target) =>
            if IsUnpatchable(target) || (!IsBooleanAttr(target) && target !in attrs) {
              bad := true;
            } else {
              bindings := [RenderBinding(target, path, if IsBooleanAttr(target) then SetBoolean else SetAttribute)];
            }
        }
    }
    trace := OwnEvents(bad, scope.entries);
    scope.MarkUnsupported(bad);
  }

  method LowerLocalIn(env: Env, fuel: nat, c: Component, def: ComponentDef, scope: ScopeMap, slots: Slots)
    returns (r: Result<seq<Node>>, trace: seq<Event>)
    requires fuel > 0
    ensures Meets(r, scope.entries, trace, LowerLocal(env, fuel, c, def, scope.entries, slots))
    decreases fuel, slots, c, 1
  {
    trace := [];
    var own := scope.Clone();
    var entry := EnterLocalIn(env, c, def, own);
    if entry.Err? {
      return Err(entry.error), trace;
    }
    var (attrs, entered) := entry.value;
    var nodes, events := LowerStatementsIn(env, fuel - 1, def.body, own, SlotOf(ChildStatements(c.body), slots));
    if nodes.Err? {
      return nodes, trace;
    }
    trace := entered + events + OverrideEvents(nodes.value, attrs);
    r := Ok(AttrsToFirst(nodes.value, attrs));
  }

  // LowerLocalIn enters a component here: its aliases, then its parameters, then its states.

  method EnterLocalIn(env: Env, c: Component, def: ComponentDef, own: ScopeMap)
    returns (r: Result<(map<string, string>, seq<Event>)>)
    modifies own
    ensures match EnterLocal(env, c, def, old(own.entries))
            case Ok(entry) => r == Ok((entry.attrs, entry.trace)) && own.entries == entry.scope
            case Err(e) => r == Err(e)
  {
    var outer := own.Clone();
    var evaluated := EvalProps(env, c.props, outer.entries);
    if evaluated.Err? {
      return Err(evaluated.error);
    }
    var style := StyleAttrs(env, c, outer.entries);
    if style.Err? {
      return Err(style.error);
    }
    var path := RenderPathOf(outer.entries);
    own.Insert(InstancePath, Str(path));
    PropagateParamsIn(c.props, outer, own);
    var failure := BindParamsIn(env, def, evaluated.value.props, own);
    if failure.Some? {
      return Err(failure.value);
    }
    failure := BindStatesIn(env, def.states, own);
    if failure.Some? {
      return Err(failure.value);
    }
    r := Ok((Passthrough(def, evaluated.value.props) + style.value, evaluated.value.trace + [Instance(path)]));
  }

  method PropagateParamsIn(props: seq<Prop>, source: ScopeMap, target: ScopeMap)
    requires source != target
    modifies target
    ensures target.entries == PropagateParams(props, source.entries, old(target.entries))
  {
    ghost var whole := PropagateParams(props, source.entries, target.entries);
    var index := 0;
    while index < |props|
      invariant index <= |props|
      invariant source.entries == old(source.entries)
      invariant whole == PropagateParams(props[index..], source.entries, target.entries)
    {
      assert props[index..][0] == props[index] && props[index..][1..] == props[index + 1..];
      match EachRenderPath(props[index].value, source.entries) {
        case Some(path) => target.Insert(EachParam(props[index].name), Str(path));
        case None =>
      }
      index := index + 1;
    }
  }

  method BindParamsIn(env: Env, def: ComponentDef, props: map<string, Value>, scope: ScopeMap)
    returns (failure: Option<LowerError>)
    modifies scope
    ensures match BindParams(env, def, def.params, props, old(scope.entries))
            case Ok(bound) => failure == None && scope.entries == bound
            case Err(e) => failure == Some(e)
  {
    ghost var whole := BindParams(env, def, def.params, props, scope.entries);
    var index := 0;
    while index < |def.params|
      invariant index <= |def.params|
      invariant whole == BindParams(env, def, def.params[index..], props, scope.entries)
    {
      var p := def.params[index];
      assert def.params[index..][0] == p && def.params[index..][1..] == def.params[index + 1..];
      var v := Null;
      if p.name in props {
        v := props[p.name];
      } else if p.default.Some? {
        var r := Eval(env, p.default.value, scope.entries);
        if r.Err? {
          return Some(r.error);
        }
        v := r.value;
      }
      if p.literals != [] && !(v.Str? && v.text in p.literals) {
        return Some(InvalidComponentPropLiteral(def.name, p.name, if v.Null? then "null" else AsString(v), p.literals));
      }
      scope.Insert(User(p.name), v);
      index := index + 1;
    }
    failure := None;
  }

  method BindStatesIn(env: Env, states: seq<State>, scope: ScopeMap)
    returns (failure: Option<LowerError>)
    modifies scope
    ensures match BindStates(env, states, old(scope.entries))
            case Ok(bound) => failure == None && scope.entries == bound
            case Err(e) => failure == Some(e)
  {
    ghost var whole := BindStates(env, states, scope.entries);
    var index := 0;
    while index < |states|
      invariant index <= |states|
      invariant whole == BindStates(env, states[index..], scope.entries)
    {
      assert states[index..][0] == states[index] && states[index..][1..] == states[index + 1..];
      var v := Eval(env, states[index].initial, scope.entries);
      if v.Err? {
        return Some(v.error);
      }
      scope.Insert(User(states[index].name), v.value);
      index := index + 1;
    }
    failure := None;
  }

  // The page ----------------------------------------------------------------------------------

  /** Lowers a page's statements from the path "0" under its `main` element. */
  method LowerPageIn(env: Env, fuel: nat, page: Page, initial: Scope) returns (r: Result<Node>, trace: seq<Event>)
    ensures match LowerPage(env, fuel, page, initial)
            case Err(e) => r == Err(e)
            case Ok(l) =>
              && r == Ok(Element("main", map["data-ax-page" := page.name, "data-ax-root" := "page"], [], l.nodes))
              && trace == l.trace
    ensures match r
            case Ok(main) => ShowsPage(env, fuel, page, PlaceOf(initial), main.children)
            case Err(_) => forall nodes :: !ShowsPage(env, fuel, page, PlaceOf(initial), nodes)
    ensures r.Ok? && LoweringPaths.Plain(env, trace) ==>
              (LoweringPaths.Distinct(trace) <==> LoweringPaths.PipelinesApart(trace))
  {
    trace := [];
    PageLowersExactly(env, fuel, page, initial);
    var scope := new ScopeMap(initial);
    scope.Insert(RenderPath, Str("0"));
    var failure := BindPageParamsIn(env, page.params, scope);
    if failure.Some? {
      return Err(failure.value), trace;
    }
    var nodes;
    nodes, trace := LowerStatementsIn(env, fuel, page.body, scope, NoSlot);
    if nodes.Err? {
      return Err(nodes.error), trace;
    }
    r := Ok(Element("main", map["data-ax-page" := page.name, "data-ax-root" := "page"], [], nodes.value));
    if LoweringPaths.Plain(env, trace) {
      LoweringPaths.PathsAreUniqueExactly(env, fuel, page, initial);
    }
  }

  method BindPageParamsIn(env: Env, params: seq<Param>, scope: ScopeMap) returns (failure: Option<LowerError>)
    modifies scope
    ensures match BindPageParams(env, params, old(scope.entries))
            case Ok(bound) => failure == None && scope.entries == bound
            case Err(e) => failure == Some(e)
    ensures failure.None? ==>
              && (forall k <- old(scope.entries) :: k in scope.entries && scope.entries[k] == old(scope.entries)[k])
              && (forall p <- params :: User(p.name) in scope.entries)
  {
    ghost var whole := BindPageParams(env, params, scope.entries);
    var index := 0;
    while index < |params|
      invariant index <= |params|
      invariant whole == BindPageParams(env, params[index..], scope.entries)
      invariant forall k <- old(scope.entries) :: k in scope.entries && scope.entries[k] == old(scope.entries)[k]
      invariant forall p <- params[..index] :: User(p.name) in scope.entries
    {
      var p := params[index];
      assert params[index..][0] == p && params[index..][1..] == params[index + 1..];
      assert params[..index + 1] == params[..index] + [p];
      if !(User(p.name) in scope.entries) {
        var v := Null;
        if p.default.Some? {
          var r := Eval(env, p.default.value, scope.entries);
          if r.Err? {
            return Some(r.error);
          }
          v := r.value;
        }
        scope.Insert(User(p.name), v);
      }
      index := index + 1;
    }
    failure := None;
  }
}
