/** Whose events are whose, over whole runs: every state signal has its instance, and every stray mark its stage. */
module LoweringOwners {
  import opened Text
  import opened LoweringModel
  import opened Evaluation
  import opened Lowering
  import opened LoweringMarks
  import opened LoweringPaths
  import opened LoweringPromises

  // Stray marks -------------------------------------------------------------------------------

  /** A stage, in a loop, of a component that marks itself. */
  predicate IsStrayStage(env: Env, e: Event) {
    e.PipelineStage? && EachBinding in e.scope && MarksItself(env, e.component, e.scope)
  }

  /** Marks stray exactly where a stage was lowered that marks itself. */
  predicate Accounted(env: Env, trace: seq<Event>) {
    StrayMark in trace <==> exists e <- trace :: IsStrayStage(env, e)
  }

  // Signals -----------------------------------------------------------------------------------

  predicate HasOwner(scope: Scope) {
    InstancePath in scope && AsString(scope[InstancePath]) != ""
  }

  predicate SameOwner(s: Scope, t: Scope) {
    (InstancePath in s <==> InstancePath in t) && (InstancePath in s ==> s[InstancePath] == t[InstancePath])
  }

  /** The event names a signal of the instance it carries. */
  ghost predicate IsSignal(e: Event)
    requires e.StateSignal?
  {
    exists c, s, i :: Colonless([c, s, i]) && e.signal == SignalName(c, e.instance, s, i)
  }

  /**
   * A signal of a run belongs to an instance of the run, to the instance that the run is part of, or, outside
   * of all instances, to a statement of the run.
   */
  ghost predicate IsOwned(e: Event, trace: seq<Event>, scope: Scope)
    requires e.StateSignal?
  {
    && IsSignal(e)
    && (|| Instance(e.instance) in trace
        || (if HasOwner(scope) then e.instance == InstancePathOf(scope) else Visit(e.instance) in trace))
  }

  /** The same at one place, where a signal outside of all instances belongs to the place itself. */
  ghost predicate IsOwnedHere(e: Event, trace: seq<Event>, scope: Scope)
    requires e.StateSignal?
  {
    IsOwned(e, trace, scope) || (IsSignal(e) && e.instance == InstancePathOf(scope))
  }

  ghost predicate Owned(env: Env, trace: seq<Event>, scope: Scope) {
    Accounted(env, trace) && forall e <- trace | e.StateSignal? :: IsOwned(e, trace, scope)
  }

  ghost predicate OwnedHere(env: Env, trace: seq<Event>, scope: Scope) {
    Accounted(env, trace) && forall e <- trace | e.StateSignal? :: IsOwnedHere(e, trace, scope)
  }

  predicate IsSilent(e: Event) {
    !e.StateSignal? && !e.PipelineStage? && e != StrayMark
  }

  lemma SilentIsOwned(env: Env, trace: seq<Event>, scope: Scope)
    requires forall e <- trace :: IsSilent(e)
    ensures Owned(env, trace, scope)
  {
  }

  lemma AccountedConcat(env: Env, a: seq<Event>, b: seq<Event>)
    requires Accounted(env, a) && Accounted(env, b)
    ensures Accounted(env, a + b)
  {
    if e :| e in a && IsStrayStage(env, e) {
      assert e in a + b;
    }
    if e :| e in b && IsStrayStage(env, e) {
      assert e in a + b;
    }
  }

  lemma OwnedConcat(env: Env, a: seq<Event>, b: seq<Event>, scope: Scope)
    requires Owned(env, a, scope) && Owned(env, b, scope)
    ensures Owned(env, a + b, scope)
  {
    AccountedConcat(env, a, b);
    forall e <- a + b | e.StateSignal? ensures IsOwned(e, a + b, scope) {
      assert IsOwned(e, if e in a then a else b, scope);
    }
  }

  lemma OwnedHereConcat(env: Env, a: seq<Event>, b: seq<Event>, scope: Scope)
    requires OwnedHere(env, a, scope) && OwnedHere(env, b, scope)
    ensures OwnedHere(env, a + b, scope)
  {
    AccountedConcat(env, a, b);
    forall e <- a + b | e.StateSignal? ensures IsOwnedHere(e, a + b, scope) {
      assert IsOwnedHere(e, if e in a then a else b, scope);
    }
  }

  lemma OwnedBySame(env: Env, trace: seq<Event>, s: Scope, t: Scope)
    requires Owned(env, trace, s) && SameOwner(s, t)
    ensures Owned(env, trace, t)
  {
    forall e <- trace | e.StateSignal? ensures IsOwned(e, trace, t) {
      assert IsOwned(e, trace, s);
    }
  }

  /** Renaming an element's own marks into marks of its statement. */
  lemma RenamedOwned(env: Env, trace: seq<Event>, scope: Scope)
    requires OwnedHere(env, trace, scope)
    ensures OwnedHere(env, Renamed(trace, Marked), scope)
  {
    RenamedEvents(trace, Marked);
    var renamed := Renamed(trace, Marked);
    if e :| e in trace && IsStrayStage(env, e) {
      assert e in renamed;
    }
    forall e <- renamed | e.StateSignal? ensures IsOwnedHere(e, renamed, scope) {
      assert IsOwnedHere(e, trace, scope);
    }
  }

  lemma RenamedEvents(trace: seq<Event>, mark: Event)
    ensures forall e | e != mark && e != OwnMark :: e in Renamed(trace, mark) <==> e in trace
    ensures OwnMark in trace || mark in trace ==> mark in Renamed(trace, mark)
    ensures mark in Renamed(trace, mark) ==> OwnMark in trace || mark in trace
  {
    forall e ensures e != mark && e != OwnMark ==> (e in Renamed(trace, mark) <==> e in trace) {
      RenamedHolds(trace, mark, e);
    }
    RenamedHolds(trace, mark, mark);
    if mark == OwnMark && mark in trace {
      var i :| 0 <= i < |trace| && trace[i] == mark;
      assert Renamed(trace, mark)[i] == mark;
    }
  }

  // The induction -----------------------------------------------------------------------------

  lemma {:induction false} StatementsOwned(env: Env, fuel: nat, statements: seq<Statement>, scope: Scope, slots: Slots)
    requires LowerStatements(env, fuel, statements, scope, slots).Ok?
    ensures Owned(env, LowerStatements(env, fuel, statements, scope, slots).value.trace, scope)
    decreases fuel, slots, statements, 3
  {
    FromOwned(env, fuel, statements, 0, RenderPathOf(scope), scope, slots);
  }

  lemma {:induction false} FromOwned(env: Env, fuel: nat, statements: seq<Statement>, index: nat, parent: string,
      scope: Scope, slots: Slots)
    requires LowerFrom(env, fuel, statements, index, parent, scope, slots).Ok?
    ensures Owned(env, LowerFrom(env, fuel, statements, index, parent, scope, slots).value.trace, scope)
    decreases fuel, slots, statements, 2
  {
    if statements != [] {
      var here := parent + "." + NatText(index);
      var first := LowerStatement(env, fuel, statements[0], here, At(scope, here), slots).value;
      var rest := LowerFrom(env, fuel, statements[1..], index + 1, parent, first.scope, slots).value;
      StatementOwned(env, fuel, statements[0], here, At(scope, here), slots);
      StatementTouches(env, fuel, statements[0], here, At(scope, here), slots);
      assert SameOwner(scope, first.scope) by { assert !IsTouched(InstancePath, Declared(statements[0])); }
      FromOwned(env, fuel, statements[1..], index + 1, parent, first.scope, slots);
      OwnedBySame(env, rest.trace, first.scope, scope);
      VisitOwns(env, here, first.trace, scope);
      OwnedConcat(env, [Visit(here)] + first.trace, rest.trace, scope);
    }
  }

  /** A visit makes its place one of the run. */
  lemma VisitOwns(env: Env, here: string, trace: seq<Event>, scope: Scope)
    requires here != "" && OwnedHere(env, trace, At(scope, here))
    ensures Owned(env, [Visit(here)] + trace, scope)
  {
    var whole := [Visit(here)] + trace;
    SilentIsOwned(env, [Visit(here)], scope);
    AccountedConcat(env, [Visit(here)], trace);
    forall e <- whole | e.StateSignal? ensures IsOwned(e, whole, scope) {
      assert IsOwnedHere(e, trace, At(scope, here));
      assert Visit(here) in whole;
    }
  }

  /** Statements nested in one, on a copy of its scope. */
  lemma NestedOwned(env: Env, bad: bool, scope: Scope, nested: Scope, nodes: seq<Node>, trace: seq<Event>)
    requires Owned(env, trace, nested) && SameOwner(nested, scope)
    ensures OwnedHere(env, Nested(bad, scope, nodes, trace).trace, scope)
  {
    OwnedBySame(env, trace, nested, scope);
    SilentIsOwned(env, MarkEvents(bad, scope), scope);
    OwnedConcat(env, MarkEvents(bad, scope), trace, scope);
  }

  lemma {:induction false} StatementOwned(env: Env, fuel: nat, s: Statement, here: string, scope: Scope, slots: Slots)
    requires LowerStatement(env, fuel, s, here, scope, slots).Ok?
    ensures OwnedHere(env, LowerStatement(env, fuel, s, here, scope, slots).value.trace, scope)
    decreases fuel, slots, s, 1
  {
    match s {
      case Data(name, value) => SilentIsOwned(env, LowerData(env, name, value, scope).value.trace, scope);
      case TextOf(text) => SilentIsOwned(env, LowerText(env, text, scope).value.trace, scope);
      case If(_, _, _) => IfOwned(env, fuel, s, here, scope, slots);
      case Match(_, _, _) => MatchOwned(env, fuel, s, here, scope, slots);
      case Each(_, _, _, _, _) => EachOwned(env, fuel, s, here, scope, slots);
      case Use(component) =>
        ComponentOwned(env, fuel, component, scope, slots);
        RenamedOwned(env, LowerComponentNodes(env, fuel, component, scope, slots).value.trace, scope);
      case Pipeline(_, _) => PipelineOwned(env, fuel, s, scope, slots);
    }
  }

  lemma {:induction false} IfOwned(env: Env, fuel: nat, s: Statement, here: string, scope: Scope, slots: Slots)
    requires s.If? && LowerIf(env, fuel, s, here, scope, slots).Ok?
    ensures OwnedHere(env, LowerIf(env, fuel, s, here, scope, slots).value.trace, scope)
    decreases fuel, slots, s, 0
  {
    var bad := ReferencesItem(s.condition, scope);
    var v := Eval(env, s.condition, MarkIf(bad, scope)).value;
    var nested := At(MarkIf(bad, scope), here + (if Truthy(v) then ".if1" else ".if0"));
    var body := if Truthy(v) then s.body else s.elseBody;
    var r := LowerNonempty(env, fuel, body, nested, slots).value;
    NonemptyOwned(env, fuel, body, nested, slots);
    NestedOwned(env, bad, scope, nested, r.nodes, r.trace);
  }

  lemma {:induction false} MatchOwned(env: Env, fuel: nat, s: Statement, here: string, scope: Scope, slots: Slots)
    requires s.Match? && LowerMatch(env, fuel, s, here, scope, slots).Ok?
    ensures OwnedHere(env, LowerMatch(env, fuel, s, here, scope, slots).value.trace, scope)
    decreases fuel, slots, s, 0
  {
    var bad := ReferencesItem(s.value, scope);
    var found := FindCase(s.cases, AsString(Eval(env, s.value, MarkIf(bad, scope)).value));
    var body := if found.Some? then s.cases[found.value].body else s.defaultBody;
    var nested := At(MarkIf(bad, scope), here + ".match");
    var r := LowerNonempty(env, fuel, body, nested, slots).value;
    NonemptyOwned(env, fuel, body, nested, slots);
    NestedOwned(env, bad, scope, nested, r.nodes, r.trace);
  }

  lemma {:induction false} EachOwned(env: Env, fuel: nat, s: Statement, here: string, scope: Scope, slots: Slots)
    requires s.Each? && LowerEach(env, fuel, s, here, scope, slots).Ok?
    ensures OwnedHere(env, LowerEach(env, fuel, s, here, scope, slots).value.trace, scope)
    decreases fuel, slots, s, 0
  {
    var bad := ReferencesItem(s.source, scope);
    var marked := MarkIf(bad, scope);
    var items := Eval(env, s.source, marked).value.items;
    var inner: seq<Event>;
    if items == [] {
      inner := LowerStatements(env, fuel, s.emptyBody, marked, slots).value.trace;
      StatementsOwned(env, fuel, s.emptyBody, marked, slots);
    } else if s.key.Some? {
      inner := LowerKeyed(env, fuel, s.binding, s.key.value, s.body, here, marked, slots, items, {}, None).value.trace;
      KeyedOwned(env, fuel, s.binding, s.key.value, s.body, here, marked, slots, items, {}, None);
    } else {
      inner := LowerItems(env, fuel, s.binding, s.body, here, marked, slots, items, 0).value.trace;
      ItemsOwned(env, fuel, s.binding, s.body, here, marked, slots, items, 0);
    }
    NestedOwned(env, bad, scope, marked, [], inner);
  }

  lemma {:induction false} NonemptyOwned(env: Env, fuel: nat, body: seq<Statement>, nested: Scope, slots: Slots)
    requires LowerNonempty(env, fuel, body, nested, slots).Ok?
    ensures Owned(env, LowerNonempty(env, fuel, body, nested, slots).value.trace, nested)
    decreases fuel, slots, body, 4
  {
    if body != [] {
      StatementsOwned(env, fuel, body, nested, slots);
    }
  }

  lemma {:induction false} ItemsOwned(env: Env, fuel: nat, binding: string, body: seq<Statement>, here: string,
      scope: Scope, slots: Slots, items: seq<Value>, index: nat)
    requires LowerItems(env, fuel, binding, body, here, scope, slots, items, index).Ok?
    ensures Owned(env, LowerItems(env, fuel, binding, body, here, scope, slots, items, index).value.trace, scope)
    decreases fuel, slots, body, 4, |items|
  {
    if items != [] {
      var nested := At(scope[User(binding) := items[0]], here + ".each" + NatText(index));
      var first := LowerStatements(env, fuel, body, nested, slots).value.trace;
      var rest := LowerItems(env, fuel, binding, body, here, scope, slots, items[1..], index + 1).value.trace;
      StatementsOwned(env, fuel, body, nested, slots);
      OwnedBySame(env, first, nested, scope);
      ItemsOwned(env, fuel, binding, body, here, scope, slots, items[1..], index + 1);
      OwnedConcat(env, first, rest, scope);
    }
  }

  lemma {:induction false} KeyedOwned(env: Env, fuel: nat, binding: string, key: Expr, body: seq<Statement>,
      here: string, scope: Scope, slots: Slots, items: seq<Value>, seen: set<string>, kind: Option<string>)
    requires LowerKeyed(env, fuel, binding, key, body, here, scope, slots, items, seen, kind).Ok?
    ensures Owned(env, LowerKeyed(env, fuel, binding, key, body, here, scope, slots, items, seen, kind).value.trace,
            scope)
    decreases fuel, slots, body, 5, |items|
  {
    if items != [] {
      var identity := KeyedParts(env, fuel, binding, key, body, here, scope, slots, items, seen, kind);
      var id := identity.0 + ":" + identity.1;
      var nested := At(ItemScope(scope, binding, items[0]), ItemPath(env, here, id));
      var first := LowerItem(env, fuel, binding, body, ItemPath(env, here, id), scope, slots, items[0]).value.trace;
      var rest := LowerKeyed(env, fuel, binding, key, body, here, scope, slots, items[1..], seen + {id},
          Some(identity.0)).value.trace;
      StatementsOwned(env, fuel, body, nested, slots);
      OwnedBySame(env, first, nested, scope);
      KeyedOwned(env, fuel, binding, key, body, here, scope, slots, items[1..], seen + {id}, Some(identity.0));
      SilentIsOwned(env, [KeyedItem(here, id)], scope);
      OwnedConcat(env, [KeyedItem(here, id)], first, scope);
      OwnedConcat(env, [KeyedItem(here, id)] + first, rest, scope);
    }
  }

  lemma {:induction false} PipelineOwned(env: Env, fuel: nat, s: Statement, scope: Scope, slots: Slots)
    requires s.Pipeline? && LowerPipeline(env, fuel, s, scope, slots).Ok?
    ensures OwnedHere(env, LowerPipeline(env, fuel, s, scope, slots).value.trace, scope)
    decreases fuel, slots, s, 0
  {
    var bad := ReferencesItem(s.source, scope);
    var marked := MarkIf(bad, scope);
    var stages := LowerStages(env, fuel, s.stages, marked, slots).value.trace;
    var run := [RunOf(env, s.stages, marked, slots)];
    StagesOwned(env, fuel, s.stages, marked, slots);
    OwnedHereBySame(env, stages, marked, scope);
    SilentIsOwned(env, run, scope);
    SilentIsOwned(env, MarkEvents(bad, scope), scope);
    OwnedHereConcat(env, run, stages, scope);
    OwnedHereConcat(env, MarkEvents(bad, scope), run + stages, scope);
  }

  lemma OwnedHereBySame(env: Env, trace: seq<Event>, s: Scope, t: Scope)
    requires OwnedHere(env, trace, s) && SameOwner(s, t) && RenderPathOf(s) == RenderPathOf(t)
    ensures OwnedHere(env, trace, t)
  {
    forall e <- trace | e.StateSignal? ensures IsOwnedHere(e, trace, t) {
      assert IsOwnedHere(e, trace, s);
    }
  }

  lemma {:induction false} StagesOwned(env: Env, fuel: nat, stages: seq<Stage>, scope: Scope, slots: Slots)
    requires LowerStages(env, fuel, stages, scope, slots).Ok?
    ensures OwnedHere(env, LowerStages(env, fuel, stages, scope, slots).value.trace, scope)
    decreases fuel, slots, stages, 0
  {
    if stages != [] {
      var first := LowerStage(env, fuel, stages[0], scope, slots).value.trace;
      var rest := LowerStages(env, fuel, stages[1..], scope, slots).value.trace;
      match stages[0] {
        case EachStage(_) =>
        case ComponentStage(c) =>
          assert c < stages[0];
          ComponentOwned(env, fuel, c, scope, slots);
          StageOwned(env, fuel, c, scope, slots);
      }
      StagesOwned(env, fuel, stages[1..], scope, slots);
      OwnedHereConcat(env, first, rest, scope);
    }
  }

  /** A stage takes over its element's signals; its element's own marks stray, and the stage tells of them. */
  lemma StageOwned(env: Env, fuel: nat, c: Component, scope: Scope, slots: Slots)
    requires LowerComponentNodes(env, fuel, c, scope, slots).Ok?
    requires OwnedHere(env, LowerComponentNodes(env, fuel, c, scope, slots).value.trace, scope)
    ensures OwnedHere(env, LowerStage(env, fuel, ComponentStage(c), scope, slots).value.trace, scope)
  {
    var inner := LowerComponentNodes(env, fuel, c, scope, slots).value.trace;
    OwnMarksExactly(env, fuel, c, scope, slots);
    StrayOwned(env, c, inner, scope);
  }

  lemma StrayOwned(env: Env, c: Component, inner: seq<Event>, scope: Scope)
    requires OwnedHere(env, inner, scope)
    requires OwnMark in inner <==> EachBinding in scope && MarksItself(env, c, scope)
    ensures OwnedHere(env, [PipelineStage(c, scope)] + Renamed(inner, StrayMark), scope)
  {
    var stage := PipelineStage(c, scope);
    var renamed := Renamed(inner, StrayMark);
    var whole := [stage] + renamed;
    RenamedEvents(inner, StrayMark);
    assert IsStrayStage(env, stage) <==> OwnMark in inner;
    assert Accounted(env, whole) by {
      if OwnMark in inner {
        assert stage in whole;
      }
      if e :| e in inner && IsStrayStage(env, e) {
        assert e in whole;
      }
    }
    forall e <- whole | e.StateSignal? ensures IsOwnedHere(e, whole, scope) {
      assert IsOwnedHere(e, inner, scope);
      assert forall p <- inner | IsPlace(p) :: p in whole;
    }
  }

  // Components --------------------------------------------------------------------------------

  lemma {:induction false} ComponentOwned(env: Env, fuel: nat, c: Component, scope: Scope, slots: Slots)
    requires LowerComponentNodes(env, fuel, c, scope, slots).Ok?
    ensures OwnedHere(env, LowerComponentNodes(env, fuel, c, scope, slots).value.trace, scope)
    decreases fuel, slots, c, 2
  {
    if c.name == "Slot" {
      if slots.SlotOf? {
        StatementsOwned(env, fuel, Visited(env, c, scope, slots), scope, slots.parent);
      }
    } else if c.name == "Fragment" {
      ChildrenOwned(env, fuel, c, scope, slots);
    } else if FindComponent(env.components, c.name).Some? {
      LocalOwned(env, fuel, c, FindComponent(env.components, c.name).value, scope, slots);
    } else {
      NativeOwned(env, fuel, c, scope, slots);
    }
  }

  lemma {:induction false} ChildrenOwned(env: Env, fuel: nat, c: Component, scope: Scope, slots: Slots)
    requires LowerChildren(env, fuel, c, scope, slots).Ok?
    ensures OwnedHere(env, LowerChildren(env, fuel, c, scope, slots).value.trace, scope)
    decreases fuel, slots, c, 0
  {
    match c.body {
      case Empty =>
      case Inline(text) => SilentIsOwned(env, LowerInline(env, text, scope).value.trace, scope);
      case Block(statements) => StatementsOwned(env, fuel, statements, scope, slots);
    }
  }

  lemma {:induction false} NativeOwned(env: Env, fuel: nat, c: Component, scope: Scope, slots: Slots)
    requires LowerNative(env, fuel, c, scope, slots).Ok?
    ensures OwnedHere(env, LowerNative(env, fuel, c, scope, slots).value.trace, scope)
    decreases fuel, slots, c, 1
  {
    var inner := LowerChildren(env, fuel, c, scope, slots).value;
    ChildrenOwned(env, fuel, c, scope, slots);
    ChildrenOnlyMark(env, fuel, c, scope, slots);
    MarkedElementOwned(env, c, inner, scope);
    OwnedHereConcat(env, inner.trace, NativeElement(env, c, inner.nodes, inner.scope).value.trace, scope);
  }

  lemma MarkedElementOwned(env: Env, c: Component, inner: Lowered, scope: Scope)
    requires inner.scope == scope || inner.scope == MarkIf(true, scope)
    requires NativeElement(env, c, inner.nodes, inner.scope).Ok?
    ensures OwnedHere(env, NativeElement(env, c, inner.nodes, inner.scope).value.trace, scope)
  {
    ElementOwned(env, c, inner.nodes, inner.scope);
    OwnedHereBySame(env, NativeElement(env, c, inner.nodes, inner.scope).value.trace, inner.scope, scope);
  }

  lemma ElementOwned(env: Env, c: Component, children: seq<Node>, scope: Scope)
    requires NativeElement(env, c, children, scope).Ok?
    ensures OwnedHere(env, NativeElement(env, c, children, scope).value.trace, scope)
  {
    var attrs := ElementParts(env, c, children, scope);
    var props, attached := EvalProps(env, c.props, scope).value.trace, Attach(c, attrs, scope).trace;
    PropsOwned(env, c.props, scope);
    AttachIsSilent(c.props, attrs, scope);
    SilentIsOwned(env, attached, scope);
    SilentIsOwned(env, TagEvents(c.name), scope);
    OwnedHereConcat(env, props, attached, scope);
    OwnedHereConcat(env, props + attached, TagEvents(c.name), scope);
  }

  lemma {:induction false} AttachIsSilent(props: seq<Prop>, attrs: map<string, string>, scope: Scope)
    ensures forall e <- AttachProps(props, attrs, scope).trace :: IsSilent(e)
  {
    if props != [] {
      AttachIsSilent(props[1..], attrs, AttachProp(props[0], attrs, scope).scope);
    }
  }

  lemma {:induction false} PropsOwned(env: Env, props: seq<Prop>, scope: Scope)
    requires EvalProps(env, props, scope).Ok?
    ensures OwnedHere(env, EvalProps(env, props, scope).value.trace, scope)
  {
    if props != [] {
      var v := Eval(env, props[0].value, scope).value;
      var rest := EvalProps(env, props[1..], scope).value.trace;
      assert EvalProps(env, props, scope).value.trace == SignalEvents(v, scope) + rest;
      PropsOwned(env, props[1..], scope);
      ValueOwned(env, v, scope);
      OwnedHereConcat(env, SignalEvents(v, scope), rest, scope);
    }
  }

  lemma ValueOwned(env: Env, v: Value, scope: Scope)
    ensures OwnedHere(env, SignalEvents(v, scope), scope)
  {
    if StateSignalOf(v, scope).Some? {
      var e := StateSignal(InstancePathOf(scope), StateSignalOf(v, scope).value);
      var text := v.text[|STATE_PREFIX|..];
      var parts := SplitOn(':', text);
      PartsAreApart(':', text);
      assert Colonless([parts[0], parts[1], parts[2]]);
      assert e.signal == SignalName(parts[0], e.instance, parts[1], parts[2]);
      assert IsSignal(e);
    }
  }

  lemma {:induction false} LocalOwned(env: Env, fuel: nat, c: Component, def: ComponentDef, scope: Scope, slots: Slots)
    requires fuel > 0 && LowerLocal(env, fuel, c, def, scope, slots).Ok?
    ensures OwnedHere(env, LowerLocal(env, fuel, c, def, scope, slots).value.trace, scope)
    decreases fuel, slots, c, 1
  {
    LocalIsOf(env, fuel, c, def, scope, slots);
    var entry := EnterLocal(env, c, def, scope).value;
    var handed := SlotOf(ChildStatements(c.body), slots);
    var r := LowerStatements(env, fuel - 1, def.body, entry.scope, handed).value;
    BodyOwned(env, fuel, c, def, scope, slots, entry, r);
    OverridesOwned(env, entry.trace + r.trace, r.nodes, entry.attrs, scope);
  }

  lemma {:induction false} BodyOwned(env: Env, fuel: nat, c: Component, def: ComponentDef, scope: Scope, slots: Slots,
      entry: LocalEntry, r: Lowered)
    requires fuel > 0 && EnterLocal(env, c, def, scope) == Ok(entry)
    requires LowerStatements(env, fuel - 1, def.body, entry.scope, SlotOf(ChildStatements(c.body), slots)) == Ok(r)
    ensures OwnedHere(env, entry.trace + r.trace, scope)
    decreases fuel, slots, c, 0
  {
    StatementsOwned(env, fuel - 1, def.body, entry.scope, SlotOf(ChildStatements(c.body), slots));
    EntryOwns(env, c, def, scope, r.trace);
  }

  lemma OverridesOwned(env: Env, trace: seq<Event>, nodes: seq<Node>, incoming: map<string, string>, scope: Scope)
    requires OwnedHere(env, trace, scope)
    ensures OwnedHere(env, trace + OverrideEvents(nodes, incoming), scope)
  {
    SilentIsOwned(env, OverrideEvents(nodes, incoming), scope);
    OwnedHereConcat(env, trace, OverrideEvents(nodes, incoming), scope);
  }

  /** The signals of a component's body belong to the instance that entering it records. */
  lemma EntryOwns(env: Env, c: Component, def: ComponentDef, scope: Scope, inner: seq<Event>)
    requires EnterLocal(env, c, def, scope).Ok? && Owned(env, inner, EnterLocal(env, c, def, scope).value.scope)
    ensures OwnedHere(env, EnterLocal(env, c, def, scope).value.trace + inner, scope)
  {
    EntryHasOwner(env, c, def, scope);
    PropsOwned(env, c.props, scope);
    InstanceOwns(env, EvalProps(env, c.props, scope).value.trace, RenderPathOf(scope), inner,
                 EnterLocal(env, c, def, scope).value.scope, scope);
  }

  lemma EntryHasOwner(env: Env, c: Component, def: ComponentDef, scope: Scope)
    requires EnterLocal(env, c, def, scope).Ok?
    ensures EvalProps(env, c.props, scope).Ok?
    ensures var entry := EnterLocal(env, c, def, scope).value;
            && HasOwner(entry.scope) && InstancePathOf(entry.scope) == RenderPathOf(scope)
            && entry.trace == EvalProps(env, c.props, scope).value.trace + [Instance(RenderPathOf(scope))]
  {
    var evaluated := EvalProps(env, c.props, scope).value;
    var entered := scope[InstancePath := Str(RenderPathOf(scope))];
    var own := PropagateParams(c.props, scope, entered);
    var bound := BindParams(env, def, def.params, evaluated.props, own).value;
    PropagateKeepsPath(c.props, scope, entered);
    ParamsKeepPath(env, def, def.params, evaluated.props, own);
    StatesKeepPath(env, def.states, bound);
  }

  lemma InstanceOwns(env: Env, props: seq<Event>, here: string, inner: seq<Event>, within: Scope, scope: Scope)
    requires OwnedHere(env, props, scope)
    requires Owned(env, inner, within) && HasOwner(within) && InstancePathOf(within) == here
    ensures OwnedHere(env, props + [Instance(here)] + inner, scope)
  {
    var body := [Instance(here)] + inner;
    SilentIsOwned(env, [Instance(here)], scope);
    AccountedConcat(env, [Instance(here)], inner);
    forall e <- body | e.StateSignal? ensures IsOwnedHere(e, body, scope) {
      assert IsOwned(e, inner, within);
      assert Instance(here) in body;
    }
    OwnedHereConcat(env, props, body, scope);
    assert props + [Instance(here)] + inner == props + body;
  }

  // The theorems ------------------------------------------------------------------------------

  /** Over a whole run, a mark strays exactly if some stage was lowered whose component marks itself. */
  lemma MarksStrayExactly(env: Env, fuel: nat, body: seq<Statement>, scope: Scope, slots: Slots)
    requires LowerStatements(env, fuel, body, scope, slots).Ok?
    ensures var trace := LowerStatements(env, fuel, body, scope, slots).value.trace;
            StrayMark in trace <==> exists e <- trace :: IsStrayStage(env, e)
  {
    StatementsOwned(env, fuel, body, scope, slots);
  }

  /**
   * Every state signal of a page belongs to an instance of the run or, outside of all instances, to a statement; equal
   * signals belong to the same; and it is one instance, unless a pipeline's stages meet.
   */
  lemma SignalsBelongToOneInstance(env: Env, fuel: nat, page: Page, scope: Scope, i: nat, j: nat)
    requires LowerPage(env, fuel, page, scope).Ok? && !HasOwner(scope)
    requires var trace := LowerPage(env, fuel, page, scope).value.trace;
             && i < |trace| && j < |trace| && trace[i].StateSignal? && trace[j].StateSignal?
    ensures var trace := LowerPage(env, fuel, page, scope).value.trace;
            && (Instance(trace[i].instance) in trace || Visit(trace[i].instance) in trace)
            && (trace[i].signal == trace[j].signal ==> trace[i].instance == trace[j].instance)
            && (Plain(env, trace) && PipelinesApart(trace) ==> multiset(trace)[Instance(trace[i].instance)] <= 1)
  {
    var trace := LowerPage(env, fuel, page, scope).value.trace;
    var bound := BindPageParams(env, page.params, At(scope, "0")).value;
    PageParamsKeepPlace(env, page.params, At(scope, "0"));
    StatementsOwned(env, fuel, page.body, bound, NoSlot);
    assert IsOwned(trace[i], trace, bound) && IsOwned(trace[j], trace, bound);
    if trace[i].signal == trace[j].signal {
      SameSignalSameInstance(trace[i], trace[j]);
    }
    if Plain(env, trace) && PipelinesApart(trace) {
      PathsAreUniqueExactly(env, fuel, page, scope);
      DistinctOnce(trace, Instance(trace[i].instance));
    }
  }

  lemma SameSignalSameInstance(d: Event, e: Event)
    requires d.StateSignal? && e.StateSignal? && IsSignal(d) && IsSignal(e) && d.signal == e.signal
    ensures d.instance == e.instance
  {
    var c, s, i :| Colonless([c, s, i]) && d.signal == SignalName(c, d.instance, s, i);
    var k, t, j :| Colonless([k, t, j]) && e.signal == SignalName(k, e.instance, t, j);
    SignalsAreInjective(c, d.instance, s, i, k, e.instance, t, j);
  }

  lemma {:induction false} DistinctOnce(trace: seq<Event>, e: Event)
    requires Distinct(trace) && IsPlace(e)
    ensures multiset(trace)[e] <= 1
  {
    if trace != [] {
      assert trace == [trace[0]] + trace[1..];
      DistinctConcat([trace[0]], trace[1..]);
      DistinctOnce(trace[1..], e);
      assert multiset(trace) == multiset([trace[0]]) + multiset(trace[1..]);
    }
  }
}
