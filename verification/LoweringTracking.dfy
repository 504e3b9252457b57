/** Paths stay right over whole runs: every path in the nodes of an item names what is shown there. */
module LoweringTracking {
  import opened Text
  import opened LoweringModel
  import opened Evaluation
  import opened Lowering
  import opened LoweringMarks
  import opened LoweringFragment
  import opened LoweringCoupling
  import opened LoweringEntry
  import opened LoweringElements
  import opened LoweringTemplate

  /** A scope of the loop's body in which every alias has the value at its path. */
  ghost predicate OnTrack(s: Scope, b: string, v: Value, taken: set<string>) {
    Coupled(s, s, b, v, v, taken)
  }

  /** Filling the nodes in for their own item changes nothing. */
  ghost predicate ReadsBack(nodes: seq<Node>, v: Value) {
    Instantiate(nodes, v) == nodes
  }

  /** No value is a state signal, no keyed loop has items, and no attribute with a path is overridden. */
  predicate Readable(trace: seq<Event>) {
    forall e <- trace :: !e.StateSignal? && !e.KeyedItem? && e != Overridden
  }

  lemma RenamedIsReadable(trace: seq<Event>, mark: Event)
    requires Readable(Renamed(trace, mark))
    ensures Readable(trace)
  {
    forall e <- trace | e != OwnMark ensures e in Renamed(trace, mark) {
      RenamedHolds(trace, mark, e);
    }
  }

  lemma ReadsBackConcat(a: seq<Node>, b: seq<Node>, v: Value)
    requires ReadsBack(a, v) && ReadsBack(b, v)
    ensures ReadsBack(a + b, v)
  {
    InstantiateConcat(a, b, v);
  }

  /** The run of an item starts on track if no alias of an enclosing loop is in force. */
  lemma ItemStartsOnTrack(scope: Scope, b: string, v: Value)
    requires NoStaleAlias(scope, b)
    ensures OnTrack(ItemScope(scope, b, v), b, v, {b, "null"})
  {
    var s := ItemScope(scope, b, v);
    forall x | EachParam(x) in s ensures x == b {
      assert EachParam(x) in scope;
    }
  }

  lemma OnTrackAt(s: Scope, b: string, v: Value, taken: set<string>, path: string)
    requires OnTrack(s, b, v, taken)
    ensures OnTrack(At(s, path), b, v, taken)
  {
    CoupledAt(s, s, b, v, v, taken, path, path);
  }

  lemma MarkingStaysOnTrack(bad: bool, s: Scope, b: string, v: Value, taken: set<string>)
    requires OnTrack(s, b, v, taken)
    ensures OnTrack(MarkIf(bad, s), b, v, taken)
  {
    var t := MarkIf(bad, s);
    forall x | EachParam(x) in t && x != b ensures AliasTracks(t, x, v) {
      assert AliasTracks(s, x, v);
    }
  }

  lemma {:induction false} StatementsReadBack(env: Env, fuel: nat, statements: seq<Statement>, s: Scope, slots: Slots,
                                              b: string, v: Value, taken: set<string>)
    requires OnTrack(s, b, v, taken) && Fragment(env, fuel, statements, taken, slots)
    requires LowerStatements(env, fuel, statements, s, slots).Ok?
    requires Readable(LowerStatements(env, fuel, statements, s, slots).value.trace)
    ensures ReadsBack(LowerStatements(env, fuel, statements, s, slots).value.nodes, v)
    ensures OnTrack(LowerStatements(env, fuel, statements, s, slots).value.scope, b, v,
            TakenAfterAll(statements, taken))
    decreases fuel, slots, statements, 3
  {
    var r := LowerFrom(env, fuel, statements, 0, RenderPathOf(s), s, slots).value;
    FromReadsBack(env, fuel, statements, 0, RenderPathOf(s), s, slots, b, v, taken);
    OnTrackAt(r.scope, b, v, TakenAfterAll(statements, taken), RenderPathOf(s));
    InstantiateOne(MARKER, v);
    ReadsBackConcat(r.nodes, if Finish(s, r).nodes == r.nodes then [] else [MARKER], v);
  }

  lemma {:induction false} FromReadsBack(env: Env, fuel: nat, statements: seq<Statement>, index: nat, p: string,
      s: Scope, slots: Slots,
                                         b: string, v: Value, taken: set<string>)
    requires OnTrack(s, b, v, taken) && Fragment(env, fuel, statements, taken, slots)
    requires LowerFrom(env, fuel, statements, index, p, s, slots).Ok?
    requires Readable(LowerFrom(env, fuel, statements, index, p, s, slots).value.trace)
    ensures ReadsBack(LowerFrom(env, fuel, statements, index, p, s, slots).value.nodes, v)
    ensures OnTrack(LowerFrom(env, fuel, statements, index, p, s, slots).value.scope, b, v,
            TakenAfterAll(statements, taken))
    decreases fuel, slots, statements, 2
  {
    if statements != [] {
      var here := p + "." + NatText(index);
      var first := LowerStatement(env, fuel, statements[0], here, At(s, here), slots).value;
      var rest := LowerFrom(env, fuel, statements[1..], index + 1, p, first.scope, slots).value;
      var more := TakenAfter(statements[0], taken);
      OnTrackAt(s, b, v, taken, here);
      StatementReadsBack(env, fuel, statements[0], here, At(s, here), slots, b, v, taken);
      FromReadsBack(env, fuel, statements[1..], index + 1, p, first.scope, slots, b, v, more);
      ReadsBackConcat(first.nodes, rest.nodes, v);
    }
  }

  lemma {:induction false} StatementReadsBack(env: Env, fuel: nat, st: Statement, here: string, s: Scope, slots: Slots,
                                              b: string, v: Value, taken: set<string>)
    requires OnTrack(s, b, v, taken) && FragmentStatement(env, fuel, st, taken, slots)
    requires LowerStatement(env, fuel, st, here, s, slots).Ok?
    requires Readable(LowerStatement(env, fuel, st, here, s, slots).value.trace)
    ensures ReadsBack(LowerStatement(env, fuel, st, here, s, slots).value.nodes, v)
    ensures OnTrack(LowerStatement(env, fuel, st, here, s, slots).value.scope, b, v, TakenAfter(st, taken))
    decreases fuel, slots, st, 1
  {
    match st {
      case Data(name, value) => DataStaysOnTrack(env, name, value, s, b, v, taken);
      case TextOf(text) => TextReadsBack(env, text, s, b, v, taken);
      case If(_, _, _) => IfReadsBack(env, fuel, st, here, s, slots, b, v, taken);
      case Match(_, _, _) => MatchReadsBack(env, fuel, st, here, s, slots, b, v, taken);
      case Each(_, _, _, _, _) => EachReadsBack(env, fuel, st, here, s, slots, b, v, taken);
      case Use(c) =>
        RenamedIsReadable(LowerComponentNodes(env, fuel, c, s, slots).value.trace, Marked);
        ComponentReadsBack(env, fuel, c, s, slots, b, v, taken);
      case Pipeline(_, _) => PipelineReadsBack(env, fuel, st, s, slots, b, v, taken);
    }
  }

  /** Declaring a new name keeps the scope on track: an alias gets the value at its own path. */
  lemma DataStaysOnTrack(env: Env, name: string, value: Expr, s: Scope, b: string, v: Value, taken: set<string>)
    requires OnTrack(s, b, v, taken) && name !in taken && ChainOk(value)
    requires LowerData(env, name, value, s).Ok?
    ensures LowerData(env, name, value, s).value.nodes == []
    ensures OnTrack(LowerData(env, name, value, s).value.scope, b, v, TakenAfter(Data(name, value), taken))
  {
    var x := Eval(env, value, s).value;
    var bound := s[User(name) := x];
    assert EachRenderPath(value, bound) == EachRenderPath(value, s);
    match EachRenderPath(value, s) {
      case Some(path) =>
        PathIsExact(env, value, s, b, v);
        PathHasRoot(value, s, s, b, v, v, taken);
        CoupledAlias(s, s, b, v, v, taken, name, path);
      case None =>
        CoupledBind(s, s, b, v, v, taken, name, x);
        MarkingStaysOnTrack(ReferencesItem(value, bound), bound, b, v, taken);
        CoupledWider(MarkIf(ReferencesItem(value, bound), bound), MarkIf(ReferencesItem(value, bound), bound), b, v, v,
            taken, TakenAfter(Data(name, value), taken));
    }
  }

  lemma TextReadsBack(env: Env, e: Expr, s: Scope, b: string, v: Value, taken: set<string>)
    requires OnTrack(s, b, v, taken) && ChainOk(e) && LowerText(env, e, s).Ok?
    ensures ReadsBack(LowerText(env, e, s).value.nodes, v)
    ensures OnTrack(LowerText(env, e, s).value.scope, b, v, taken)
  {
    InstantiateOne(LowerText(env, e, s).value.nodes[0], v);
    MarkingStaysOnTrack(ReferencesItem(e, s), s, b, v, taken);
    if EachRenderPath(e, s).Some? {
      PathIsExact(env, e, s, b, v);
    }
  }

  lemma {:induction false} IfReadsBack(env: Env, fuel: nat, st: Statement, here: string, s: Scope, slots: Slots,
                                       b: string, v: Value, taken: set<string>)
    requires st.If? && OnTrack(s, b, v, taken) && FragmentStatement(env, fuel, st, taken, slots)
    requires LowerIf(env, fuel, st, here, s, slots).Ok?
             && Readable(LowerIf(env, fuel, st, here, s, slots).value.trace)
    ensures ReadsBack(LowerIf(env, fuel, st, here, s, slots).value.nodes, v)
    ensures OnTrack(LowerIf(env, fuel, st, here, s, slots).value.scope, b, v, taken)
    decreases fuel, slots, st, 0
  {
    var bad := ReferencesItem(st.condition, s);
    var value := Eval(env, st.condition, MarkIf(bad, s)).value;
    var path := here + (if Truthy(value) then ".if1" else ".if0");
    MarkingStaysOnTrack(bad, s, b, v, taken);
    OnTrackAt(MarkIf(bad, s), b, v, taken, path);
    NonemptyReadsBack(env, fuel, if Truthy(value) then st.body
        else st.elseBody, At(MarkIf(bad, s), path), slots, b, v, taken);
  }

  lemma {:induction false} MatchReadsBack(env: Env, fuel: nat, st: Statement, here: string, s: Scope, slots: Slots,
                                          b: string, v: Value, taken: set<string>)
    requires st.Match? && OnTrack(s, b, v, taken) && FragmentStatement(env, fuel, st, taken, slots)
    requires LowerMatch(env, fuel, st, here, s, slots).Ok?
             && Readable(LowerMatch(env, fuel, st, here, s, slots).value.trace)
    ensures ReadsBack(LowerMatch(env, fuel, st, here, s, slots).value.nodes, v)
    ensures OnTrack(LowerMatch(env, fuel, st, here, s, slots).value.scope, b, v, taken)
    decreases fuel, slots, st, 0
  {
    var bad := ReferencesItem(st.value, s);
    var found := FindCase(st.cases, AsString(Eval(env, st.value, MarkIf(bad, s)).value));
    if found.Some? { assert st.cases[found.value] in st.cases; }
    var body := if found.Some? then st.cases[found.value].body else st.defaultBody;
    MarkingStaysOnTrack(bad, s, b, v, taken);
    OnTrackAt(MarkIf(bad, s), b, v, taken, here + ".match");
    NonemptyReadsBack(env, fuel, body, At(MarkIf(bad, s), here + ".match"), slots, b, v, taken);
  }

  lemma {:induction false} EachReadsBack(env: Env, fuel: nat, st: Statement, here: string, s: Scope, slots: Slots,
                                         b: string, v: Value, taken: set<string>)
    requires st.Each? && OnTrack(s, b, v, taken) && FragmentStatement(env, fuel, st, taken, slots)
    requires LowerEach(env, fuel, st, here, s, slots).Ok?
             && Readable(LowerEach(env, fuel, st, here, s, slots).value.trace)
    ensures ReadsBack(LowerEach(env, fuel, st, here, s, slots).value.nodes, v)
    ensures OnTrack(LowerEach(env, fuel, st, here, s, slots).value.scope, b, v, taken)
    decreases fuel, slots, st, 0
  {
    var bad := ReferencesItem(st.source, s);
    var items := Eval(env, st.source, MarkIf(bad, s)).value.items;
    MarkingStaysOnTrack(bad, s, b, v, taken);
    if items == [] {
      StatementsReadBack(env, fuel, st.emptyBody, MarkIf(bad, s), slots, b, v, taken);
      EmptyFollows(st, LowerStatements(env, fuel, st.emptyBody, MarkIf(bad, s), slots).value.nodes, v);
    } else if st.key.Some? {
      KeyedIsNotReadable(env, fuel, st, here, s, slots);
    } else {
      ItemsReadBack(env, fuel, st.binding, st.body, here, MarkIf(bad, s), slots, items, 0, b, v, taken);
    }
  }

  lemma KeyedIsNotReadable(env: Env, fuel: nat, st: Statement, here: string, s: Scope, slots: Slots)
    requires st.Each? && st.key.Some? && LowerEach(env, fuel, st, here, s, slots).Ok?
    requires Eval(env, st.source, MarkIf(ReferencesItem(st.source, s), s)).value.items != []
    ensures !Readable(LowerEach(env, fuel, st, here, s, slots).value.trace)
  {
    var marked := MarkIf(ReferencesItem(st.source, s), s);
    var items := Eval(env, st.source, marked).value.items;
    var trace := LowerKeyed(env, fuel, st.binding, st.key.value, st.body, here, marked, slots, items, {},
        None).value.trace;
    assert trace[0].KeyedItem? && trace[0] in trace;
    assert trace[0] in LowerEach(env, fuel, st, here, s, slots).value.trace;
  }

  lemma {:induction false} NonemptyReadsBack(env: Env, fuel: nat, body: seq<Statement>, s: Scope, slots: Slots,
                                             b: string, v: Value, taken: set<string>)
    requires OnTrack(s, b, v, taken) && Fragment(env, fuel, body, taken, slots)
    requires LowerNonempty(env, fuel, body, s, slots).Ok?
             && Readable(LowerNonempty(env, fuel, body, s, slots).value.trace)
    ensures ReadsBack(LowerNonempty(env, fuel, body, s, slots).value.nodes, v)
    decreases fuel, slots, body, 4
  {
    if body != [] {
      StatementsReadBack(env, fuel, body, s, slots, b, v, taken);
    }
  }

  lemma {:induction false} ItemsReadBack(env: Env, fuel: nat, binding: string, body: seq<Statement>, here: string,
      s: Scope, slots: Slots,
                                         items: seq<Value>, index: nat, b: string, v: Value, taken: set<string>)
    requires OnTrack(s, b, v, taken) && Fragment(env, fuel, body, taken, slots) && binding !in taken
    requires LowerItems(env, fuel, binding, body, here, s, slots, items, index).Ok?
    requires Readable(LowerItems(env, fuel, binding, body, here, s, slots, items, index).value.trace)
    ensures ReadsBack(LowerItems(env, fuel, binding, body, here, s, slots, items, index).value.nodes, v)
    decreases fuel, slots, body, 4, |items|
  {
    if items != [] {
      var path := here + ".each" + NatText(index);
      var bound := s[User(binding) := items[0]];
      var first := LowerStatements(env, fuel, body, At(bound, path), slots).value;
      var rest := LowerItems(env, fuel, binding, body, here, s, slots, items[1..], index + 1).value;
      CoupledBind(s, s, b, v, v, taken, binding, items[0]);
      OnTrackAt(bound, b, v, taken, path);
      StatementsReadBack(env, fuel, body, At(bound, path), slots, b, v, taken);
      ItemsReadBack(env, fuel, binding, body, here, s, slots, items[1..], index + 1, b, v, taken);
      ReadsBackConcat(first.nodes, rest.nodes, v);
    }
  }

  // Components -------------------------------------------------------------------------------

  lemma {:induction false} ChildrenReadBack(env: Env, fuel: nat, c: Component, s: Scope, slots: Slots, b: string,
      v: Value, taken: set<string>)
    requires OnTrack(s, b, v, taken) && FragmentBody(env, fuel, c.body, taken, slots)
    requires LowerChildren(env, fuel, c, s, slots).Ok? && Readable(LowerChildren(env, fuel, c, s, slots).value.trace)
    ensures ReadsBack(LowerChildren(env, fuel, c, s, slots).value.nodes, v)
    ensures OnTrack(LowerChildren(env, fuel, c, s, slots).value.scope, b, v, taken)
    decreases fuel, slots, c, 0
  {
    match c.body {
      case Empty =>
      case Inline(text) => TextReadsBack(env, text, s, b, v, taken);
      case Block(inner) => StatementsReadBack(env, fuel, inner, s, slots, b, v, taken);
    }
  }

  lemma {:induction false} ComponentReadsBack(env: Env, fuel: nat, c: Component, s: Scope, slots: Slots, b: string,
      v: Value, taken: set<string>)
    requires OnTrack(s, b, v, taken) && FragmentComponent(env, fuel, c, taken, slots)
    requires LowerComponentNodes(env, fuel, c, s, slots).Ok?
    requires Readable(LowerComponentNodes(env, fuel, c, s, slots).value.trace)
    ensures ReadsBack(LowerComponentNodes(env, fuel, c, s, slots).value.nodes, v)
    ensures OnTrack(LowerComponentNodes(env, fuel, c, s, slots).value.scope, b, v, taken)
    decreases fuel, slots, c, 2
  {
    if c.name == "Slot" {
      if slots.SlotOf? {
        var requested := SlotName(env, c.props, {"name", "slot"}, s).value;
        var selected := SelectSlot(env, slots.body, requested, s).value;
        SelectionIsFragment(env, fuel, slots.body, requested, s, taken, slots.parent);
        StatementsReadBack(env, fuel, selected, s, slots.parent, b, v, taken);
      }
    } else if c.name == "Fragment" {
      ChildrenReadBack(env, fuel, c, s, slots, b, v, taken);
    } else {
      match FindComponent(env.components, c.name) {
        case Some(def) => LocalReadsBack(env, fuel, c, def, s, slots, b, v, taken);
        case None => NativeReadsBack(env, fuel, c, s, slots, b, v, taken);
      }
    }
  }

  lemma {:induction false} NativeReadsBack(env: Env, fuel: nat, c: Component, s: Scope, slots: Slots, b: string,
      v: Value, taken: set<string>)
    requires OnTrack(s, b, v, taken) && NativeOk(env, c) && FragmentBody(env, fuel, c.body, taken, slots)
    requires LowerNative(env, fuel, c, s, slots).Ok? && Readable(LowerNative(env, fuel, c, s, slots).value.trace)
    ensures ReadsBack(LowerNative(env, fuel, c, s, slots).value.nodes, v)
    ensures OnTrack(LowerNative(env, fuel, c, s, slots).value.scope, b, v, taken)
    decreases fuel, slots, c, 1
  {
    var inner := LowerChildren(env, fuel, c, s, slots).value;
    ChildrenReadBack(env, fuel, c, s, slots, b, v, taken);
    ElementReadsBack(env, c, inner.nodes, inner.scope, b, v, taken);
  }

  lemma {:induction false} LocalReadsBack(env: Env, fuel: nat, c: Component, def: ComponentDef, s: Scope, slots: Slots,
      b: string, v: Value, taken: set<string>)
    requires OnTrack(s, b, v, taken) && fuel > 0 && IsLocalOf(env, c, def)
    requires FragmentComponent(env, fuel, c, taken, slots)
    requires LowerLocal(env, fuel, c, def, s, slots).Ok?
             && Readable(LowerLocal(env, fuel, c, def, s, slots).value.trace)
    ensures ReadsBack(LowerLocal(env, fuel, c, def, s, slots).value.nodes, v)
    ensures OnTrack(LowerLocal(env, fuel, c, def, s, slots).value.scope, b, v, taken)
    decreases fuel, slots, c, 1
  {
    LocalIsOf(env, fuel, c, def, s, slots);
    var entry := EnterLocal(env, c, def, s).value;
    var r := LowerStatements(env, fuel - 1, def.body, entry.scope, SlotOf(ChildStatements(c.body), slots)).value;
    LocalIsReadable(entry, r, s);
    EntryStaysOnTrack(env, fuel, c, def, s, slots, b, v, taken);
    BodyReadsBack(env, fuel, c, def, entry, slots, b, v, taken, r);
  }

  lemma LocalIsReadable(entry: LocalEntry, r: Lowered, s: Scope)
    requires Readable(LocalOf(entry, r, s).trace)
    ensures Readable(r.trace) && Signalless(entry.trace) && !Overrides(r.nodes, entry.attrs)
  {
    LocalTraceHolds(entry, r, s);
  }

  lemma EntryStaysOnTrack(env: Env, fuel: nat, c: Component, def: ComponentDef, s: Scope, slots: Slots, b: string,
      v: Value, taken: set<string>)
    requires OnTrack(s, b, v, taken) && fuel > 0 && IsLocalOf(env, c, def)
    requires FragmentComponent(env, fuel, c, taken, slots)
    requires EnterLocal(env, c, def, s).Ok? && Signalless(EnterLocal(env, c, def, s).value.trace)
    ensures var entry := EnterLocal(env, c, def, s).value;
            OnTrack(entry.scope, b, v, LocalTaken(c, taken)) && TargetFree(entry.attrs)
  {
    LocalIsFragment(env, fuel, c, def, taken, slots);
    EntryCoupled(env, c, def, s, s, b, v, v, taken);
  }

  lemma {:induction false} BodyReadsBack(env: Env, fuel: nat, c: Component, def: ComponentDef, entry: LocalEntry,
      slots: Slots, b: string, v: Value, taken: set<string>, r: Lowered)
    requires fuel > 0 && IsLocalOf(env, c, def) && FragmentComponent(env, fuel, c, taken, slots)
    requires OnTrack(entry.scope, b, v, LocalTaken(c, taken)) && TargetFree(entry.attrs)
    requires LowerStatements(env, fuel - 1, def.body, entry.scope, SlotOf(ChildStatements(c.body), slots)) == Ok(r)
    requires Readable(r.trace) && !Overrides(r.nodes, entry.attrs)
    ensures ReadsBack(AttrsToFirst(r.nodes, entry.attrs), v)
    decreases fuel, slots, c, 0
  {
    LocalIsFragment(env, fuel, c, def, taken, slots);
    EnteredReadsBack(env, fuel - 1, def.body, entry, SlotOf(ChildStatements(c.body), slots), b, v, LocalTaken(c, taken),
        r);
  }

  lemma {:induction false} EnteredReadsBack(env: Env, fuel: nat, body: seq<Statement>, entry: LocalEntry,
      handed: Slots, b: string, v: Value, taken: set<string>, r: Lowered)
    requires OnTrack(entry.scope, b, v, taken) && TargetFree(entry.attrs) && Fragment(env, fuel, body, taken, handed)
    requires LowerStatements(env, fuel, body, entry.scope, handed) == Ok(r)
    requires Readable(r.trace) && !Overrides(r.nodes, entry.attrs)
    ensures ReadsBack(AttrsToFirst(r.nodes, entry.attrs), v)
    decreases fuel, handed, body, 4
  {
    StatementsReadBack(env, fuel, body, entry.scope, handed, b, v, taken);
    AttrsCommute(r.nodes, entry.attrs, v);
  }

  // Pipelines ---------------------------------------------------------------------------------

  lemma LastIsReadable(marks: seq<Event>, run: seq<Event>, inner: seq<Event>)
    ensures Readable(marks + (run + inner)) ==> Readable(inner)
  {
    assert forall e <- inner :: e in marks + (run + inner);
  }

  lemma {:induction false} PipelineReadsBack(env: Env, fuel: nat, st: Statement, s: Scope, slots: Slots, b: string,
      v: Value, taken: set<string>)
    requires st.Pipeline? && OnTrack(s, b, v, taken) && FragmentStatement(env, fuel, st, taken, slots)
    requires LowerPipeline(env, fuel, st, s, slots).Ok? && Readable(LowerPipeline(env, fuel, st, s, slots).value.trace)
    ensures ReadsBack(LowerPipeline(env, fuel, st, s, slots).value.nodes, v)
    ensures OnTrack(LowerPipeline(env, fuel, st, s, slots).value.scope, b, v, taken)
    decreases fuel, slots, st, 0
  {
    var bad := ReferencesItem(st.source, s);
    var x := Eval(env, st.source, MarkIf(bad, s)).value;
    MarkingStaysOnTrack(bad, s, b, v, taken);
    var inner := LowerStages(env, fuel, st.stages, MarkIf(bad, s), slots).value.trace;
    LastIsReadable(MarkEvents(bad, s), [RunOf(env, st.stages, MarkIf(bad, s), slots)], inner);
    StagesReadBack(env, fuel, st.stages, MarkIf(bad, s), slots, b, v, taken);
    PipelineFills(x, LowerStages(env, fuel, st.stages, MarkIf(bad, s), slots).value.nodes, v);
  }

  lemma {:induction false} StagesReadBack(env: Env, fuel: nat, stages: seq<Stage>, s: Scope, slots: Slots, b: string,
      v: Value, taken: set<string>)
    requires OnTrack(s, b, v, taken)
    requires forall x <- stages | x.ComponentStage? :: FragmentComponent(env, fuel, x.component, taken, slots)
    requires LowerStages(env, fuel, stages, s, slots).Ok?
             && Readable(LowerStages(env, fuel, stages, s, slots).value.trace)
    ensures ReadsBack(LowerStages(env, fuel, stages, s, slots).value.nodes, v)
    decreases fuel, slots, stages, 0
  {
    if stages != [] {
      var first, rest := LowerStage(env, fuel, stages[0], s, slots).value,
          LowerStages(env, fuel, stages[1..], s, slots).value;
      StageReadsBack(env, fuel, stages[0], s, slots, b, v, taken);
      StagesReadBack(env, fuel, stages[1..], s, slots, b, v, taken);
      ReadsBackConcat(first.nodes, rest.nodes, v);
    }
  }

  lemma {:induction false} StageReadsBack(env: Env, fuel: nat, stage: Stage, s: Scope, slots: Slots, b: string,
      v: Value, taken: set<string>)
    requires OnTrack(s, b, v, taken)
    requires stage.ComponentStage? ==> FragmentComponent(env, fuel, stage.component, taken, slots)
    requires LowerStage(env, fuel, stage, s, slots).Ok? && Readable(LowerStage(env, fuel, stage, s, slots).value.trace)
    ensures ReadsBack(LowerStage(env, fuel, stage, s, slots).value.nodes, v)
    decreases fuel, slots, stage, 0
  {
    match stage {
      case EachStage(_) => InstantiateOne(LowerStage(env, fuel, stage, s, slots).value.nodes[0], v);
      case ComponentStage(c) =>
        RenamedIsReadable(LowerComponentNodes(env, fuel, c, s, slots).value.trace, StrayMark);
        ComponentReadsBack(env, fuel, c, s, slots, b, v, taken);
    }
  }

  // Native tags -------------------------------------------------------------------------------

  lemma ElementReadsBack(env: Env, c: Component, children: seq<Node>, s: Scope, b: string, v: Value, taken: set<string>)
    requires OnTrack(s, b, v, taken) && NativeOk(env, c) && ReadsBack(children, v)
    requires NativeElement(env, c, children, s).Ok? && Signalless(NativeElement(env, c, children, s).value.trace)
    ensures ReadsBack(NativeElement(env, c, children, s).value.nodes, v)
    ensures OnTrack(NativeElement(env, c, children, s).value.scope, b, v, taken)
  {
    var node := NativeElement(env, c, children, s).value.nodes[0];
    var m, style := EvalProps(env, c.props, s).value.props, StyleAttrs(env, c, s).value;
    assert Signalless(EvalProps(env, c.props, s).value.trace);
    PropsAreValues(env, c.props, s);
    TargetIsFree(env, c, s);
    InstantiateOne(node, v);
    ElementShows(env, c, style, m, s);
    AttachedPropsReadBack(env, c.props, node.attrs, m, s, s, b, v, taken);
    var props := AttachProps(c.props, node.attrs, s);
    AttachedStyleReadsBack(env, c, node.attrs, s, props.scope, b, v, taken);
    MarkingStaysOnTrack(true, s, b, v, taken);
    ApplyBindingsConcat(node.attrs, props.bindings, AttachStyle(c, props.scope).bindings, v);
  }

  /** The attributes hold what the properties are written as. */
  ghost predicate Shows(attrs: map<string, string>, m: map<string, Value>) {
    forall name <- m | !IsBehavior(name) :: Get(attrs, name) == Written(name, m[name])
  }

  lemma ElementShows(env: Env, c: Component, style: map<string, string>, m: map<string, Value>, s: Scope)
    requires StyleAttrs(env, c, s) == Ok(style) && forall n <- m :: PropNameOk(n)
    ensures Shows(AttrsOf(style, m), m)
    ensures c.recipe.Some? ==> Eval(env, c.recipe.value, s).Ok?
                               && Get(AttrsOf(style, m), "data-recipe")
                                   == Some(AsString(Eval(env, c.recipe.value, s).value))
  {
    forall name <- m | !IsBehavior(name) ensures Get(AttrsOf(style, m), name) == Written(name, m[name]) {
      AttrLookup(style, m, name);
    }
    if c.recipe.Some? {
      assert "data-recipe" !in m;
      StyleShows(env, c, style, s);
      AttrLookup(style, m, "data-recipe");
    }
  }

  lemma StyleShows(env: Env, c: Component, style: map<string, string>, s: Scope)
    requires StyleAttrs(env, c, s) == Ok(style) && c.recipe.Some?
    ensures Eval(env, c.recipe.value, s).Ok?
            && Get(style, "data-recipe") == Some(AsString(Eval(env, c.recipe.value, s).value))
  {
  }

  /** The scope may have been marked since it was taken over from the children. */
  ghost predicate IsMarkedFrom(s: Scope, scope: Scope) {
    scope == s || scope == MarkIf(true, s)
  }

  lemma {:induction false} AttachedPropsReadBack(env: Env, props: seq<Prop>, attrs: map<string, string>,
      m: map<string, Value>,
                                                 s: Scope, scope: Scope, b: string, v: Value, taken: set<string>)
    requires OnTrack(s, b, v, taken) && IsMarkedFrom(s, scope)
    requires Shows(attrs, m)
    requires forall p <- props :: ChainOk(p.value) && p.name in m && Eval(env, p.value, s) == Ok(m[p.name])
    ensures ApplyBindings(attrs, AttachProps(props, attrs, scope).bindings, v) == attrs
    ensures IsMarkedFrom(s, AttachProps(props, attrs, scope).scope)
  {
    if props != [] {
      var first := AttachProp(props[0], attrs, scope);
      MarkingIsNeutral(props[0].value, s);
      assert props[0] in props;
      AttachedPropReadsBack(env, props[0], attrs, m, s, scope, b, v, taken);
      AttachedPropsReadBack(env, props[1..], attrs, m, s, first.scope, b, v, taken);
      ApplyBindingsConcat(attrs, first.bindings, AttachProps(props[1..], attrs, first.scope).bindings, v);
    }
  }

  lemma AttachedPropReadsBack(env: Env, p: Prop, attrs: map<string, string>, m: map<string, Value>,
                              s: Scope, scope: Scope, b: string, v: Value, taken: set<string>)
    requires OnTrack(s, b, v, taken) && IsMarkedFrom(s, scope)
    requires Shows(attrs, m)
    requires ChainOk(p.value) && p.name in m && Eval(env, p.value, s) == Ok(m[p.name])
    ensures ApplyBindings(attrs, AttachProp(p, attrs, scope).bindings, v) == attrs
  {
    MarkingIsNeutral(p.value, s);
    var bindings := AttachProp(p, attrs, scope).bindings;
    if bindings != [] {
      PathIsExact(env, p.value, s, b, v);
      assert bindings[1..] == [];
      assert ApplyBindings(attrs, bindings, v) == ApplyBinding(attrs, bindings[0], v);
      OneBindingReadsBack(attrs, bindings[0], v, m[p.name]);
    }
  }

  lemma OneBindingReadsBack(attrs: map<string, string>, x: RenderBinding, v: Value, value: Value)
    requires ReadPath(v, x.path) == value
    requires Get(attrs, x.target) ==
               if x.mode == SetBoolean && (value == Bool(false) || value == Null) then None else Some(AsString(value))
    ensures ApplyBinding(attrs, x, v) == attrs
  {
  }

  lemma AttachedStyleReadsBack(env: Env, c: Component, attrs: map<string, string>, s: Scope, scope: Scope,
                               b: string, v: Value, taken: set<string>)
    requires OnTrack(s, b, v, taken) && IsMarkedFrom(s, scope)
    requires c.recipe.Some? ==> ChainOk(c.recipe.value) && Eval(env, c.recipe.value, s).Ok?
                                && Get(attrs, "data-recipe") == Some(AsString(Eval(env, c.recipe.value, s).value))
    ensures ApplyBindings(attrs, AttachStyle(c, scope).bindings, v) == attrs
    ensures IsMarkedFrom(s, AttachStyle(c, scope).scope)
  {
    if c.recipe.Some? {
      var e := c.recipe.value;
      MarkingIsNeutral(e, s);
      var bindings := AttachStyle(c, scope).bindings;
      if bindings != [] {
        assert bindings == [RenderBinding("data-recipe", EachRenderPath(e, s).value, SetAttribute)];
        PathIsExact(env, e, s, b, v);
        OneBindingReadsBack(attrs, bindings[0], v, Eval(env, e, s).value);
        assert bindings[1..] == [];
        assert ApplyBindings(attrs, bindings, v) == ApplyBinding(attrs, bindings[0], v);
      }
    }
  }

  // The theorems ------------------------------------------------------------------------------

  /**
   * In the nodes of an item, marked or not, every text and every attribute with a path shows the value
   * at that path of the item, through any chain of declarations: filling them in changes nothing.
   */
  lemma OwnPathsReadBack(env: Env, fuel: nat, b: string, body: seq<Statement>, path: string, scope: Scope, slots: Slots,
      item: Value)
    requires NoStaleAlias(scope, b) && Fragment(env, fuel, body, {b, "null"}, slots)
    requires LowerItem(env, fuel, b, body, path, scope, slots, item).Ok?
    requires Readable(LowerItem(env, fuel, b, body, path, scope, slots, item).value.trace)
    ensures var r := LowerItem(env, fuel, b, body, path, scope, slots, item).value;
            Instantiate(r.nodes, item) == r.nodes && AliasesTrack(r.scope, b, item)
  {
    ItemStartsOnTrack(scope, b, item);
    OnTrackAt(ItemScope(scope, b, item), b, item, {b, "null"}, path);
    StatementsReadBack(env, fuel, body, At(ItemScope(scope, b, item), path), slots, b, item, {b, "null"});
  }

  /** While nothing is marked, the runs of two items agree on all that does not come from the item. */
  lemma RunsStayInStep(env: Env, fuel: nat, b: string, body: seq<Statement>, p: string, o: string, scope: Scope,
      slots: Slots, v: Value, w: Value)
    requires NoStaleAlias(scope, b) && Fragment(env, fuel, body, {b, "null"}, slots)
    requires Comparable(env, fuel, b, body, p, o, scope, slots, v, w)
    ensures AgreeOffItem(LowerItem(env, fuel, b, body, p, scope, slots, v).value.scope,
                         LowerItem(env, fuel, b, body, o, scope, slots, w).value.scope)
  {
    var s, t := At(ItemScope(scope, b, v), p), At(ItemScope(scope, b, w), o);
    assert LowerStatements(env, fuel, body, s, slots).Ok? && LowerStatements(env, fuel, body, t, slots).Ok?;
    var r := LowerFrom(env, fuel, body, 0, RenderPathOf(s), s, slots).value;
    var q := LowerFrom(env, fuel, body, 0, RenderPathOf(t), t, slots).value;
    ItemsAreCoupled(scope, b, v, w, p, o);
    StatementsKeep(env, fuel, body, s, slots);
    FromKeeps(env, fuel, body, 0, RenderPathOf(s), s, slots);
    CleanFinish(s, r);
    FromFollows(env, fuel, body, 0, RenderPathOf(s), RenderPathOf(t), s, t, slots, b, v, w, {b, "null"});
    CoupledAt(r.scope, q.scope, b, v, w, TakenAfterAll(body, {b, "null"}), RenderPathOf(s), RenderPathOf(t));
    CoupledAgrees(At(r.scope, RenderPathOf(s)), At(q.scope, RenderPathOf(t)), b, v, w,
        TakenAfterAll(body, {b, "null"}));
  }
}
