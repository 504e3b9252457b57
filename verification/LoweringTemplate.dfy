/** The template of a keyed loop, filled in for any item, is what the server lowers for that item. */
module LoweringTemplate {
  import opened Text
  import opened LoweringModel
  import opened Evaluation
  import opened Lowering
  import opened LoweringMarks
  import opened LoweringFragment
  import opened LoweringCoupling
  import opened LoweringEntry
  import opened LoweringElements

  lemma CleanFinish(entry: Scope, r: Lowered)
    requires Supported(entry) && EachBinding in r.scope && TemplateIsSafe(Finish(entry, r).nodes)
    ensures Supported(r.scope) && Finish(entry, r).nodes == r.nodes
  {
    SafeOne(MARKER);
    SafeConcat(r.nodes, [MARKER]);
  }

  lemma {:induction false} StatementsFollow(env: Env, fuel: nat, statements: seq<Statement>, s: Scope, t: Scope,
      slots: Slots, b: string, v: Value, w: Value, taken: set<string>)
    requires Coupled(s, t, b, v, w, taken) && Fragment(env, fuel, statements, taken, slots) && Supported(s)
    requires LowerStatements(env, fuel, statements, s, slots).Ok?
             && LowerStatements(env, fuel, statements, t, slots).Ok?
    requires CleanNodes(LowerStatements(env, fuel, statements, s, slots).value,
             LowerStatements(env, fuel, statements, t, slots).value)
    ensures Instantiate(LowerStatements(env, fuel, statements, s, slots).value.nodes, w)
            == LowerStatements(env, fuel, statements, t, slots).value.nodes
    decreases fuel, slots, statements, 3
  {
    var p, o := RenderPathOf(s), RenderPathOf(t);
    var r := LowerFrom(env, fuel, statements, 0, p, s, slots).value;
    var q := LowerFrom(env, fuel, statements, 0, o, t, slots).value;
    FromKeeps(env, fuel, statements, 0, p, s, slots);
    CleanFinish(s, r);
    FromFollows(env, fuel, statements, 0, p, o, s, t, slots, b, v, w, taken);
    FlagsAgree(r.scope, q.scope, b, v, w, TakenAfterAll(statements, taken));
  }

  lemma FlagsAgree(s: Scope, t: Scope, b: string, v: Value, w: Value, taken: set<string>)
    requires Coupled(s, t, b, v, w, taken)
    ensures Supported(s) == Supported(t)
  {
    if EachUnsupported in s {
      assert !MayDiffer(EachUnsupported, s);
    }
  }

  lemma {:induction false} FromFollows(env: Env, fuel: nat, statements: seq<Statement>, index: nat, p: string,
      o: string, s: Scope, t: Scope, slots: Slots, b: string, v: Value, w: Value, taken: set<string>)
    requires Coupled(s, t, b, v, w, taken) && Fragment(env, fuel, statements, taken, slots)
    requires LowerFrom(env, fuel, statements, index, p, s, slots).Ok?
             && LowerFrom(env, fuel, statements, index, o, t, slots).Ok?
    requires Clean(LowerFrom(env, fuel, statements, index, p, s, slots).value,
             LowerFrom(env, fuel, statements, index, o, t, slots).value)
    ensures Follows(LowerFrom(env, fuel, statements, index, p, s, slots).value,
            LowerFrom(env, fuel, statements, index, o, t, slots).value,
                    b, v, w, TakenAfterAll(statements, taken))
    decreases fuel, slots, statements, 2
  {
    if statements != [] {
      var pk, ok := p + "." + NatText(index), o + "." + NatText(index);
      var r1 := LowerStatement(env, fuel, statements[0], pk, At(s, pk), slots).value;
      var q1 := LowerStatement(env, fuel, statements[0], ok, At(t, ok), slots).value;
      var r2 := LowerFrom(env, fuel, statements[1..], index + 1, p, r1.scope, slots).value;
      var q2 := LowerFrom(env, fuel, statements[1..], index + 1, o, q1.scope, slots).value;
      var more := TakenAfter(statements[0], taken);
      CoupledAt(s, t, b, v, w, taken, pk, ok);
      StatementKeeps(env, fuel, statements[0], pk, At(s, pk), slots);
      FromKeeps(env, fuel, statements[1..], index + 1, p, r1.scope, slots);
      SafeConcat(r1.nodes, r2.nodes);
      StatementFollows(env, fuel, statements[0], pk, ok, At(s, pk), At(t, ok), slots, b, v, w, taken);
      FromFollows(env, fuel, statements[1..], index + 1, p, o, r1.scope, q1.scope, slots, b, v, w, more);
      InstantiateConcat(r1.nodes, r2.nodes, w);
    }
  }

  lemma {:induction false} StatementFollows(env: Env, fuel: nat, st: Statement, p: string, o: string, s: Scope,
      t: Scope, slots: Slots, b: string, v: Value, w: Value, taken: set<string>)
    requires Coupled(s, t, b, v, w, taken) && FragmentStatement(env, fuel, st, taken, slots)
    requires LowerStatement(env, fuel, st, p, s, slots).Ok? && LowerStatement(env, fuel, st, o, t, slots).Ok?
    requires Clean(LowerStatement(env, fuel, st, p, s, slots).value, LowerStatement(env, fuel, st, o, t, slots).value)
    ensures Follows(LowerStatement(env, fuel, st, p, s, slots).value, LowerStatement(env, fuel, st, o, t, slots).value,
                    b, v, w, TakenAfter(st, taken))
    decreases fuel, slots, st, 1
  {
    match st {
      case Data(name, value) => DataFollows(env, name, value, s, t, b, v, w, taken);
      case TextOf(text) => TextFollows(env, text, s, t, b, v, w, taken);
      case If(_, _, _) => IfFollows(env, fuel, st, p, o, s, t, slots, b, v, w, taken);
      case Match(_, _, _) => MatchFollows(env, fuel, st, p, o, s, t, slots, b, v, w, taken);
      case Each(_, _, _, _, _) => EachFollows(env, fuel, st, p, o, s, t, slots, b, v, w, taken);
      case Use(c) =>
        var r, q := LowerComponentNodes(env, fuel, c, s, slots).value,
            LowerComponentNodes(env, fuel, c, t, slots).value;
        RenamedSignals(r.trace, Marked);
        RenamedSignals(q.trace, Marked);
        ComponentFollows(env, fuel, c, s, t, slots, b, v, w, taken);
      case Pipeline(_, _) => PipelineFollows(env, fuel, st, s, t, slots, b, v, w, taken);
    }
  }

  lemma RenamedSignals(trace: seq<Event>, mark: Event)
    ensures Signalless(Renamed(trace, mark)) ==> Signalless(trace)
    ensures Regular(Renamed(trace, mark)) ==> Regular(trace)
    ensures Regular(Renamed(trace, StrayMark)) ==> OwnMark !in trace
  {
    forall e <- trace | e != OwnMark ensures e in Renamed(trace, mark) {
      RenamedHolds(trace, mark, e);
    }
    RenamedHolds(trace, StrayMark, StrayMark);
  }

  lemma {:induction false} IfFollows(env: Env, fuel: nat, st: Statement, p: string, o: string, s: Scope, t: Scope,
      slots: Slots, b: string, v: Value, w: Value, taken: set<string>)
    requires st.If? && Coupled(s, t, b, v, w, taken) && FragmentStatement(env, fuel, st, taken, slots)
    requires LowerIf(env, fuel, st, p, s, slots).Ok? && LowerIf(env, fuel, st, o, t, slots).Ok?
    requires Clean(LowerIf(env, fuel, st, p, s, slots).value, LowerIf(env, fuel, st, o, t, slots).value)
    ensures Follows(LowerIf(env, fuel, st, p, s, slots).value, LowerIf(env, fuel, st, o, t, slots).value, b, v, w,
            taken)
    decreases fuel, slots, st, 0
  {
    Unmarked(env, st.condition, s, t, b, v, w, taken);
    var value := Eval(env, st.condition, s).value;
    var suffix := if Truthy(value) then ".if1" else ".if0";
    CoupledAt(s, t, b, v, w, taken, p + suffix, o + suffix);
    NonemptyFollows(env, fuel, if Truthy(value) then st.body
        else st.elseBody, At(s, p + suffix), At(t, o + suffix), slots, b, v, w, taken);
  }

  /** A deciding expression of an unmarked run is the same expression with the same value in the other. */
  lemma Unmarked(env: Env, e: Expr, s: Scope, t: Scope, b: string, v: Value, w: Value, taken: set<string>)
    requires Coupled(s, t, b, v, w, taken) && Supported(MarkIf(ReferencesItem(e, s), s))
    ensures !ReferencesItem(e, s) && !ReferencesItem(e, t) && Eval(env, e, s) == Eval(env, e, t)
    ensures MarkIf(ReferencesItem(e, s), s) == s && MarkIf(ReferencesItem(e, t), t) == t
  {
    CoupledPaths(e, s, t, b, v, w, taken);
    CoupledConstant(env, e, s, t, b, v, w, taken);
  }

  lemma {:induction false} MatchFollows(env: Env, fuel: nat, st: Statement, p: string, o: string, s: Scope, t: Scope,
      slots: Slots, b: string, v: Value, w: Value, taken: set<string>)
    requires st.Match? && Coupled(s, t, b, v, w, taken) && FragmentStatement(env, fuel, st, taken, slots)
    requires LowerMatch(env, fuel, st, p, s, slots).Ok? && LowerMatch(env, fuel, st, o, t, slots).Ok?
    requires Clean(LowerMatch(env, fuel, st, p, s, slots).value, LowerMatch(env, fuel, st, o, t, slots).value)
    ensures Follows(LowerMatch(env, fuel, st, p, s, slots).value, LowerMatch(env, fuel, st, o, t, slots).value, b, v,
            w, taken)
    decreases fuel, slots, st, 0
  {
    Unmarked(env, st.value, s, t, b, v, w, taken);
    var found := FindCase(st.cases, AsString(Eval(env, st.value, s).value));
    if found.Some? { assert st.cases[found.value] in st.cases; }
    var body := if found.Some? then st.cases[found.value].body else st.defaultBody;
    CoupledAt(s, t, b, v, w, taken, p + ".match", o + ".match");
    NonemptyFollows(env, fuel, body, At(s, p + ".match"), At(t, o + ".match"), slots, b, v, w, taken);
  }

  lemma {:induction false} EachFollows(env: Env, fuel: nat, st: Statement, p: string, o: string, s: Scope, t: Scope,
      slots: Slots, b: string, v: Value, w: Value, taken: set<string>)
    requires st.Each? && Coupled(s, t, b, v, w, taken) && FragmentStatement(env, fuel, st, taken, slots)
    requires LowerEach(env, fuel, st, p, s, slots).Ok? && LowerEach(env, fuel, st, o, t, slots).Ok?
    requires Clean(LowerEach(env, fuel, st, p, s, slots).value, LowerEach(env, fuel, st, o, t, slots).value)
    ensures Follows(LowerEach(env, fuel, st, p, s, slots).value, LowerEach(env, fuel, st, o, t, slots).value, b, v, w,
            taken)
    decreases fuel, slots, st, 0
  {
    Unmarked(env, st.source, s, t, b, v, w, taken);
    var items := Eval(env, st.source, s).value.items;
    if items == [] {
      var r, q := LowerStatements(env, fuel, st.emptyBody, s, slots).value,
          LowerStatements(env, fuel, st.emptyBody, t, slots).value;
      EmptyIsSafe(st, r.nodes);
      StatementsFollow(env, fuel, st.emptyBody, s, t, slots, b, v, w, taken);
      EmptyFollows(st, r.nodes, w);
    } else if st.key.Some? {
      KeyedIsRefused(env, fuel, st.binding, st.key.value, st.body, p, s, slots, items);
    } else {
      ItemsFollow(env, fuel, st.binding, st.body, p, o, s, t, slots, items, 0, b, v, w, taken);
    }
  }

  lemma EmptyIsSafe(st: Statement, nodes: seq<Node>)
    requires st.Each? && TemplateIsSafe(EmptyEachNodes(st, nodes))
    ensures TemplateIsSafe(nodes)
  {
    if st.key.Some? && nodes != [] {
      SafeOne(EmptyEachNodes(st, nodes)[0]);
      SafeOne(Element("ax-each-empty", CONTENTS, [], nodes));
    }
  }

  lemma EmptyFollows(st: Statement, nodes: seq<Node>, item: Value)
    requires st.Each?
    ensures Instantiate(EmptyEachNodes(st, nodes), item) == EmptyEachNodes(st, Instantiate(nodes, item))
  {
    if st.key.Some? {
      var shown := Element("ax-each-empty", CONTENTS, [], nodes);
      InstantiateOne(shown, item);
      InstantiateOne(EmptyEachNodes(st, nodes)[0], item);
    }
  }

  /** A keyed loop with items holds a template, or nodes that cannot be one: it is never part of a template. */
  lemma KeyedIsRefused(env: Env, fuel: nat, binding: string, key: Expr, body: seq<Statement>, here: string,
      scope: Scope, slots: Slots, items: seq<Value>)
    requires items != [] && Supported(scope)
    requires LowerKeyed(env, fuel, binding, key, body, here, scope, slots, items, {}, None).Ok?
    ensures var r := LowerKeyed(env, fuel, binding, key, body, here, scope, slots, items, {}, None).value;
            !TemplateIsSafe([KeyedNode(binding, key, r.kind, r.children + TemplateNodes(r.template))])
  {
    var r := LowerKeyed(env, fuel, binding, key, body, here, scope, slots, items, {}, None).value;
    var identity := AcceptKey(env, key, ItemScope(scope, binding, items[0]), {}, None).value;
    var path := ItemPath(env, here, identity.0 + ":" + identity.1);
    var first := LowerItem(env, fuel, binding, body, path, scope, slots, items[0]).value;
    SafeOne(KeyedNode(binding, key, r.kind, r.children + TemplateNodes(r.template)));
    SafeConcat(r.children, TemplateNodes(r.template));
    if CanBeTemplate(first) {
      SafeOne(TemplateNodes(r.template)[0]);
    } else {
      StatementsKeep(env, fuel, body, At(ItemScope(scope, binding, items[0]), path), slots);
      if MarkerIn(first.nodes) {
        MarkerIsUnsafe(first.nodes);
      }
      assert r.children[0] == EachItemNode(identity, first.nodes);
    }
  }

  lemma DataFollows(env: Env, name: string, value: Expr, s: Scope, t: Scope, b: string, v: Value, w: Value,
      taken: set<string>)
    requires Coupled(s, t, b, v, w, taken) && name !in taken && ChainOk(value)
    requires LowerData(env, name, value, s).Ok? && LowerData(env, name, value, t).Ok?
    requires Clean(LowerData(env, name, value, s).value, LowerData(env, name, value, t).value)
    ensures Follows(LowerData(env, name, value, s).value, LowerData(env, name, value, t).value, b, v, w,
            TakenAfter(Data(name, value), taken))
  {
    var x, y := Eval(env, value, s).value, Eval(env, value, t).value;
    var s', t' := s[User(name) := x], t[User(name) := y];
    CoupledPaths(value, s, t, b, v, w, taken);
    assert EachRenderPath(value, s') == EachRenderPath(value, s)
        && EachRenderPath(value, t') == EachRenderPath(value, t);
    match EachRenderPath(value, s) {
      case Some(path) =>
        PathIsExact(env, value, s, b, v);
        PathIsExact(env, value, t, b, w);
        PathHasRoot(value, s, t, b, v, w, taken);
        CoupledAlias(s, t, b, v, w, taken, name, path);
      case None =>
        SameEntries(value, s, s');
        CoupledConstant(env, value, s, t, b, v, w, taken);
        CoupledBind(s, t, b, v, w, taken, name, x);
        SameEntries(value, t, t');
        CoupledWider(s', t', b, v, w, taken, TakenAfter(Data(name, value), taken));
    }
  }

  lemma CoupledWider(s: Scope, t: Scope, b: string, v: Value, w: Value, taken: set<string>, more: set<string>)
    requires Coupled(s, t, b, v, w, taken) && taken <= more
    ensures Coupled(s, t, b, v, w, more)
  {
  }

  lemma TextFollows(env: Env, e: Expr, s: Scope, t: Scope, b: string, v: Value, w: Value, taken: set<string>)
    requires Coupled(s, t, b, v, w, taken) && ChainOk(e)
    requires LowerText(env, e, s).Ok? && LowerText(env, e, t).Ok?
    requires Clean(LowerText(env, e, s).value, LowerText(env, e, t).value)
    ensures Follows(LowerText(env, e, s).value, LowerText(env, e, t).value, b, v, w, taken)
  {
    CoupledPaths(e, s, t, b, v, w, taken);
    match EachRenderPath(e, s) {
      case Some(path) =>
        PathIsExact(env, e, s, b, v);
        PathIsExact(env, e, t, b, w);
        InstantiateOne(TargetNode(path, AsString(Eval(env, e, s).value)), w);
      case None =>
        CoupledConstant(env, e, s, t, b, v, w, taken);
        InstantiateOne(TextNode(AsString(Eval(env, e, s).value)), w);
    }
  }

  lemma {:induction false} NonemptyFollows(env: Env, fuel: nat, body: seq<Statement>, s: Scope, t: Scope, slots: Slots,
      b: string, v: Value, w: Value, taken: set<string>)
    requires Coupled(s, t, b, v, w, taken) && Fragment(env, fuel, body, taken, slots) && Supported(s)
    requires LowerNonempty(env, fuel, body, s, slots).Ok? && LowerNonempty(env, fuel, body, t, slots).Ok?
    requires CleanNodes(LowerNonempty(env, fuel, body, s, slots).value, LowerNonempty(env, fuel, body, t, slots).value)
    ensures Instantiate(LowerNonempty(env, fuel, body, s, slots).value.nodes, w)
            == LowerNonempty(env, fuel, body, t, slots).value.nodes
    decreases fuel, slots, body, 4
  {
    if body != [] {
      StatementsFollow(env, fuel, body, s, t, slots, b, v, w, taken);
    }
  }

  lemma {:induction false} ItemsFollow(env: Env, fuel: nat, binding: string, body: seq<Statement>, p: string, o: string,
      s: Scope, t: Scope, slots: Slots, items: seq<Value>, index: nat, b: string, v: Value, w: Value,
      taken: set<string>)
    requires Coupled(s, t, b, v, w, taken) && Fragment(env, fuel, body, taken, slots) && binding !in taken
             && Supported(s)
    requires LowerItems(env, fuel, binding, body, p, s, slots, items, index).Ok?
             && LowerItems(env, fuel, binding, body, o, t, slots, items, index).Ok?
    requires CleanNodes(LowerItems(env, fuel, binding, body, p, s, slots, items, index).value,
             LowerItems(env, fuel, binding, body, o, t, slots, items, index).value)
    ensures Instantiate(LowerItems(env, fuel, binding, body, p, s, slots, items, index).value.nodes, w)
            == LowerItems(env, fuel, binding, body, o, t, slots, items, index).value.nodes
    decreases fuel, slots, body, 4, |items|
  {
    if items != [] {
      ItemFollows(env, fuel, binding, body, p, o, s, t, slots, items, index, b, v, w, taken);
      var r1 := LowerStatements(env, fuel, body, At(s[User(binding) := items[0]], p + ".each" + NatText(index)),
          slots).value;
      var q1 := LowerStatements(env, fuel, body, At(t[User(binding) := items[0]], o + ".each" + NatText(index)),
          slots).value;
      var r2 := LowerItems(env, fuel, binding, body, p, s, slots, items[1..], index + 1).value;
      var q2 := LowerItems(env, fuel, binding, body, o, t, slots, items[1..], index + 1).value;
      CleanParts(r1, r2, q1, q2, s, t);
      ItemsFollow(env, fuel, binding, body, p, o, s, t, slots, items[1..], index + 1, b, v, w, taken);
      InstantiateConcat(r1.nodes, r2.nodes, w);
    }
  }

  lemma CleanParts(r1: Lowered, r2: Lowered, q1: Lowered, q2: Lowered, s: Scope, t: Scope)
    ensures CleanNodes(Lowered(r1.nodes + r2.nodes, s, r1.trace + r2.trace),
            Lowered(q1.nodes + q2.nodes, t, q1.trace + q2.trace)) ==>
              CleanNodes(r1, q1) && CleanNodes(r2, q2)
  {
    SafeConcat(r1.nodes, r2.nodes);
  }

  lemma {:induction false} ItemFollows(env: Env, fuel: nat, binding: string, body: seq<Statement>, p: string, o: string,
      s: Scope, t: Scope, slots: Slots, items: seq<Value>, index: nat, b: string, v: Value, w: Value,
      taken: set<string>)
    requires Coupled(s, t, b, v, w, taken) && Fragment(env, fuel, body, taken, slots) && binding !in taken
             && Supported(s)
             && items != []
    requires LowerItems(env, fuel, binding, body, p, s, slots, items, index).Ok?
             && LowerItems(env, fuel, binding, body, o, t, slots, items, index).Ok?
    requires CleanNodes(LowerItems(env, fuel, binding, body, p, s, slots, items, index).value,
             LowerItems(env, fuel, binding, body, o, t, slots, items, index).value)
    ensures Instantiate(LowerStatements(env, fuel, body,
            At(s[User(binding) := items[0]], p + ".each" + NatText(index)), slots).value.nodes, w)
            == LowerStatements(env, fuel, body, At(t[User(binding) := items[0]], o + ".each" + NatText(index)),
                slots).value.nodes
    decreases fuel, slots, body, 4, 0
  {
    var s', t' := s[User(binding) := items[0]], t[User(binding) := items[0]];
    var sp, to := p + ".each" + NatText(index), o + ".each" + NatText(index);
    CoupledBind(s, t, b, v, w, taken, binding, items[0]);
    CoupledAt(s', t', b, v, w, taken, sp, to);
    CleanParts(
      LowerStatements(env, fuel, body, At(s', sp), slots).value,
          LowerItems(env, fuel, binding, body, p, s, slots, items[1..], index + 1).value,
      LowerStatements(env, fuel, body, At(t', to), slots).value,
          LowerItems(env, fuel, binding, body, o, t, slots, items[1..], index + 1).value,
      s, t);
    StatementsFollow(env, fuel, body, At(s', sp), At(t', to), slots, b, v, w, taken);
  }

  // Components --------------------------------------------------------------------------------

  lemma {:induction false} ChildrenFollow(env: Env, fuel: nat, c: Component, s: Scope, t: Scope, slots: Slots,
      b: string, v: Value, w: Value, taken: set<string>)
    requires Coupled(s, t, b, v, w, taken) && FragmentBody(env, fuel, c.body, taken, slots)
    requires LowerChildren(env, fuel, c, s, slots).Ok? && LowerChildren(env, fuel, c, t, slots).Ok?
    requires Clean(LowerChildren(env, fuel, c, s, slots).value, LowerChildren(env, fuel, c, t, slots).value)
    ensures Follows(LowerChildren(env, fuel, c, s, slots).value, LowerChildren(env, fuel, c, t, slots).value, b, v, w,
            taken)
    decreases fuel, slots, c, 0
  {
    match c.body {
      case Empty =>
      case Inline(text) => TextFollows(env, text, s, t, b, v, w, taken);
      case Block(inner) => StatementsFollow(env, fuel, inner, s, t, slots, b, v, w, taken);
    }
  }

  lemma {:induction false} ComponentFollows(env: Env, fuel: nat, c: Component, s: Scope, t: Scope, slots: Slots,
      b: string, v: Value, w: Value, taken: set<string>)
    requires Coupled(s, t, b, v, w, taken) && FragmentComponent(env, fuel, c, taken, slots)
    requires LowerComponentNodes(env, fuel, c, s, slots).Ok? && LowerComponentNodes(env, fuel, c, t, slots).Ok?
    requires Clean(LowerComponentNodes(env, fuel, c, s, slots).value, LowerComponentNodes(env, fuel, c, t, slots).value)
    ensures Follows(LowerComponentNodes(env, fuel, c, s, slots).value,
            LowerComponentNodes(env, fuel, c, t, slots).value, b, v, w, taken)
    decreases fuel, slots, c, 2
  {
    if c.name == "Slot" {
      if slots.SlotOf? {
        SlotFollows(env, fuel, c, s, t, slots, b, v, w, taken);
      }
    } else if c.name == "Fragment" {
      ChildrenFollow(env, fuel, c, s, t, slots, b, v, w, taken);
    } else {
      match FindComponent(env.components, c.name) {
        case Some(def) => LocalFollows(env, fuel, c, def, s, t, slots, b, v, w, taken);
        case None => NativeFollows(env, fuel, c, s, t, slots, b, v, w, taken);
      }
    }
  }

  lemma {:induction false} NativeFollows(env: Env, fuel: nat, c: Component, s: Scope, t: Scope, slots: Slots, b: string,
      v: Value, w: Value, taken: set<string>)
    requires Coupled(s, t, b, v, w, taken) && NativeOk(env, c) && FragmentBody(env, fuel, c.body, taken, slots)
    requires LowerNative(env, fuel, c, s, slots).Ok? && LowerNative(env, fuel, c, t, slots).Ok?
    requires Clean(LowerNative(env, fuel, c, s, slots).value, LowerNative(env, fuel, c, t, slots).value)
    ensures Follows(LowerNative(env, fuel, c, s, slots).value, LowerNative(env, fuel, c, t, slots).value, b, v, w,
            taken)
    decreases fuel, slots, c, 1
  {
    var r1, q1 := LowerChildren(env, fuel, c, s, slots).value, LowerChildren(env, fuel, c, t, slots).value;
    ChildrenKeep(env, fuel, c, s, slots);
    ChildrenAreClean(env, c, r1, q1);
    ChildrenFollow(env, fuel, c, s, t, slots, b, v, w, taken);
    ElementFollows(env, c, r1.nodes, q1.nodes, r1.scope, q1.scope, b, v, w, taken);
  }

  /** A slot selects the same statements for both items. */
  lemma {:induction false} SlotFollows(env: Env, fuel: nat, c: Component, s: Scope, t: Scope, slots: Slots, b: string,
      v: Value, w: Value, taken: set<string>)
    requires c.name == "Slot" && slots.SlotOf?
    requires Coupled(s, t, b, v, w, taken) && FragmentComponent(env, fuel, c, taken, slots)
    requires LowerComponentNodes(env, fuel, c, s, slots).Ok? && LowerComponentNodes(env, fuel, c, t, slots).Ok?
    requires Clean(LowerComponentNodes(env, fuel, c, s, slots).value, LowerComponentNodes(env, fuel, c, t, slots).value)
    ensures Follows(LowerComponentNodes(env, fuel, c, s, slots).value,
            LowerComponentNodes(env, fuel, c, t, slots).value, b, v, w, taken)
    decreases fuel, slots, c, 1
  {
    var requested := SlotName(env, c.props, {"name", "slot"}, s).value;
    var selected := SelectSlot(env, slots.body, requested, s).value;
    SlotNameAgrees(env, c.props, {"name", "slot"}, s, t, b, v, w, taken);
    SelectionAgrees(env, slots.body, requested, s, t, b, v, w, taken);
    SelectionIsFragment(env, fuel, slots.body, requested, s, taken, slots.parent);
    StatementsFollow(env, fuel, selected, s, t, slots.parent, b, v, w, taken);
  }

  lemma {:induction false} LocalFollows(env: Env, fuel: nat, c: Component, def: ComponentDef, s: Scope, t: Scope,
      slots: Slots, b: string, v: Value, w: Value, taken: set<string>)
    requires fuel > 0 && Coupled(s, t, b, v, w, taken) && IsLocalOf(env, c, def)
             && FragmentComponent(env, fuel, c, taken, slots)
    requires LowerLocal(env, fuel, c, def, s, slots).Ok? && LowerLocal(env, fuel, c, def, t, slots).Ok?
    requires Clean(LowerLocal(env, fuel, c, def, s, slots).value, LowerLocal(env, fuel, c, def, t, slots).value)
    ensures Follows(LowerLocal(env, fuel, c, def, s, slots).value, LowerLocal(env, fuel, c, def, t, slots).value, b, v,
            w, taken)
    decreases fuel, slots, c, 1
  {
    var d, e, r, q := LocalParts(env, fuel, c, def, s, t, slots, b, v, w, taken);
    PartsFollow(env, fuel, c, def, d, e, slots, b, v, w, taken, r, q);
  }

  /** The two runs of a component, taken apart into entering it and lowering its body. */
  ghost predicate Parts(env: Env, fuel: nat, body: seq<Statement>, d: LocalEntry, e: LocalEntry, handed: Slots,
      b: string, v: Value, w: Value, taken: set<string>, r: Lowered, q: Lowered) {
    && Coupled(d.scope, e.scope, b, v, w, taken) && Supported(d.scope)
    && d.attrs == e.attrs && TargetFree(d.attrs) && !Overrides(r.nodes, d.attrs)
    && LowerStatements(env, fuel, body, d.scope, handed) == Ok(r)
    && LowerStatements(env, fuel, body, e.scope, handed) == Ok(q)
    && CleanNodes(r, q)
  }

  lemma LocalParts(env: Env, fuel: nat, c: Component, def: ComponentDef, s: Scope, t: Scope, slots: Slots, b: string,
      v: Value, w: Value, taken: set<string>)
    returns (d: LocalEntry, e: LocalEntry, r: Lowered, q: Lowered)
    requires fuel > 0 && Coupled(s, t, b, v, w, taken) && IsLocalOf(env, c, def)
             && FragmentComponent(env, fuel, c, taken, slots)
    requires LowerLocal(env, fuel, c, def, s, slots).Ok? && LowerLocal(env, fuel, c, def, t, slots).Ok?
    requires Clean(LowerLocal(env, fuel, c, def, s, slots).value, LowerLocal(env, fuel, c, def, t, slots).value)
    ensures Parts(env, fuel - 1, def.body, d, e, SlotOf(ChildStatements(c.body), slots), b, v, w, LocalTaken(c, taken),
            r, q)
    ensures LowerLocal(env, fuel, c, def, s, slots) == Ok(LocalOf(d, r, s))
    ensures LowerLocal(env, fuel, c, def, t, slots) == Ok(LocalOf(e, q, t))
  {
    LocalIsOf(env, fuel, c, def, s, slots);
    LocalIsOf(env, fuel, c, def, t, slots);
    d, e := EnterLocal(env, c, def, s).value, EnterLocal(env, c, def, t).value;
    var handed := SlotOf(ChildStatements(c.body), slots);
    r := LowerStatements(env, fuel - 1, def.body, d.scope, handed).value;
    q := LowerStatements(env, fuel - 1, def.body, e.scope, handed).value;
    LocalIsClean(s, t, d, e, r, q);
    EntryFollows(env, c, def, s, t, b, v, w, taken, d, e);
  }

  lemma EntryFollows(env: Env, c: Component, def: ComponentDef, s: Scope, t: Scope, b: string, v: Value, w: Value,
      taken: set<string>, d: LocalEntry, e: LocalEntry)
    requires Coupled(s, t, b, v, w, taken) && LocalOk(c, def, taken) && Supported(s)
    requires EnterLocal(env, c, def, s) == Ok(d) && EnterLocal(env, c, def, t) == Ok(e)
    requires Signalless(d.trace) && Signalless(e.trace)
    ensures Coupled(d.scope, e.scope, b, v, w, LocalTaken(c, taken)) && Supported(d.scope)
    ensures d.attrs == e.attrs && TargetFree(d.attrs)
  {
    EntryKeepsFlag(env, c, def, s);
    EntryCoupled(env, c, def, s, t, b, v, w, taken);
  }

  lemma {:induction false} PartsFollow(env: Env, fuel: nat, c: Component, def: ComponentDef, d: LocalEntry,
      e: LocalEntry, slots: Slots, b: string, v: Value, w: Value, taken: set<string>, r: Lowered, q: Lowered)
    requires fuel > 0 && IsLocalOf(env, c, def) && FragmentComponent(env, fuel, c, taken, slots)
    requires Parts(env, fuel - 1, def.body, d, e, SlotOf(ChildStatements(c.body), slots), b, v, w, LocalTaken(c, taken),
             r, q)
    ensures Instantiate(AttrsToFirst(r.nodes, d.attrs), w) == AttrsToFirst(q.nodes, e.attrs)
    decreases fuel, slots, c, 0
  {
    LocalIsFragment(env, fuel, c, def, taken, slots);
    BodyFollows(env, fuel - 1, def.body, d, e, SlotOf(ChildStatements(c.body), slots), b, v, w, LocalTaken(c, taken), r,
        q);
  }

  lemma {:induction false} BodyFollows(env: Env, fuel: nat, body: seq<Statement>, d: LocalEntry, e: LocalEntry,
      handed: Slots, b: string, v: Value, w: Value, taken: set<string>, r: Lowered, q: Lowered)
    requires Parts(env, fuel, body, d, e, handed, b, v, w, taken, r, q)
    requires Fragment(env, fuel, body, taken, handed)
    ensures Instantiate(AttrsToFirst(r.nodes, d.attrs), w) == AttrsToFirst(q.nodes, e.attrs)
    decreases fuel, handed, body, 5
  {
    StatementsFollow(env, fuel, body, d.scope, e.scope, handed, b, v, w, taken);
    AttrsCommute(r.nodes, d.attrs, w);
  }

  lemma LocalIsClean(s: Scope, t: Scope, d: LocalEntry, e: LocalEntry, r: Lowered, q: Lowered)
    requires Clean(LocalOf(d, r, s), LocalOf(e, q, t))
    ensures Supported(s) && CleanNodes(r, q) && !Overrides(r.nodes, d.attrs)
    ensures Signalless(d.trace) && Signalless(e.trace)
  {
    SafeBefore(r.nodes, d.attrs);
    LocalTraceHolds(d, r, s);
    LocalTraceHolds(e, q, t);
  }

  lemma LocalTraceHolds(entry: LocalEntry, r: Lowered, s: Scope)
    ensures forall e <- entry.trace :: e in LocalOf(entry, r, s).trace
    ensures forall e <- r.trace :: e in LocalOf(entry, r, s).trace
    ensures Overrides(r.nodes, entry.attrs) ==> Overridden in LocalOf(entry, r, s).trace
  {
  }

  lemma SafeBefore(nodes: seq<Node>, incoming: map<string, string>)
    requires TemplateIsSafe(AttrsToFirst(nodes, incoming))
    ensures TemplateIsSafe(nodes)
  {
    var changed := AttrsToFirst(nodes, incoming);
    if nodes != [] && nodes[0].Element? {
      assert changed[1..] == nodes[1..];
      forall name <- nodes[0].attrs ensures AttrIsSafe(name) {
        assert name in changed[0].attrs;
      }
    }
  }

  // Pipelines ---------------------------------------------------------------------------------

  lemma {:induction false} PipelineFollows(env: Env, fuel: nat, st: Statement, s: Scope, t: Scope, slots: Slots,
      b: string, v: Value, w: Value, taken: set<string>)
    requires st.Pipeline? && Coupled(s, t, b, v, w, taken) && FragmentStatement(env, fuel, st, taken, slots)
    requires LowerPipeline(env, fuel, st, s, slots).Ok? && LowerPipeline(env, fuel, st, t, slots).Ok?
    requires Clean(LowerPipeline(env, fuel, st, s, slots).value, LowerPipeline(env, fuel, st, t, slots).value)
    ensures Follows(LowerPipeline(env, fuel, st, s, slots).value, LowerPipeline(env, fuel, st, t, slots).value, b, v, w,
            taken)
    decreases fuel, slots, st, 0
  {
    Unmarked(env, st.source, s, t, b, v, w, taken);
    var x := Eval(env, st.source, s).value;
    var r, q := LowerStages(env, fuel, st.stages, s, slots).value, LowerStages(env, fuel, st.stages, t, slots).value;
    PipelineFills(x, r.nodes, w);
    StagesFollow(env, fuel, st.stages, s, t, slots, b, v, w, taken);
  }

  lemma PipelineFills(source: Value, nodes: seq<Node>, item: Value)
    ensures TemplateIsSafe([PipelineElement(source, nodes)]) ==> TemplateIsSafe(nodes)
    ensures Instantiate([PipelineElement(source, nodes)], item) == [PipelineElement(source, Instantiate(nodes, item))]
  {
    var text := TextNode(AsString(source));
    SafeOne(PipelineElement(source, nodes));
    SafeConcat([text], nodes);
    InstantiateOne(PipelineElement(source, nodes), item);
    InstantiateOne(text, item);
    InstantiateConcat([text], nodes, item);
  }

  lemma {:induction false} StagesFollow(env: Env, fuel: nat, stages: seq<Stage>, s: Scope, t: Scope, slots: Slots,
      b: string, v: Value, w: Value, taken: set<string>)
    requires Coupled(s, t, b, v, w, taken) && Supported(s)
    requires forall x <- stages | x.ComponentStage? :: FragmentComponent(env, fuel, x.component, taken, slots)
    requires LowerStages(env, fuel, stages, s, slots).Ok? && LowerStages(env, fuel, stages, t, slots).Ok?
    requires CleanNodes(LowerStages(env, fuel, stages, s, slots).value, LowerStages(env, fuel, stages, t, slots).value)
    ensures Instantiate(LowerStages(env, fuel, stages, s, slots).value.nodes, w)
            == LowerStages(env, fuel, stages, t, slots).value.nodes
    decreases fuel, slots, stages, 0
  {
    if stages != [] {
      var r1, q1 := LowerStage(env, fuel, stages[0], s, slots).value, LowerStage(env, fuel, stages[0], t, slots).value;
      var r2, q2 := LowerStages(env, fuel, stages[1..], s, slots).value,
          LowerStages(env, fuel, stages[1..], t, slots).value;
      CleanParts(r1, r2, q1, q2, s, t);
      StageFollows(env, fuel, stages[0], s, t, slots, b, v, w, taken);
      StagesFollow(env, fuel, stages[1..], s, t, slots, b, v, w, taken);
      InstantiateConcat(r1.nodes, r2.nodes, w);
    }
  }

  lemma {:induction false} StageFollows(env: Env, fuel: nat, stage: Stage, s: Scope, t: Scope, slots: Slots,
      b: string, v: Value, w: Value, taken: set<string>)
    requires Coupled(s, t, b, v, w, taken) && Supported(s)
    requires stage.ComponentStage? ==> FragmentComponent(env, fuel, stage.component, taken, slots)
    requires LowerStage(env, fuel, stage, s, slots).Ok? && LowerStage(env, fuel, stage, t, slots).Ok?
    requires CleanNodes(LowerStage(env, fuel, stage, s, slots).value, LowerStage(env, fuel, stage, t, slots).value)
    ensures Instantiate(LowerStage(env, fuel, stage, s, slots).value.nodes, w)
            == LowerStage(env, fuel, stage, t, slots).value.nodes
    decreases fuel, slots, stage, 0
  {
    match stage {
      case EachStage(_) => InstantiateOne(LowerStage(env, fuel, stage, s, slots).value.nodes[0], w);
      case ComponentStage(c) =>
        var r, q := LowerComponentNodes(env, fuel, c, s, slots).value,
            LowerComponentNodes(env, fuel, c, t, slots).value;
        RenamedSignals(r.trace, StrayMark);
        RenamedSignals(q.trace, StrayMark);
        ComponentKeeps(env, fuel, c, s, slots);
        ComponentFollows(env, fuel, c, s, t, slots, b, v, w, taken);
    }
  }

  // The theorem -------------------------------------------------------------------------------

  /** The loop binds a proper name, and no alias of an enclosing loop's item is in force. */
  predicate NoStaleAlias(scope: Scope, b: string) {
    b != "null" && forall k <- scope :: k.EachParam? ==> k.name == b
  }

  /** The runs of two items start in scopes that differ in the item and the path only. */
  lemma ItemsAreCoupled(scope: Scope, b: string, v: Value, w: Value, p: string, o: string)
    requires NoStaleAlias(scope, b)
    ensures Coupled(At(ItemScope(scope, b, v), p), At(ItemScope(scope, b, w), o), b, v, w, {b, "null"})
  {
    var s, t := ItemScope(scope, b, v), ItemScope(scope, b, w);
    forall x | x != b ensures EachParam(x) !in s && EachParam(x) !in t {
      assert EachParam(x) !in scope;
    }
    forall k | k in s ensures MayDiffer(k, s) || s[k] == t[k] {
      if k == User(b) { assert ReferencesItem(Ident(b), s); }
    }
    CoupledAt(s, t, b, v, w, {b, "null"}, p, o);
  }

  /** A body lowered cleanly for one item, filled in for another, is the body lowered for the other. */
  lemma CleanItemIsTemplate(env: Env, fuel: nat, b: string, body: seq<Statement>, p: string, o: string, scope: Scope,
      slots: Slots, v: Value, w: Value)
    requires NoStaleAlias(scope, b) && Fragment(env, fuel, body, {b, "null"}, slots)
    requires Comparable(env, fuel, b, body, p, o, scope, slots, v, w)
    ensures Instantiate(LowerItem(env, fuel, b, body, p, scope, slots, v).value.nodes, w)
            == LowerItem(env, fuel, b, body, o, scope, slots, w).value.nodes
  {
    var s, t := ItemScope(scope, b, v), ItemScope(scope, b, w);
    var taken := {b, "null"};
    ItemsAreCoupled(scope, b, v, w, p, o);
    var r := LowerItem(env, fuel, b, body, p, scope, slots, v).value;
    StatementsKeep(env, fuel, body, At(s, p), slots);
    StatementsFollow(env, fuel, body, At(s, p), At(t, o), slots, b, v, w, taken);
  }

  /** The first item can become the template and its run is regular; the second lowers without a state signal. */
  ghost predicate Comparable(env: Env, fuel: nat, b: string, body: seq<Statement>, p: string, o: string, scope: Scope,
      slots: Slots, v: Value, w: Value) {
    var r, q := LowerItem(env, fuel, b, body, p, scope, slots, v), LowerItem(env, fuel, b, body, o, scope, slots, w);
    r.Ok? && q.Ok? && CanBeTemplate(r.value) && Regular(r.value.trace) && Signalless(q.value.trace)
  }

  /** A keyed loop's template is the body of one of its items. */
  lemma {:induction false} TemplateIsSomeItem(env: Env, fuel: nat, binding: string, key: Expr, body: seq<Statement>,
      here: string, scope: Scope, slots: Slots, items: seq<Value>, seen: set<string>, kind: Option<string>)
    returns (k: nat, path: string)
    requires LowerKeyed(env, fuel, binding, key, body, here, scope, slots, items, seen, kind).Ok?
    requires LowerKeyed(env, fuel, binding, key, body, here, scope, slots, items, seen, kind).value.template.Some?
    ensures k < |items|
    ensures var whole := LowerKeyed(env, fuel, binding, key, body, here, scope, slots, items, seen, kind).value;
            var r := LowerItem(env, fuel, binding, body, path, scope, slots, items[k]);
            && r.Ok? && CanBeTemplate(r.value) && whole.template == Some(r.value.nodes)
            && (forall e <- r.value.trace :: e in whole.trace)
    decreases |items|
  {
    var identity := KeyedUnfolds(env, fuel, binding, key, body, here, scope, slots, items, seen, kind);
    var id := identity.0 + ":" + identity.1;
    if CanBeTemplate(LowerItem(env, fuel, binding, body, ItemPath(env, here, id), scope, slots, items[0]).value) {
      k, path := 0, ItemPath(env, here, id);
    } else {
      var j, other := TemplateIsSomeItem(env, fuel, binding, key, body, here, scope, slots, items[1..], seen + {id},
          Some(identity.0));
      k, path := j + 1, other;
      assert items[k] == items[1..][j];
    }
  }

  /** A loop that gives a template has a first item, and takes the template from it or from those after it. */
  lemma KeyedUnfolds(env: Env, fuel: nat, binding: string, key: Expr, body: seq<Statement>, here: string, scope: Scope,
      slots: Slots, items: seq<Value>, seen: set<string>, kind: Option<string>)
    returns (identity: (string, string))
    requires LowerKeyed(env, fuel, binding, key, body, here, scope, slots, items, seen, kind).Ok?
    requires LowerKeyed(env, fuel, binding, key, body, here, scope, slots, items, seen, kind).value.template.Some?
    ensures items != []
    ensures var whole := LowerKeyed(env, fuel, binding, key, body, here, scope, slots, items, seen, kind).value;
            var id := identity.0 + ":" + identity.1;
            var first := LowerItem(env, fuel, binding, body, ItemPath(env, here, id), scope, slots, items[0]);
            var rest := LowerKeyed(env, fuel, binding, key, body, here, scope, slots, items[1..], seen + {id},
                Some(identity.0));
            && first.Ok? && rest.Ok? && whole.trace == [KeyedItem(here, id)] + first.value.trace + rest.value.trace
            && whole.template == if CanBeTemplate(first.value) then Some(first.value.nodes) else rest.value.template
  {
    identity := AcceptKey(env, key, ItemScope(scope, binding, items[0]), seen, kind).value;
  }

  lemma {:induction false} KeyedChildrenAreItems(env: Env, fuel: nat, binding: string, key: Expr, body: seq<Statement>,
      here: string, scope: Scope, slots: Slots, items: seq<Value>, seen: set<string>, kind: Option<string>)
    requires LowerKeyed(env, fuel, binding, key, body, here, scope, slots, items, seen, kind).Ok?
    ensures forall child <- LowerKeyed(env, fuel, binding, key, body, here, scope, slots, items, seen,
            kind).value.children ::
              child.Element? && child.tag == "ax-each-item"
    decreases |items|
  {
    if items != [] {
      var identity := AcceptKey(env, key, ItemScope(scope, binding, items[0]), seen, kind).value;
      KeyedChildrenAreItems(env, fuel, binding, key, body, here, scope, slots, items[1..],
          seen + {identity.0 + ":" + identity.1}, Some(identity.0));
    }
  }

  /**
   * Whenever a keyed loop emits a template, filling it in for any item whose body lowers gives the
   * nodes that the server lowers for that item.
   */
  lemma TemplateIsSound(env: Env, fuel: nat, s: Statement, here: string, scope: Scope, slots: Slots, template: Node,
      o: string, w: Value)
    requires s.Each? && s.key.Some? && NoStaleAlias(scope, s.binding)
             && Fragment(env, fuel, s.body, {s.binding, "null"}, slots)
    requires LowerEach(env, fuel, s, here, scope, slots).Ok?
    requires var r := LowerEach(env, fuel, s, here, scope, slots).value;
             Regular(r.trace) && r.nodes[0].Element? && template in r.nodes[0].children
    requires template.Element? && template.tag == "template"
    requires LowerItem(env, fuel, s.binding, s.body, o, scope, slots, w).Ok?
    requires Signalless(LowerItem(env, fuel, s.binding, s.body, o, scope, slots, w).value.trace)
    ensures Instantiate(template.children, w) == LowerItem(env, fuel, s.binding, s.body, o, scope, slots, w).value.nodes
  {
    var p, v := TemplateOfEach(env, fuel, s, here, scope, slots, template);
    CleanItemIsTemplate(env, fuel, s.binding, s.body, p, o, scope, slots, v, w);
  }

  lemma TemplateOfEach(env: Env, fuel: nat, s: Statement, here: string, scope: Scope, slots: Slots,
      template: Node) returns (p: string, v: Value)
    requires s.Each? && s.key.Some? && LowerEach(env, fuel, s, here, scope, slots).Ok?
    requires var r := LowerEach(env, fuel, s, here, scope, slots).value;
             Regular(r.trace) && r.nodes[0].Element? && template in r.nodes[0].children
    requires template.Element? && template.tag == "template"
    ensures var r := LowerItem(env, fuel, s.binding, s.body, p, scope, slots, v);
            r.Ok? && CanBeTemplate(r.value) && r.value.nodes == template.children && Regular(r.value.trace)
  {
    var marked := MarkIf(ReferencesItem(s.source, scope), scope);
    var items := Eval(env, s.source, marked).value.items;
    TemplateIsKeyed(env, fuel, s, here, scope, slots, template);
    var k, path := TemplateIsSomeItem(env, fuel, s.binding, s.key.value, s.body, here, marked, slots, items, {}, None);
    p, v := path, items[k];
    StatementsKeep(env, fuel, s.body, At(ItemScope(marked, s.binding, v), p), slots);
    assert marked == scope;
  }

  /** A template among the nodes of a keyed loop is the one that its items gave. */
  lemma TemplateIsKeyed(env: Env, fuel: nat, s: Statement, here: string, scope: Scope, slots: Slots, template: Node)
    requires s.Each? && s.key.Some? && LowerEach(env, fuel, s, here, scope, slots).Ok?
    requires var r := LowerEach(env, fuel, s, here, scope, slots).value;
             r.nodes[0].Element? && template in r.nodes[0].children
    requires template.Element? && template.tag == "template"
    ensures var marked := MarkIf(ReferencesItem(s.source, scope), scope);
            var items := Eval(env, s.source, marked).value.items;
            var r := LowerKeyed(env, fuel, s.binding, s.key.value, s.body, here, marked, slots, items, {}, None);
            && r.Ok? && r.value.template == Some(template.children)
            && forall e <- r.value.trace :: e in LowerEach(env, fuel, s, here, scope, slots).value.trace
  {
    var marked := MarkIf(ReferencesItem(s.source, scope), scope);
    var items := Eval(env, s.source, marked).value.items;
    if items != [] {
      KeyedChildrenAreItems(env, fuel, s.binding, s.key.value, s.body, here, marked, slots, items, {}, None);
    }
  }

  // Where it stops ----------------------------------------------------------------------------

  /** Every template that bodies of the fragment produce in this scope can be filled in for every item. */
  ghost predicate TemplatesAreSound(env: Env, fuel: nat, b: string, scope: Scope, slots: Slots) {
    forall body: seq<Statement>, p: string, o: string, v: Value, w: Value ::
      Fragment(env, fuel, body, {b, "null"}, slots) && Comparable(env, fuel, b, body, p, o, scope, slots, v, w) ==>
        Instantiate(LowerItem(env, fuel, b, body, p, scope, slots, v).value.nodes, w)
        == LowerItem(env, fuel, b, body, o, scope, slots, w).value.nodes
  }

  /** The exact scopes in which templates are sound. */
  lemma TemplatesAreSoundExactly(env: Env, fuel: nat, b: string, scope: Scope, slots: Slots)
    ensures TemplatesAreSound(env, fuel, b, scope, slots) <==> !Supported(scope) || NoStaleAlias(scope, b)
  {
    if !Supported(scope) {
      forall body: seq<Statement>, p: string, o: string, v: Value, w: Value
        ensures !Comparable(env, fuel, b, body, p, o, scope, slots, v, w)
      {
        if LowerItem(env, fuel, b, body, p, scope, slots, v).Ok? {
          StatementsKeep(env, fuel, body, At(ItemScope(scope, b, v), p), slots);
        }
      }
    } else if NoStaleAlias(scope, b) {
      forall body: seq<Statement>, p: string, o: string, v: Value, w: Value
        | Fragment(env, fuel, body, {b, "null"}, slots) && Comparable(env, fuel, b, body, p, o, scope, slots, v, w)
        ensures Instantiate(LowerItem(env, fuel, b, body, p, scope, slots, v).value.nodes, w)
                == LowerItem(env, fuel, b, body, o, scope, slots, w).value.nodes
      {
        CleanItemIsTemplate(env, fuel, b, body, p, o, scope, slots, v, w);
      }
    } else if b == "null" {
      MisreadText(env, fuel, b, Ident("null"), scope, slots, Str("x"), "", "", "");
    } else {
      var k :| k in scope && k.EachParam? && k.name != b;
      StaleAliasMisreads(env, fuel, b, k.name, scope, slots);
    }
  }

  /** An item that has the given value at the given path. */
  function ItemWith(parts: seq<string>, leaf: Value): Value {
    if parts == [] then leaf else Record(map[parts[0] := ItemWith(parts[1..], leaf)])
  }

  lemma {:induction false} WalkItemWith(parts: seq<string>, leaf: Value)
    ensures Walk(ItemWith(parts, leaf), parts) == leaf
  {
    if parts != [] {
      WalkItemWith(parts[1..], leaf);
    }
  }

  /** Text that shows the item's value at a path. */
  ghost predicate ShowsTarget(env: Env, e: Expr, scope: Scope, text: string, target: string) {
    Eval(env, e, scope).Ok? && AsString(Eval(env, e, scope).value) == text && EachRenderPath(e, scope) == Some(target)
  }

  lemma OneText(env: Env, fuel: nat, b: string, e: Expr, path: string, scope: Scope, slots: Slots, item: Value,
      text: string, target: string)
    requires Supported(scope)
    requires forall here :: ShowsTarget(env, e, At(At(ItemScope(scope, b, item), path), here), text, target)
    ensures var r := LowerItem(env, fuel, b, [TextOf(e)], path, scope, slots, item);
            r.Ok? && r.value.nodes == [TargetNode(target, text)] && CanBeTemplate(r.value) && Regular(r.value.trace)
  {
    var s := At(ItemScope(scope, b, item), path);
    var here := RenderPathOf(s) + "." + NatText(0);
    OneStatement(env, fuel, TextOf(e), RenderPathOf(s), s, slots);
    assert ShowsTarget(env, e, At(s, here), text, target);
    TextLowers(env, fuel, e, here, At(s, here), slots, text, target);
    TargetIsSafe(target, text);
  }

  lemma TextLowers(env: Env, fuel: nat, e: Expr, here: string, scope: Scope, slots: Slots, text: string, target: string)
    requires ShowsTarget(env, e, scope, text, target)
    ensures LowerStatement(env, fuel, TextOf(e), here, scope, slots)
            == Ok(Lowered([TargetNode(target, text)], scope, []))
  {
    assert LowerStatement(env, fuel, TextOf(e), here, scope, slots) == LowerText(env, e, scope);
  }

  /** A text whose path reads something else than the text's own value breaks the template. */
  lemma MisreadText(env: Env, fuel: nat, b: string, e: Expr, scope: Scope, slots: Slots, w: Value, x: string, y: string,
      target: string)
    requires Supported(scope) && ChainOk(e)
    requires forall here :: ShowsTarget(env, e, At(At(ItemScope(scope, b, Null), "0"), here), x, target)
    requires forall here :: ShowsTarget(env, e, At(At(ItemScope(scope, b, w), "0"), here), y, target)
    requires AsString(ReadPath(w, target)) != y
    ensures !TemplatesAreSound(env, fuel, b, scope, slots)
  {
    var body := [TextOf(e)];
    OneText(env, fuel, b, e, "0", scope, slots, Null, x, target);
    OneText(env, fuel, b, e, "0", scope, slots, w, y, target);
    InstantiateOne(TargetNode(target, x), w);
    assert body[1..] == [];
    assert Fragment(env, fuel, body, {b, "null"}, slots);
    assert Comparable(env, fuel, b, body, "0", "0", scope, slots, Null, w);
    assert InstantiateNode(TargetNode(target, x), w).children == [TextNode(AsString(ReadPath(w, target)))];
    assert TargetNode(target, y).children == [TextNode(y)];
  }

  lemma OneStatement(env: Env, fuel: nat, s: Statement, parent: string, scope: Scope, slots: Slots)
    ensures var here := parent + "." + NatText(0);
            var first := LowerStatement(env, fuel, s, here, At(scope, here), slots);
            LowerFrom(env, fuel, [s], 0, parent, scope, slots) ==
              if first.Ok? then Ok(Lowered(first.value.nodes, first.value.scope, [Visit(here)] + first.value.trace))
              else Err(first.error)
  {
    var here := parent + "." + NatText(0);
    var first := LowerStatement(env, fuel, s, here, At(scope, here), slots);
    assert [s][1..] == [];
    if first.Ok? {
      assert LowerFrom(env, fuel, [s][1..], 1, parent, first.value.scope, slots)
          == Ok(Lowered([], first.value.scope, []));
      assert first.value.nodes + [] == first.value.nodes;
      assert [Visit(here)] + first.value.trace + [] == [Visit(here)] + first.value.trace;
    }
  }

  lemma TargetIsSafe(path: string, text: string)
    ensures TemplateIsSafe([TargetNode(path, text)])
  {
    var node := TargetNode(path, text);
    assert [node][1..] == [];
    forall name <- node.attrs ensures AttrIsSafe(name) {
      assert "data-ax-on-"[8] == 'o' && "data-ax-state-"[8] == 's';
      assert name == "style" || name[8] == 'e';
    }
    assert TemplateIsSafe(node.children) by {
      assert node.children[1..] == [];
    }
  }

  /** A field of an inherited alias is tracked under the alias's path and evaluated from the variable itself. */
  lemma StaleFieldShows(env: Env, b: string, x: string, scope: Scope, item: Value, value: Value)
    requires x != b && EachParam(x) in scope
    requires value == if x != "null" && User(x) in scope then FieldOf(scope[User(x)], "f") else Null
    ensures forall here :: ShowsTarget(env, OptionalMember(Ident(x), "f"), At(At(ItemScope(scope, b, item), "0"), here),
                             AsString(value), ExtendPath(AsString(scope[EachParam(x)]), "f"))
  {
    var e := OptionalMember(Ident(x), "f");
    assert JoinDots(["f"]) == "f";
    assert ChainOf(Ident(x)) == Some((x, []));
    assert ChainOf(e) == Some((x, ["f"])) by { assert [] + ["f"] == ["f"]; }
    forall here
      ensures ShowsTarget(env, e, At(At(ItemScope(scope, b, item), "0"), here), AsString(value),
              ExtendPath(AsString(scope[EachParam(x)]), "f"))
    {
      var i := At(At(ItemScope(scope, b, item), "0"), here);
      assert Eval(env, Ident(x), i) == if x == "null" then Ok(Null) else if User(x) in scope then Ok(scope[User(x)])
          else Err(UnknownIdentifier(x));
    }
  }

  lemma StaleAliasMisreads(env: Env, fuel: nat, b: string, x: string, scope: Scope, slots: Slots)
    requires Supported(scope) && b != "null" && x != b && EachParam(x) in scope
    ensures !TemplatesAreSound(env, fuel, b, scope, slots)
  {
    var e := OptionalMember(Ident(x), "f");
    var inherited := AsString(scope[EachParam(x)]);
    var path := ExtendPath(inherited, "f");
    var value := if x != "null" && User(x) in scope then FieldOf(scope[User(x)], "f") else Null;
    var own := AsString(value);
    var w := ItemWith(SplitDots(path), Str(own + "!"));
    WalkItemWith(SplitDots(path), Str(own + "!"));
    StaleFieldShows(env, b, x, scope, Null, value);
    StaleFieldShows(env, b, x, scope, w, value);
    MisreadText(env, fuel, b, e, scope, slots, w, own, own, path);
  }
}
