/** Runs in which no text can become a state signal: those whose strings all differ from the signals' prefix early. */
module LoweringSilence {
  import opened Text
  import opened LoweringModel
  import opened Evaluation
  import opened Lowering
  import opened LoweringFragment
  import opened LoweringCoupling
  import opened LoweringMarks
  import opened LoweringTemplate

  // Values ------------------------------------------------------------------------------------

  /** Whatever is appended, the text does not start with the prefix of state markers. */
  predicate Tame(text: string) {
    text == "" || exists i | 0 <= i < |text| && i < |STATE_PREFIX| :: text[i] != STATE_PREFIX[i]
  }

  predicate TameValue(v: Value) {
    match v
    case Str(text) => Tame(text)
    case Flt(text) => Tame(text)
    case Record(fields) => forall name <- fields :: TameValue(fields[name])
    case List(items) => forall item <- items :: TameValue(item)
    case _ => true
  }

  predicate TameScope(s: Scope) {
    forall k <- s | k.User? :: TameValue(s[k])
  }

  predicate TameExpr(e: Expr) {
    match e
    case StrLit(text) => Tame(text)
    case FltLit(text) => Tame(text)
    case ListLit(items) => forall x <- items :: TameExpr(x)
    case ObjLit(fields) => forall f <- fields :: TameExpr(f.value)
    case Unary(_, operand) => TameExpr(operand)
    case Binary(_, left, right) => TameExpr(left) && TameExpr(right)
    case Index(base, index) => TameExpr(base) && TameExpr(index)
    case Member(base, _) => TameExpr(base)
    case OptionalMember(base, _) => TameExpr(base)
    case Call(_, args) => forall x <- args :: TameExpr(x)
    case _ => true
  }

  /** The resolver and the arithmetic make no markers of their own, and no component has any. */
  ghost predicate TameEnv(env: Env) {
    && (forall path, args | (forall v <- args :: TameValue(v)) && env.resolve(path, args).Some? ::
          TameValue(env.resolve(path, args).value))
    && (forall op, x, y | TameValue(x) && TameValue(y) && env.arithmetic(op, x, y).Ok? ::
          TameValue(env.arithmetic(op, x, y).value))
    && (forall x | TameValue(x) && env.negate(x).Ok? :: TameValue(env.negate(x).value))
    && (forall def <- env.components :: TameDef(def))
  }

  lemma TameConcat(a: string, b: string)
    requires Tame(a) && Tame(b)
    ensures Tame(a + b)
  {
    if a == "" {
      assert a + b == b;
    } else {
      var i :| 0 <= i < |a| && i < |STATE_PREFIX| && a[i] != STATE_PREFIX[i];
      assert (a + b)[i] == a[i];
    }
  }

  lemma TameIsNoMarker(text: string)
    ensures Tame(text) ==> !HasPrefix(text, STATE_PREFIX)
  {
    if HasPrefix(text, STATE_PREFIX) {
      forall i | 0 <= i < |STATE_PREFIX| ensures text[i] == STATE_PREFIX[i] {
        assert text[..|STATE_PREFIX|][i] == text[i];
      }
    }
  }

  lemma NumbersAreTame(n: int)
    ensures Tame(IntText(n))
  {
    var text := IntText(n);
    assert text[0] == '-' || text[0] in NatText(n);
    assert text[0] != STATE_PREFIX[0];
  }

  lemma ScalarsAreTame(v: Value)
    requires TameValue(v) && IsScalar(v)
    ensures Tame(AsString(v))
  {
    match v {
      case Num(n) => NumbersAreTame(n);
      case Bool(b) => assert BoolText(b)[0] != STATE_PREFIX[0];
      case _ =>
    }
  }

  lemma {:induction false} EvalIsTame(env: Env, e: Expr, scope: Scope)
    requires TameEnv(env) && TameExpr(e) && TameScope(scope) && Eval(env, e, scope).Ok?
    ensures TameValue(Eval(env, e, scope).value)
    decreases e, 1
  {
    match e {
      case ListLit(items) => EvalAllIsTame(env, items, scope);
      case ObjLit(fields) => EvalFieldsIsTame(env, fields, scope);
      case Unary(_, operand) => EvalIsTame(env, operand, scope);
      case Binary(op, left, right) => BinaryIsTame(env, e, scope);
      case Index(base, index) => EvalIsTame(env, base, scope);
      case Member(base, _) => EvalIsTame(env, base, scope);
      case OptionalMember(base, _) =>
        if Eval(env, base, scope).Ok? {
          EvalIsTame(env, base, scope);
        }
      case Call(_, args) => EvalAllIsTame(env, args, scope);
      case _ =>
    }
  }

  lemma {:induction false} BinaryIsTame(env: Env, e: Expr, scope: Scope)
    requires e.Binary? && TameEnv(env) && TameExpr(e) && TameScope(scope) && Eval(env, e, scope).Ok?
    ensures TameValue(Eval(env, e, scope).value)
    decreases e, 0
  {
    var l := Eval(env, e.left, scope).value;
    EvalIsTame(env, e.left, scope);
    if Eval(env, e.right, scope).Ok? {
      var r := Eval(env, e.right, scope).value;
      EvalIsTame(env, e.right, scope);
      if EvalBinary(env, e.op, l, r).Ok? {
        OperationIsTame(env, e.op, l, r);
      }
    }
  }

  lemma ComparisonIsTame(env: Env, op: BinaryOp, l: Value, r: Value)
    requires TameEnv(env) && TameValue(l) && TameValue(r) && CompareValues(env, op, l, r).Ok?
    ensures TameValue(CompareValues(env, op, l, r).value)
  {
  }

  lemma SumIsTame(env: Env, l: Value, r: Value)
    requires TameEnv(env) && TameValue(l) && TameValue(r) && AddValues(env, l, r).Ok?
    ensures TameValue(AddValues(env, l, r).value)
  {
    if (l.Str? || r.Str?) && IsScalar(l) && IsScalar(r) {
      ScalarsAreTame(l);
      ScalarsAreTame(r);
      TameConcat(AsString(l), AsString(r));
    }
  }

  lemma OperationIsTame(env: Env, op: BinaryOp, l: Value, r: Value)
    requires TameEnv(env) && TameValue(l) && TameValue(r) && EvalBinary(env, op, l, r).Ok?
    ensures TameValue(EvalBinary(env, op, l, r).value)
  {
    match op {
      case Add => SumIsTame(env, l, r);
      case Gt => ComparisonIsTame(env, op, l, r);
      case Ge => ComparisonIsTame(env, op, l, r);
      case Lt => ComparisonIsTame(env, op, l, r);
      case Le => ComparisonIsTame(env, op, l, r);
      case _ =>
    }
  }

  lemma {:induction false} EvalAllIsTame(env: Env, es: seq<Expr>, scope: Scope)
    requires TameEnv(env) && (forall e <- es :: TameExpr(e)) && TameScope(scope) && EvalAll(env, es, scope).Ok?
    ensures forall v <- EvalAll(env, es, scope).value :: TameValue(v)
    decreases es, 0
  {
    if es != [] {
      assert es[0] in es && forall e <- es[1..] :: e in es;
      EvalIsTame(env, es[0], scope);
      EvalAllIsTame(env, es[1..], scope);
    }
  }

  lemma {:induction false} EvalFieldsIsTame(env: Env, fields: seq<Field>, scope: Scope)
    requires TameEnv(env) && (forall f <- fields :: TameExpr(f.value)) && TameScope(scope)
    requires EvalFields(env, fields, scope).Ok?
    ensures forall name <- EvalFields(env, fields, scope).value :: TameValue(EvalFields(env, fields, scope).value[name])
    decreases fields, 0
  {
    if fields != [] {
      assert fields[0] in fields && forall f <- fields[1..] :: f in fields;
      EvalIsTame(env, fields[0].value, scope);
      EvalFieldsIsTame(env, fields[1..], scope);
    }
  }

  // Pages -------------------------------------------------------------------------------------

  predicate TameOption(e: Option<Expr>) {
    e.Some? ==> TameExpr(e.value)
  }

  predicate TameProps(props: seq<Prop>) {
    forall p <- props :: TameExpr(p.value)
  }

  predicate TameStatements(statements: seq<Statement>) {
    forall s <- statements :: TameStatement(s)
  }

  predicate TameStatement(s: Statement) {
    match s
    case Data(_, value) => TameExpr(value)
    case TextOf(text) => TameExpr(text)
    case If(condition, body, elseBody) => TameExpr(condition) && TameStatements(body) && TameStatements(elseBody)
    case Match(value, cases, defaultBody) =>
      TameExpr(value) && (forall c <- cases :: TameStatements(c.body)) && TameStatements(defaultBody)
    case Each(_, source, key, body, emptyBody) =>
      TameExpr(source) && TameOption(key) && TameStatements(body) && TameStatements(emptyBody)
    case Use(c) => TameComponent(c)
    case Pipeline(source, stages) =>
      TameExpr(source) && forall stage <- stages | stage.ComponentStage? :: TameComponent(stage.component)
  }

  predicate TameComponent(c: Component) {
    && TameProps(c.props)
    && match c.body
       case Empty => true
       case Inline(text) => TameExpr(text)
       case Block(statements) => TameStatements(statements)
  }

  predicate TameDef(def: ComponentDef) {
    && (forall q <- def.params :: TameOption(q.default))
    && (forall q <- def.states :: TameExpr(q.initial))
    && TameStatements(def.body)
  }

  predicate TameSlots(slots: Slots) {
    slots.SlotOf? ==> TameStatements(slots.body) && TameSlots(slots.parent)
  }

  // Runs --------------------------------------------------------------------------------------

  /** A run that leaves a tame scope and made no signal. */
  ghost predicate Quiet(r: Lowered) {
    TameScope(r.scope) && Signalless(r.trace)
  }

  lemma SignallessConcat(a: seq<Event>, b: seq<Event>)
    ensures Signalless(a + b) <==> Signalless(a) && Signalless(b)
  {
    if Signalless(a + b) {
      assert forall e <- a :: e in a + b;
      assert forall e <- b :: e in a + b;
    }
  }

  lemma RenamedIsSilent(trace: seq<Event>, mark: Event)
    requires Signalless(trace) && !mark.StateSignal?
    ensures Signalless(Renamed(trace, mark))
  {
    forall e <- Renamed(trace, mark) ensures !e.StateSignal? {
      RenamedHolds(trace, mark, e);
    }
  }

  /** A tame page makes no state signal. */
  lemma {:induction false} TameRunsAreSilent(env: Env, fuel: nat, statements: seq<Statement>, s: Scope, slots: Slots)
    requires TameEnv(env) && TameStatements(statements) && TameScope(s) && TameSlots(slots)
    requires LowerStatements(env, fuel, statements, s, slots).Ok?
    ensures Quiet(LowerStatements(env, fuel, statements, s, slots).value)
    decreases fuel, slots, statements, 3
  {
    FromIsQuiet(env, fuel, statements, 0, RenderPathOf(s), s, slots);
  }

  lemma {:induction false} FromIsQuiet(env: Env, fuel: nat, statements: seq<Statement>, index: nat, parent: string,
      s: Scope, slots: Slots)
    requires TameEnv(env) && TameStatements(statements) && TameScope(s) && TameSlots(slots)
    requires LowerFrom(env, fuel, statements, index, parent, s, slots).Ok?
    ensures Quiet(LowerFrom(env, fuel, statements, index, parent, s, slots).value)
    decreases fuel, slots, statements, 2
  {
    if statements != [] {
      var here := parent + "." + NatText(index);
      var first := LowerStatement(env, fuel, statements[0], here, At(s, here), slots).value;
      var rest := LowerFrom(env, fuel, statements[1..], index + 1, parent, first.scope, slots).value;
      StatementIsQuiet(env, fuel, statements[0], here, At(s, here), slots);
      FromIsQuiet(env, fuel, statements[1..], index + 1, parent, first.scope, slots);
      SignallessConcat([Visit(here)] + first.trace, rest.trace);
    }
  }

  lemma {:induction false} StatementIsQuiet(env: Env, fuel: nat, st: Statement, here: string, s: Scope, slots: Slots)
    requires TameEnv(env) && TameStatement(st) && TameScope(s) && TameSlots(slots)
    requires LowerStatement(env, fuel, st, here, s, slots).Ok?
    ensures Quiet(LowerStatement(env, fuel, st, here, s, slots).value)
    decreases fuel, slots, st, 1
  {
    match st {
      case Data(_, value) => EvalIsTame(env, value, s);
      case TextOf(_) =>
      case If(_, _, _) => IfIsQuiet(env, fuel, st, here, s, slots);
      case Match(_, _, _) => MatchIsQuiet(env, fuel, st, here, s, slots);
      case Each(_, _, _, _, _) => EachIsQuiet(env, fuel, st, here, s, slots);
      case Use(c) =>
        ComponentIsQuiet(env, fuel, c, s, slots);
        RenamedIsSilent(LowerComponentNodes(env, fuel, c, s, slots).value.trace, Marked);
      case Pipeline(_, stages) =>
        var marked := MarkIf(ReferencesItem(st.source, s), s);
        StagesAreQuiet(env, fuel, stages, marked, slots);
        NestedIsQuiet(ReferencesItem(st.source, s), s, [],
            [RunOf(env, stages, marked, slots)] + LowerStages(env, fuel, stages, marked, slots).value.trace);
    }
  }

  lemma NestedIsQuiet(bad: bool, s: Scope, nodes: seq<Node>, trace: seq<Event>)
    requires TameScope(s) && Signalless(trace)
    ensures Quiet(Nested(bad, s, nodes, trace)) && TameScope(MarkIf(bad, s))
  {
    SignallessConcat(MarkEvents(bad, s), trace);
  }

  lemma {:induction false} IfIsQuiet(env: Env, fuel: nat, st: Statement, here: string, s: Scope, slots: Slots)
    requires st.If? && TameEnv(env) && TameStatement(st) && TameScope(s) && TameSlots(slots)
    requires LowerIf(env, fuel, st, here, s, slots).Ok?
    ensures Quiet(LowerIf(env, fuel, st, here, s, slots).value)
    decreases fuel, slots, st, 0
  {
    var marked := MarkIf(ReferencesItem(st.condition, s), s);
    var yes := Truthy(Eval(env, st.condition, marked).value);
    var body := if yes then st.body else st.elseBody;
    if body != [] {
      TameRunsAreSilent(env, fuel, body, At(marked, here + (if yes then ".if1" else ".if0")), slots);
    }
  }

  lemma {:induction false} MatchIsQuiet(env: Env, fuel: nat, st: Statement, here: string, s: Scope, slots: Slots)
    requires st.Match? && TameEnv(env) && TameStatement(st) && TameScope(s) && TameSlots(slots)
    requires LowerMatch(env, fuel, st, here, s, slots).Ok?
    ensures Quiet(LowerMatch(env, fuel, st, here, s, slots).value)
    decreases fuel, slots, st, 0
  {
    var marked := MarkIf(ReferencesItem(st.value, s), s);
    var found := FindCase(st.cases, AsString(Eval(env, st.value, marked).value));
    if found.Some? { assert st.cases[found.value] in st.cases; }
    var body := if found.Some? then st.cases[found.value].body else st.defaultBody;
    if body != [] {
      TameRunsAreSilent(env, fuel, body, At(marked, here + ".match"), slots);
    }
  }

  lemma {:induction false} EachIsQuiet(env: Env, fuel: nat, st: Statement, here: string, s: Scope, slots: Slots)
    requires st.Each? && TameEnv(env) && TameStatement(st) && TameScope(s) && TameSlots(slots)
    requires LowerEach(env, fuel, st, here, s, slots).Ok?
    ensures Quiet(LowerEach(env, fuel, st, here, s, slots).value)
    decreases fuel, slots, st, 0
  {
    var marked := MarkIf(ReferencesItem(st.source, s), s);
    EvalIsTame(env, st.source, marked);
    var items := Eval(env, st.source, marked).value.items;
    if items == [] {
      TameRunsAreSilent(env, fuel, st.emptyBody, marked, slots);
    } else if st.key.Some? {
      KeyedIsQuiet(env, fuel, st.binding, st.key.value, st.body, here, marked, slots, items, {}, None);
    } else {
      ItemsAreQuiet(env, fuel, st.binding, st.body, here, marked, slots, items, 0);
    }
  }

  lemma {:induction false} ItemsAreQuiet(env: Env, fuel: nat, binding: string, body: seq<Statement>, here: string,
      s: Scope, slots: Slots, items: seq<Value>, index: nat)
    requires TameEnv(env) && TameStatements(body) && TameScope(s) && TameSlots(slots)
    requires (forall v <- items :: TameValue(v))
             && LowerItems(env, fuel, binding, body, here, s, slots, items, index).Ok?
    ensures Signalless(LowerItems(env, fuel, binding, body, here, s, slots, items, index).value.trace)
    decreases fuel, slots, body, 4, |items|
  {
    if items != [] {
      assert items[0] in items && forall v <- items[1..] :: v in items;
      TameRunsAreSilent(env, fuel, body, At(s[User(binding) := items[0]], here + ".each" + NatText(index)), slots);
      ItemsAreQuiet(env, fuel, binding, body, here, s, slots, items[1..], index + 1);
    }
  }

  lemma {:induction false} KeyedIsQuiet(env: Env, fuel: nat, binding: string, key: Expr, body: seq<Statement>,
      here: string, s: Scope, slots: Slots, items: seq<Value>, seen: set<string>, kind: Option<string>)
    requires TameEnv(env) && TameStatements(body) && TameScope(s) && TameSlots(slots)
    requires (forall v <- items :: TameValue(v))
    requires LowerKeyed(env, fuel, binding, key, body, here, s, slots, items, seen, kind).Ok?
    ensures Signalless(LowerKeyed(env, fuel, binding, key, body, here, s, slots, items, seen, kind).value.trace)
    decreases fuel, slots, body, 5, |items|
  {
    if items != [] {
      assert items[0] in items && forall v <- items[1..] :: v in items;
      var identity := AcceptKey(env, key, ItemScope(s, binding, items[0]), seen, kind).value;
      var id := identity.0 + ":" + identity.1;
      TameRunsAreSilent(env, fuel, body, At(ItemScope(s, binding, items[0]), ItemPath(env, here, id)), slots);
      KeyedIsQuiet(env, fuel, binding, key, body, here, s, slots, items[1..], seen + {id}, Some(identity.0));
    }
  }

  lemma {:induction false} StagesAreQuiet(env: Env, fuel: nat, stages: seq<Stage>, s: Scope, slots: Slots)
    requires TameEnv(env) && TameScope(s) && TameSlots(slots)
    requires forall stage <- stages | stage.ComponentStage? :: TameComponent(stage.component)
    requires LowerStages(env, fuel, stages, s, slots).Ok?
    ensures Signalless(LowerStages(env, fuel, stages, s, slots).value.trace)
    decreases fuel, slots, stages, 0
  {
    if stages != [] {
      assert stages[0] in stages && forall x <- stages[1..] :: x in stages;
      StagesAreQuiet(env, fuel, stages[1..], s, slots);
      if stages[0].ComponentStage? {
        var c := stages[0].component;
        assert c < stages[0];
        ComponentIsQuiet(env, fuel, c, s, slots);
        RenamedIsSilent(LowerComponentNodes(env, fuel, c, s, slots).value.trace, StrayMark);
      }
    }
  }

  // Components --------------------------------------------------------------------------------

  lemma {:induction false} ComponentIsQuiet(env: Env, fuel: nat, c: Component, s: Scope, slots: Slots)
    requires TameEnv(env) && TameComponent(c) && TameScope(s) && TameSlots(slots)
    requires LowerComponentNodes(env, fuel, c, s, slots).Ok?
    ensures Quiet(LowerComponentNodes(env, fuel, c, s, slots).value)
    decreases fuel, slots, c, 2
  {
    if c.name == "Slot" {
      if slots.SlotOf? {
        var requested := SlotName(env, c.props, {"name", "slot"}, s).value;
        SelectionIsTame(env, slots.body, requested, s);
        TameRunsAreSilent(env, fuel, SelectSlot(env, slots.body, requested, s).value, s, slots.parent);
      }
    } else if c.name == "Fragment" {
      ChildrenAreQuiet(env, fuel, c, s, slots);
    } else {
      match FindComponent(env.components, c.name) {
        case Some(def) => LocalIsQuiet(env, fuel, c, def, s, slots);
        case None =>
          var inner := LowerChildren(env, fuel, c, s, slots).value;
          ChildrenAreQuiet(env, fuel, c, s, slots);
          ElementIsQuiet(env, c, inner.nodes, inner.scope);
          SignallessConcat(inner.trace, NativeElement(env, c, inner.nodes, inner.scope).value.trace);
      }
    }
  }

  lemma {:induction false} ChildrenAreQuiet(env: Env, fuel: nat, c: Component, s: Scope, slots: Slots)
    requires TameEnv(env) && TameComponent(c) && TameScope(s) && TameSlots(slots)
    requires LowerChildren(env, fuel, c, s, slots).Ok?
    ensures Quiet(LowerChildren(env, fuel, c, s, slots).value)
    decreases fuel, slots, c, 0
  {
    match c.body {
      case Empty =>
      case Inline(_) =>
      case Block(statements) => TameRunsAreSilent(env, fuel, statements, s, slots);
    }
  }

  lemma {:induction false} PropsAreTame(env: Env, props: seq<Prop>, s: Scope)
    requires TameEnv(env) && TameProps(props) && TameScope(s) && EvalProps(env, props, s).Ok?
    ensures var evaluated := EvalProps(env, props, s).value;
            evaluated.trace == [] && forall name <- evaluated.props :: TameValue(evaluated.props[name])
  {
    if props != [] {
      assert props[0] in props && forall p <- props[1..] :: p in props;
      var v := Eval(env, props[0].value, s).value;
      EvalIsTame(env, props[0].value, s);
      if v.Str? {
        TameIsNoMarker(v.text);
      }
      PropsAreTame(env, props[1..], s);
    }
  }

  lemma {:induction false} AttachMakesNoSignal(props: seq<Prop>, attrs: map<string, string>, s: Scope)
    requires TameScope(s)
    ensures var a := AttachProps(props, attrs, s); TameScope(a.scope) && Signalless(a.trace)
  {
    if props != [] {
      AttachMakesNoSignal(props[1..], attrs, AttachProp(props[0], attrs, s).scope);
    }
  }

  lemma ElementIsQuiet(env: Env, c: Component, children: seq<Node>, s: Scope)
    requires TameEnv(env) && TameComponent(c) && TameScope(s) && NativeElement(env, c, children, s).Ok?
    ensures Quiet(NativeElement(env, c, children, s).value)
  {
    PropsAreTame(env, c.props, s);
    var attrs := ElementParts(env, c, children, s);
    AttachMakesNoSignal(c.props, attrs, s);
  }

  lemma {:induction false} SelectionIsTame(env: Env, handed: seq<Statement>, requested: Option<string>, s: Scope)
    requires TameStatements(handed) && SelectSlot(env, handed, requested, s).Ok?
    ensures TameStatements(SelectSlot(env, handed, requested, s).value)
  {
    if handed != [] {
      assert handed[0] in handed && forall x <- handed[1..] :: x in handed;
      SelectionIsTame(env, handed[1..], requested, s);
      assert TameStatement(handed[0]);
      if handed[0].Use? {
        StrippedIsTame(handed[0].component.props);
      }
    }
  }

  lemma {:induction false} StrippedIsTame(props: seq<Prop>)
    requires TameProps(props)
    ensures TameProps(WithoutSlot(props))
  {
    if props != [] {
      assert props[0] in props && forall p <- props[1..] :: p in props;
      StrippedIsTame(props[1..]);
    }
  }

  lemma {:induction false} FoundIsTame(env: Env, components: seq<ComponentDef>, name: string)
    requires (forall def <- components :: TameDef(def)) && FindComponent(components, name).Some?
    ensures TameDef(FindComponent(components, name).value)
  {
    if components[|components| - 1].name != name {
      FoundIsTame(env, components[..|components| - 1], name);
    }
  }

  lemma {:induction false} ParamsAreTame(env: Env, def: ComponentDef, params: seq<Param>, props: map<string, Value>,
      s: Scope)
    requires TameEnv(env) && (forall q <- params :: TameOption(q.default)) && TameScope(s)
    requires (forall name <- props :: TameValue(props[name])) && BindParams(env, def, params, props, s).Ok?
    ensures TameScope(BindParams(env, def, params, props, s).value)
  {
    if params != [] {
      var q := params[0];
      assert q in params && forall x <- params[1..] :: x in params;
      if q.name !in props && q.default.Some? {
        EvalIsTame(env, q.default.value, s);
      }
      var v := if q.name in props then props[q.name]
               else if q.default.Some? then Eval(env, q.default.value, s).value else Null;
      ParamsAreTame(env, def, params[1..], props, s[User(q.name) := v]);
    }
  }

  lemma {:induction false} StatesAreTame(env: Env, states: seq<State>, s: Scope)
    requires TameEnv(env) && (forall q <- states :: TameExpr(q.initial)) && TameScope(s)
    requires BindStates(env, states, s).Ok?
    ensures TameScope(BindStates(env, states, s).value)
  {
    if states != [] {
      assert states[0] in states && forall x <- states[1..] :: x in states;
      EvalIsTame(env, states[0].initial, s);
      StatesAreTame(env, states[1..], s[User(states[0].name) := Eval(env, states[0].initial, s).value]);
    }
  }

  lemma {:induction false} PropagatedIsTame(props: seq<Prop>, source: Scope, target: Scope)
    requires TameScope(target)
    ensures TameScope(PropagateParams(props, source, target))
  {
    if props != [] {
      PropagatedIsTame(props[1..], source,
        match EachRenderPath(props[0].value, source)
        case Some(path) => target[EachParam(props[0].name) := Str(path)]
        case None => target);
    }
  }

  lemma EntryIsTame(env: Env, c: Component, def: ComponentDef, s: Scope)
    requires TameEnv(env) && TameComponent(c) && TameDef(def) && TameScope(s) && EnterLocal(env, c, def, s).Ok?
    ensures var entry := EnterLocal(env, c, def, s).value; TameScope(entry.scope) && Signalless(entry.trace)
  {
    var entered := s[InstancePath := Str(RenderPathOf(s))];
    var own := PropagateParams(c.props, s, entered);
    var props := EvalProps(env, c.props, s).value.props;
    PropsAreTame(env, c.props, s);
    PropagatedIsTame(c.props, s, entered);
    ParamsAreTame(env, def, def.params, props, own);
    StatesAreTame(env, def.states, BindParams(env, def, def.params, props, own).value);
  }

  lemma {:induction false} LocalIsQuiet(env: Env, fuel: nat, c: Component, def: ComponentDef, s: Scope, slots: Slots)
    requires fuel > 0 && TameEnv(env) && TameComponent(c) && TameScope(s) && TameSlots(slots)
    requires FindComponent(env.components, c.name) == Some(def) && LowerLocal(env, fuel, c, def, s, slots).Ok?
    ensures Quiet(LowerLocal(env, fuel, c, def, s, slots).value)
    decreases fuel, slots, c, 1
  {
    LocalIsOf(env, fuel, c, def, s, slots);
    var entry := EnterLocal(env, c, def, s).value;
    var handed := SlotOf(ChildStatements(c.body), slots);
    var r := LowerStatements(env, fuel - 1, def.body, entry.scope, handed).value;
    BodyIsQuiet(env, fuel, c, def, s, slots, entry, r);
    LocalOfIsQuiet(entry, r, s);
  }

  lemma {:induction false} BodyIsQuiet(env: Env, fuel: nat, c: Component, def: ComponentDef, s: Scope, slots: Slots,
      entry: LocalEntry, r: Lowered)
    requires fuel > 0 && TameEnv(env) && TameComponent(c) && TameScope(s) && TameSlots(slots)
    requires FindComponent(env.components, c.name) == Some(def) && EnterLocal(env, c, def, s) == Ok(entry)
    requires LowerStatements(env, fuel - 1, def.body, entry.scope, SlotOf(ChildStatements(c.body), slots)) == Ok(r)
    ensures Signalless(entry.trace) && Signalless(r.trace)
    decreases fuel, slots, c, 0
  {
    HandedIsTame(c, slots);
    BodyStartsTame(env, c, def, s);
    TameRunsAreSilent(env, fuel - 1, def.body, entry.scope, SlotOf(ChildStatements(c.body), slots));
  }

  lemma HandedIsTame(c: Component, slots: Slots)
    requires TameComponent(c) && TameSlots(slots)
    ensures TameSlots(SlotOf(ChildStatements(c.body), slots))
  {
    match c.body {
      case Empty =>
      case Inline(text) => assert TameStatement(TextOf(text));
      case Block(_) =>
    }
  }

  lemma BodyStartsTame(env: Env, c: Component, def: ComponentDef, s: Scope)
    requires TameEnv(env) && TameComponent(c) && TameScope(s) && EnterLocal(env, c, def, s).Ok?
    requires FindComponent(env.components, c.name) == Some(def)
    ensures var entry := EnterLocal(env, c, def, s).value; TameScope(entry.scope) && Signalless(entry.trace)
    ensures TameStatements(def.body)
  {
    FoundIsTame(env, env.components, c.name);
    EntryIsTame(env, c, def, s);
  }

  lemma LocalOfIsQuiet(entry: LocalEntry, r: Lowered, s: Scope)
    requires Signalless(entry.trace) && Signalless(r.trace) && TameScope(s)
    ensures Quiet(LocalOf(entry, r, s))
  {
    SignallessConcat(entry.trace, r.trace);
    SignallessConcat(entry.trace + r.trace, OverrideEvents(r.nodes, entry.attrs));
  }

  // The template ------------------------------------------------------------------------------

  /** In a tame page, a template in whose run no mark strays and no path is overridden is right for every tame item. */
  lemma TameTemplateIsSound(env: Env, fuel: nat, st: Statement, here: string, s: Scope, slots: Slots, template: Node,
      o: string, w: Value)
    requires TameEnv(env) && TameStatement(st) && TameScope(s) && TameSlots(slots) && TameValue(w)
    requires st.Each? && st.key.Some? && NoStaleAlias(s, st.binding)
    requires Fragment(env, fuel, st.body, {st.binding, "null"}, slots)
    requires LowerEach(env, fuel, st, here, s, slots).Ok?
    requires var r := LowerEach(env, fuel, st, here, s, slots).value;
             StrayMark !in r.trace && Overridden !in r.trace && r.nodes[0].Element? && template in r.nodes[0].children
    requires template.Element? && template.tag == "template"
    requires LowerItem(env, fuel, st.binding, st.body, o, s, slots, w).Ok?
    ensures Instantiate(template.children, w) == LowerItem(env, fuel, st.binding, st.body, o, s, slots, w).value.nodes
  {
    EachIsQuiet(env, fuel, st, here, s, slots);
    TameRunsAreSilent(env, fuel, st.body, At(ItemScope(s, st.binding, w), o), slots);
    TemplateIsSound(env, fuel, st, here, s, slots, template, o, w);
  }
}
