/** The loop bodies that the template theorem covers, and the names that come from the item in them. */
module LoweringFragment {
  import opened Text
  import opened LoweringModel
  import opened Evaluation
  import opened Lowering

  // Names that come from the item -------------------------------------------------------------

  /** A scope in which just these names come from the item; `null` is no name. */
  function Aliases(taken: set<string>): Scope {
    map x | x in taken && x != "null" :: EachParam(x) := Null
  }

  /** The expression mentions none of the names. */
  predicate Untouched(e: Expr, taken: set<string>) {
    !ReferencesItem(e, Aliases(taken))
  }

  predicate RootIn(e: Expr, taken: set<string>) {
    ChainOf(e).Some? && ChainOf(e).value.0 != "null" && ChainOf(e).value.0 in taken
  }

  lemma UntouchedByFewer(e: Expr, small: set<string>, big: set<string>)
    requires small <= big && Untouched(e, big)
    ensures Untouched(e, small)
  {
    FewerReferences(e, Aliases(small), Aliases(big));
  }

  /** A declaration of a chain from one of the names makes another. */
  function TakenAfter(s: Statement, taken: set<string>): set<string> {
    if s.Data? && RootIn(s.value, taken) then taken + {s.name} else taken
  }

  function TakenAfterAll(statements: seq<Statement>, taken: set<string>): set<string> {
    if statements == [] then taken else TakenAfterAll(statements[1..], TakenAfter(statements[0], taken))
  }

  /** The names that come from the item in the body of a component. */
  function LocalTaken(c: Component, taken: set<string>): set<string> {
    taken + (set p <- c.props | RootIn(p.value, taken) :: p.name)
  }

  // Components --------------------------------------------------------------------------------

  predicate DistinctNames(props: seq<Prop>) {
    forall i, j | 0 <= i < j < |props| :: props[i].name != props[j].name
  }

  /** Names the templates themselves use are not available for properties. */
  predicate PropNameOk(name: string) {
    && name != "class" && name != "data-recipe"
    && !HasPrefix(name, "data-ax-each-") && !HasPrefix(name, "data-ax-behavior")
  }

  predicate NativeOk(env: Env, c: Component) {
    && IsNativeTag(c.name) && FindComponent(env.components, c.name).None?
    && (forall p <- c.props :: PropNameOk(p.name) && ChainOk(p.value))
    && DistinctNames(c.props)
    && (c.recipe.Some? ==> ChainOk(c.recipe.value))
  }

  predicate IsParam(def: ComponentDef, name: string) {
    exists q <- def.params :: q.name == name
  }

  /** What comes from the item is passed as a chain, and only for a parameter. */
  predicate PassedOk(p: Prop, def: ComponentDef, taken: set<string>) {
    && p.name != "null" && ChainOk(p.value)
    && if IsParam(def, p.name) then ChainOf(p.value).Some? || Untouched(p.value, taken)
       else Untouched(p.value, taken) && !HasPrefix(p.name, "data-ax-each-")
  }

  /** A parameter has a new name, or it is passed what its name already means. */
  predicate ParamOk(q: Param, c: Component, taken: set<string>) {
    && q.name != "null"
    && (q.name in taken ==> Prop(q.name, Ident(q.name)) in c.props)
    && (q.default.Some? ==> Untouched(q.default.value, LocalTaken(c, taken)))
  }

  predicate StateOk(q: State, c: Component, taken: set<string>) {
    q.name !in LocalTaken(c, taken) && Untouched(q.initial, LocalTaken(c, taken))
  }

  predicate LocalOk(c: Component, def: ComponentDef, taken: set<string>) {
    && DistinctNames(c.props)
    && (forall p <- c.props :: PassedOk(p, def, taken))
    && (forall q <- def.params :: ParamOk(q, c, taken))
    && (forall q <- def.states :: StateOk(q, c, taken))
    && (c.class_.Some? ==> Untouched(c.class_.value, taken))
    && (c.recipe.Some? ==> Untouched(c.recipe.value, taken))
  }

  /** Which slot a statement is for, or a slot asks for, does not depend on the item. */
  predicate SlotNamesOk(props: seq<Prop>, names: set<string>, taken: set<string>) {
    forall p <- props | p.name in names :: Untouched(p.value, taken)
  }

  predicate SlotOk(c: Component, handed: seq<Statement>, taken: set<string>) {
    && SlotNamesOk(c.props, {"name", "slot"}, taken)
    && forall s <- handed | s.Use? :: SlotNamesOk(s.component.props, {"slot"}, taken)
  }

  function Stripped(statements: seq<Statement>): seq<Statement> {
    if statements == [] then [] else [StripSlot(statements[0])] + Stripped(statements[1..])
  }

  // Statements --------------------------------------------------------------------------------

  /** Statements the template theorem covers, given the names that come from the item. */
  predicate Fragment(env: Env, fuel: nat, statements: seq<Statement>, taken: set<string>, slots: Slots)
    decreases fuel, slots, statements, 0
  {
    statements == [] ||
    (&& FragmentStatement(env, fuel, statements[0], taken, slots)
     && Fragment(env, fuel, statements[1..], TakenAfter(statements[0], taken), slots))
  }

  predicate FragmentStatement(env: Env, fuel: nat, s: Statement, taken: set<string>, slots: Slots)
    decreases fuel, slots, s, 1
  {
    match s
    case Data(name, value) => name !in taken && ChainOk(value)
    case TextOf(text) => ChainOk(text)
    case If(_, body, elseBody) =>
      Fragment(env, fuel, body, taken, slots) && Fragment(env, fuel, elseBody, taken, slots)
    case Match(_, cases, defaultBody) =>
      (forall c <- cases :: Fragment(env, fuel, c.body, taken, slots)) && Fragment(env, fuel, defaultBody, taken, slots)
    case Each(binding, _, key, body, emptyBody) =>
      && Fragment(env, fuel, emptyBody, taken, slots)
      && (key.None? ==> binding !in taken && Fragment(env, fuel, body, taken, slots))
    case Use(c) => FragmentComponent(env, fuel, c, taken, slots)
    case Pipeline(_, stages) =>
      forall stage <- stages | stage.ComponentStage? :: FragmentComponent(env, fuel, stage.component, taken, slots)
  }

  predicate FragmentComponent(env: Env, fuel: nat, c: Component, taken: set<string>, slots: Slots)
    decreases fuel, slots, c, 1
  {
    if c.name == "Slot" then
      slots.NoSlot?
      || (SlotOk(c, slots.body, taken) && Fragment(env, fuel, Stripped(slots.body), taken, slots.parent))
    else if c.name == "Fragment" then FragmentBody(env, fuel, c.body, taken, slots)
    else match FindComponent(env.components, c.name)
      case Some(def) =>
        fuel == 0 || FragmentLocal(env, fuel, c, def, taken, slots)
      case None => NativeOk(env, c) && FragmentBody(env, fuel, c.body, taken, slots)
  }

  predicate FragmentLocal(env: Env, fuel: nat, c: Component, def: ComponentDef, taken: set<string>, slots: Slots)
    requires fuel > 0
    decreases fuel, slots, c, 0
  {
    && LocalOk(c, def, taken)
    && Fragment(env, fuel - 1, def.body, LocalTaken(c, taken), SlotOf(ChildStatements(c.body), slots))
  }

  predicate IsLocalOf(env: Env, c: Component, def: ComponentDef) {
    c.name != "Slot" && c.name != "Fragment" && FindComponent(env.components, c.name) == Some(def)
  }

  predicate FragmentBody(env: Env, fuel: nat, body: Body, taken: set<string>, slots: Slots)
    decreases fuel, slots, body, 0
  {
    match body
    case Empty => true
    case Inline(text) => ChainOk(text)
    case Block(inner) => Fragment(env, fuel, inner, taken, slots)
  }

  lemma LocalIsFragment(env: Env, fuel: nat, c: Component, def: ComponentDef, taken: set<string>, slots: Slots)
    requires fuel > 0 && IsLocalOf(env, c, def) && FragmentComponent(env, fuel, c, taken, slots)
    ensures Fragment(env, fuel - 1, def.body, LocalTaken(c, taken), SlotOf(ChildStatements(c.body), slots))
    ensures LocalOk(c, def, taken)
  {
  }

  // Fewer names -------------------------------------------------------------------------------

  lemma {:induction false} FragmentShrinks(env: Env, fuel: nat, statements: seq<Statement>, big: set<string>,
      small: set<string>, slots: Slots)
    requires small <= big && Fragment(env, fuel, statements, big, slots)
    ensures Fragment(env, fuel, statements, small, slots)
    decreases fuel, slots, statements, 0
  {
    if statements != [] {
      StatementShrinks(env, fuel, statements[0], big, small, slots);
      FragmentShrinks(env, fuel, statements[1..], TakenAfter(statements[0], big), TakenAfter(statements[0], small),
          slots);
    }
  }

  lemma {:induction false} StatementShrinks(env: Env, fuel: nat, s: Statement, big: set<string>, small: set<string>,
      slots: Slots)
    requires small <= big && FragmentStatement(env, fuel, s, big, slots)
    ensures FragmentStatement(env, fuel, s, small, slots)
    decreases fuel, slots, s, 1
  {
    match s {
      case If(_, body, elseBody) =>
        FragmentShrinks(env, fuel, body, big, small, slots);
        FragmentShrinks(env, fuel, elseBody, big, small, slots);
      case Match(_, cases, defaultBody) =>
        forall c <- cases ensures Fragment(env, fuel, c.body, small, slots) {
          FragmentShrinks(env, fuel, c.body, big, small, slots);
        }
        FragmentShrinks(env, fuel, defaultBody, big, small, slots);
      case Each(_, _, key, body, emptyBody) =>
        FragmentShrinks(env, fuel, emptyBody, big, small, slots);
        if key.None? {
          FragmentShrinks(env, fuel, body, big, small, slots);
        }
      case Use(c) => ComponentShrinks(env, fuel, c, big, small, slots);
      case Pipeline(_, stages) =>
        forall stage <- stages | stage.ComponentStage?
          ensures FragmentComponent(env, fuel, stage.component, small, slots)
        {
          ComponentShrinks(env, fuel, stage.component, big, small, slots);
        }
      case _ =>
    }
  }

  lemma {:induction false} ComponentShrinks(env: Env, fuel: nat, c: Component, big: set<string>, small: set<string>,
      slots: Slots)
    requires small <= big && FragmentComponent(env, fuel, c, big, slots)
    ensures FragmentComponent(env, fuel, c, small, slots)
    decreases fuel, slots, c, 1
  {
    if c.name == "Slot" {
      if slots.SlotOf? {
        SlotShrinks(c, slots.body, big, small);
        FragmentShrinks(env, fuel, Stripped(slots.body), big, small, slots.parent);
      }
    } else if c.name != "Fragment" && FindComponent(env.components, c.name).Some? {
      if fuel > 0 {
        LocalShrinks(c, FindComponent(env.components, c.name).value, big, small);
        FragmentShrinks(env, fuel - 1, FindComponent(env.components, c.name).value.body, LocalTaken(c, big),
            LocalTaken(c, small), SlotOf(ChildStatements(c.body), slots));
      }
    } else if c.body.Block? {
      FragmentShrinks(env, fuel, c.body.statements, big, small, slots);
    }
  }

  lemma LocalShrinks(c: Component, def: ComponentDef, big: set<string>, small: set<string>)
    requires small <= big && LocalOk(c, def, big)
    ensures LocalOk(c, def, small) && LocalTaken(c, small) <= LocalTaken(c, big)
  {
    forall e | Untouched(e, big) ensures Untouched(e, small) {
      UntouchedByFewer(e, small, big);
    }
    forall e | Untouched(e, LocalTaken(c, big)) ensures Untouched(e, LocalTaken(c, small)) {
      UntouchedByFewer(e, LocalTaken(c, small), LocalTaken(c, big));
    }
  }

  lemma SlotShrinks(c: Component, handed: seq<Statement>, big: set<string>, small: set<string>)
    requires small <= big && SlotOk(c, handed, big)
    ensures SlotOk(c, handed, small)
  {
    forall e | Untouched(e, big) ensures Untouched(e, small) {
      UntouchedByFewer(e, small, big);
    }
  }

  /** The statements that a slot selects are covered if all that were handed over are. */
  lemma {:induction false} SelectionIsFragment(env: Env, fuel: nat, handed: seq<Statement>, requested: Option<string>,
      scope: Scope, taken: set<string>, slots: Slots)
    requires SelectSlot(env, handed, requested, scope).Ok? && Fragment(env, fuel, Stripped(handed), taken, slots)
    ensures Fragment(env, fuel, SelectSlot(env, handed, requested, scope).value, taken, slots)
  {
    if handed != [] {
      var all := Stripped(handed);
      var rest := SelectSlot(env, handed[1..], requested, scope).value;
      assert all[0] == StripSlot(handed[0]) && all[1..] == Stripped(handed[1..]);
      SelectionIsFragment(env, fuel, handed[1..], requested, scope, TakenAfter(all[0], taken), slots);
      FragmentShrinks(env, fuel, rest, TakenAfter(all[0], taken), taken, slots);
      assert ([all[0]] + rest)[1..] == rest;
    }
  }
}
