/** What a caller of the lowerer can rely on: which entries change, and what a keyed loop gives. */
module LoweringPromises {
  import opened Text
  import opened LoweringModel
  import opened Lowering
  import opened LoweringMarks
  import opened LoweringKeys
  import opened LoweringFragment
  import opened LoweringCoupling
  import opened LoweringElements
  import opened LoweringTemplate

  // Entries -----------------------------------------------------------------------------------

  function Declared(s: Statement): set<string> {
    if s.Data? then {s.name} else {}
  }

  function DeclaredBy(statements: seq<Statement>): set<string> {
    if statements == [] then {} else Declared(statements[0]) + DeclaredBy(statements[1..])
  }

  /** The entries that statements may change: the path, the flag, and those of the names they declare. */
  predicate IsTouched(k: Key, names: set<string>) {
    k == RenderPath || k == EachUnsupported || ((k.User? || k.EachParam?) && k.name in names)
  }

  ghost predicate SameElsewhere(s: Scope, t: Scope, names: set<string>) {
    forall k | !IsTouched(k, names) :: (k in s <==> k in t) && (k in s ==> s[k] == t[k])
  }

  lemma {:induction false} PropsOnlyMark(props: seq<Prop>, attrs: map<string, string>, s: Scope, scope: Scope)
    requires scope == s || scope == MarkIf(true, s)
    ensures var a := AttachProps(props, attrs, scope); a.scope == s || a.scope == MarkIf(true, s)
  {
    if props != [] {
      PropsOnlyMark(props[1..], attrs, s, AttachProp(props[0], attrs, scope).scope);
    }
  }

  lemma AttachOnlyMarks(c: Component, attrs: map<string, string>, s: Scope, scope: Scope)
    requires scope == s || scope == MarkIf(true, s)
    ensures var a := Attach(c, attrs, scope); a.scope == s || a.scope == MarkIf(true, s)
  {
    PropsOnlyMark(c.props, attrs, s, scope);
  }

  lemma ElementOnlyMarks(env: Env, c: Component, children: seq<Node>, s: Scope, scope: Scope)
    requires scope == s || scope == MarkIf(true, s)
    requires NativeElement(env, c, children, scope).Ok?
    ensures var r := NativeElement(env, c, children, scope).value; r.scope == s || r.scope == MarkIf(true, s)
  {
    var r := NativeElement(env, c, children, scope).value;
    assert r.scope == Attach(c, r.nodes[0].attrs, scope).scope;
    AttachOnlyMarks(c, r.nodes[0].attrs, s, scope);
  }

  lemma ChildrenOnlyMark(env: Env, fuel: nat, c: Component, scope: Scope, slots: Slots)
    requires LowerChildren(env, fuel, c, scope, slots).Ok?
    ensures var r := LowerChildren(env, fuel, c, scope, slots).value; r.scope == scope || r.scope == MarkIf(true, scope)
  {
  }

  lemma NativeOnlyMarks(env: Env, fuel: nat, c: Component, scope: Scope, slots: Slots)
    requires LowerNative(env, fuel, c, scope, slots).Ok?
    ensures var r := LowerNative(env, fuel, c, scope, slots).value; r.scope == scope || r.scope == MarkIf(true, scope)
  {
    var inner := LowerChildren(env, fuel, c, scope, slots).value;
    ChildrenOnlyMark(env, fuel, c, scope, slots);
    assert LowerNative(env, fuel, c, scope, slots).value.scope
        == NativeElement(env, c, inner.nodes, inner.scope).value.scope;
    ElementOnlyMarks(env, c, inner.nodes, scope, inner.scope);
  }

  /** A component changes nothing in its caller's scope but the flag. */
  lemma ComponentOnlyMarks(env: Env, fuel: nat, c: Component, scope: Scope, slots: Slots)
    requires LowerComponentNodes(env, fuel, c, scope, slots).Ok?
    ensures var r := LowerComponentNodes(env, fuel, c, scope, slots).value;
            r.scope == scope || r.scope == MarkIf(true, scope)
  {
    if c.name != "Slot" && c.name != "Fragment" && FindComponent(env.components, c.name).None? {
      NativeOnlyMarks(env, fuel, c, scope, slots);
    }
  }

  lemma StatementTouches(env: Env, fuel: nat, s: Statement, here: string, scope: Scope, slots: Slots)
    requires LowerStatement(env, fuel, s, here, scope, slots).Ok?
    ensures SameElsewhere(scope, LowerStatement(env, fuel, s, here, scope, slots).value.scope, Declared(s))
  {
    match s {
      case Data(_, _) =>
      case TextOf(_) =>
      case If(_, _, _) =>
      case Match(_, _, _) =>
      case Each(_, _, _, _, _) =>
      case Use(c) => ComponentOnlyMarks(env, fuel, c, scope, slots);
      case Pipeline(_, _) =>
    }
  }

  lemma {:induction false} FromTouches(env: Env, fuel: nat, statements: seq<Statement>, index: nat, parent: string,
      scope: Scope, slots: Slots)
    requires LowerFrom(env, fuel, statements, index, parent, scope, slots).Ok?
    ensures SameElsewhere(scope, LowerFrom(env, fuel, statements, index, parent, scope, slots).value.scope,
            DeclaredBy(statements))
    decreases |statements|
  {
    if statements != [] {
      var here := parent + "." + NatText(index);
      var first := LowerStatement(env, fuel, statements[0], here, At(scope, here), slots).value;
      var rest := LowerFrom(env, fuel, statements[1..], index + 1, parent, first.scope, slots).value;
      StatementTouches(env, fuel, statements[0], here, At(scope, here), slots);
      FromTouches(env, fuel, statements[1..], index + 1, parent, first.scope, slots);
      TouchedTogether(scope, At(scope, here), first.scope, rest.scope, Declared(statements[0]),
          DeclaredBy(statements[1..]));
    }
  }

  lemma TouchedTogether(s: Scope, at: Scope, t: Scope, u: Scope, some: set<string>, more: set<string>)
    requires SameElsewhere(s, at, {}) && SameElsewhere(at, t, some) && SameElsewhere(t, u, more)
    ensures SameElsewhere(s, u, some + more)
  {
    forall k | !IsTouched(k, some + more) ensures (k in s <==> k in u) && (k in s ==> s[k] == u[k]) {
      assert !IsTouched(k, some) && !IsTouched(k, more) && !IsTouched(k, {});
    }
  }

  /**
   * Lowering statements changes no entry but those of the names they declare and the flag, restores
   * the path, and leaves the flag or a marker if and only if something was marked.
   */
  lemma StatementsTouch(env: Env, fuel: nat, statements: seq<Statement>, scope: Scope, slots: Slots)
    requires LowerStatements(env, fuel, statements, scope, slots).Ok?
    ensures var r := LowerStatements(env, fuel, statements, scope, slots).value;
            && SameElsewhere(scope, r.scope, DeclaredBy(statements)) && RenderPathOf(r.scope) == RenderPathOf(scope)
            && Kept(scope, r) && KeptInNodes(scope, r.nodes, r.trace)
  {
    var r := LowerFrom(env, fuel, statements, 0, RenderPathOf(scope), scope, slots).value;
    FromTouches(env, fuel, statements, 0, RenderPathOf(scope), scope, slots);
    TouchedTogether(scope, scope, r.scope, At(r.scope, RenderPathOf(scope)), DeclaredBy(statements), {});
    assert DeclaredBy(statements) + {} == DeclaredBy(statements);
    StatementsKeep(env, fuel, statements, scope, slots);
  }

  // Keyed loops -------------------------------------------------------------------------------

  /** The template, filled in for any value, is the body lowered for that value. */
  ghost predicate IsSoundTemplate(env: Env, fuel: nat, b: string, body: seq<Statement>, scope: Scope, slots: Slots,
      template: seq<Node>) {
    forall o: string, w: Value
      | LowerItem(env, fuel, b, body, o, scope, slots, w).Ok?
          && Signalless(LowerItem(env, fuel, b, body, o, scope, slots, w).value.trace) ::
      Instantiate(template, w) == LowerItem(env, fuel, b, body, o, scope, slots, w).value.nodes
  }

  /** One element for each item, with distinct keys; a template without marks, and sound for bodies of the fragment. */
  ghost predicate KeyedPromise(env: Env, fuel: nat, b: string, body: seq<Statement>, scope: Scope, slots: Slots,
      items: seq<Value>, k: KeyedItems) {
    && |k.children| == |items| && DistinctKeys(k.children)
    && (k.template.Some? ==>
          && Supported(scope) && !MarkerIn(k.template.value) && Harmless(k.template.value)
          && (NoStaleAlias(scope, b) && Fragment(env, fuel, body, {b, "null"}, slots) && Regular(k.trace) ==>
                IsSoundTemplate(env, fuel, b, body, scope, slots, k.template.value)))
  }

  lemma KeyedKeepsPromise(env: Env, fuel: nat, b: string, key: Expr, body: seq<Statement>, here: string, scope: Scope,
      slots: Slots, items: seq<Value>)
    requires LowerKeyed(env, fuel, b, key, body, here, scope, slots, items, {}, None).Ok?
    ensures KeyedPromise(env, fuel, b, body, scope, slots, items,
            LowerKeyed(env, fuel, b, key, body, here, scope, slots, items, {}, None).value)
  {
    var k := LowerKeyed(env, fuel, b, key, body, here, scope, slots, items, {}, None).value;
    ItemKeysAreDistinct(env, fuel, b, key, body, here, scope, slots, items);
    if k.template.Some? {
      var i, p := TemplateIsSomeItem(env, fuel, b, key, body, here, scope, slots, items, {}, None);
      TemplateExactly(env, fuel, b, body, p, scope, slots, items[i]);
      SafeExactly(k.template.value);
      if NoStaleAlias(scope, b) && Fragment(env, fuel, body, {b, "null"}, slots) && Regular(k.trace) {
        TemplateOfItemIsSound(env, fuel, b, body, p, scope, slots, items[i]);
      }
    }
  }

  lemma TemplateOfItemIsSound(env: Env, fuel: nat, b: string, body: seq<Statement>, p: string, scope: Scope,
      slots: Slots, v: Value)
    requires NoStaleAlias(scope, b) && Fragment(env, fuel, body, {b, "null"}, slots)
    requires LowerItem(env, fuel, b, body, p, scope, slots, v).Ok?
    requires var r := LowerItem(env, fuel, b, body, p, scope, slots, v).value; CanBeTemplate(r) && Regular(r.trace)
    ensures IsSoundTemplate(env, fuel, b, body, scope, slots,
            LowerItem(env, fuel, b, body, p, scope, slots, v).value.nodes)
  {
    forall o: string, w: Value
      | LowerItem(env, fuel, b, body, o, scope, slots, w).Ok?
          && Signalless(LowerItem(env, fuel, b, body, o, scope, slots, w).value.trace)
      ensures Instantiate(LowerItem(env, fuel, b, body, p, scope, slots, v).value.nodes, w)
              == LowerItem(env, fuel, b, body, o, scope, slots, w).value.nodes
    {
      CleanItemIsTemplate(env, fuel, b, body, p, o, scope, slots, v, w);
    }
  }
}
