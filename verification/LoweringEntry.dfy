/** Entering a component for two items: its body starts in scopes that differ only in what comes from the item. */
module LoweringEntry {
  import opened Text
  import opened LoweringModel
  import opened Evaluation
  import opened Lowering
  import opened LoweringFragment
  import opened LoweringCoupling

  // Names -------------------------------------------------------------------------------------

  /** The names that come from the item are among the given ones. */
  ghost predicate NamesWithin(s: Scope, taken: set<string>) {
    ReferencesWithin(s, Aliases(taken))
  }

  lemma UntouchedIsFree(e: Expr, s: Scope, taken: set<string>)
    requires NamesWithin(s, taken) && Untouched(e, taken)
    ensures !ReferencesItem(e, s)
  {
    FewerReferences(e, s, Aliases(taken));
  }

  lemma CoupledNames(s: Scope, t: Scope, b: string, v: Value, w: Value, taken: set<string>)
    requires Coupled(s, t, b, v, w, taken)
    ensures NamesWithin(s, taken)
  {
    forall x | ReferencesItem(Ident(x), s) ensures ReferencesItem(Ident(x), Aliases(taken)) {
      if x != b {
        assert AliasTracks(s, x, v);
      }
      assert EachParam(x) in Aliases(taken);
    }
  }

  /** An expression with a path is a chain from one of the names. */
  lemma PathHasRoot(e: Expr, s: Scope, t: Scope, b: string, v: Value, w: Value, taken: set<string>)
    requires Coupled(s, t, b, v, w, taken) && EachRenderPath(e, s).Some?
    ensures RootIn(e, taken) && ReferencesItem(e, s)
  {
    PathExactlyOnChains(e, s);
    var root := ChainOf(e).value.0;
    if root != b {
      assert AliasTracks(s, root, v);
    }
  }

  // Properties --------------------------------------------------------------------------------

  predicate PassesPath(props: seq<Prop>, source: Scope, x: string) {
    exists p <- props :: p.name == x && EachRenderPath(p.value, source).Some?
  }

  /** A component's own scope has an alias for each property with a path, and is the given scope otherwise. */
  lemma {:induction false} Propagated(props: seq<Prop>, source: Scope, target: Scope)
    requires DistinctNames(props)
    ensures var r := PropagateParams(props, source, target);
            && (forall k <- target :: k in r)
            && (forall k <- r | !(k.EachParam? && PassesPath(props, source, k.name)) ::
                k in target && r[k] == target[k])
            && (forall p <- props | EachRenderPath(p.value, source).Some? ::
                  && EachParam(p.name) in r
                  && r[EachParam(p.name)] == Str(EachRenderPath(p.value, source).value))
  {
    if props != [] {
      var path := EachRenderPath(props[0].value, source);
      var next := if path.Some? then target[EachParam(props[0].name) := Str(path.value)] else target;
      var r := PropagateParams(props, source, target);
      TailNames(props);
      Propagated(props[1..], source, next);
      forall k <- r | !(k.EachParam? && PassesPath(props, source, k.name)) ensures k in target && r[k] == target[k] {
        assert props[0] in props && forall p <- props[1..] :: p in props;
        assert !(k.EachParam? && PassesPath(props[1..], source, k.name));
      }
      if path.Some? {
        assert !PassesPath(props[1..], source, props[0].name);
      }
    }
  }

  /** What a component is passed for either item: the value at a path, or the same value. */
  ghost predicate Passed(props: seq<Prop>, def: ComponentDef, s: Scope, v: Value, w: Value, m: map<string, Value>,
      n: map<string, Value>) {
    && m.Keys == n.Keys
    && (forall name <- m :: exists p <- props :: p.name == name)
    && forall p <- props ::
         && p.name in m
         && match EachRenderPath(p.value, s)
            case Some(path) => IsParam(def, p.name) && m[p.name] == ReadPath(v, path) && n[p.name] == ReadPath(w, path)
            case None => m[p.name] == n[p.name]
  }

  lemma PropsArePassed(env: Env, c: Component, def: ComponentDef, s: Scope, t: Scope, b: string, v: Value, w: Value,
      taken: set<string>)
    requires Coupled(s, t, b, v, w, taken) && LocalOk(c, def, taken)
    requires EvalProps(env, c.props, s).Ok? && EvalProps(env, c.props, t).Ok?
    requires Signalless(EvalProps(env, c.props, s).value.trace) && Signalless(EvalProps(env, c.props, t).value.trace)
    ensures Passed(c.props, def, s, v, w, EvalProps(env, c.props, s).value.props,
            EvalProps(env, c.props, t).value.props)
  {
    var m, n := EvalProps(env, c.props, s).value.props, EvalProps(env, c.props, t).value.props;
    PropsAreValues(env, c.props, s);
    PropsAreValues(env, c.props, t);
    forall name ensures name in m <==> name in n {}
    forall p <- c.props
      ensures p.name in m
      ensures match EachRenderPath(p.value, s)
              case Some(path) => IsParam(def, p.name) && m[p.name] == ReadPath(v, path)
                  && n[p.name] == ReadPath(w, path)
              case None => m[p.name] == n[p.name]
    {
      assert PassedOk(p, def, taken);
      OnePassed(env, p, def, s, t, b, v, w, taken);
    }
  }

  lemma OnePassed(env: Env, p: Prop, def: ComponentDef, s: Scope, t: Scope, b: string, v: Value, w: Value,
      taken: set<string>)
    requires Coupled(s, t, b, v, w, taken) && PassedOk(p, def, taken)
    requires Eval(env, p.value, s).Ok? && Eval(env, p.value, t).Ok?
    ensures match EachRenderPath(p.value, s)
            case Some(path) =>
              && IsParam(def, p.name)
              && Eval(env, p.value, s).value == ReadPath(v, path) && Eval(env, p.value, t).value == ReadPath(w, path)
            case None => Eval(env, p.value, s).value == Eval(env, p.value, t).value
  {
    CoupledPaths(p.value, s, t, b, v, w, taken);
    if Untouched(p.value, taken) {
      CoupledNames(s, t, b, v, w, taken);
      UntouchedIsFree(p.value, s, taken);
    }
    if EachRenderPath(p.value, s).Some? {
      PathHasRoot(p.value, s, t, b, v, w, taken);
      PathIsExact(env, p.value, s, b, v);
      PathIsExact(env, p.value, t, b, w);
    } else {
      PathExactlyOnChains(p.value, s);
      CoupledConstant(env, p.value, s, t, b, v, w, taken);
    }
  }

  /** Neither the target nor the path of a text is among the attributes. */
  predicate TargetFree(attrs: map<string, string>) {
    TARGET_ATTR !in attrs && PATH_ATTR !in attrs
  }

  /** The attributes passed through are the same for both items. */
  lemma PassthroughAgrees(c: Component, def: ComponentDef, s: Scope, v: Value, w: Value, taken: set<string>,
      m: map<string, Value>, n: map<string, Value>)
    requires LocalOk(c, def, taken) && Passed(c.props, def, s, v, w, m, n)
    ensures Passthrough(def, m) == Passthrough(def, n) && TargetFree(Passthrough(def, m))
  {
    forall name | name in m && !IsParam(def, name) ensures m[name] == n[name] && !HasPrefix(name, "data-ax-each-") {
      var p :| p in c.props && p.name == name;
      assert PassedOk(p, def, taken);
    }
    SamePassthrough(def, m, n);
    assert TARGET_ATTR[..13] == "data-ax-each-" && PATH_ATTR[..13] == "data-ax-each-";
  }

  lemma SamePassthrough(def: ComponentDef, m: map<string, Value>, n: map<string, Value>)
    requires m.Keys == n.Keys && forall name <- m | !IsParam(def, name) :: m[name] == n[name]
    ensures Passthrough(def, m) == Passthrough(def, n)
    ensures forall name <- Passthrough(def, m) :: name in m && !IsParam(def, name)
  {
    forall name ensures (forall p <- def.params :: p.name != name) == !IsParam(def, name) {}
  }

  lemma StyleAgrees(env: Env, c: Component, def: ComponentDef, s: Scope, t: Scope, b: string, v: Value, w: Value,
      taken: set<string>)
    requires Coupled(s, t, b, v, w, taken) && LocalOk(c, def, taken)
    requires StyleAttrs(env, c, s).Ok? && StyleAttrs(env, c, t).Ok?
    ensures StyleAttrs(env, c, s) == StyleAttrs(env, c, t) && TargetFree(StyleAttrs(env, c, s).value)
  {
    CoupledNames(s, t, b, v, w, taken);
    if c.class_.Some? {
      UntouchedIsFree(c.class_.value, s, taken);
      CoupledConstant(env, c.class_.value, s, t, b, v, w, taken);
    }
    if c.recipe.Some? {
      UntouchedIsFree(c.recipe.value, s, taken);
      CoupledConstant(env, c.recipe.value, s, t, b, v, w, taken);
    }
  }

  // Parameters and states ---------------------------------------------------------------------

  predicate IsBound(params: seq<Param>, k: Key) {
    k.User? && exists q <- params :: q.name == k.name
  }

  /** Binding parameters changes no other entry, and gives each passed parameter what is passed. */
  lemma {:induction false} ParamsBound(env: Env, def: ComponentDef, params: seq<Param>, props: map<string, Value>,
      scope: Scope)
    requires BindParams(env, def, params, props, scope).Ok?
    ensures var r := BindParams(env, def, params, props, scope).value;
            && (forall k | !IsBound(params, k) :: (k in r <==> k in scope) && (k in r ==> r[k] == scope[k]))
            && (forall q <- params :: User(q.name) in r && (q.name in props ==> r[User(q.name)] == props[q.name]))
  {
    if params != [] {
      var q := params[0];
      var v := if q.name in props then props[q.name]
               else if q.default.Some? then Eval(env, q.default.value, scope).value
               else Null;
      var r := BindParams(env, def, params, props, scope).value;
      ParamsBound(env, def, params[1..], props, scope[User(q.name) := v]);
      forall k | !IsBound(params, k) ensures (k in r <==> k in scope) && (k in r ==> r[k] == scope[k]) {
        assert params[0] in params && forall x <- params[1..] :: x in params;
        assert !IsBound(params[1..], k);
      }
      forall x <- params ensures User(x.name) in r && (x.name in props ==> r[User(x.name)] == props[x.name]) {
        if x !in params[1..] {
          assert x == q;
          if IsBound(params[1..], User(q.name)) {
            var y :| y in params[1..] && y.name == q.name;
          }
        }
      }
    }
  }

  lemma {:induction false} ParamsAgree(env: Env, def: ComponentDef, params: seq<Param>, m: map<string, Value>,
      n: map<string, Value>, s: Scope, t: Scope)
    requires AgreeOffItem(s, t) && m.Keys == n.Keys
    requires forall q <- params | q.name in m :: m[q.name] == n[q.name] || ReferencesItem(Ident(q.name), s)
    requires forall q <- params | q.default.Some? :: !ReferencesItem(q.default.value, s)
    requires BindParams(env, def, params, m, s).Ok? && BindParams(env, def, params, n, t).Ok?
    ensures AgreeOffItem(BindParams(env, def, params, m, s).value, BindParams(env, def, params, n, t).value)
  {
    if params != [] {
      var q := params[0];
      assert q in params;
      if q.default.Some? {
        UnreferencedIsConstant(env, q.default.value, s, t);
      }
      var x := if q.name in m then m[q.name]
               else if q.default.Some? then Eval(env, q.default.value, s).value else Null;
      var y := if q.name in n then n[q.name]
               else if q.default.Some? then Eval(env, q.default.value, t).value else Null;
      var s', t' := s[User(q.name) := x], t[User(q.name) := y];
      forall e ensures ReferencesItem(e, s') == ReferencesItem(e, s) {
        SameEntries(e, s, s');
      }
      assert forall p <- params[1..] :: p in params;
      ParamsAgree(env, def, params[1..], m, n, s', t');
    }
  }

  lemma {:induction false} StatesCoupled(env: Env, states: seq<State>, s: Scope, t: Scope, b: string, v: Value,
      w: Value, taken: set<string>)
    requires Coupled(s, t, b, v, w, taken)
    requires forall q <- states :: q.name !in taken && Untouched(q.initial, taken)
    requires BindStates(env, states, s).Ok? && BindStates(env, states, t).Ok?
    ensures Coupled(BindStates(env, states, s).value, BindStates(env, states, t).value, b, v, w, taken)
  {
    if states != [] {
      assert states[0] in states && forall q <- states[1..] :: q in states;
      CoupledNames(s, t, b, v, w, taken);
      UntouchedIsFree(states[0].initial, s, taken);
      CoupledConstant(env, states[0].initial, s, t, b, v, w, taken);
      var x := Eval(env, states[0].initial, s).value;
      CoupledBind(s, t, b, v, w, taken, states[0].name, x);
      StatesCoupled(env, states[1..], s[User(states[0].name) := x], t[User(states[0].name) := x], b, v, w, taken);
    }
  }

  // Entering ----------------------------------------------------------------------------------

  function OwnScope(c: Component, s: Scope): Scope {
    PropagateParams(c.props, s, s[InstancePath := Str(RenderPathOf(s))])
  }

  /** A component's own scopes have the same entries, and the same aliases. */
  lemma OwnEntries(c: Component, s: Scope, t: Scope, b: string, v: Value, w: Value, taken: set<string>)
    requires Coupled(s, t, b, v, w, taken) && DistinctNames(c.props)
    ensures OwnScope(c, s).Keys == OwnScope(c, t).Keys
    ensures forall x | EachParam(x) in OwnScope(c, s) ::
              && x in LocalTaken(c, taken) && OwnScope(c, s)[EachParam(x)] == OwnScope(c, t)[EachParam(x)]
  {
    var own, other := OwnScope(c, s), OwnScope(c, t);
    Propagated(c.props, s, s[InstancePath := Str(RenderPathOf(s))]);
    Propagated(c.props, t, t[InstancePath := Str(RenderPathOf(t))]);
    forall p <- c.props ensures EachRenderPath(p.value, s) == EachRenderPath(p.value, t) {
      CoupledPaths(p.value, s, t, b, v, w, taken);
    }
    forall k ensures k in own <==> k in other {
      if k.EachParam? {
        assert PassesPath(c.props, s, k.name) == PassesPath(c.props, t, k.name);
      }
    }
    forall x | EachParam(x) in own ensures x in LocalTaken(c, taken) && own[EachParam(x)] == other[EachParam(x)] {
      if PassesPath(c.props, s, x) {
        var p :| p in c.props && p.name == x && EachRenderPath(p.value, s).Some?;
        PathHasRoot(p.value, s, t, b, v, w, taken);
      } else {
        assert !PassesPath(c.props, t, x);
      }
    }
  }

  /** Before its parameters are bound, a component's own scope already has their aliases. */
  lemma OwnAgrees(c: Component, s: Scope, t: Scope, b: string, v: Value, w: Value, taken: set<string>)
    requires Coupled(s, t, b, v, w, taken) && DistinctNames(c.props) && forall p <- c.props :: p.name != "null"
    ensures AgreeOffItem(OwnScope(c, s), OwnScope(c, t)) && NamesWithin(OwnScope(c, s), LocalTaken(c, taken))
    ensures forall p <- c.props | EachRenderPath(p.value, s).Some? :: ReferencesItem(Ident(p.name), OwnScope(c, s))
  {
    var own, other := OwnScope(c, s), OwnScope(c, t);
    Propagated(c.props, s, s[InstancePath := Str(RenderPathOf(s))]);
    Propagated(c.props, t, t[InstancePath := Str(RenderPathOf(t))]);
    OwnEntries(c, s, t, b, v, w, taken);
    forall x {:trigger User(x) in own} | User(x) in own
      ensures ReferencesItem(Ident(x), own) || own[User(x)] == other[User(x)]
    {
      assert MayDiffer(User(x), s) || s[User(x)] == t[User(x)];
    }
    OwnNames(c, s, t, b, v, w, taken);
  }

  lemma OwnNames(c: Component, s: Scope, t: Scope, b: string, v: Value, w: Value, taken: set<string>)
    requires Coupled(s, t, b, v, w, taken) && DistinctNames(c.props) && forall p <- c.props :: p.name != "null"
    ensures NamesWithin(OwnScope(c, s), LocalTaken(c, taken))
  {
    var own := OwnScope(c, s);
    Propagated(c.props, s, s[InstancePath := Str(RenderPathOf(s))]);
    OwnEntries(c, s, t, b, v, w, taken);
    forall x | ReferencesItem(Ident(x), own) ensures ReferencesItem(Ident(x), Aliases(LocalTaken(c, taken))) {
      if x != b && !PassesPath(c.props, s, x) {
        assert AliasTracks(s, x, v);
      }
      assert EachParam(x) in Aliases(LocalTaken(c, taken));
    }
  }

  /** What one item passes along its paths. */
  ghost predicate PassedAlong(props: seq<Prop>, def: ComponentDef, s: Scope, v: Value, m: map<string, Value>) {
    forall p <- props | EachRenderPath(p.value, s).Some? ::
      IsParam(def, p.name) && p.name in m && m[p.name] == ReadPath(v, EachRenderPath(p.value, s).value)
  }

  ghost predicate BoundFrom(own: Scope, bound: Scope, def: ComponentDef, m: map<string, Value>) {
    && (forall k | !IsBound(def.params, k) :: (k in bound <==> k in own) && (k in bound ==> bound[k] == own[k]))
    && (forall q <- def.params :: User(q.name) in bound && (q.name in m ==> bound[User(q.name)] == m[q.name]))
  }

  /** Once its parameters are bound, the aliases of a component's own scope have the values at their paths. */
  lemma BoundTracks(c: Component, def: ComponentDef, s: Scope, bound: Scope, b: string, v: Value, taken: set<string>,
      m: map<string, Value>)
    requires AliasesTrack(s, b, v) && b in taken && forall x | EachParam(x) in s :: x in taken
    requires LocalOk(c, def, taken) && PassedAlong(c.props, def, s, v, m) && BoundFrom(OwnScope(c, s), bound, def, m)
    ensures AliasesTrack(bound, b, v)
  {
    Propagated(c.props, s, s[InstancePath := Str(RenderPathOf(s))]);
    if IsBound(def.params, User(b)) {
      TakenIsPassed(c, def, s, b, v, taken, b);
    }
    forall x | EachParam(x) in bound && x != b ensures AliasTracks(bound, x, v) {
      AliasIsBound(c, def, s, bound, b, v, taken, m, x);
    }
  }

  /** A parameter whose name already comes from the item is passed under its own path. */
  lemma TakenIsPassed(c: Component, def: ComponentDef, s: Scope, b: string, v: Value, taken: set<string>, x: string)
    requires AliasesTrack(s, b, v) && LocalOk(c, def, taken) && IsBound(def.params, User(x)) && x in taken
    requires x == b || EachParam(x) in s
    ensures exists p <- c.props :: p.name == x && p.value == Ident(x) && EachRenderPath(p.value, s).Some?
    ensures x == b ==> EachRenderPath(Ident(x), s) == Some("")
  {
    var q :| q in def.params && q.name == x;
    assert ParamOk(q, c, taken);
    assert EachRenderPath(Prop(x, Ident(x)).value, s).Some?;
  }

  lemma AliasIsBound(c: Component, def: ComponentDef, s: Scope, bound: Scope, b: string, v: Value, taken: set<string>,
      m: map<string, Value>, x: string)
    requires AliasesTrack(s, b, v) && b in taken && forall x | EachParam(x) in s :: x in taken
    requires LocalOk(c, def, taken) && PassedAlong(c.props, def, s, v, m) && BoundFrom(OwnScope(c, s), bound, def, m)
    requires EachParam(x) in bound && x != b
    ensures AliasTracks(bound, x, v)
  {
    Propagated(c.props, s, s[InstancePath := Str(RenderPathOf(s))]);
    if PassesPath(c.props, s, x) {
      var p :| p in c.props && p.name == x && EachRenderPath(p.value, s).Some?;
      assert PassedOk(p, def, taken);
    } else {
      assert AliasTracks(s, x, v);
      if IsBound(def.params, User(x)) {
        TakenIsPassed(c, def, s, b, v, taken, x);
      }
    }
  }

  /** A component's body starts, for two items, in scopes that differ only in what comes from the item. */
  lemma EntryCoupled(env: Env, c: Component, def: ComponentDef, s: Scope, t: Scope, b: string, v: Value, w: Value,
      taken: set<string>)
    requires Coupled(s, t, b, v, w, taken) && LocalOk(c, def, taken)
    requires EnterLocal(env, c, def, s).Ok? && EnterLocal(env, c, def, t).Ok?
    requires Signalless(EnterLocal(env, c, def, s).value.trace) && Signalless(EnterLocal(env, c, def, t).value.trace)
    ensures var d, e := EnterLocal(env, c, def, s).value, EnterLocal(env, c, def, t).value;
            d.attrs == e.attrs && TargetFree(d.attrs) && Coupled(d.scope, e.scope, b, v, w, LocalTaken(c, taken))
  {
    var m, n := EvalProps(env, c.props, s).value.props, EvalProps(env, c.props, t).value.props;
    PropsArePassed(env, c, def, s, t, b, v, w, taken);
    PassthroughAgrees(c, def, s, v, w, taken, m, n);
    StyleAgrees(env, c, def, s, t, b, v, w, taken);
    BoundCoupled(env, c, def, s, t, b, v, w, taken, m, n);
    StatesCoupled(env, def.states, BindParams(env, def, def.params, m, OwnScope(c, s)).value,
        BindParams(env, def, def.params, n, OwnScope(c, t)).value, b, v, w, LocalTaken(c, taken));
  }

  lemma BoundCoupled(env: Env, c: Component, def: ComponentDef, s: Scope, t: Scope, b: string, v: Value, w: Value,
      taken: set<string>, m: map<string, Value>, n: map<string, Value>)
    requires Coupled(s, t, b, v, w, taken) && LocalOk(c, def, taken) && Passed(c.props, def, s, v, w, m, n)
    requires BindParams(env, def, def.params, m, OwnScope(c, s)).Ok?
             && BindParams(env, def, def.params, n, OwnScope(c, t)).Ok?
    ensures Coupled(BindParams(env, def, def.params, m, OwnScope(c, s)).value,
                    BindParams(env, def, def.params, n, OwnScope(c, t)).value, b, v, w, LocalTaken(c, taken))
  {
    var bound, other := BindParams(env, def, def.params, m, OwnScope(c, s)).value,
        BindParams(env, def, def.params, n, OwnScope(c, t)).value;
    BoundAgree(env, c, def, s, t, b, v, w, taken, m, n);
    ParamsBound(env, def, def.params, m, OwnScope(c, s));
    ParamsBound(env, def, def.params, n, OwnScope(c, t));
    forall p <- c.props ensures EachRenderPath(p.value, s) == EachRenderPath(p.value, t) {
      CoupledPaths(p.value, s, t, b, v, w, taken);
    }
    BoundTracks(c, def, s, bound, b, v, taken, m);
    BoundTracks(c, def, t, other, b, w, taken, n);
    OwnEntries(c, s, t, b, v, w, taken);
    OwnFrame(c, s, t, b, v, w, taken);
  }

  /** The lowerer's other entries are untouched in a component's own scope. */
  lemma OwnFrame(c: Component, s: Scope, t: Scope, b: string, v: Value, w: Value, taken: set<string>)
    requires Coupled(s, t, b, v, w, taken) && DistinctNames(c.props)
    ensures forall k | k in OwnScope(c, s) && !k.User? && k != RenderPath && k != InstancePath ::
              k in OwnScope(c, t) && OwnScope(c, s)[k] == OwnScope(c, t)[k]
  {
    OwnEntries(c, s, t, b, v, w, taken);
    Propagated(c.props, s, s[InstancePath := Str(RenderPathOf(s))]);
    Propagated(c.props, t, t[InstancePath := Str(RenderPathOf(t))]);
    forall k | k in OwnScope(c, s) && !k.User? && !k.EachParam? && k != RenderPath && k != InstancePath
      ensures OwnScope(c, s)[k] == OwnScope(c, t)[k]
    {
      assert MayDiffer(k, s) || s[k] == t[k];
    }
  }

  lemma BoundAgree(env: Env, c: Component, def: ComponentDef, s: Scope, t: Scope, b: string, v: Value, w: Value,
      taken: set<string>, m: map<string, Value>, n: map<string, Value>)
    requires Coupled(s, t, b, v, w, taken) && LocalOk(c, def, taken) && Passed(c.props, def, s, v, w, m, n)
    requires BindParams(env, def, def.params, m, OwnScope(c, s)).Ok?
             && BindParams(env, def, def.params, n, OwnScope(c, t)).Ok?
    ensures AgreeOffItem(BindParams(env, def, def.params, m, OwnScope(c, s)).value,
                         BindParams(env, def, def.params, n, OwnScope(c, t)).value)
  {
    var own := OwnScope(c, s);
    assert forall p <- c.props :: PassedOk(p, def, taken);
    OwnAgrees(c, s, t, b, v, w, taken);
    forall q <- def.params | q.name in m ensures m[q.name] == n[q.name] || ReferencesItem(Ident(q.name), own) {
      var p :| p in c.props && p.name == q.name;
    }
    forall q <- def.params | q.default.Some? ensures !ReferencesItem(q.default.value, own) {
      assert ParamOk(q, c, taken);
      UntouchedIsFree(q.default.value, own, LocalTaken(c, taken));
    }
    ParamsAgree(env, def, def.params, m, n, own, OwnScope(c, t));
  }

  // Leaving -----------------------------------------------------------------------------------

  lemma {:induction false} SlotNameAgrees(env: Env, props: seq<Prop>, names: set<string>, s: Scope, t: Scope,
      b: string, v: Value, w: Value, taken: set<string>)
    requires Coupled(s, t, b, v, w, taken) && SlotNamesOk(props, names, taken)
    ensures SlotName(env, props, names, s) == SlotName(env, props, names, t)
  {
    if props != [] {
      assert props[0] in props;
      if props[0].name in names {
        CoupledNames(s, t, b, v, w, taken);
        UntouchedIsFree(props[0].value, s, taken);
        CoupledConstant(env, props[0].value, s, t, b, v, w, taken);
      } else {
        SlotNameAgrees(env, props[1..], names, s, t, b, v, w, taken);
      }
    }
  }

  lemma {:induction false} SelectionAgrees(env: Env, handed: seq<Statement>, requested: Option<string>, s: Scope,
      t: Scope, b: string, v: Value, w: Value, taken: set<string>)
    requires Coupled(s, t, b, v, w, taken)
    requires forall x <- handed | x.Use? :: SlotNamesOk(x.component.props, {"slot"}, taken)
    ensures SelectSlot(env, handed, requested, s) == SelectSlot(env, handed, requested, t)
  {
    if handed != [] {
      assert handed[0] in handed && forall x <- handed[1..] :: x in handed;
      if handed[0].Use? {
        SlotNameAgrees(env, handed[0].component.props, {"slot"}, s, t, b, v, w, taken);
      }
      SelectionAgrees(env, handed[1..], requested, s, t, b, v, w, taken);
    }
  }

  lemma MergeAround(attrs: map<string, string>, incoming: map<string, string>, name: string, text: string)
    requires name !in incoming
    ensures MergeAttrs(attrs, incoming) - {name} == MergeAttrs(attrs - {name}, incoming)
    ensures MergeAttrs(attrs, incoming)[name := text] == MergeAttrs(attrs[name := text], incoming)
  {
  }

  lemma {:induction false} MergeCommutes(attrs: map<string, string>, incoming: map<string, string>,
      bindings: seq<RenderBinding>, item: Value)
    requires forall x <- bindings :: x.target !in incoming
    ensures ApplyBindings(MergeAttrs(attrs, incoming), bindings, item)
            == MergeAttrs(ApplyBindings(attrs, bindings, item), incoming)
    decreases |bindings|
  {
    if bindings != [] {
      var next := ApplyBinding(attrs, bindings[0], item);
      assert bindings[0] in bindings && forall x <- bindings[1..] :: x in bindings;
      MergeAround(attrs, incoming, bindings[0].target, AsString(ReadPath(item, bindings[0].path)));
      MergeCommutes(next, incoming, bindings[1..], item);
    }
  }

  /** Passing attributes through and filling in commute, unless an attribute with a path is overridden. */
  lemma AttrsCommute(nodes: seq<Node>, incoming: map<string, string>, item: Value)
    requires TargetFree(incoming) && !Overrides(nodes, incoming)
    ensures Instantiate(AttrsToFirst(nodes, incoming), item) == AttrsToFirst(Instantiate(nodes, item), incoming)
  {
    if nodes != [] && nodes[0].Element? {
      var changed := AttrsToFirst(nodes, incoming);
      assert changed[1..] == nodes[1..];
      MergeCommutes(nodes[0].attrs, incoming, nodes[0].bindings, item);
    }
  }
}
