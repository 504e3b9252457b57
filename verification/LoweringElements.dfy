/** One native element for two items: its bindings write what depends on the item, and the rest is the same. */
module LoweringElements {
  import opened Text
  import opened LoweringModel
  import opened Evaluation
  import opened Lowering
  import opened LoweringMarks
  import opened LoweringFragment
  import opened LoweringCoupling

  /** No value is a state signal, no mark strays, and no attribute with a path is overridden. */
  predicate Regular(trace: seq<Event>) {
    forall e <- trace :: !e.StateSignal? && e != StrayMark && e != Overridden
  }

  /** What one run's result means for the other's. */
  ghost predicate Follows(r: Lowered, q: Lowered, b: string, v: Value, w: Value, taken: set<string>) {
    Coupled(r.scope, q.scope, b, v, w, taken) && Instantiate(r.nodes, w) == q.nodes
  }

  /** A run that may become a template, beside one for another item. */
  ghost predicate Clean(r: Lowered, q: Lowered) {
    Supported(r.scope) && CleanNodes(r, q)
  }

  ghost predicate CleanNodes(r: Lowered, q: Lowered) {
    TemplateIsSafe(r.nodes) && Regular(r.trace) && Signalless(q.trace)
  }

  lemma {:induction false} SafeConcat(a: seq<Node>, b: seq<Node>)
    ensures TemplateIsSafe(a + b) <==> TemplateIsSafe(a) && TemplateIsSafe(b)
  {
    if a == [] {
      assert a + b == b;
    } else {
      assert (a + b)[1..] == a[1..] + b;
      SafeConcat(a[1..], b);
    }
  }

  lemma SafeOne(node: Node)
    ensures TemplateIsSafe([node]) == NodeIsSafe(node)
  {
    assert [node][1..] == [];
  }

  // The element -------------------------------------------------------------------------------

  /** The children of a clean element are clean. */
  lemma ChildrenAreClean(env: Env, c: Component, r: Lowered, q: Lowered)
    requires EachBinding in r.scope
    requires NativeElement(env, c, r.nodes, r.scope).Ok? && NativeElement(env, c, q.nodes, q.scope).Ok?
    requires var r2, q2 := NativeElement(env, c, r.nodes, r.scope).value, NativeElement(env, c, q.nodes, q.scope).value;
             Clean(Lowered(r2.nodes, r2.scope, r.trace + r2.trace), Lowered(q2.nodes, q2.scope, q.trace + q2.trace))
    ensures Clean(r, q)
    ensures Clean(NativeElement(env, c, r.nodes, r.scope).value, NativeElement(env, c, q.nodes, q.scope).value)
  {
    var node := NativeElement(env, c, r.nodes, r.scope).value.nodes[0];
    AttachKeeps(c, node.attrs, r.scope);
    SafeOne(node);
  }

  lemma ElementFollows(env: Env, c: Component, rs: seq<Node>, qs: seq<Node>, s: Scope, t: Scope, b: string, v: Value,
      w: Value, taken: set<string>)
    requires Coupled(s, t, b, v, w, taken) && NativeOk(env, c) && Instantiate(rs, w) == qs
    requires NativeElement(env, c, rs, s).Ok? && NativeElement(env, c, qs, t).Ok?
    requires Clean(NativeElement(env, c, rs, s).value, NativeElement(env, c, qs, t).value)
    ensures Follows(NativeElement(env, c, rs, s).value, NativeElement(env, c, qs, t).value, b, v, w, taken)
  {
    var r, q := NativeElement(env, c, rs, s).value.nodes[0], NativeElement(env, c, qs, t).value.nodes[0];
    AttachIsTracked(c, r.attrs, s);
    AttrsFollow(env, c, s, t, b, v, w, taken);
    CoupledTracked(c.props, s, t, b, v, w, taken);
    AttachSame(c, r.attrs, q.attrs, s, t, b, v, w, taken);
    TargetIsFree(env, c, s);
    InstantiateOne(r, w);
  }

  /** The bindings of the properties that name an item path. */
  function Tracked(props: seq<Prop>, scope: Scope): seq<RenderBinding> {
    if props == [] then [] else TrackedProp(props[0], scope) + Tracked(props[1..], scope)
  }

  function TrackedProp(p: Prop, scope: Scope): seq<RenderBinding> {
    match EachRenderPath(p.value, scope)
    case Some(path) => [RenderBinding(p.name, path, if IsBooleanAttr(p.name) then SetBoolean else SetAttribute)]
    case None => []
  }

  function TrackedRecipe(c: Component, scope: Scope): seq<RenderBinding> {
    if c.recipe.None? then []
    else match EachRenderPath(c.recipe.value, scope)
      case Some(path) => [RenderBinding("data-recipe", path, SetAttribute)]
      case None => []
  }

  /** A property is either tracked and patchable, or does not depend on the item. */
  predicate PropIsSettled(p: Prop, scope: Scope) {
    match EachRenderPath(p.value, scope)
    case Some(_) => RenderTarget(p.name) == Some(p.name) && !IsUnpatchable(p.name)
    case None => !ReferencesItem(p.value, scope)
  }

  predicate StyleIsSettled(c: Component, scope: Scope) {
    && (c.class_.Some? ==> !ReferencesItem(c.class_.value, scope))
    && (c.recipe.Some? ==> EachRenderPath(c.recipe.value, scope).Some? || !ReferencesItem(c.recipe.value, scope))
  }

  lemma {:induction false} AttachPropsTracked(props: seq<Prop>, attrs: map<string, string>, scope: Scope)
    requires EachBinding in scope && Supported(AttachProps(props, attrs, scope).scope)
    ensures AttachProps(props, attrs, scope) == Attached(Tracked(props, scope), scope, [])
    ensures forall p <- props :: PropIsSettled(p, scope)
  {
    if props != [] {
      var first := AttachProp(props[0], attrs, scope);
      AttachPropsKeep(props[1..], attrs, first.scope);
      AttachPropsTracked(props[1..], attrs, first.scope);
    }
  }

  lemma AttachIsTracked(c: Component, attrs: map<string, string>, scope: Scope)
    requires EachBinding in scope && Supported(Attach(c, attrs, scope).scope)
    ensures Attach(c, attrs, scope) == Attached(Tracked(c.props, scope) + TrackedRecipe(c, scope), scope, [])
    ensures forall p <- c.props :: PropIsSettled(p, scope)
    ensures StyleIsSettled(c, scope)
  {
    AttachPropsTracked(c.props, attrs, scope);
  }

  lemma {:induction false} CoupledTracked(props: seq<Prop>, s: Scope, t: Scope, b: string, v: Value, w: Value,
      taken: set<string>)
    requires Coupled(s, t, b, v, w, taken)
    ensures Tracked(props, s) == Tracked(props, t)
  {
    if props != [] {
      CoupledPaths(props[0].value, s, t, b, v, w, taken);
      CoupledTracked(props[1..], s, t, b, v, w, taken);
    }
  }

  /** The other run attaches the same bindings. */
  lemma AttachSame(c: Component, attrs: map<string, string>, others: map<string, string>, s: Scope, t: Scope, b: string,
      v: Value, w: Value, taken: set<string>)
    requires Coupled(s, t, b, v, w, taken)
    requires forall p <- c.props :: PropIsSettled(p, s)
    requires StyleIsSettled(c, s)
    requires forall x <- Tracked(c.props, s) :: x.mode == SetAttribute ==> x.target in others
    ensures Attach(c, others, t) == Attached(Tracked(c.props, s) + TrackedRecipe(c, s), t, [])
  {
    AttachPropsSame(c.props, others, s, t, b, v, w, taken);
    if c.class_.Some? { CoupledPaths(c.class_.value, s, t, b, v, w, taken); }
    if c.recipe.Some? { CoupledPaths(c.recipe.value, s, t, b, v, w, taken); }
  }

  lemma {:induction false} AttachPropsSame(props: seq<Prop>, others: map<string, string>, s: Scope, t: Scope, b: string,
      v: Value, w: Value, taken: set<string>)
    requires Coupled(s, t, b, v, w, taken)
    requires forall p <- props :: PropIsSettled(p, s)
    requires forall x <- Tracked(props, s) :: x.mode == SetAttribute ==> x.target in others
    ensures AttachProps(props, others, t) == Attached(Tracked(props, s), t, [])
  {
    if props != [] {
      assert props[0] in props;
      CoupledPaths(props[0].value, s, t, b, v, w, taken);
      AttachPropsSame(props[1..], others, s, t, b, v, w, taken);
    }
  }

  // Attributes --------------------------------------------------------------------------------

  function Get(attrs: map<string, string>, name: string): Option<string> {
    if name in attrs then Some(attrs[name]) else None
  }

  /** What push_native_props writes for a value. */
  function Written(name: string, v: Value): Option<string> {
    if Omitted(name, v) then None else Some(AsString(v))
  }

  lemma SameAttrs(m: map<string, string>, n: map<string, string>)
    requires forall name :: Get(m, name) == Get(n, name)
    ensures m == n
  {
    forall name ensures name in m <==> name in n {
      assert Get(m, name) == Get(n, name);
    }
    forall name | name in m ensures m[name] == n[name] {
      assert Get(m, name) == Get(n, name);
    }
  }

  lemma {:induction false} ApplyBindingsConcat(attrs: map<string, string>, a: seq<RenderBinding>, b: seq<RenderBinding>,
      item: Value)
    ensures ApplyBindings(attrs, a + b, item) == ApplyBindings(ApplyBindings(attrs, a, item), b, item)
    decreases |a|
  {
    if a == [] {
      assert a + b == b;
    } else {
      assert (a + b)[1..] == a[1..] + b;
      ApplyBindingsConcat(ApplyBinding(attrs, a[0], item), a[1..], b, item);
    }
  }

  /** Applying the tracked bindings writes each tracked property and leaves the rest. */
  lemma {:induction false} ApplyTracked(attrs: map<string, string>, props: seq<Prop>, scope: Scope, item: Value,
      name: string)
    requires DistinctNames(props)
    ensures var result := Get(ApplyBindings(attrs, Tracked(props, scope), item), name);
            && (forall p <- props | p.name == name && EachRenderPath(p.value, scope).Some? ::
                  result == Written(name, ReadPath(item, EachRenderPath(p.value, scope).value)))
            && ((forall p <- props | p.name == name :: EachRenderPath(p.value, scope).None?) ==>
                result == Get(attrs, name))
    decreases |props|
  {
    if props != [] {
      var next := ApplyBindings(attrs, TrackedProp(props[0], scope), item);
      ApplyBindingsConcat(attrs, TrackedProp(props[0], scope), Tracked(props[1..], scope), item);
      ApplyTrackedProp(attrs, props[0], scope, item, name);
      ApplyTracked(next, props[1..], scope, item, name);
      TailNames(props);
      assert forall p <- props :: p == props[0] || p in props[1..];
      if name == props[0].name && EachRenderPath(props[0].value, scope).Some? {
        assert forall p <- props[1..] :: p.name != name;
      }
    }
  }

  lemma ApplyTrackedProp(attrs: map<string, string>, p: Prop, scope: Scope, item: Value, name: string)
    ensures Get(ApplyBindings(attrs, TrackedProp(p, scope), item), name) ==
              if p.name == name && EachRenderPath(p.value, scope).Some?
              then Written(name, ReadPath(item, EachRenderPath(p.value, scope).value))
              else Get(attrs, name)
  {
    var bindings := TrackedProp(p, scope);
    if bindings != [] {
      assert bindings[1..] == [];
      assert ApplyBindings(attrs, bindings, item) == ApplyBinding(attrs, bindings[0], item);
    }
  }

  lemma {:induction false} BehaviorNames(mappings: seq<(string, string)>, props: map<string, Value>)
    requires forall m <- mappings :: HasPrefix(m.1, "data-ax-behavior")
    ensures forall name <- BehaviorAttrs(mappings, props) :: HasPrefix(name, "data-ax-behavior")
  {
    if mappings != [] {
      assert mappings[0] in mappings;
      BehaviorNames(mappings[1..], props);
    }
  }

  lemma {:induction false} BehaviorsAgree(mappings: seq<(string, string)>, m: map<string, Value>, n: map<string, Value>)
    requires forall x <- mappings :: (x.0 in m <==> x.0 in n) && (x.0 in m ==> m[x.0] == n[x.0])
    ensures BehaviorAttrs(mappings, m) == BehaviorAttrs(mappings, n)
  {
    if mappings != [] {
      assert mappings[0] in mappings;
      BehaviorsAgree(mappings[1..], m, n);
    }
  }

  function AttrsOf(style: map<string, string>, props: map<string, Value>): map<string, string> {
    style + BehaviorAttrs(BEHAVIOR_PROPS, props) + NativeAttrs(props)
  }

  lemma BehaviorMappings()
    ensures forall m <- BEHAVIOR_PROPS :: HasPrefix(m.1, "data-ax-behavior")
  {
    forall m <- BEHAVIOR_PROPS ensures HasPrefix(m.1, "data-ax-behavior") {
      assert m.1[..16] == "data-ax-behavior";
    }
  }

  /** How a name is looked up among a native tag's attributes. */
  lemma AttrLookup(style: map<string, string>, props: map<string, Value>, name: string)
    requires style.Keys <= {"data-recipe", "class"}
    requires forall n <- props :: PropNameOk(n)
    ensures Get(AttrsOf(style, props), name) ==
              if name in props && !IsBehavior(name) then Written(name, props[name])
              else if name in {"data-recipe", "class"} then Get(style, name)
              else Get(BehaviorAttrs(BEHAVIOR_PROPS, props), name)
  {
    BehaviorMappings();
    BehaviorNames(BEHAVIOR_PROPS, props);
    LookupUnion(style, BehaviorAttrs(BEHAVIOR_PROPS, props), props, name);
  }

  lemma LookupUnion(style: map<string, string>, behaviors: map<string, string>, props: map<string, Value>, name: string)
    requires style.Keys <= {"data-recipe", "class"}
    requires forall n <- behaviors :: HasPrefix(n, "data-ax-behavior")
    requires forall n <- props :: PropNameOk(n)
    ensures Get(style + behaviors + NativeAttrs(props), name) ==
              if name in props && !IsBehavior(name) then Written(name, props[name])
              else if name in {"data-recipe", "class"} then Get(style, name)
              else Get(behaviors, name)
  {
    assert !HasPrefix("data-recipe", "data-ax-behavior") by {
      assert "data-recipe"[5] == 'r' && "data-ax-behavior"[5] == 'a';
    }
    assert name in NativeAttrs(props) <==> name in props && !IsBehavior(name) && Written(name, props[name]).Some?;
  }

  lemma TrackedAreAttrs(c: Component, s: Scope, look: map<string, string>, n: map<string, Value>)
    requires forall p <- c.props :: p.name in n && PropIsSettled(p, s)
    requires look.Keys <= {"data-recipe", "class"} && forall name <- n :: PropNameOk(name)
    ensures forall x <- Tracked(c.props, s) :: x.mode == SetAttribute ==> x.target in AttrsOf(look, n)
  {
    forall x <- Tracked(c.props, s) | x.mode == SetAttribute ensures x.target in AttrsOf(look, n) {
      TrackedIsProp(c.props, s, x);
      AttrLookup(look, n, x.target);
    }
  }

  lemma AttrsFollow(env: Env, c: Component, s: Scope, t: Scope, b: string, v: Value, w: Value, taken: set<string>)
    requires Coupled(s, t, b, v, w, taken) && NativeOk(env, c)
    requires forall p <- c.props :: PropIsSettled(p, s)
    requires StyleIsSettled(c, s)
    requires EvalProps(env, c.props, s).Ok? && EvalProps(env, c.props, t).Ok?
    requires Signalless(EvalProps(env, c.props, s).value.trace) && Signalless(EvalProps(env, c.props, t).value.trace)
    requires StyleAttrs(env, c, s).Ok? && StyleAttrs(env, c, t).Ok?
    ensures var m, n := EvalProps(env, c.props, s).value.props, EvalProps(env, c.props, t).value.props;
            var attrs := AttrsOf(StyleAttrs(env, c, s).value, m);
            var others := AttrsOf(StyleAttrs(env, c, t).value, n);
            && ApplyBindings(attrs, Tracked(c.props, s) + TrackedRecipe(c, s), w) == others
            && (forall x <- Tracked(c.props, s) :: x.mode == SetAttribute ==> x.target in others)
  {
    var m, n := EvalProps(env, c.props, s).value.props, EvalProps(env, c.props, t).value.props;
    var style, look := StyleAttrs(env, c, s).value, StyleAttrs(env, c, t).value;
    var attrs, others := AttrsOf(style, m), AttrsOf(look, n);
    PropsAreValues(env, c.props, s);
    PropsAreValues(env, c.props, t);
    PropsFollow(env, c.props, s, t, b, v, w, taken, m, n);
    StyleFollows(env, c, s, t, b, v, w, taken);
    ApplyBindingsConcat(attrs, Tracked(c.props, s), TrackedRecipe(c, s), w);
    var patched := ApplyBindings(attrs, Tracked(c.props, s), w);
    forall name ensures Get(ApplyBindings(patched, TrackedRecipe(c, s), w), name) == Get(others, name) {
      AttrFollows(c, s, w, style, look, m, n, name);
    }
    SameAttrs(ApplyBindings(patched, TrackedRecipe(c, s), w), others);
    TrackedAreAttrs(c, s, look, n);
  }

  lemma AttrFollows(c: Component, s: Scope, w: Value, style: map<string, string>, look: map<string, string>,
      m: map<string, Value>, n: map<string, Value>, name: string)
    requires DistinctNames(c.props) && m.Keys == n.Keys
    requires forall x <- m :: PropNameOk(x) && exists p <- c.props :: p.name == x
    requires forall p <- c.props :: p.name in m && PropIsSettled(p, s)
    requires forall p <- c.props :: match EachRenderPath(p.value, s)
                                    case Some(path) => n[p.name] == ReadPath(w, path)
                                    case None => m[p.name] == n[p.name]
    requires BehaviorAttrs(BEHAVIOR_PROPS, m) == BehaviorAttrs(BEHAVIOR_PROPS, n)
    requires StylesFollow(c, s, w, style, look)
    ensures Get(ApplyBindings(ApplyBindings(AttrsOf(style, m), Tracked(c.props, s), w), TrackedRecipe(c, s), w), name)
            == Get(AttrsOf(look, n), name)
  {
    AttrLookup(style, m, name);
    AttrLookup(look, n, name);
    ApplyTracked(AttrsOf(style, m), c.props, s, w, name);
    if name in m {
      var p :| p in c.props && p.name == name;
      assert PropIsSettled(p, s);
      UniqueProp(c.props, p);
    }
    RecipeLookup(c, s, w, ApplyBindings(AttrsOf(style, m), Tracked(c.props, s), w), name);
  }

  lemma UniqueProp(props: seq<Prop>, p: Prop)
    requires DistinctNames(props) && p in props
    ensures forall q <- props :: q.name == p.name ==> q == p
  {
  }

  /** The tracked recipe is read from the item, the rest of the style is the same on both sides. */
  predicate StylesFollow(c: Component, s: Scope, w: Value, style: map<string, string>, look: map<string, string>) {
    && style.Keys <= {"data-recipe", "class"} && look.Keys <= {"data-recipe", "class"}
    && Get(style, "class") == Get(look, "class")
    && (if TrackedRecipe(c, s) != []
        then Get(look, "data-recipe") == Some(AsString(ReadPath(w, TrackedRecipe(c, s)[0].path)))
        else Get(style, "data-recipe") == Get(look, "data-recipe"))
  }

  lemma {:induction false} TrackedIsProp(props: seq<Prop>, scope: Scope, x: RenderBinding)
    requires x in Tracked(props, scope) && x.mode == SetAttribute
    ensures !IsBooleanAttr(x.target)
    ensures exists p <- props :: p.name == x.target && EachRenderPath(p.value, scope).Some?
  {
    if x in Tracked(props[1..], scope) {
      TrackedIsProp(props[1..], scope, x);
      var p :| p in props[1..] && p.name == x.target && EachRenderPath(p.value, scope).Some?;
      assert p in props;
    } else {
      assert props[0] in props;
    }
  }

  lemma RecipeLookup(c: Component, scope: Scope, item: Value, attrs: map<string, string>, name: string)
    ensures var result := Get(ApplyBindings(attrs, TrackedRecipe(c, scope), item), name);
            if name == "data-recipe" && TrackedRecipe(c, scope) != []
            then result == Some(AsString(ReadPath(item, TrackedRecipe(c, scope)[0].path)))
            else result == Get(attrs, name)
  {
    var bindings := TrackedRecipe(c, scope);
    if bindings != [] {
      assert bindings[1..] == [];
      assert ApplyBindings(attrs, bindings, item) == ApplyBinding(attrs, bindings[0], item);
    }
  }

  /** Tracked properties read their path, the others are the same on both sides. */
  lemma PropsFollow(env: Env, props: seq<Prop>, s: Scope, t: Scope, b: string, v: Value, w: Value, taken: set<string>,
      m: map<string, Value>, n: map<string, Value>)
    requires Coupled(s, t, b, v, w, taken)
    requires forall p <- props :: PropIsSettled(p, s) && ChainOk(p.value)
    requires forall p <- props :: p.name in m && Eval(env, p.value, s) == Ok(m[p.name])
    requires forall p <- props :: p.name in n && Eval(env, p.value, t) == Ok(n[p.name])
    requires forall name <- m :: exists p <- props :: p.name == name
    requires forall name <- n :: exists p <- props :: p.name == name
    ensures m.Keys == n.Keys
    ensures forall p <- props :: match EachRenderPath(p.value, s)
                                 case Some(path) => n[p.name] == ReadPath(w, path)
                                 case None => m[p.name] == n[p.name]
    ensures BehaviorAttrs(BEHAVIOR_PROPS, m) == BehaviorAttrs(BEHAVIOR_PROPS, n)
  {
    forall p <- props
      ensures match EachRenderPath(p.value, s)
              case Some(path) => n[p.name] == ReadPath(w, path)
              case None => m[p.name] == n[p.name]
    {
      CoupledPaths(p.value, s, t, b, v, w, taken);
      assert PropIsSettled(p, s);
      if EachRenderPath(p.value, s).Some? {
        PathIsExact(env, p.value, t, b, w);
      } else {
        CoupledConstant(env, p.value, s, t, b, v, w, taken);
      }
    }
    forall name ensures name in m <==> name in n {}
    forall x <- BEHAVIOR_PROPS | x.0 in m ensures m[x.0] == n[x.0] {
      var p :| p in props && p.name == x.0;
      assert IsBehavior(p.name) && PropIsSettled(p, s);
    }
    BehaviorsAgree(BEHAVIOR_PROPS, m, n);
  }

  lemma StyleFollows(env: Env, c: Component, s: Scope, t: Scope, b: string, v: Value, w: Value, taken: set<string>)
    requires Coupled(s, t, b, v, w, taken) && StyleIsSettled(c, s)
    requires c.recipe.Some? ==> ChainOk(c.recipe.value)
    requires StyleAttrs(env, c, s).Ok? && StyleAttrs(env, c, t).Ok?
    ensures StylesFollow(c, s, w, StyleAttrs(env, c, s).value, StyleAttrs(env, c, t).value)
  {
    if c.class_.Some? {
      CoupledConstant(env, c.class_.value, s, t, b, v, w, taken);
    }
    if c.recipe.Some? {
      CoupledPaths(c.recipe.value, s, t, b, v, w, taken);
      if EachRenderPath(c.recipe.value, s).Some? {
        PathIsExact(env, c.recipe.value, t, b, w);
      } else {
        CoupledConstant(env, c.recipe.value, s, t, b, v, w, taken);
      }
    }
  }

  /** A native tag of the fragment never looks like a text target. */
  lemma TargetIsFree(env: Env, c: Component, scope: Scope)
    requires NativeOk(env, c)
    requires EvalProps(env, c.props, scope).Ok? && StyleAttrs(env, c, scope).Ok?
    requires Signalless(EvalProps(env, c.props, scope).value.trace)
    ensures TARGET_ATTR !in AttrsOf(StyleAttrs(env, c, scope).value, EvalProps(env, c.props, scope).value.props)
  {
    var props := EvalProps(env, c.props, scope).value.props;
    PropsAreValues(env, c.props, scope);
    AttrLookup(StyleAttrs(env, c, scope).value, props, TARGET_ATTR);
    BehaviorMappings();
    BehaviorNames(BEHAVIOR_PROPS, props);
    TargetIsReserved();
  }

  lemma TargetIsReserved()
    ensures !PropNameOk(TARGET_ATTR) && !HasPrefix(TARGET_ATTR, "data-ax-behavior")
    ensures TARGET_ATTR !in {"data-recipe", "class"}
  {
    assert TARGET_ATTR[..13] == "data-ax-each-";
    assert TARGET_ATTR[8] == 'e' && "data-ax-behavior"[8] == 'b';
  }
}
