/** Two runs of a loop's body for two items: the scopes they are in, and what the client makes of their nodes. */
module LoweringCoupling {
  import opened Text
  import opened LoweringModel
  import opened Evaluation
  import opened Lowering
  import opened LoweringFragment

  // The client's side -------------------------------------------------------------------------

  const TARGET_ATTR := "data-ax-each-render-target"
  const PATH_ATTR := "data-ax-each-render-path"

  function ReadPath(item: Value, path: string): Value {
    Walk(item, SplitDots(path))
  }

  function ApplyBinding(attrs: map<string, string>, b: RenderBinding, item: Value): map<string, string> {
    var v := ReadPath(item, b.path);
    if b.mode == SetBoolean && (v == Bool(false) || v == Null) then attrs - {b.target}
    else attrs[b.target := AsString(v)]
  }

  function ApplyBindings(attrs: map<string, string>, bindings: seq<RenderBinding>, item: Value): map<string, string>
    decreases |bindings|
  {
    if bindings == [] then attrs
    else ApplyBindings(ApplyBinding(attrs, bindings[0], item), bindings[1..], item)
  }

  function Instantiate(nodes: seq<Node>, item: Value): seq<Node>
    decreases nodes, 0
  {
    if nodes == [] then [] else [InstantiateNode(nodes[0], item)] + Instantiate(nodes[1..], item)
  }

  function InstantiateNode(node: Node, item: Value): Node
    decreases node, 1
  {
    match node
    case TextNode(_) => node
    case Element(tag, attrs, bindings, children) =>
      var filled :=
        if TARGET_ATTR in attrs && attrs[TARGET_ATTR] == "text" then
          [TextNode(AsString(ReadPath(item, if PATH_ATTR in attrs then attrs[PATH_ATTR] else "")))]
        else Instantiate(children, item);
      Element(tag, ApplyBindings(attrs, bindings, item), bindings, filled)
  }

  lemma {:induction false} InstantiateConcat(a: seq<Node>, b: seq<Node>, item: Value)
    ensures Instantiate(a + b, item) == Instantiate(a, item) + Instantiate(b, item)
  {
    if a == [] {
      assert a + b == b;
    } else {
      assert (a + b)[1..] == a[1..] + b;
      InstantiateConcat(a[1..], b, item);
    }
  }

  lemma InstantiateOne(node: Node, item: Value)
    ensures Instantiate([node], item) == [InstantiateNode(node, item)]
  {
    assert [node][1..] == [];
  }

  predicate Signalless(trace: seq<Event>) {
    forall e <- trace :: !e.StateSignal?
  }

  // Two runs ----------------------------------------------------------------------------------

  /** Two scopes of the same loop body that differ only in the item, its aliases and the paths. */
  ghost predicate Coupled(s: Scope, t: Scope, b: string, v: Value, w: Value, taken: set<string>) {
    && s.Keys == t.Keys
    && AliasesTrack(s, b, v) && AliasesTrack(t, b, w)
    && b in taken && "null" in taken
    && (forall x | EachParam(x) in s :: x in taken && s[EachParam(x)] == t[EachParam(x)])
    && (forall k | k in s :: MayDiffer(k, s) || s[k] == t[k])
  }

  predicate MayDiffer(k: Key, s: Scope) {
    k == RenderPath || k == InstancePath || (k.User? && ReferencesItem(Ident(k.name), s))
  }

  lemma CoupledAgrees(s: Scope, t: Scope, b: string, v: Value, w: Value, taken: set<string>)
    requires Coupled(s, t, b, v, w, taken)
    ensures AgreeOffItem(s, t)
  {
    forall x | User(x) in s ensures ReferencesItem(Ident(x), s) || s[User(x)] == t[User(x)] {
      assert MayDiffer(User(x), s) || s[User(x)] == t[User(x)];
    }
  }

  lemma CoupledPaths(e: Expr, s: Scope, t: Scope, b: string, v: Value, w: Value, taken: set<string>)
    requires Coupled(s, t, b, v, w, taken)
    ensures EachRenderPath(e, s) == EachRenderPath(e, t)
    ensures ReferencesItem(e, s) == ReferencesItem(e, t)
  {
    CoupledAgrees(s, t, b, v, w, taken);
    SameReferences(e, s, t);
  }

  lemma CoupledConstant(env: Env, e: Expr, s: Scope, t: Scope, b: string, v: Value, w: Value, taken: set<string>)
    requires Coupled(s, t, b, v, w, taken) && !ReferencesItem(e, s)
    ensures Eval(env, e, s) == Eval(env, e, t)
  {
    CoupledAgrees(s, t, b, v, w, taken);
    UnreferencedIsConstant(env, e, s, t);
  }

  lemma CoupledAt(s: Scope, t: Scope, b: string, v: Value, w: Value, taken: set<string>, p: string, q: string)
    requires Coupled(s, t, b, v, w, taken)
    ensures Coupled(At(s, p), At(t, q), b, v, w, taken)
  {
    AtTracks(s, b, v, p);
    AtTracks(t, b, w, q);
    forall k | k in At(s, p) ensures MayDiffer(k, At(s, p)) || At(s, p)[k] == At(t, q)[k] {
      assert k == RenderPath || MayDiffer(k, s) || s[k] == t[k];
    }
  }

  lemma AtTracks(s: Scope, b: string, v: Value, p: string)
    requires AliasesTrack(s, b, v)
    ensures AliasesTrack(At(s, p), b, v)
  {
    forall x | EachParam(x) in At(s, p) && x != b ensures AliasTracks(At(s, p), x, v) {
      assert AliasTracks(s, x, v);
    }
  }

  /** Binding a free name to the same value on both sides keeps the scopes coupled. */
  lemma CoupledBind(s: Scope, t: Scope, b: string, v: Value, w: Value, taken: set<string>, x: string, value: Value)
    requires Coupled(s, t, b, v, w, taken) && x !in taken
    ensures Coupled(s[User(x) := value], t[User(x) := value], b, v, w, taken)
  {
    BindTracks(s, b, v, x, value);
    BindTracks(t, b, w, x, value);
    var s', t' := s[User(x) := value], t[User(x) := value];
    forall k | k in s' ensures MayDiffer(k, s') || s'[k] == t'[k] {
      assert k == User(x) || MayDiffer(k, s) || s[k] == t[k];
    }
  }

  lemma BindTracks(s: Scope, b: string, v: Value, x: string, value: Value)
    requires AliasesTrack(s, b, v) && x != b && EachParam(x) !in s
    ensures AliasesTrack(s[User(x) := value], b, v)
  {
    forall y | EachParam(y) in s && y != b ensures AliasTracks(s[User(x) := value], y, v) {
      assert AliasTracks(s, y, v);
    }
  }

  /** Declaring an alias: both sides get their own value under the same path. */
  lemma CoupledAlias(s: Scope, t: Scope, b: string, v: Value, w: Value, taken: set<string>, x: string, path: string)
    requires Coupled(s, t, b, v, w, taken) && x !in taken
    ensures Coupled(
      s[User(x) := ReadPath(v, path)][EachParam(x) := Str(path)],
      t[User(x) := ReadPath(w, path)][EachParam(x) := Str(path)], b, v, w, taken + {x})
  {
    var s' := s[User(x) := ReadPath(v, path)][EachParam(x) := Str(path)];
    var t' := t[User(x) := ReadPath(w, path)][EachParam(x) := Str(path)];
    AliasTracksNew(s, b, v, x, path);
    AliasTracksNew(t, b, w, x, path);
    forall k | k in s' ensures MayDiffer(k, s') || s'[k] == t'[k] {
      assert k in {User(x), EachParam(x)} || MayDiffer(k, s) || s[k] == t[k];
      assert ReferencesItem(Ident(x), s');
      if k.User? && ReferencesItem(Ident(k.name), s) {
        assert ReferencesItem(Ident(k.name), s');
      }
    }
  }

  lemma AliasTracksNew(s: Scope, b: string, v: Value, x: string, path: string)
    requires AliasesTrack(s, b, v) && x != b && x != "null" && EachParam(x) !in s
    ensures AliasesTrack(s[User(x) := ReadPath(v, path)][EachParam(x) := Str(path)], b, v)
  {
    var s' := s[User(x) := ReadPath(v, path)][EachParam(x) := Str(path)];
    forall y | EachParam(y) in s' && y != b ensures AliasTracks(s', y, v) {
      if y != x {
        assert AliasTracks(s, y, v);
      }
    }
  }

  // Properties --------------------------------------------------------------------------------

  lemma TailNames(props: seq<Prop>)
    requires props != [] && DistinctNames(props)
    ensures DistinctNames(props[1..])
    ensures forall p <- props[1..] :: p.name != props[0].name
  {
    forall p <- props[1..] ensures p.name != props[0].name {
      var k :| 0 <= k < |props[1..]| && props[1..][k] == p;
      assert props[k + 1] == p;
    }
  }

  lemma QuietValue(v: Value, scope: Scope)
    ensures Signalless(SignalEvents(v, scope)) ==> Materialize(v, scope) == v
  {
    if StateSignalOf(v, scope).Some? {
      assert StateSignal(InstancePathOf(scope), StateSignalOf(v, scope).value) in SignalEvents(v, scope);
    }
  }

  /** Without state signals the evaluated properties are the values of their expressions. */
  lemma {:induction false} PropsAreValues(env: Env, props: seq<Prop>, scope: Scope)
    requires EvalProps(env, props, scope).Ok? && DistinctNames(props)
    requires Signalless(EvalProps(env, props, scope).value.trace)
    ensures var m := EvalProps(env, props, scope).value.props;
            && (forall p <- props :: p.name in m && Eval(env, p.value, scope) == Ok(m[p.name]))
            && (forall name <- m :: exists p <- props :: p.name == name)
  {
    if props != [] {
      var v := Eval(env, props[0].value, scope).value;
      var rest := EvalProps(env, props[1..], scope).value;
      var m := EvalProps(env, props, scope).value;
      assert m.trace == SignalEvents(v, scope) + rest.trace;
      PropsAreValues(env, props[1..], scope);
      assert Signalless(SignalEvents(v, scope)) && Signalless(rest.trace);
      QuietValue(v, scope);
      TailNames(props);
      assert props[0].name !in rest.props;
      forall p <- props ensures p.name in m.props && Eval(env, p.value, scope) == Ok(m.props[p.name]) {
        if p != props[0] {
          assert p in props[1..];
        }
      }
      forall name <- m.props ensures exists p <- props :: p.name == name {
        if name in rest.props {
          var p :| p in props[1..] && p.name == name;
          assert p in props;
        } else {
          assert props[0] in props;
        }
      }
    }
  }
}
