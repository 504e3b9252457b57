/** The lowerer's scopes, properties, attributes and searches are what the meaning of pages says they are. */
module PageParts {
  import opened Text
  import opened LoweringModel
  import opened Evaluation
  import opened Lowering
  import opened PageMeaning
  import LoweringPaths

  // Places ------------------------------------------------------------------------------------

  function VarsOf(scope: Scope): Vars {
    map k | k in scope && k.User? :: scope[k]
  }

  function PlaceOf(scope: Scope): Place {
    Place(VarsOf(scope), RenderPathOf(scope), if InstancePath in scope then AsString(scope[InstancePath]) else "")
  }

  predicate SameVars(s: Scope, t: Scope) {
    && (forall k <- s | k.User? :: k in t && t[k] == s[k])
    && (forall k <- t | k.User? :: k in s)
  }

  /** Evaluation reads variables only. */
  lemma {:induction false} EvalReadsVars(env: Env, e: Expr, s: Scope, t: Scope)
    requires SameVars(s, t)
    ensures Eval(env, e, s) == Eval(env, e, t)
    decreases e, 1
  {
    match e {
      case Ident(name) => assert User(name) in s <==> User(name) in t;
      case ListLit(items) => EvalAllReadsVars(env, items, s, t);
      case ObjLit(fields) => EvalFieldsReadVars(env, fields, s, t);
      case Unary(_, operand) => EvalReadsVars(env, operand, s, t);
      case Binary(_, left, right) => EvalReadsVars(env, left, s, t); EvalReadsVars(env, right, s, t);
      case Index(base, index) => EvalReadsVars(env, base, s, t); EvalReadsVars(env, index, s, t);
      case Member(base, _) => EvalReadsVars(env, base, s, t);
      case OptionalMember(base, _) => EvalReadsVars(env, base, s, t);
      case Call(_, args) => EvalAllReadsVars(env, args, s, t);
      case _ =>
    }
  }

  lemma {:induction false} EvalAllReadsVars(env: Env, es: seq<Expr>, s: Scope, t: Scope)
    requires SameVars(s, t)
    ensures EvalAll(env, es, s) == EvalAll(env, es, t)
    decreases es, 0
  {
    if es != [] {
      EvalReadsVars(env, es[0], s, t);
      EvalAllReadsVars(env, es[1..], s, t);
    }
  }

  lemma {:induction false} EvalFieldsReadVars(env: Env, fields: seq<Field>, s: Scope, t: Scope)
    requires SameVars(s, t)
    ensures EvalFields(env, fields, s) == EvalFields(env, fields, t)
    decreases fields, 0
  {
    if fields != [] {
      EvalReadsVars(env, fields[0].value, s, t);
      EvalFieldsReadVars(env, fields[1..], s, t);
    }
  }

  lemma ValIs(env: Env, e: Expr, scope: Scope)
    ensures Val(env, e, VarsOf(scope)) == Eval(env, e, scope)
  {
    EvalReadsVars(env, e, scope, VarsOf(scope));
  }

  lemma PlaceAt(scope: Scope, path: string)
    requires path != ""
    ensures PlaceOf(At(scope, path)) == PlaceOf(scope).(path := path)
  {
    assert VarsOf(At(scope, path)) == VarsOf(scope);
  }

  lemma PlaceMarked(bad: bool, scope: Scope)
    ensures PlaceOf(MarkIf(bad, scope)) == PlaceOf(scope)
  {
    assert VarsOf(MarkIf(bad, scope)) == VarsOf(scope);
  }

  lemma PlaceBound(scope: Scope, x: string, v: Value)
    ensures PlaceOf(scope[User(x) := v]) == PlaceOf(scope).(vars := VarsOf(scope)[User(x) := v])
  {
    assert VarsOf(scope[User(x) := v]) == VarsOf(scope)[User(x) := v];
  }

  lemma VarsBound(scope: Scope, x: string, v: Value)
    ensures VarsOf(scope[User(x) := v]) == VarsOf(scope)[User(x) := v]
  {
  }

  lemma PlaceInLoop(scope: Scope, b: string, item: Value)
    ensures PlaceOf(ItemScope(scope, b, item)) == PlaceOf(scope).(vars := VarsOf(scope)[User(b) := item])
  {
    assert VarsOf(ItemScope(scope, b, item)) == VarsOf(scope)[User(b) := item];
  }

  // State markers -----------------------------------------------------------------------------

  lemma {:induction false} OnePart(sep: char, text: string)
    requires |SplitOn(sep, text)| == 1
    ensures text == SplitOn(sep, text)[0]
  {
    if text != "" {
      OnePart(sep, text[1..]);
    }
  }

  lemma {:induction false} FirstPart(sep: char, text: string) returns (rest: string)
    requires |SplitOn(sep, text)| > 1
    ensures text == SplitOn(sep, text)[0] + ([sep] + rest) && SplitOn(sep, rest) == SplitOn(sep, text)[1..]
  {
    if text[0] == sep {
      rest := text[1..];
      assert SplitOn(sep, text) == [""] + SplitOn(sep, rest);
    } else {
      rest := FirstPart(sep, text[1..]);
      var front := SplitOn(sep, text[1..])[0];
      assert SplitOn(sep, text)[0] == [text[0]] + front;
      assert text == [text[0]] + (front + ([sep] + rest)) == ([text[0]] + front) + ([sep] + rest);
    }
  }

  lemma MarkerSplits(text: string, c: string, s: string, i: string)
    requires IsMarker(text, c, s, i)
    ensures HasPrefix(text, STATE_PREFIX) && SplitOn(':', text[|STATE_PREFIX|..]) == [c, s, i]
  {
    var rest := c + ":" + (s + ":" + i);
    assert text == STATE_PREFIX + rest && text[|STATE_PREFIX|..] == rest;
    LoweringPaths.SplitHead(c, s + ":" + i);
    LoweringPaths.SplitHead(s, i);
    SplitOnAtom(':', i);
  }

  lemma ThreeParts(sep: char, text: string, c: string, s: string, i: string)
    requires SplitOn(sep, text) == [c, s, i]
    ensures text == c + [sep] + (s + [sep] + i)
    ensures sep !in c && sep !in s && sep !in i
  {
    var parts := SplitOn(sep, text);
    LoweringPaths.PartsAreApart(sep, text);
    assert parts[0] == c && parts[1] == s && parts[2] == i;
    var tail := FirstPart(sep, text);
    assert SplitOn(sep, tail) == [s, i];
    var last := FirstPart(sep, tail);
    assert SplitOn(sep, last) == [i];
    OnePart(sep, last);
  }

  lemma SplitIsMarker(text: string, c: string, s: string, i: string)
    requires HasPrefix(text, STATE_PREFIX) && SplitOn(':', text[|STATE_PREFIX|..]) == [c, s, i]
    ensures IsMarker(text, c, s, i)
  {
    ThreeParts(':', text[|STATE_PREFIX|..], c, s, i);
  }

  /** What is written for a value is what it is materialised as. */
  lemma WrittenExactly(v: Value, scope: Scope, w: Value)
    ensures Written(v, PlaceOf(scope), w) <==> w == Materialize(v, scope)
  {
    var p := PlaceOf(scope);
    assert Owner(p) == InstancePathOf(scope);
    if v.Str? && HasPrefix(v.text, STATE_PREFIX) && |SplitOn(':', v.text[|STATE_PREFIX|..])| == 3 {
      var parts := SplitOn(':', v.text[|STATE_PREFIX|..]);
      assert parts == [parts[0], parts[1], parts[2]];
      SplitIsMarker(v.text, parts[0], parts[1], parts[2]);
      SignalSpelled(parts[0], Owner(p), parts[1], parts[2]);
      forall c, s, i | IsMarker(v.text, c, s, i) ensures c == parts[0] && s == parts[1] && i == parts[2] {
        MarkerSplits(v.text, c, s, i);
      }
    } else {
      forall c, s, i ensures !(v.Str? && IsMarker(v.text, c, s, i)) {
        if v.Str? && IsMarker(v.text, c, s, i) {
          MarkerSplits(v.text, c, s, i);
        }
      }
    }
  }

  lemma SignalSpelled(c: string, path: string, s: string, i: string)
    ensures SignalName(c, path, s, i) == "component:" + c + ":" + path + ":" + s + ":" + i
  {
  }

  // Properties --------------------------------------------------------------------------------

  lemma {:induction false} PropsExactly(env: Env, props: seq<Prop>, scope: Scope)
    ensures EvalProps(env, props, scope).Ok? <==> forall x <- props :: Val(env, x.value, VarsOf(scope)).Ok?
    ensures EvalProps(env, props, scope).Ok? ==>
              PropsAre(env, props, PlaceOf(scope), EvalProps(env, props, scope).value.props)
  {
    if props != [] {
      ValIs(env, props[0].value, scope);
      PropsExactly(env, props[1..], scope);
      assert props[0] in props && forall x <- props[1..] :: x in props;
      assert forall x <- props :: x == props[0] || x in props[1..];
      if EvalProps(env, props, scope).Ok? {
        var v := Eval(env, props[0].value, scope).value;
        WrittenExactly(v, scope, Materialize(v, scope));
        PropsGrow(env, props, PlaceOf(scope), Materialize(v, scope), EvalProps(env, props[1..], scope).value.props);
      }
    }
  }

  lemma PropsGrow(env: Env, props: seq<Prop>, p: Place, w: Value, m: map<string, Value>)
    requires props != [] && PropsAre(env, props[1..], p, m)
    requires Val(env, props[0].value, p.vars).Ok? && Written(Val(env, props[0].value, p.vars).value, p, w)
    ensures PropsAre(env, props, p, map[props[0].name := w] + m)
  {
    var all := map[props[0].name := w] + m;
    assert forall x <- props :: x == props[0] || x in props[1..];
    forall name <- all ensures PropIs(env, props, p, name, all[name]) {
      if name in m {
        var i := LastOf(env, props[1..], p, name, m[name]);
        assert props[i + 1] == props[1..][i];
        forall j | i + 1 < j < |props| ensures props[j].name != name {
          assert props[j] == props[1..][j - 1];
        }
      } else {
        forall j | 0 < j < |props| ensures props[j].name != name {
          assert props[j] == props[1..][j - 1] && props[1..][j - 1] in props[1..];
        }
      }
    }
  }

  /** The values of properties are determined. */
  lemma PropsAreOnly(env: Env, props: seq<Prop>, scope: Scope, m: map<string, Value>, n: map<string, Value>)
    requires PropsAre(env, props, PlaceOf(scope), m) && PropsAre(env, props, PlaceOf(scope), n)
    ensures m == n
  {
    var p := PlaceOf(scope);
    forall name ensures name in m <==> name in n {
      PropIsThere(env, props, p, name, m, n);
      PropIsThere(env, props, p, name, n, m);
    }
    forall name | name in m ensures m[name] == n[name] {
      PropIsOnly(env, props, scope, name, m[name], n[name]);
    }
  }

  lemma PropIsThere(env: Env, props: seq<Prop>, p: Place, name: string, m: map<string, Value>, n: map<string, Value>)
    requires PropsAre(env, props, p, m) && PropsAre(env, props, p, n)
    ensures name in m ==> name in n
  {
    if name in m {
      assert PropIs(env, props, p, name, m[name]);
      var i :| 0 <= i < |props| && props[i].name == name;
      assert props[i] in props;
    }
  }

  lemma PropIsOnly(env: Env, props: seq<Prop>, scope: Scope, name: string, v: Value, w: Value)
    requires PropIs(env, props, PlaceOf(scope), name, v) && PropIs(env, props, PlaceOf(scope), name, w)
    ensures v == w
  {
    var p := PlaceOf(scope);
    var i := LastOf(env, props, p, name, v);
    var j := LastOf(env, props, p, name, w);
    assert i == j;
    WrittenExactly(Val(env, props[i].value, p.vars).value, scope, v);
    WrittenExactly(Val(env, props[i].value, p.vars).value, scope, w);
  }

  lemma LastOf(env: Env, props: seq<Prop>, p: Place, name: string, w: Value) returns (i: nat)
    requires PropIs(env, props, p, name, w)
    ensures i < |props| && props[i].name == name && (forall j | i < j < |props| :: props[j].name != name)
    ensures Val(env, props[i].value, p.vars).Ok? && Written(Val(env, props[i].value, p.vars).value, p, w)
  {
    i :| && 0 <= i < |props| && props[i].name == name && (forall j | i < j < |props| :: props[j].name != name)
         && Val(env, props[i].value, p.vars).Ok? && Written(Val(env, props[i].value, p.vars).value, p, w);
  }

  // Attributes --------------------------------------------------------------------------------

  lemma LowerLetters(c: char)
    ensures IsLower(c) <==> c in LOWER
  {
  }

  lemma TagNamesExactly(name: string)
    ensures IsNativeTag(name) <==> IsTagName(name)
  {
    forall c ensures IsLower(c) <==> c in LOWER { LowerLetters(c); }
    forall c: char ensures '0' <= c <= '9' <==> c in DIGITS {}
  }

  /** Of several properties for an attribute, the last one counts. */
  lemma {:induction false} LastMapping(mappings: seq<(string, string)>, m: map<string, Value>, name: string, k: nat)
    requires k < |mappings| && mappings[k].1 == name && mappings[k].0 in m
    requires forall j | k < j < |mappings| :: mappings[j].1 != name || mappings[j].0 !in m
    ensures Look(BehaviorAttrs(mappings, m), name) == Some(AsString(m[mappings[k].0]))
  {
    if k == 0 {
      NoMapping(mappings[1..], m, name);
    } else {
      LastMapping(mappings[1..], m, name, k - 1);
    }
  }

  lemma {:induction false} NoMapping(mappings: seq<(string, string)>, m: map<string, Value>, name: string)
    requires forall j | 0 <= j < |mappings| :: mappings[j].1 != name || mappings[j].0 !in m
    ensures Look(BehaviorAttrs(mappings, m), name) == None
  {
    if mappings != [] {
      NoMapping(mappings[1..], m, name);
    }
  }

  lemma BehaviorsExactly(m: map<string, Value>, name: string)
    ensures Look(BehaviorAttrs(BEHAVIOR_PROPS, m), name) == BehaviorText(m, name)
  {
    if BehaviorText(m, name).None? {
      NoMapping(BEHAVIOR_PROPS, m, name);
    } else {
      var k := if name == "data-ax-behavior" then 0
          else (if name == "data-ax-behavior-target" then 1 else if name == "data-ax-behavior-action" then 3 else 5)
               + if BEHAVIORS[name].1 in m then 1 else 0;
      LastMapping(BEHAVIOR_PROPS, m, name, k);
    }
  }

  lemma BehaviorNames(name: string)
    ensures IsBehavior(name) <==> name in BEHAVIOR_NAMES
  {
    if IsBehavior(name) {
      var k :| 0 <= k < |BEHAVIOR_PROPS| && BEHAVIOR_PROPS[k].0 == name;
    } else {
      forall k | 0 <= k < |BEHAVIOR_PROPS| ensures BEHAVIOR_PROPS[k].0 != name {
        assert BEHAVIOR_PROPS[k] in BEHAVIOR_PROPS;
      }
    }
  }

  lemma OptionalExactly(env: Env, name: string, e: Option<Expr>, scope: Scope, other: string)
    ensures var r := OptionalAttr(env, name, e, scope);
            && (r.Ok? <==> e.None? || Val(env, e.value, VarsOf(scope)).Ok?)
            && (r.Ok? ==> Look(r.value, other) == if e.Some? && other == name
                  then Some(AsString(Val(env, e.value, VarsOf(scope)).value)) else None)
  {
    if e.Some? {
      ValIs(env, e.value, scope);
    }
  }

  lemma StyleExactly(env: Env, c: Component, scope: Scope)
    ensures StyleAttrs(env, c, scope).Ok? <==> StyleOk(env, c, VarsOf(scope))
  {
    OptionalExactly(env, "data-recipe", c.recipe, scope, "");
    OptionalExactly(env, "class", c.class_, scope, "");
  }

  lemma StyleLook(env: Env, c: Component, scope: Scope, name: string)
    requires StyleAttrs(env, c, scope).Ok?
    ensures Look(StyleAttrs(env, c, scope).value, name) == StyleText(env, c, VarsOf(scope), name)
  {
    OptionalExactly(env, "data-recipe", c.recipe, scope, name);
    OptionalExactly(env, "class", c.class_, scope, name);
    var recipe := OptionalAttr(env, "data-recipe", c.recipe, scope).value;
    var class_ := OptionalAttr(env, "class", c.class_, scope).value;
    assert StyleAttrs(env, c, scope).value == recipe + class_;
    LookSum(recipe, class_, name);
    assert Look(recipe + class_, name) == FirstOf(Look(class_, name), Look(recipe, name));
  }

  lemma LookSum(a: map<string, string>, b: map<string, string>, name: string)
    ensures Look(a + b, name) == FirstOf(Look(b, name), Look(a, name))
  {
  }

  function ElementAttrs(style: map<string, string>, m: map<string, Value>): map<string, string> {
    style + BehaviorAttrs(BEHAVIOR_PROPS, m) + NativeAttrs(m)
  }

  lemma OwnExactly(m: map<string, Value>, name: string)
    ensures Look(NativeAttrs(m), name) == OwnText(m, name)
  {
    BehaviorNames(name);
  }

  lemma SameLooks(a: map<string, string>, b: map<string, string>)
    requires forall name :: Look(a, name) == Look(b, name)
    ensures a == b
  {
    forall name ensures (name in a <==> name in b) && (name in a ==> a[name] == b[name]) {
      assert Look(a, name) == Look(b, name);
    }
  }

  /** An element's attributes are those that its properties, class and recipe ask for. */
  lemma AttrsExactly(env: Env, c: Component, scope: Scope, m: map<string, Value>, attrs: map<string, string>)
    requires StyleAttrs(env, c, scope).Ok?
    ensures AttrsAre(env, c, PlaceOf(scope), m, attrs) <==> attrs == ElementAttrs(StyleAttrs(env, c, scope).value, m)
  {
    var all := ElementAttrs(StyleAttrs(env, c, scope).value, m);
    AttrsLook(env, c, scope, m);
    if AttrsAre(env, c, PlaceOf(scope), m, attrs) {
      SameLooks(attrs, all);
    }
  }

  lemma AttrsLook(env: Env, c: Component, scope: Scope, m: map<string, Value>)
    requires StyleAttrs(env, c, scope).Ok?
    ensures AttrsAre(env, c, PlaceOf(scope), m, ElementAttrs(StyleAttrs(env, c, scope).value, m))
  {
    var style := StyleAttrs(env, c, scope).value;
    forall name
      ensures Look(ElementAttrs(style, m), name) ==
              FirstOf(OwnText(m, name), FirstOf(BehaviorText(m, name), StyleText(env, c, VarsOf(scope), name)))
    {
      BehaviorsExactly(m, name);
      OwnExactly(m, name);
      StyleLook(env, c, scope, name);
      LookLast(style, BehaviorAttrs(BEHAVIOR_PROPS, m), NativeAttrs(m), name);
    }
  }

  lemma LookLast(a: map<string, string>, b: map<string, string>, c: map<string, string>, name: string)
    ensures Look(a + b + c, name) == FirstOf(Look(c, name), FirstOf(Look(b, name), Look(a, name)))
  {
  }

  // Components --------------------------------------------------------------------------------

  lemma {:induction false} DefinedExactly(components: seq<ComponentDef>, name: string, def: ComponentDef)
    ensures FindComponent(components, name).Some? <==> IsDefined(components, name)
    ensures FindComponent(components, name) == Some(def) <==> IsDefinedAs(components, name, def)
  {
    if components != [] {
      var last := |components| - 1;
      DefinedExactly(components[..last], name, def);
      assert components == components[..last] + [components[last]];
      DefinedBefore(components, name, def);
    }
  }

  lemma DefinedBefore(components: seq<ComponentDef>, name: string, def: ComponentDef)
    requires components != []
    ensures var last := components[|components| - 1];
            IsDefinedAs(components, name, def) <==>
              if last.name == name then def == last else IsDefinedAs(components[..|components| - 1], name, def)
  {
    var n := |components| - 1;
    var before := components[..n];
    if components[n].name != name && IsDefinedAs(before, name, def) {
      var i :| 0 <= i < n && before[i] == def && def.name == name && forall j | i < j < n :: before[j].name != name;
      forall j | i < j < |components| ensures components[j].name != name {
        assert j < n ==> before[j] == components[j];
      }
      assert components[i] == def;
    }
    if IsDefinedAs(components, name, def) {
      var i :| && 0 <= i <= n && components[i] == def && def.name == name
               && forall j | i < j < |components| :: components[j].name != name;
      if i < n {
        assert before[i] == def && forall j | i < j < n :: before[j] == components[j];
      }
    }
  }

  predicate OnlyVars(s: Scope, t: Scope) {
    PlaceOf(t) == PlaceOf(s).(vars := VarsOf(t))
  }

  lemma {:induction false} BindingKeepsPlace(env: Env, def: ComponentDef, params: seq<Param>, m: map<string, Value>,
      scope: Scope)
    ensures BindParams(env, def, params, m, scope).Ok? ==>
              OnlyVars(scope, BindParams(env, def, params, m, scope).value)
  {
    if params != [] && BindParams(env, def, params, m, scope).Ok? {
      var q := params[0];
      var v := if q.name in m then m[q.name]
          else if q.default.Some? then Eval(env, q.default.value, scope).value else Null;
      PlaceBound(scope, q.name, v);
      BindingKeepsPlace(env, def, params[1..], m, scope[User(q.name) := v]);
    }
  }

  lemma BindsFirst(env: Env, params: seq<Param>, m: map<string, Value>, vars: Vars, bound: Vars, r: Result<Value>)
    requires params != []
    requires var q := params[0];
             r == if q.name in m then Ok(m[q.name])
                  else if q.default.Some? then Val(env, q.default.value, vars) else Ok(Null)
    ensures Binds(env, params, m, vars, bound) <==>
            && r.Ok? && (params[0].literals != [] ==> r.value.Str? && r.value.text in params[0].literals)
            && Binds(env, params[1..], m, vars[User(params[0].name) := r.value], bound)
  {
    assert forall v | ParamIs(env, params[0], m, vars, v) :: r == Ok(v);
    if r.Ok? && (params[0].literals != [] ==> r.value.Str? && r.value.text in params[0].literals) {
      assert ParamIs(env, params[0], m, vars, r.value);
    }
  }

  /** Parameters are bound as the meaning says. */
  lemma {:induction false} BindsExactly(env: Env, def: ComponentDef, params: seq<Param>, m: map<string, Value>,
      scope: Scope, vars: Vars, bound: Vars)
    requires vars == VarsOf(scope)
    ensures Binds(env, params, m, vars, bound) <==>
            BindParams(env, def, params, m, scope).Ok? && bound == VarsOf(BindParams(env, def, params, m, scope).value)
    decreases params
  {
    if params != [] {
      var q := params[0];
      if q.default.Some? {
        ValIs(env, q.default.value, scope);
      }
      var r := if q.name in m then Ok(m[q.name])
          else if q.default.Some? then Eval(env, q.default.value, scope) else Ok(Null);
      BindsFirst(env, params, m, vars, bound, r);
      if r.Ok? {
        var next := scope[User(q.name) := r.value];
        VarsBound(scope, q.name, r.value);
        BindsExactly(env, def, params[1..], m, next, vars[User(q.name) := r.value], bound);
      }
    }
  }

  lemma {:induction false} StartingKeepsPlace(env: Env, states: seq<State>, scope: Scope)
    ensures BindStates(env, states, scope).Ok? ==> OnlyVars(scope, BindStates(env, states, scope).value)
  {
    if states != [] && BindStates(env, states, scope).Ok? {
      var v := Eval(env, states[0].initial, scope).value;
      PlaceBound(scope, states[0].name, v);
      StartingKeepsPlace(env, states[1..], scope[User(states[0].name) := v]);
    }
  }

  lemma StartsFirst(env: Env, states: seq<State>, vars: Vars, ready: Vars)
    requires states != []
    ensures Starts(env, states, vars, ready) <==>
            var r := Val(env, states[0].initial, vars);
            r.Ok? && Starts(env, states[1..], vars[User(states[0].name) := r.value], ready)
  {
  }

  lemma {:induction false} StartsExactly(env: Env, states: seq<State>, scope: Scope, vars: Vars, ready: Vars)
    requires vars == VarsOf(scope)
    ensures Starts(env, states, vars, ready) <==>
            BindStates(env, states, scope).Ok? && ready == VarsOf(BindStates(env, states, scope).value)
    decreases states
  {
    if states != [] {
      var r := Eval(env, states[0].initial, scope);
      ValIs(env, states[0].initial, scope);
      StartsFirst(env, states, vars, ready);
      if r.Ok? {
        var next := scope[User(states[0].name) := r.value];
        VarsBound(scope, states[0].name, r.value);
        StartsExactly(env, states[1..], next, vars[User(states[0].name) := r.value], ready);
        assert BindStates(env, states, scope) == BindStates(env, states[1..], next);
      }
    }
  }

  lemma {:induction false} PageKeepsPlace(env: Env, params: seq<Param>, scope: Scope)
    ensures BindPageParams(env, params, scope).Ok? ==> OnlyVars(scope, BindPageParams(env, params, scope).value)
  {
    if params != [] && BindPageParams(env, params, scope).Ok? {
      var q := params[0];
      if User(q.name) in scope {
        PageKeepsPlace(env, params[1..], scope);
      } else {
        var v := if q.default.Some? then Eval(env, q.default.value, scope).value else Null;
        PlaceBound(scope, q.name, v);
        PageKeepsPlace(env, params[1..], scope[User(q.name) := v]);
      }
    }
  }

  lemma BindsPageFirst(env: Env, params: seq<Param>, vars: Vars, bound: Vars, r: Result<Value>)
    requires params != []
    requires var q := params[0];
             r == if User(q.name) in vars then Ok(vars[User(q.name)])
                  else if q.default.Some? then Val(env, q.default.value, vars) else Ok(Null)
    ensures BindsPage(env, params, vars, bound) <==>
            r.Ok? && BindsPage(env, params[1..], vars[User(params[0].name) := r.value], bound)
  {
  }

  /** A page's parameters are bound as the meaning says. */
  lemma {:induction false} BindsPageExactly(env: Env, params: seq<Param>, scope: Scope, vars: Vars, bound: Vars)
    requires vars == VarsOf(scope)
    ensures BindsPage(env, params, vars, bound) <==>
            BindPageParams(env, params, scope).Ok? && bound == VarsOf(BindPageParams(env, params, scope).value)
    decreases params
  {
    if params != [] {
      var q := params[0];
      if q.default.Some? {
        ValIs(env, q.default.value, scope);
      }
      var r := if User(q.name) in scope then Ok(scope[User(q.name)])
          else if q.default.Some? then Eval(env, q.default.value, scope) else Ok(Null);
      BindsPageFirst(env, params, vars, bound, r);
      if r.Ok? {
        var next := scope[User(q.name) := r.value];
        assert User(q.name) in scope ==> next == scope;
        VarsBound(scope, q.name, r.value);
        BindsPageExactly(env, params[1..], next, vars[User(q.name) := r.value], bound);
        assert BindPageParams(env, params, scope) == BindPageParams(env, params[1..], next);
      }
    }
  }

  lemma {:induction false} PlacePropagated(props: seq<Prop>, source: Scope, target: Scope)
    ensures PlaceOf(PropagateParams(props, source, target)) == PlaceOf(target)
  {
    if props != [] {
      var path := EachRenderPath(props[0].value, source);
      if path.Some? {
        var next := target[EachParam(props[0].name) := Str(path.value)];
        assert VarsOf(next) == VarsOf(target);
        PlacePropagated(props[1..], source, next);
      } else {
        PlacePropagated(props[1..], source, target);
      }
    }
  }

  lemma PassedExactly(env: Env, c: Component, def: ComponentDef, scope: Scope, m: map<string, Value>, name: string)
    requires StyleAttrs(env, c, scope).Ok?
    ensures Look(Passthrough(def, m) + StyleAttrs(env, c, scope).value, name)
         == PassedText(env, c, def, VarsOf(scope), m, name)
  {
    StyleLook(env, c, scope, name);
    assert IsPassedOn(def, name) && name in m <==> name in Passthrough(def, m);
  }

  lemma MergedExactly(attrs: map<string, string>, incoming: map<string, string>, name: string)
    ensures Look(MergeAttrs(attrs, incoming), name) == MergedText(name, Look(attrs, name), Look(incoming, name))
  {
  }

  lemma MergedIs(env: Env, c: Component, def: ComponentDef, scope: Scope, m: map<string, Value>,
      attrs: map<string, string>, merged: map<string, string>)
    requires StyleAttrs(env, c, scope).Ok?
    ensures merged == MergeAttrs(attrs, Passthrough(def, m) + StyleAttrs(env, c, scope).value) <==>
            forall name :: Look(merged, name)
              == MergedText(name, Look(attrs, name), PassedText(env, c, def, VarsOf(scope), m, name))
  {
    var all := MergeAttrs(attrs, Passthrough(def, m) + StyleAttrs(env, c, scope).value);
    forall name
      ensures Look(all, name) == MergedText(name, Look(attrs, name), PassedText(env, c, def, VarsOf(scope), m, name))
    {
      PassedExactly(env, c, def, scope, m, name);
      MergedExactly(attrs, Passthrough(def, m) + StyleAttrs(env, c, scope).value, name);
    }
    if forall name :: Look(merged, name) == Look(all, name) {
      SameLooks(merged, all);
    }
  }

  /** What a component passes on reaches the first node of its body, if that is an element. */
  lemma PassesExactly(env: Env, c: Component, def: ComponentDef, scope: Scope, m: map<string, Value>, inner: seq<Node>,
      nodes: seq<Node>)
    requires StyleAttrs(env, c, scope).Ok?
    ensures PassesTo(env, c, def, VarsOf(scope), m, inner, nodes) <==>
            nodes == AttrsToFirst(inner, Passthrough(def, m) + StyleAttrs(env, c, scope).value)
  {
    if inner != [] && inner[0].Element? && nodes != [] && nodes[0].Element? {
      MergedIs(env, c, def, scope, m, inner[0].attrs, nodes[0].attrs);
      assert nodes == [nodes[0]] + nodes[1..];
    }
  }

  // Slots -------------------------------------------------------------------------------------

  lemma {:induction false} NamesSlotExactly(env: Env, props: seq<Prop>, names: set<string>, scope: Scope,
      r: Option<string>)
    ensures NamesSlot(env, props, names, VarsOf(scope), r) <==> SlotName(env, props, names, scope) == Ok(r)
  {
    if props != [] {
      ValIs(env, props[0].value, scope);
      NamesSlotExactly(env, props[1..], names, scope, r);
      NamesSlotFirst(env, props, names, VarsOf(scope), r);
    }
  }

  lemma NamesSlotFirst(env: Env, props: seq<Prop>, names: set<string>, vars: Vars, r: Option<string>)
    requires props != []
    ensures NamesSlot(env, props, names, vars, r) <==>
            if props[0].name in names then
              r.Some? && Val(env, props[0].value, vars).Ok? && r.value == AsString(Val(env, props[0].value, vars).value)
            else NamesSlot(env, props[1..], names, vars, r)
  {
    var rest := props[1..];
    assert forall x <- props :: x == props[0] || x in rest;
    assert props[0] in props && forall x <- rest :: x in props;
    if r.Some? && props[0].name !in names {
      if NamesSlot(env, props, names, vars, r) {
        var i :| && 0 <= i < |props| && props[i].name in names && (forall j | 0 <= j < i :: props[j].name !in names)
                 && Val(env, props[i].value, vars).Ok? && r.value == AsString(Val(env, props[i].value, vars).value);
        assert rest[i - 1] == props[i] && forall j | 0 <= j < i - 1 :: rest[j] == props[j + 1];
      }
      if NamesSlot(env, rest, names, vars, r) {
        var i :| && 0 <= i < |rest| && rest[i].name in names && (forall j | 0 <= j < i :: rest[j].name !in names)
                 && Val(env, rest[i].value, vars).Ok? && r.value == AsString(Val(env, rest[i].value, vars).value);
        assert props[i + 1] == rest[i];
        forall j | 0 <= j < i + 1 ensures props[j].name !in names {
          assert j > 0 ==> props[j] == rest[j - 1];
        }
      }
    }
  }

  lemma {:induction false} UnslottedIs(props: seq<Prop>)
    ensures WithoutSlot(props) == Unslotted(props)
  {
    if props != [] {
      UnslottedIs(props[1..]);
    }
  }

  lemma IsForExactly(env: Env, s: Statement, scope: Scope, r: Option<string>)
    ensures IsFor(env, s, VarsOf(scope), r) <==>
            (if s.Use? then SlotName(env, s.component.props, {"slot"}, scope) else Ok(None)) == Ok(r)
  {
    if s.Use? {
      NamesSlotExactly(env, s.component.props, {"slot"}, scope, r);
    }
  }

  /** The statements selected for a slot are those handed over for it. */
  lemma {:induction false} SelectsExactly(env: Env, handed: seq<Statement>, requested: Option<string>, scope: Scope,
      selected: seq<Statement>)
    ensures Selects(env, handed, requested, VarsOf(scope), selected) <==>
            SelectSlot(env, handed, requested, scope) == Ok(selected)
    decreases handed
  {
    if handed != [] {
      var s := handed[0];
      forall r {
        IsForExactly(env, s, scope, r);
      }
      if s.Use? {
        UnslottedIs(s.component.props);
      }
      SelectsExactly(env, handed[1..], requested, scope, selected);
      if selected != [] {
        SelectsExactly(env, handed[1..], requested, scope, selected[1..]);
        assert selected == [selected[0]] + selected[1..];
      }
      var rest := SelectSlot(env, handed[1..], requested, scope);
      if rest.Ok? {
        SelectsExactly(env, handed[1..], requested, scope, rest.value);
        assert ([StripSlot(s)] + rest.value)[1..] == rest.value;
      }
    }
  }

  // Keys --------------------------------------------------------------------------------------

  lemma ExtendedExactly(chain: Option<(string, seq<string>)>, property: string, root: string, parts: seq<string>)
    ensures ExtendChain(chain, property) == Some((root, parts)) <==>
            && parts != [] && parts[|parts| - 1] == property
            && chain == Some((root, parts[..|parts| - 1]))
  {
    if parts != [] {
      assert parts == parts[..|parts| - 1] + [parts[|parts| - 1]];
    }
    if chain.Some? {
      var before := chain.value.1;
      assert (before + [property])[..|before|] == before && (before + [property])[|before|] == property;
    }
  }

  lemma {:induction false} ChainIs(e: Expr, root: string, parts: seq<string>)
    ensures IsChain(e, root, parts) <==> ChainOf(e) == Some((root, parts))
    decreases e, 0
  {
    match e {
      case Member(base, property) => LinkIs(base, property, root, parts);
      case OptionalMember(base, property) => LinkIs(base, property, root, parts);
      case _ =>
    }
  }

  lemma {:induction false} LinkIs(base: Expr, property: string, root: string, parts: seq<string>)
    ensures ExtendChain(ChainOf(base), property) == Some((root, parts)) <==>
            parts != [] && parts[|parts| - 1] == property && IsChain(base, root, parts[..|parts| - 1])
    decreases base, 1
  {
    ExtendedExactly(ChainOf(base), property, root, parts);
    if parts != [] {
      ChainIs(base, root, parts[..|parts| - 1]);
    }
  }

  lemma KeyPathExactly(key: Expr, binding: string, path: string)
    ensures IsKeyPath(key, binding, path) <==> path == KeyPath(key, binding)
  {
    forall parts {
      ChainIs(key, binding, parts);
    }
    if ChainOf(key).Some? && ChainOf(key).value.0 == binding {
      assert IsChain(key, binding, ChainOf(key).value.1);
    }
  }

  lemma KeyExactly(v: Value, kind: string, text: string)
    ensures IsKey(v, kind, text) <==> KeyIdentity(v) == Ok((kind, text))
  {
  }

  /** The case found is the first one with the value. */
  lemma {:induction false} CaseExactly(cases: seq<MatchCase>, text: string)
    ensures match FindCase(cases, text)
            case None => forall x <- cases :: x.value != text
            case Some(i) =>
              i < |cases| && cases[i].value == text && forall j | 0 <= j < i :: cases[j].value != text
  {
    if cases != [] {
      CaseExactly(cases[1..], text);
      assert forall x <- cases :: x == cases[0] || x in cases[1..];
    }
  }
}
