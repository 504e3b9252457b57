/** Which declarations in a loop's body keep paths right: exactly those of new names. */
module LoweringDeclarations {
  import opened Text
  import opened LoweringModel
  import opened Evaluation
  import opened Lowering
  import opened LoweringFragment
  import opened LoweringCoupling
  import opened LoweringTemplate
  import opened LoweringTracking

  /** The names are new, and none occurs twice. */
  predicate AreFresh(names: seq<string>, taken: set<string>) {
    && (forall name <- names :: name !in taken)
    && (forall i, j | 0 <= i < j < |names| :: names[i] != names[j])
  }

  function Declarations(names: seq<string>, values: seq<Expr>): seq<Statement>
    requires |names| == |values|
  {
    if names == [] then [] else [Data(names[0], values[0])] + Declarations(names[1..], values[1..])
  }

  /** Every expression with a path has the value at that path of the item. */
  ghost predicate PathsAreExact(env: Env, scope: Scope, item: Value) {
    forall e: Expr | ChainOk(e) && EachRenderPath(e, scope).Some? && Eval(env, e, scope).Ok? ::
      Eval(env, e, scope).value == ReadPath(item, EachRenderPath(e, scope).value)
  }

  /** Whatever is declared under these names, for whatever item, paths are exact afterwards. */
  ghost predicate PathsSurvive(env: Env, b: string, names: seq<string>) {
    forall values: seq<Expr>, fuel: nat, path: string, scope: Scope, slots: Slots, item: Value
      | |values| == |names| && (forall e <- values :: ChainOk(e)) && NoStaleAlias(scope, b) ::
      var r := LowerItem(env, fuel, b, Declarations(names, values), path, scope, slots, item);
      r.Ok? ==> PathsAreExact(env, r.value.scope, item)
  }

  lemma {:induction false} FreshIsFragment(env: Env, fuel: nat, names: seq<string>, values: seq<Expr>,
      taken: set<string>, slots: Slots)
    requires |names| == |values| && (forall e <- values :: ChainOk(e)) && AreFresh(names, taken)
    ensures Fragment(env, fuel, Declarations(names, values), taken, slots)
  {
    if names != [] {
      assert names[0] in names && values[0] in values;
      forall name <- names[1..] ensures name !in taken + {names[0]} {
        var k :| 0 <= k < |names[1..]| && names[1..][k] == name;
        assert names[k + 1] == name;
      }
      assert forall i | 0 <= i < |names| - 1 :: names[1..][i] == names[i + 1];
      FreshIsFragment(env, fuel, names[1..], values[1..], TakenAfter(Data(names[0], values[0]), taken), slots);
    }
  }

  lemma {:induction false} DeclarationsAreSilent(env: Env, fuel: nat, names: seq<string>, values: seq<Expr>, index: nat,
      parent: string, scope: Scope, slots: Slots)
    requires |names| == |values| && LowerFrom(env, fuel, Declarations(names, values), index, parent, scope, slots).Ok?
    ensures Readable(LowerFrom(env, fuel, Declarations(names, values), index, parent, scope, slots).value.trace)
    decreases |names|
  {
    if names != [] {
      var here := parent + "." + NatText(index);
      var first := LowerData(env, names[0], values[0], At(scope, here)).value;
      assert Declarations(names, values)[1..] == Declarations(names[1..], values[1..]);
      DeclarationsAreSilent(env, fuel, names[1..], values[1..], index + 1, parent, first.scope, slots);
    }
  }

  lemma ExactFromTracking(env: Env, scope: Scope, b: string, item: Value)
    requires AliasesTrack(scope, b, item)
    ensures PathsAreExact(env, scope, item)
  {
    forall e: Expr | ChainOk(e) && EachRenderPath(e, scope).Some? && Eval(env, e, scope).Ok?
      ensures Eval(env, e, scope).value == ReadPath(item, EachRenderPath(e, scope).value)
    {
      PathIsExact(env, e, scope, b, item);
    }
  }

  // Names that are not new --------------------------------------------------------------------

  const TEXT: Expr := StrLit("x")

  function Texts(n: nat): (values: seq<Expr>)
    ensures |values| == n && forall e <- values :: e == TEXT
  {
    if n == 0 then [] else [TEXT] + Texts(n - 1)
  }

  function FieldOfItem(b: string): Expr {
    OptionalMember(Ident(b), "f")
  }

  /** The field of the item is declared under one name, and a text under every other. */
  function OneAlias(b: string, n: nat, i: nat): (values: seq<Expr>)
    requires i < n
    ensures |values| == n
  {
    if i == 0 then [FieldOfItem(b)] + Texts(n - 1) else [TEXT] + OneAlias(b, n - 1, i - 1)
  }

  const ITEM: Value := Record(map["f" := Str("y")])

  lemma DeclaresText(env: Env, name: string, scope: Scope)
    ensures LowerData(env, name, TEXT, scope) == Ok(Lowered([], scope[User(name) := Str("x")], []))
  {
  }

  lemma DeclarationStep(env: Env, fuel: nat, name: string, value: Expr, more: seq<Statement>, index: nat,
      parent: string, scope: Scope, slots: Slots)
    ensures var here := parent + "." + NatText(index);
            var first := LowerData(env, name, value, At(scope, here));
            var whole := LowerFrom(env, fuel, [Data(name, value)] + more, index, parent, scope, slots);
            if first.Err? then whole.Err?
            else
              var rest := LowerFrom(env, fuel, more, index + 1, parent, first.value.scope, slots);
              whole.Ok? == rest.Ok? && (rest.Ok? ==> whole.value.scope == rest.value.scope)
  {
    assert ([Data(name, value)] + more)[1..] == more;
  }

  /** What declaring texts changes: the names have the text, and everything else but the path is as before. */
  ghost predicate HasTexts(names: seq<string>, s: Scope, t: Scope) {
    && (forall name <- names :: User(name) in t && t[User(name)] == Str("x"))
    && (forall k ::
          || k == RenderPath || (k.User? && k.name in names)
          || ((k in s <==> k in t) && (k in s ==> s[k] == t[k])))
  }

  lemma {:induction false} TextsDeclare(env: Env, fuel: nat, names: seq<string>, index: nat, parent: string,
      scope: Scope, slots: Slots)
    ensures var r := LowerFrom(env, fuel, Declarations(names, Texts(|names|)), index, parent, scope, slots);
            r.Ok? && HasTexts(names, scope, r.value.scope)
    decreases |names|
  {
    if names != [] {
      var s := At(scope, parent + "." + NatText(index));
      var next := s[User(names[0]) := Str("x")];
      DeclaresText(env, names[0], s);
      DeclarationStep(env, fuel, names[0], TEXT, Declarations(names[1..], Texts(|names| - 1)), index, parent, scope,
          slots);
      TextsDeclare(env, fuel, names[1..], index + 1, parent, next, slots);
      OneMoreText(names, scope, next, LowerFrom(env, fuel, Declarations(names[1..], Texts(|names| - 1)), index + 1,
          parent, next, slots).value.scope);
    }
  }

  lemma OneMoreText(names: seq<string>, s: Scope, next: Scope, t: Scope)
    requires names != [] && HasTexts(names[..1], s, next) && HasTexts(names[1..], next, t)
    ensures HasTexts(names, s, t)
  {
    assert names[0] in names[..1];
    assert forall name <- names :: name == names[0] || name in names[1..];
  }

  lemma DeclaresField(env: Env, b: string, name: string, scope: Scope)
    requires b != "null" && b != name && EachBinding in scope && scope[EachBinding] == Str(b)
    requires User(b) in scope && scope[User(b)] == ITEM
    ensures LowerData(env, name, FieldOfItem(b), scope)
            == Ok(Lowered([], scope[User(name) := Str("y")][EachParam(name) := Str("f")], []))
  {
    var bound := scope[User(name) := Str("y")];
    assert Eval(env, Ident(b), scope) == Ok(ITEM);
    assert Eval(env, FieldOfItem(b), scope) == Ok(Str("y"));
    assert ChainOf(Ident(b)) == Some((b, []));
    assert ChainOf(FieldOfItem(b)) == Some((b, ["f"])) by { assert [] + ["f"] == ["f"]; }
    assert JoinDots(["f"]) == "f";
    assert EachRenderPath(FieldOfItem(b), bound) == Some("f");
  }

  /** The name is an alias of the field, though a text was declared under it again. */
  ghost predicate HoldsAlias(t: Scope, b: string, name: string, again: bool) {
    && EachBinding in t && t[EachBinding] == Str(b)
    && EachParam(name) in t && t[EachParam(name)] == Str("f")
    && (again ==> User(name) in t && t[User(name)] == Str("x"))
  }

  lemma TextsLeaveAlias(names: seq<string>, s: Scope, t: Scope, b: string, name: string)
    requires HasTexts(names, s, t) && HoldsAlias(s, b, name, false)
    ensures HoldsAlias(t, b, name, name in names)
  {
  }

  lemma AliasStarts(env: Env, fuel: nat, b: string, name: string, more: seq<string>, index: nat, parent: string,
      scope: Scope, slots: Slots)
    requires b != "null" && b != name && EachBinding in scope && scope[EachBinding] == Str(b)
    requires User(b) in scope && scope[User(b)] == ITEM
    ensures var statements := [Data(name, FieldOfItem(b))] + Declarations(more, Texts(|more|));
            var r := LowerFrom(env, fuel, statements, index, parent, scope, slots);
            r.Ok? && HoldsAlias(r.value.scope, b, name, name in more)
  {
    var s := At(scope, parent + "." + NatText(index));
    var next := s[User(name) := Str("y")][EachParam(name) := Str("f")];
    DeclaresField(env, b, name, s);
    DeclarationStep(env, fuel, name, FieldOfItem(b), Declarations(more, Texts(|more|)), index, parent, scope, slots);
    TextsDeclare(env, fuel, more, index + 1, parent, next, slots);
    TextsLeaveAlias(more, next, LowerFrom(env, fuel, Declarations(more, Texts(|more|)), index + 1, parent, next,
        slots).value.scope, b, name);
  }

  /** The alias keeps its path, whatever is declared under its name afterwards. */
  lemma {:induction false} AliasStays(env: Env, fuel: nat, b: string, names: seq<string>, i: nat, index: nat,
      parent: string, scope: Scope, slots: Slots)
    requires i < |names| && b != "null" && b !in names && EachBinding in scope && scope[EachBinding] == Str(b)
    requires User(b) in scope && scope[User(b)] == ITEM
    ensures var r := LowerFrom(env, fuel, Declarations(names, OneAlias(b, |names|, i)), index, parent, scope, slots);
            r.Ok? && HoldsAlias(r.value.scope, b, names[i], names[i] in names[i + 1..])
    decreases |names|
  {
    var more := names[1..];
    if i == 0 {
      assert Declarations(names, OneAlias(b, |names|, 0))
          == [Data(names[0], FieldOfItem(b))] + Declarations(more, Texts(|more|)) by {
        assert OneAlias(b, |names|, 0)[1..] == Texts(|more|);
      }
      AliasStarts(env, fuel, b, names[0], more, index, parent, scope, slots);
    } else {
      var s := At(scope, parent + "." + NatText(index));
      var values := OneAlias(b, |more|, i - 1);
      assert Declarations(names, OneAlias(b, |names|, i)) == [Data(names[0], TEXT)] + Declarations(more, values) by {
        assert OneAlias(b, |names|, i)[1..] == values;
      }
      DeclaresText(env, names[0], s);
      DeclarationStep(env, fuel, names[0], TEXT, Declarations(more, values), index, parent, scope, slots);
      AliasStays(env, fuel, b, more, i - 1, index + 1, parent, s[User(names[0]) := Str("x")], slots);
      assert more[i..] == names[i + 1..];
    }
  }

  lemma {:induction false} OneAliasIsOk(b: string, n: nat, i: nat)
    requires i < n
    ensures forall e <- OneAlias(b, n, i) :: ChainOk(e)
  {
    assert ChainOf(Ident(b)) == Some((b, []));
    assert ChainOf(FieldOfItem(b)) == Some((b, ["f"])) by { assert [] + ["f"] == ["f"]; }
    if i > 0 {
      OneAliasIsOk(b, n - 1, i - 1);
    }
  }

  lemma ItemRuns(env: Env, fuel: nat, b: string, body: seq<Statement>, path: string, scope: Scope, slots: Slots,
      item: Value)
    ensures var s := At(ItemScope(scope, b, item), path);
            var r := LowerItem(env, fuel, b, body, path, scope, slots, item);
            var q := LowerFrom(env, fuel, body, 0, RenderPathOf(s), s, slots);
            && (r.Ok? <==> q.Ok?)
            && (r.Ok? ==> r.value.trace == q.value.trace && r.value.scope == At(q.value.scope, RenderPathOf(s)))
  {
  }

  /** A declaration after which some chain does not read the value at its path. */
  lemma PathsFail(env: Env, b: string, names: seq<string>, values: seq<Expr>, item: Value, t: Scope, e: Expr)
    requires |values| == |names| && forall v <- values :: ChainOk(v)
    requires b != "null"
    requires var s := At(ItemScope(map[], b, item), "0");
             var q := LowerFrom(env, 0, Declarations(names, values), 0, RenderPathOf(s), s, NoSlot);
             q.Ok? && t == At(q.value.scope, RenderPathOf(s))
    requires ChainOk(e) && EachRenderPath(e, t).Some? && Eval(env, e, t).Ok?
    requires Eval(env, e, t).value != ReadPath(item, EachRenderPath(e, t).value)
    ensures !PathsSurvive(env, b, names)
  {
    ItemRuns(env, 0, b, Declarations(names, values), "0", map[], NoSlot, item);
    ItemFails(env, b, names, values, item);
  }

  lemma ItemFails(env: Env, b: string, names: seq<string>, values: seq<Expr>, item: Value)
    requires |values| == |names| && forall v <- values :: ChainOk(v)
    requires b != "null"
    requires var r := LowerItem(env, 0, b, Declarations(names, values), "0", map[], NoSlot, item);
             r.Ok? && !PathsAreExact(env, r.value.scope, item)
    ensures !PathsSurvive(env, b, names)
  {
    assert NoStaleAlias(map[], b);
  }

  /** Declaring the loop's own name: the name reads the text where its path reads the item. */
  lemma RebindingMisreads(env: Env, b: string, names: seq<string>)
    requires b != "null" && b in names
    ensures !PathsSurvive(env, b, names)
  {
    var s := At(ItemScope(map[], b, Null), "0");
    TextsDeclare(env, 0, names, 0, RenderPathOf(s), s, NoSlot);
    var q := LowerFrom(env, 0, Declarations(names, Texts(|names|)), 0, RenderPathOf(s), s, NoSlot).value.scope;
    RootReads(env, b, b, At(q, RenderPathOf(s)));
    PathsFail(env, b, names, Texts(|names|), Null, At(q, RenderPathOf(s)), Ident(b));
  }

  /** The path and the value of a name. */
  lemma RootReads(env: Env, b: string, name: string, t: Scope)
    requires EachBinding in t && t[EachBinding] == Str(b)
    ensures ChainOk(Ident(name))
    ensures name == b ==> EachRenderPath(Ident(name), t) == Some("")
    ensures name != b && EachParam(name) in t && t[EachParam(name)] == Str("f") ==>
            EachRenderPath(Ident(name), t) == Some("f")
    ensures name == "null" ==> Eval(env, Ident(name), t) == Ok(Null)
    ensures name != "null" && User(name) in t ==> Eval(env, Ident(name), t) == Ok(t[User(name)])
  {
    assert ChainOf(Ident(name)) == Some((name, []));
  }

  /** Declaring a name again, or declaring null: the name reads the text, or null, where its path reads the field. */
  lemma RedeclaringMisreads(env: Env, b: string, names: seq<string>, i: nat)
    requires b != "null" && b !in names && i < |names|
    requires names[i] == "null" || names[i] in names[i + 1..]
    ensures !PathsSurvive(env, b, names)
  {
    var values := OneAlias(b, |names|, i);
    var s := At(ItemScope(map[], b, ITEM), "0");
    OneAliasIsOk(b, |names|, i);
    AliasStays(env, 0, b, names, i, 0, RenderPathOf(s), s, NoSlot);
    var q := LowerFrom(env, 0, Declarations(names, values), 0, RenderPathOf(s), s, NoSlot).value.scope;
    assert names[i] in names;
    RootReads(env, b, names[i], At(q, RenderPathOf(s)));
    FieldReads();
    PathsFail(env, b, names, values, ITEM, At(q, RenderPathOf(s)), Ident(names[i]));
  }

  lemma FieldReads()
    ensures ReadPath(ITEM, "f") == Str("y")
  {
    SplitOnAtom('.', "f");
    assert SplitDots("f") == ["f"];
    assert Walk(ITEM, ["f"]) == Walk(FieldOf(ITEM, "f"), []);
  }

  /** Paths survive declarations exactly if every name is new: not the loop's, not null, and not declared before. */
  lemma PathsSurviveExactly(env: Env, b: string, names: seq<string>)
    requires b != "null"
    ensures PathsSurvive(env, b, names) <==> AreFresh(names, {b, "null"})
  {
    if AreFresh(names, {b, "null"}) {
      forall values: seq<Expr>, fuel: nat, path: string, scope: Scope, slots: Slots, item: Value
        | |values| == |names| && (forall e <- values :: ChainOk(e)) && NoStaleAlias(scope, b)
            && LowerItem(env, fuel, b, Declarations(names, values), path, scope, slots, item).Ok?
        ensures PathsAreExact(env, LowerItem(env, fuel, b, Declarations(names, values), path, scope, slots,
                item).value.scope, item)
      {
        var s := At(ItemScope(scope, b, item), path);
        ItemRuns(env, fuel, b, Declarations(names, values), path, scope, slots, item);
        FreshIsFragment(env, fuel, names, values, {b, "null"}, slots);
        DeclarationsAreSilent(env, fuel, names, values, 0, RenderPathOf(s), s, slots);
        OwnPathsReadBack(env, fuel, b, Declarations(names, values), path, scope, slots, item);
        ExactFromTracking(env, LowerItem(env, fuel, b, Declarations(names, values), path, scope, slots,
            item).value.scope, b, item);
      }
    } else if b in names {
      RebindingMisreads(env, b, names);
    } else if "null" in names {
      var i :| 0 <= i < |names| && names[i] == "null";
      RedeclaringMisreads(env, b, names, i);
    } else {
      var i, j :| 0 <= i < j < |names| && names[i] == names[j];
      assert names[i + 1..][j - i - 1] == names[i];
      RedeclaringMisreads(env, b, names, i);
    }
  }
}
