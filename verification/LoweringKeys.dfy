/** The keys of a keyed loop: which are accepted, and how the items carry them. */
module LoweringKeys {
  import opened Text
  import opened LoweringModel
  import opened Evaluation
  import opened Lowering

  const KEY_ATTR := "data-ax-each-key-id"

  /** The kind and the text of an item's key. */
  function KeyOf(env: Env, key: Expr, scope: Scope, binding: string, item: Value): Result<(string, string)> {
    var v :- Eval(env, key, ItemScope(scope, binding, item));
    KeyIdentity(v)
  }

  function Id(identity: (string, string)): string {
    identity.0 + ":" + identity.1
  }

  function KeysOf(env: Env, key: Expr, scope: Scope, binding: string,
      items: seq<Value>): (keys: seq<Result<(string, string)>>)
    ensures |keys| == |items|
  {
    if items == [] then []
    else [KeyOf(env, key, scope, binding, items[0])] + KeysOf(env, key, scope, binding, items[1..])
  }

  predicate IsGoodKey(k: Result<(string, string)>, seen: set<string>, kind: Option<string>) {
    k.Ok? && Id(k.value) !in seen && (kind.Some? ==> k.value.0 == kind.value)
  }

  /** Every key is a scalar, all are of one kind, and no two are the same. */
  predicate GoodKeys(keys: seq<Result<(string, string)>>, seen: set<string>, kind: Option<string>) {
    && (forall k <- keys :: IsGoodKey(k, seen, kind))
    && (forall i, j | 0 <= i < j < |keys| :: GoTogether(keys[i], keys[j]))
  }

  predicate GoTogether(k: Result<(string, string)>, l: Result<(string, string)>) {
    k.Ok? && l.Ok? && k.value.0 == l.value.0 && Id(k.value) != Id(l.value)
  }

  lemma GoodKeysFirst(keys: seq<Result<(string, string)>>, seen: set<string>, kind: Option<string>)
    requires keys != [] && GoodKeys(keys, seen, kind)
    ensures IsGoodKey(keys[0], seen, kind)
    ensures GoodKeys(keys[1..], seen + {Id(keys[0].value)}, Some(keys[0].value.0))
  {
    assert IsGoodKey(keys[0], seen, kind);
    var first := keys[0].value;
    forall k <- keys[1..] ensures IsGoodKey(k, seen + {Id(first)}, Some(first.0)) {
      var i :| 0 <= i < |keys[1..]| && keys[1..][i] == k;
      assert keys[i + 1] == k && IsGoodKey(k, seen, kind) && GoTogether(keys[0], keys[i + 1]);
    }
    assert forall i | 0 <= i < |keys| - 1 :: keys[1..][i] == keys[i + 1];
  }

  lemma GoodKeysRest(keys: seq<Result<(string, string)>>, seen: set<string>, kind: Option<string>)
    requires keys != [] && IsGoodKey(keys[0], seen, kind)
    requires GoodKeys(keys[1..], seen + {Id(keys[0].value)}, Some(keys[0].value.0))
    ensures GoodKeys(keys, seen, kind)
  {
    var first, rest := keys[0].value, keys[1..];
    forall i | 0 < i < |keys| ensures IsGoodKey(keys[i], seen + {Id(first)}, Some(first.0)) {
      assert keys[i] == rest[i - 1] && rest[i - 1] in rest;
    }
    forall i, j | 0 <= i < j < |keys| ensures GoTogether(keys[i], keys[j]) {
      if i > 0 {
        assert keys[i] == rest[i - 1] && keys[j] == rest[j - 1];
      }
    }
  }

  /** Good keys are a good first key and good keys after it. */
  lemma GoodKeysStep(keys: seq<Result<(string, string)>>, seen: set<string>, kind: Option<string>)
    requires keys != []
    ensures GoodKeys(keys, seen, kind) <==>
              IsGoodKey(keys[0], seen, kind) && GoodKeys(keys[1..], seen + {Id(keys[0].value)}, Some(keys[0].value.0))
  {
    if GoodKeys(keys, seen, kind) {
      GoodKeysFirst(keys, seen, kind);
    } else if IsGoodKey(keys[0], seen, kind) && GoodKeys(keys[1..], seen + {Id(keys[0].value)}, Some(keys[0].value.0)) {
      GoodKeysRest(keys, seen, kind);
    }
  }

  lemma KeyIsAccepted(env: Env, key: Expr, scope: Scope, binding: string, items: seq<Value>, seen: set<string>,
      kind: Option<string>)
    requires items != []
    ensures var keys := KeysOf(env, key, scope, binding, items);
            var first := AcceptKey(env, key, ItemScope(scope, binding, items[0]), seen, kind);
            && keys[0] == KeyOf(env, key, scope, binding, items[0])
            && keys[1..] == KeysOf(env, key, scope, binding, items[1..])
            && (first.Ok? <==> IsGoodKey(keys[0], seen, kind)) && (first.Ok? ==> keys[0] == first)
  {
  }

  /** When every body lowers, the loop lowers exactly if its keys are good. */
  lemma {:induction false} KeysDecideExactly(env: Env, fuel: nat, binding: string, key: Expr, body: seq<Statement>,
      here: string,
                                             scope: Scope, slots: Slots, items: seq<Value>, seen: set<string>,
                                                 kind: Option<string>)
    requires forall item <- items, path: string :: LowerItem(env, fuel, binding, body, path, scope, slots, item).Ok?
    ensures LowerKeyed(env, fuel, binding, key, body, here, scope, slots, items, seen, kind).Ok?
            <==> GoodKeys(KeysOf(env, key, scope, binding, items), seen, kind)
    decreases |items|
  {
    if items != [] {
      GoodKeysStep(KeysOf(env, key, scope, binding, items), seen, kind);
      KeyIsAccepted(env, key, scope, binding, items, seen, kind);
      var first := AcceptKey(env, key, ItemScope(scope, binding, items[0]), seen, kind);
      if first.Ok? {
        var id := Id(first.value);
        assert items[0] in items && LowerItem(env, fuel, binding, body, ItemPath(env, here, id), scope, slots,
            items[0]).Ok?;
        KeysDecideExactly(env, fuel, binding, key, body, here, scope, slots, items[1..], seen + {id},
            Some(first.value.0));
      }
    }
  }

  /** One element for each item, with the item's key. */
  predicate CarriesKeys(keys: seq<Result<(string, string)>>, children: seq<Node>) {
    && |children| == |keys|
    && forall i | 0 <= i < |keys| :: keys[i].Ok? && CarriesKey(keys[i].value, children[i])
  }

  predicate CarriesKey(identity: (string, string), child: Node) {
    child.Element? && KEY_ATTR in child.attrs && child.attrs[KEY_ATTR] == Id(identity)
  }

  lemma {:induction false} KeyedCarriesKeys(env: Env, fuel: nat, binding: string, key: Expr, body: seq<Statement>,
      here: string,
                                            scope: Scope, slots: Slots, items: seq<Value>, seen: set<string>,
                                                kind: Option<string>)
    requires LowerKeyed(env, fuel, binding, key, body, here, scope, slots, items, seen, kind).Ok?
    ensures var keys := KeysOf(env, key, scope, binding, items);
            && GoodKeys(keys, seen, kind)
            && CarriesKeys(keys, LowerKeyed(env, fuel, binding, key, body, here, scope, slots, items, seen,
                kind).value.children)
    decreases |items|
  {
    if items != [] {
      GoodKeysStep(KeysOf(env, key, scope, binding, items), seen, kind);
      KeyIsAccepted(env, key, scope, binding, items, seen, kind);
      var first := AcceptKey(env, key, ItemScope(scope, binding, items[0]), seen, kind).value;
      KeyedCarriesKeys(env, fuel, binding, key, body, here, scope, slots, items[1..], seen + {Id(first)},
          Some(first.0));
      var r := LowerItem(env, fuel, binding, body, ItemPath(env, here, Id(first)), scope, slots, items[0]).value;
      var rest := LowerKeyed(env, fuel, binding, key, body, here, scope, slots, items[1..], seen + {Id(first)},
          Some(first.0)).value;
      CarriesStep(KeysOf(env, key, scope, binding, items), EachItemNode(first, r.nodes), rest.children);
    }
  }

  lemma CarriesStep(keys: seq<Result<(string, string)>>, child: Node, rest: seq<Node>)
    requires keys != [] && keys[0].Ok? && CarriesKey(keys[0].value, child) && CarriesKeys(keys[1..], rest)
    ensures CarriesKeys(keys, [child] + rest)
  {
    forall i | 0 <= i < |keys| ensures keys[i].Ok? && CarriesKey(keys[i].value, ([child] + rest)[i]) {
      if i > 0 {
        assert keys[i] == keys[1..][i - 1];
      }
    }
  }

  predicate DistinctKeys(children: seq<Node>) {
    && (forall child <- children :: child.Element? && KEY_ATTR in child.attrs)
    && (forall i, j | 0 <= i < j < |children| :: children[i].attrs[KEY_ATTR] != children[j].attrs[KEY_ATTR])
  }

  /** A lowered loop has one element for each item, and no two carry the same key. */
  lemma ItemKeysAreDistinct(env: Env, fuel: nat, binding: string, key: Expr, body: seq<Statement>, here: string,
                            scope: Scope, slots: Slots, items: seq<Value>)
    requires LowerKeyed(env, fuel, binding, key, body, here, scope, slots, items, {}, None).Ok?
    ensures var children := LowerKeyed(env, fuel, binding, key, body, here, scope, slots, items, {},
              None).value.children;
            |children| == |items| && DistinctKeys(children)
  {
    KeyedCarriesKeys(env, fuel, binding, key, body, here, scope, slots, items, {}, None);
    var children := LowerKeyed(env, fuel, binding, key, body, here, scope, slots, items, {}, None).value.children;
    forall child <- children ensures child.Element? && KEY_ATTR in child.attrs {
      var i :| 0 <= i < |children| && children[i] == child;
    }
  }
}
