/** Evaluation of expressions, and how the lowerer follows the loop item through them. */
module Evaluation {
  import opened Text
  import opened LoweringModel

  function Eval(env: Env, e: Expr, scope: Scope): Result<Value>
    decreases e, 1
  {
    match e
    case StrLit(text) => Ok(Str(text))
    case NumLit(n) => Ok(Num(n))
    case FltLit(text) => Ok(Flt(text))
    case BoolLit(b) => Ok(Bool(b))
    case ListLit(items) =>
      var values :- EvalAll(env, items, scope);
      Ok(List(values))
    case ObjLit(fields) =>
      var values :- EvalFields(env, fields, scope);
      Ok(Record(values))
    case Ident(name) =>
      if name == "null" then Ok(Null)
      else if User(name) in scope then Ok(scope[User(name)])
      else Err(UnknownIdentifier(name))
    case Unary(op, operand) =>
      var v :- Eval(env, operand, scope);
      (match op
       case Not => Ok(Bool(!Truthy(v)))
       case Neg => env.negate(v))
    case Binary(op, left, right) =>
      var l :- Eval(env, left, scope);
      if op == And && !Truthy(l) then Ok(Bool(false))
      else if op == Or && Truthy(l) then Ok(Bool(true))
      else if op == Fallback && !l.Null? then Ok(l)
      else
        var r :- Eval(env, right, scope);
        EvalBinary(env, op, l, r)
    case Index(base, index) =>
      var o :- Eval(env, base, scope);
      var i :- Eval(env, index, scope);
      EvalIndex(o, i)
    case Member(base, property) =>
      var v :- Eval(env, base, scope);
      if v.Record? then Ok(FieldOf(v, property)) else Err(UnknownMember(property))
    case OptionalMember(base, property) =>
      var r := Eval(env, base, scope);
      if r.Err? then
        if r.error.UnknownIdentifier? || r.error.UnknownMember? then Ok(Null) else Err(r.error)
      else Ok(FieldOf(r.value, property))
    case Call(path, args) =>
      var values :- EvalAll(env, args, scope);
      match env.resolve(path, values)
      case Some(v) => Ok(v)
      case None => Err(UnsupportedCall(path))
  }

  function EvalAll(env: Env, es: seq<Expr>, scope: Scope): Result<seq<Value>>
    decreases es, 0
  {
    if es == [] then Ok([])
    else
      var v :- Eval(env, es[0], scope);
      var rest :- EvalAll(env, es[1..], scope);
      Ok([v] + rest)
  }

  function EvalFields(env: Env, fields: seq<Field>, scope: Scope): Result<map<string, Value>>
    decreases fields, 0
  {
    if fields == [] then Ok(map[])
    else
      var v :- Eval(env, fields[0].value, scope);
      var rest :- EvalFields(env, fields[1..], scope);
      Ok(map[fields[0].name := v] + rest)
  }

  /** A record's field, or null when there is none or the value is no record. */
  function FieldOf(v: Value, property: string): Value {
    if v.Record? && property in v.fields then v.fields[property] else Null
  }

  function EvalIndex(base: Value, index: Value): Result<Value> {
    if base.List? && index.Num? then
      Ok(if 0 <= index.n < |base.items| then base.items[index.n] else Null)
    else if base.Record? && index.Str? then Ok(FieldOf(base, index.text))
    else Err(UnsupportedExpression("index access expects List[Number] or Record[String]"))
  }

  function EvalBinary(env: Env, op: BinaryOp, l: Value, r: Value): Result<Value> {
    match op
    case And => Ok(Bool(Truthy(r)))
    case Or => Ok(Bool(Truthy(r)))
    case Fallback => Ok(r)
    case Eq => Ok(Bool(l == r))
    case Ne => Ok(Bool(l != r))
    case In =>
      if r.List? then Ok(Bool(l in r.items))
      else Err(UnsupportedExpression("`in` expects a list on the right side"))
    case Add => AddValues(env, l, r)
    case Gt => CompareValues(env, op, l, r)
    case Ge => CompareValues(env, op, l, r)
    case Lt => CompareValues(env, op, l, r)
    case Le => CompareValues(env, op, l, r)
    case _ => env.arithmetic(op, l, r)
  }

  /** Integers and strings are compared here; a comparison with a float is arithmetic. */
  function CompareValues(env: Env, op: BinaryOp, l: Value, r: Value): Result<Value> {
    if l.Num? && r.Num? then Ok(Bool(InOrder(op, l.n < r.n, l.n == r.n)))
    else if l.Str? && r.Str? then Ok(Bool(InOrder(op, ComesBefore(l.text, r.text), l.text == r.text)))
    else if (l.Flt? || l.Num?) && (r.Flt? || r.Num?) then env.arithmetic(op, l, r)
    else Err(UnsupportedExpression("comparison expects comparable values"))
  }

  predicate InOrder(op: BinaryOp, before: bool, same: bool) {
    match op
    case Gt => !before && !same
    case Ge => !before
    case Lt => before
    case _ => before || same
  }

  /** The order of a dictionary. */
  predicate ComesBefore(a: string, b: string) {
    b != "" && (a == "" || a[0] < b[0] || (a[0] == b[0] && ComesBefore(a[1..], b[1..])))
  }

  const MIN_I64: int := -0x8000_0000_0000_0000
  const MAX_I64: int := 0x7fff_ffff_ffff_ffff

  function AddValues(env: Env, l: Value, r: Value): Result<Value> {
    if l.Num? && r.Num? then
      if MIN_I64 <= l.n + r.n <= MAX_I64 then Ok(Num(l.n + r.n))
      else Err(UnsupportedExpression("integer addition overflow"))
    else if (l.Flt? || l.Num?) && (r.Flt? || r.Num?) then env.arithmetic(Add, l, r)
    else if l.Str? || r.Str? then
      if IsScalar(l) && IsScalar(r) then Ok(Str(AsString(l) + AsString(r)))
      else Err(UnsupportedExpression("`+` concatenation requires scalar operands"))
    else Err(UnsupportedExpression("`+` requires two numbers or a String with a scalar operand"))
  }

  predicate IsScalar(v: Value) {
    v.Str? || v.Num? || v.Flt? || v.Bool?
  }

  /** The root name and the properties of a plain or optional member chain. */
  function ChainOf(e: Expr): Option<(string, seq<string>)> {
    match e
    case Ident(name) => Some((name, []))
    case Member(base, property) => ExtendChain(ChainOf(base), property)
    case OptionalMember(base, property) => ExtendChain(ChainOf(base), property)
    case _ => None
  }

  function ExtendChain(chain: Option<(string, seq<string>)>, property: string): Option<(string, seq<string>)> {
    match chain
    case None => None
    case Some((root, parts)) => Some((root, parts + [property]))
  }

  /** The item path that an expression names, when it is a chain from the loop binding or an alias. */
  function EachRenderPath(e: Expr, scope: Scope): Option<string> {
    match ChainOf(e)
    case None => None
    case Some((root, parts)) =>
      if EachBinding !in scope then None
      else if root == AsString(scope[EachBinding]) then Some(JoinDots(parts))
      else if EachParam(root) !in scope then None
      else Some(ExtendPath(AsString(scope[EachParam(root)]), JoinDots(parts)))
  }

  predicate ReferencesItem(e: Expr, scope: Scope)
    decreases e, 1
  {
    match e
    case Ident(name) =>
      || (EachBinding in scope && AsString(scope[EachBinding]) == name)
      || EachParam(name) in scope
    case ListLit(items) => AnyReferences(items, scope)
    case ObjLit(fields) => AnyFieldReferences(fields, scope)
    case Unary(_, operand) => ReferencesItem(operand, scope)
    case Binary(_, left, right) => ReferencesItem(left, scope) || ReferencesItem(right, scope)
    case Index(base, index) => ReferencesItem(base, scope) || ReferencesItem(index, scope)
    case Member(base, _) => ReferencesItem(base, scope)
    case OptionalMember(base, _) => ReferencesItem(base, scope)
    case Call(_, args) => AnyReferences(args, scope)
    case _ => false
  }

  predicate AnyReferences(es: seq<Expr>, scope: Scope)
    decreases es, 0
  {
    es != [] && (ReferencesItem(es[0], scope) || AnyReferences(es[1..], scope))
  }

  predicate AnyFieldReferences(fields: seq<Field>, scope: Scope)
    decreases fields, 0
  {
    fields != [] && (ReferencesItem(fields[0].value, scope) || AnyFieldReferences(fields[1..], scope))
  }

  /** What the client reads at a path of an item. */
  function Walk(v: Value, parts: seq<string>): Value
    decreases |parts|
  {
    if parts == [] then v else Walk(FieldOf(v, parts[0]), parts[1..])
  }

  lemma {:induction false} WalkConcat(v: Value, a: seq<string>, b: seq<string>)
    ensures Walk(v, a + b) == Walk(Walk(v, a), b)
    decreases |a|
  {
    if a == [] {
      assert a + b == b;
    } else {
      assert (a + b)[1..] == a[1..] + b;
      WalkConcat(FieldOf(v, a[0]), a[1..], b);
    }
  }

  lemma WalkStep(v: Value, parts: seq<string>, property: string)
    ensures Walk(v, parts + [property]) == FieldOf(Walk(v, parts), property)
  {
    WalkConcat(v, parts, [property]);
    assert Walk(Walk(v, parts), [property]) == Walk(FieldOf(Walk(v, parts), property), []);
  }

  /** What a chain starts from; an unbound name is as good as null. */
  function RootValue(root: string, scope: Scope): Value {
    if root != "null" && User(root) in scope then scope[User(root)] else Null
  }

  /** Evaluating a chain walks from its root; where it fails, the walk has reached null. */
  lemma {:induction false} ChainWalks(env: Env, e: Expr, scope: Scope)
    requires ChainOf(e).Some?
    ensures var (root, parts) := ChainOf(e).value;
            var r, here := Eval(env, e, scope), Walk(RootValue(root, scope), parts);
            && (r.Ok? ==> r.value == here)
            && (r.Err? ==> here == Null && (r.error.UnknownMember? || r.error == UnknownIdentifier(root)))
            && (r.Err? && r.error.UnknownIdentifier? ==> root != "null" && User(root) !in scope)
  {
    match e {
      case Ident(_) =>
      case Member(base, property) =>
        ChainWalks(env, base, scope);
        WalkStep(RootValue(ChainOf(e).value.0, scope), ChainOf(base).value.1, property);
      case OptionalMember(base, property) =>
        ChainWalks(env, base, scope);
        WalkStep(RootValue(ChainOf(e).value.0, scope), ChainOf(base).value.1, property);
    }
  }

  /** Every alias entry holds the path of the item whose value the alias has. */
  ghost predicate AliasesTrack(scope: Scope, binding: string, item: Value) {
    && EachBinding in scope && scope[EachBinding] == Str(binding)
    && binding != "null"
    && User(binding) in scope && scope[User(binding)] == item
    && forall x | EachParam(x) in scope && x != binding :: AliasTracks(scope, x, item)
  }

  ghost predicate AliasTracks(scope: Scope, x: string, item: Value)
    requires EachParam(x) in scope
  {
    && x != "null"
    && scope[EachParam(x)].Str?
    && User(x) in scope
    && scope[User(x)] == Walk(item, SplitDots(scope[EachParam(x)].text))
  }

  /** The properties of a chain have names that a dotted path keeps apart. */
  predicate ChainOk(e: Expr) {
    ChainOf(e).Some? ==> PartsOk(ChainOf(e).value.1)
  }

  /** A tracked expression has the value that its path names in the current item. */
  lemma PathIsExact(env: Env, e: Expr, scope: Scope, binding: string, item: Value)
    requires AliasesTrack(scope, binding, item) && ChainOk(e)
    requires EachRenderPath(e, scope).Some?
    ensures var here := Walk(item, SplitDots(EachRenderPath(e, scope).value));
            var r := Eval(env, e, scope);
            && (r.Ok? ==> r.value == here)
            && (r.Err? ==> r.error.UnknownMember? && here == Null)
  {
    var (root, parts) := ChainOf(e).value;
    SplitJoin(parts);
    if root != binding {
      assert AliasTracks(scope, root, item);
      var inherited := scope[EachParam(root)].text;
      SplitExtend(inherited, JoinDots(parts));
      WalkConcat(item, SplitDots(inherited), parts);
    }
    ChainWalks(env, e, scope);
  }

  /** In a loop, the expressions with a path are exactly the chains that reference the item. */
  lemma PathExactlyOnChains(e: Expr, scope: Scope)
    requires EachBinding in scope
    ensures EachRenderPath(e, scope).Some? <==> ChainOf(e).Some? && ReferencesItem(e, scope)
  {
    if ChainOf(e).Some? {
      ChainReferences(e, scope);
    }
  }

  lemma {:induction false} ChainReferences(e: Expr, scope: Scope)
    requires ChainOf(e).Some?
    ensures ReferencesItem(e, scope) == ReferencesItem(Ident(ChainOf(e).value.0), scope)
  {
    match e {
      case Ident(_) =>
      case Member(base, _) => ChainReferences(base, scope);
      case OptionalMember(base, _) => ChainReferences(base, scope);
    }
  }

  /** Two scopes agree on every name that is neither the loop binding nor an alias. */
  ghost predicate AgreeOffItem(s: Scope, t: Scope) {
    && s.Keys == t.Keys
    && (EachBinding in s ==> s[EachBinding] == t[EachBinding])
    && forall x {:trigger User(x) in s} | User(x) in s :: ReferencesItem(Ident(x), s) || s[User(x)] == t[User(x)]
  }

  /** Every name that comes from the item in one scope comes from the item in the other. */
  ghost predicate ReferencesWithin(s: Scope, t: Scope) {
    forall x :: ReferencesItem(Ident(x), s) ==> ReferencesItem(Ident(x), t)
  }

  lemma {:induction false} FewerReferences(e: Expr, s: Scope, t: Scope)
    requires ReferencesWithin(s, t)
    ensures ReferencesItem(e, s) ==> ReferencesItem(e, t)
    decreases e, 1
  {
    match e {
      case Ident(name) => assert ReferencesItem(Ident(name), s) ==> ReferencesItem(Ident(name), t);
      case ListLit(items) => FewerAnyReferences(items, s, t);
      case ObjLit(fields) => FewerFieldReferences(fields, s, t);
      case Unary(_, operand) => FewerReferences(operand, s, t);
      case Binary(_, left, right) => FewerReferences(left, s, t); FewerReferences(right, s, t);
      case Index(base, index) => FewerReferences(base, s, t); FewerReferences(index, s, t);
      case Member(base, _) => FewerReferences(base, s, t);
      case OptionalMember(base, _) => FewerReferences(base, s, t);
      case Call(_, args) => FewerAnyReferences(args, s, t);
      case _ =>
    }
  }

  lemma {:induction false} FewerAnyReferences(es: seq<Expr>, s: Scope, t: Scope)
    requires ReferencesWithin(s, t)
    ensures AnyReferences(es, s) ==> AnyReferences(es, t)
    decreases es, 0
  {
    if es != [] {
      FewerReferences(es[0], s, t);
      FewerAnyReferences(es[1..], s, t);
    }
  }

  lemma {:induction false} FewerFieldReferences(fields: seq<Field>, s: Scope, t: Scope)
    requires ReferencesWithin(s, t)
    ensures AnyFieldReferences(fields, s) ==> AnyFieldReferences(fields, t)
    decreases fields, 0
  {
    if fields != [] {
      FewerReferences(fields[0].value, s, t);
      FewerFieldReferences(fields[1..], s, t);
    }
  }

  lemma SameReferences(e: Expr, s: Scope, t: Scope)
    requires AgreeOffItem(s, t)
    ensures ReferencesItem(e, s) == ReferencesItem(e, t)
  {
    SameEntries(e, s, t);
  }

  /** Only the lowerer's own entries decide what an expression references. */
  lemma SameEntries(e: Expr, s: Scope, t: Scope)
    requires EachBinding in s <==> EachBinding in t
    requires EachBinding in s ==> s[EachBinding] == t[EachBinding]
    requires forall x :: EachParam(x) in s <==> EachParam(x) in t
    ensures ReferencesItem(e, s) == ReferencesItem(e, t)
  {
    FewerReferences(e, s, t);
    FewerReferences(e, t, s);
  }

  /** An expression that does not reference the item evaluates alike for any two items. */
  lemma {:induction false} UnreferencedIsConstant(env: Env, e: Expr, s: Scope, t: Scope)
    requires AgreeOffItem(s, t) && !ReferencesItem(e, s)
    ensures Eval(env, e, s) == Eval(env, e, t)
    decreases e, 1
  {
    match e {
      case Ident(name) =>
        assert User(name) in s ==> s[User(name)] == t[User(name)];
      case ListLit(items) => UnreferencedAreConstant(env, items, s, t);
      case ObjLit(fields) => UnreferencedFieldsAreConstant(env, fields, s, t);
      case Unary(_, operand) => UnreferencedIsConstant(env, operand, s, t);
      case Binary(_, left, right) =>
        UnreferencedIsConstant(env, left, s, t);
        UnreferencedIsConstant(env, right, s, t);
      case Index(base, index) =>
        UnreferencedIsConstant(env, base, s, t);
        UnreferencedIsConstant(env, index, s, t);
      case Member(base, _) => UnreferencedIsConstant(env, base, s, t);
      case OptionalMember(base, _) => UnreferencedIsConstant(env, base, s, t);
      case Call(_, args) => UnreferencedAreConstant(env, args, s, t);
      case _ =>
    }
  }

  lemma {:induction false} UnreferencedAreConstant(env: Env, es: seq<Expr>, s: Scope, t: Scope)
    requires AgreeOffItem(s, t) && !AnyReferences(es, s)
    ensures EvalAll(env, es, s) == EvalAll(env, es, t)
    decreases es, 0
  {
    if es != [] {
      UnreferencedIsConstant(env, es[0], s, t);
      UnreferencedAreConstant(env, es[1..], s, t);
    }
  }

  lemma {:induction false} UnreferencedFieldsAreConstant(env: Env, fields: seq<Field>, s: Scope, t: Scope)
    requires AgreeOffItem(s, t) && !AnyFieldReferences(fields, s)
    ensures EvalFields(env, fields, s) == EvalFields(env, fields, t)
    decreases fields, 0
  {
    if fields != [] {
      UnreferencedIsConstant(env, fields[0].value, s, t);
      UnreferencedFieldsAreConstant(env, fields[1..], s, t);
    }
  }
}
