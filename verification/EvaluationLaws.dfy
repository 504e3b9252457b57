/** What expressions evaluate to, operator by operator. */
module EvaluationLaws {
  import opened Text
  import opened LoweringModel
  import opened Evaluation

  // Truth -------------------------------------------------------------------------------------

  /** These values are false, and no others. */
  lemma FalseExactly(v: Value)
    ensures !Truthy(v) <==>
              v in {Null, Bool(false), Num(0), Flt("0"), Str(""), List([]), Record(map[])}
  {
  }

  /** How a value is shown: numbers in decimal, and lists and records not at all. */
  lemma ShownAs(v: Value)
    ensures v.Str? ==> AsString(v) == v.text
    ensures v.Num? && v.n >= 0 ==> IsDigits(AsString(v)) && DigitsValue(AsString(v)) == v.n
    ensures v.Num? && v.n < 0 ==> AsString(v) == "-" + NatText(-v.n) && DigitsValue(AsString(v)[1..]) == -v.n
    ensures v.Flt? ==> AsString(v) == v.text
    ensures v == Bool(true) ==> AsString(v) == "true"
    ensures v == Bool(false) ==> AsString(v) == "false"
    ensures v == Null ==> AsString(v) == ""
    ensures v.Record? ==> AsString(v) == "[record]"
    ensures v.List? ==> AsString(v) == "[list]"
  {
    if v.Num? {
      DigitsOfNat(if v.n < 0 then -v.n else v.n);
    }
  }

  // Comparisons -------------------------------------------------------------------------------

  /** Text comes before another text at the first position where they differ, or where it ends first. */
  ghost predicate DiffersUpward(a: string, b: string) {
    exists k: nat ::
      && k <= |a| && k < |b| && a[..k] == b[..k] && (k < |a| ==> a[k] < b[k])
  }

  lemma SameStart(a: string, b: string)
    ensures forall k: nat | 0 < k <= |a| && k <= |b| && a[..k] == b[..k] :: a[0] == b[0]
  {
    forall k: nat | 0 < k <= |a| && k <= |b| && a[..k] == b[..k] ensures a[0] == b[0] {
      assert a[..k][0] == b[..k][0];
    }
  }

  lemma {:induction false} ComesBeforeExactly(a: string, b: string)
    ensures ComesBefore(a, b) <==> DiffersUpward(a, b)
  {
    SameStart(a, b);
    if a != "" && b != "" && a[0] == b[0] {
      ComesBeforeExactly(a[1..], b[1..]);
      if ComesBefore(a, b) {
        var k: nat :| && k <= |a[1..]| && k < |b[1..]| && a[1..][..k] == b[1..][..k]
                      && (k < |a[1..]| ==> a[1..][k] < b[1..][k]);
        assert a[..k + 1] == [a[0]] + a[1..][..k] && b[..k + 1] == [b[0]] + b[1..][..k];
      }
      if k: nat :| k <= |a| && k < |b| && a[..k] == b[..k] && (k < |a| ==> a[k] < b[k]) {
        assert k > 0;
        assert a[1..][..k - 1] == a[..k][1..] && b[1..][..k - 1] == b[..k][1..];
      }
    } else if b != "" && (a == "" || a[0] < b[0]) {
      assert a[..0] == b[..0];
    }
  }

  /** What the comparisons of integers say. */
  lemma IntegersCompare(env: Env, x: int, y: int)
    ensures EvalBinary(env, Eq, Num(x), Num(y)) == Ok(Bool(x == y))
    ensures EvalBinary(env, Ne, Num(x), Num(y)) == Ok(Bool(x != y))
    ensures EvalBinary(env, Lt, Num(x), Num(y)) == Ok(Bool(x < y))
    ensures EvalBinary(env, Le, Num(x), Num(y)) == Ok(Bool(x <= y))
    ensures EvalBinary(env, Gt, Num(x), Num(y)) == Ok(Bool(x > y))
    ensures EvalBinary(env, Ge, Num(x), Num(y)) == Ok(Bool(x >= y))
  {
  }

  /** What the comparisons of strings say. */
  lemma StringsCompare(env: Env, a: string, b: string)
    ensures EvalBinary(env, Lt, Str(a), Str(b)) == Ok(Bool(DiffersUpward(a, b)))
    ensures EvalBinary(env, Le, Str(a), Str(b)) == Ok(Bool(a == b || DiffersUpward(a, b)))
    ensures EvalBinary(env, Gt, Str(a), Str(b)) == Ok(Bool(!(a == b || DiffersUpward(a, b))))
    ensures EvalBinary(env, Ge, Str(a), Str(b)) == Ok(Bool(!DiffersUpward(a, b)))
  {
    ComesBeforeExactly(a, b);
  }

  /** Equality and membership hold of any values; membership asks for a list. */
  lemma ValuesCompare(env: Env, v: Value, w: Value)
    ensures EvalBinary(env, Eq, v, w) == Ok(Bool(v == w)) && EvalBinary(env, Ne, v, w) == Ok(Bool(v != w))
    ensures w.List? ==> EvalBinary(env, In, v, w) == Ok(Bool(exists i | 0 <= i < |w.items| :: w.items[i] == v))
    ensures !w.List? ==> EvalBinary(env, In, v, w).Err?
  {
  }

  /** Sums of integers that fit, and texts of scalars one after the other. */
  lemma SumsMean(env: Env, v: Value, w: Value)
    ensures v.Num? && w.Num? && -0x8000_0000_0000_0000 <= v.n + w.n < 0x8000_0000_0000_0000 ==>
              EvalBinary(env, Add, v, w) == Ok(Num(v.n + w.n))
    ensures v.Num? && w.Num? && !(-0x8000_0000_0000_0000 <= v.n + w.n < 0x8000_0000_0000_0000) ==>
              EvalBinary(env, Add, v, w).Err?
    ensures (v.Str? && IsScalar(w)) || (IsScalar(v) && w.Str?) ==>
              EvalBinary(env, Add, v, w) == Ok(Str(AsString(v) + AsString(w)))
    ensures v == Null || v.List? || v.Record? ==> EvalBinary(env, Add, v, w).Err?
    ensures w == Null || w.List? || w.Record? ==> EvalBinary(env, Add, v, w).Err?
  {
  }

  // Expressions -------------------------------------------------------------------------------

  /** Logic does not look at its right side when the left side decides. */
  lemma LogicDecides(env: Env, left: Expr, right: Expr, s: Scope, v: Value)
    requires Eval(env, left, s) == Ok(v)
    ensures !Truthy(v) ==> Eval(env, Binary(And, left, right), s) == Ok(Bool(false))
    ensures Truthy(v) ==> Eval(env, Binary(Or, left, right), s) == Ok(Bool(true))
    ensures v != Null ==> Eval(env, Binary(Fallback, left, right), s) == Ok(v)
  {
  }

  /** Conjunction, disjunction, and the right value in place of null. */
  lemma LogicMeans(env: Env, left: Expr, right: Expr, s: Scope, v: Value, w: Value)
    requires Eval(env, left, s) == Ok(v) && Eval(env, right, s) == Ok(w)
    ensures Eval(env, Binary(And, left, right), s) == Ok(Bool(Truthy(v) && Truthy(w)))
    ensures Eval(env, Binary(Or, left, right), s) == Ok(Bool(Truthy(v) || Truthy(w)))
    ensures Eval(env, Binary(Fallback, left, right), s) == Ok(if v == Null then w else v)
  {
  }

  /** Every other operator takes the left value and then the right value. */
  lemma OperandsInOrder(env: Env, op: BinaryOp, left: Expr, right: Expr, s: Scope, v: Value, w: Value)
    requires Eval(env, left, s) == Ok(v) && Eval(env, right, s) == Ok(w) && op !in {And, Or, Fallback}
    ensures Eval(env, Binary(op, left, right), s) == EvalBinary(env, op, v, w)
    ensures op in {Sub, Mul, Div, Rem} ==> Eval(env, Binary(op, left, right), s) == env.arithmetic(op, v, w)
  {
  }

  lemma UnaryMeans(env: Env, e: Expr, s: Scope, v: Value)
    requires Eval(env, e, s) == Ok(v)
    ensures Eval(env, Unary(Not, e), s) == Ok(Bool(!Truthy(v)))
    ensures Eval(env, Unary(Neg, e), s) == env.negate(v)
  {
  }

  /** An index out of range, and a missing field, give null; anything but a list or record is an error. */
  lemma IndexMeans(env: Env, base: Expr, index: Expr, s: Scope, v: Value, w: Value)
    requires Eval(env, base, s) == Ok(v) && Eval(env, index, s) == Ok(w)
    ensures Eval(env, Index(base, index), s) == EvalIndex(v, w)
    ensures v.List? && w.Num? ==> EvalIndex(v, w) == Ok(if 0 <= w.n < |v.items| then v.items[w.n] else Null)
    ensures v.Record? && w.Str? ==> EvalIndex(v, w) == Ok(if w.text in v.fields then v.fields[w.text] else Null)
    ensures !(v.List? && w.Num?) && !(v.Record? && w.Str?) ==> EvalIndex(v, w).Err?
  {
  }

  /** A missing field is null; a member of anything but a record is an error, unless it is optional. */
  lemma MembersMean(env: Env, base: Expr, property: string, s: Scope, v: Value)
    requires Eval(env, base, s) == Ok(v)
    ensures v.Record? ==>
              && Eval(env, Member(base, property), s) == Ok(if property in v.fields then v.fields[property] else Null)
              && Eval(env, OptionalMember(base, property), s) == Eval(env, Member(base, property), s)
    ensures !v.Record? ==>
              && Eval(env, Member(base, property), s) == Err(UnknownMember(property))
              && Eval(env, OptionalMember(base, property), s) == Ok(Null)
  {
  }

  lemma {:induction false} ElementsInOrder(env: Env, es: seq<Expr>, s: Scope)
    ensures EvalAll(env, es, s).Ok? <==> forall e <- es :: Eval(env, e, s).Ok?
    ensures EvalAll(env, es, s).Ok? ==>
              && |EvalAll(env, es, s).value| == |es|
              && forall i | 0 <= i < |es| :: Eval(env, es[i], s) == Ok(EvalAll(env, es, s).value[i])
  {
    if es != [] {
      ElementsInOrder(env, es[1..], s);
      assert es[0] in es && forall e <- es[1..] :: e in es;
      assert forall e <- es :: e == es[0] || e in es[1..];
      if EvalAll(env, es, s).Ok? {
        forall i | 0 <= i < |es| ensures Eval(env, es[i], s) == Ok(EvalAll(env, es, s).value[i]) {
          if i > 0 {
            assert es[i] == es[1..][i - 1];
          }
        }
      }
    }
  }

  /** Lists and calls evaluate their parts, one value for each in order; a call gives these values to the resolver. */
  lemma PartsMean(env: Env, path: seq<string>, es: seq<Expr>, values: seq<Value>, s: Scope)
    requires |values| == |es| && forall i | 0 <= i < |es| :: Eval(env, es[i], s) == Ok(values[i])
    ensures Eval(env, ListLit(es), s) == Ok(List(values))
    ensures Eval(env, Call(path, es), s) ==
              match env.resolve(path, values)
              case Some(v) => Ok(v)
              case None => Err(UnsupportedCall(path))
  {
    ElementsInOrder(env, es, s);
    assert EvalAll(env, es, s).value == values;
  }

  lemma AtomsMean(env: Env, name: string, text: string, n: int, b: bool, s: Scope)
    ensures Eval(env, StrLit(text), s) == Ok(Str(text)) && Eval(env, NumLit(n), s) == Ok(Num(n))
    ensures Eval(env, FltLit(text), s) == Ok(Flt(text)) && Eval(env, BoolLit(b), s) == Ok(Bool(b))
    ensures Eval(env, Ident("null"), s) == Ok(Null)
    ensures name != "null" && User(name) in s ==> Eval(env, Ident(name), s) == Ok(s[User(name)])
    ensures name != "null" && User(name) !in s ==> Eval(env, Ident(name), s) == Err(UnknownIdentifier(name))
  {
  }

  /** An object has a field for each name, with the value given to it. */
  lemma {:induction false} RecordMeans(env: Env, fields: seq<Field>, s: Scope)
    requires EvalFields(env, fields, s).Ok? && forall i, j | 0 <= i < j < |fields| :: fields[i].name != fields[j].name
    ensures Eval(env, ObjLit(fields), s) == Ok(Record(EvalFields(env, fields, s).value))
    ensures var values := EvalFields(env, fields, s).value;
            && (forall name <- values :: exists f <- fields :: f.name == name)
            && forall f <- fields :: f.name in values && Eval(env, f.value, s) == Ok(values[f.name])
  {
    if fields != [] {
      var values := EvalFields(env, fields, s).value;
      RestHasOtherNames(fields);
      RecordMeans(env, fields[1..], s);
      forall name <- values ensures exists f <- fields :: f.name == name {
        if name != fields[0].name {
          var f :| f in fields[1..] && f.name == name;
          assert f in fields;
        } else {
          assert fields[0] in fields;
        }
      }
      forall f <- fields ensures f.name in values && Eval(env, f.value, s) == Ok(values[f.name]) {
        assert f == fields[0] || f in fields[1..];
      }
    }
  }

  lemma RestHasOtherNames(fields: seq<Field>)
    requires fields != [] && forall i, j | 0 <= i < j < |fields| :: fields[i].name != fields[j].name
    ensures forall g <- fields[1..] :: g.name != fields[0].name
    ensures var rest := fields[1..]; forall i, j | 0 <= i < j < |rest| :: rest[i].name != rest[j].name
  {
    forall g <- fields[1..] ensures g.name != fields[0].name {
      var k :| 0 <= k < |fields| - 1 && fields[1..][k] == g;
      assert fields[k + 1] == g;
    }
  }
}
