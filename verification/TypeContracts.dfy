/** The checks on a backend's record types: known names, finite layout, and readable request input. */
module TypeContracts {
  import opened Text
  import opened LiteralUnions

  datatype AxType =
    | String | Number | Int | Float | Decimal | Bool
    | DateTime | Date | Time | Uuid | Bytes | File | FileRef
    | Json | Never | Void | Unknown
    | List(item: AxType)
    | Set(item: AxType)
    | Optional(item: AxType)
    | Secret(item: AxType)
    | Public(item: AxType)
    | Signal(item: AxType)
    | Map(left: AxType, right: AxType)
    | Result(left: AxType, right: AxType)
    | Resource(left: AxType, right: AxType)
    | Record(name: string)

  datatype FieldType = FieldType(name: string, ty: AxType)

  datatype RecordType = RecordType(name: string, fields: seq<FieldType>)

  datatype ContractError =
    | DuplicateType(name: string)
    | UnknownTypeReference(record: string, field: string, target: string)
    | RecursiveType(name: string)
    | UnionFault(error: UnionError)

  datatype Outcome = Pass | Fail(error: ContractError)

  function FindRecord(types: seq<RecordType>, name: string): (r: Option<RecordType>)
    ensures r.Some? ==> r.value in types && r.value.name == name
    ensures r.None? <==> forall t <- types :: t.name != name
  {
    if types == [] then None
    else if types[0].name == name then Some(types[0])
    else FindRecord(types[1..], name)
  }

  /** The records a type holds without a heap indirection. */
  function InlineReferences(ty: AxType): seq<string> {
    match ty
    case Record(name) => [name]
    case Optional(item) => InlineReferences(item)
    case Secret(item) => InlineReferences(item)
    case Public(item) => InlineReferences(item)
    case Result(left, right) => InlineReferences(left) + InlineReferences(right)
    case _ => []
  }

  predicate Refers(types: seq<RecordType>, a: string, b: string) {
    match FindRecord(types, a)
    case Some(record) => exists f <- record.fields :: b in InlineReferences(f.ty)
    case None => false
  }

  // The cycle search --------------------------------------------------------------------------

  function Declared(types: seq<RecordType>): set<string> {
    set t <- types :: t.name
  }

  function NotOn(types: seq<RecordType>, path: seq<string>): set<string> {
    Declared(types) - (set name <- path)
  }

  lemma PathGrows(types: seq<RecordType>, path: seq<string>, current: string)
    requires current in Declared(types) && current !in path
    ensures |NotOn(types, path + [current])| < |NotOn(types, path)|
  {
    assert current in NotOn(types, path);
    assert NotOn(types, path + [current]) == NotOn(types, path) - {current};
  }

  /** The search from a name, below the names already on the path, finds no repetition. */
  predicate Accepts(types: seq<RecordType>, current: string, path: seq<string>)
    decreases |NotOn(types, path)|
  {
    current !in path &&
    match FindRecord(types, current)
    case None => true
    case Some(record) =>
      PathGrows(types, path, current);
      forall f <- record.fields, name <- InlineReferences(f.ty) :: Accepts(types, name, path + [current])
  }

  /** The path that the search pushes names on and pops them from. */
  class NamePath {
    var names: seq<string>

    constructor ()
      ensures names == []
    {
      names := [];
    }

    method Push(name: string)
      modifies this
      ensures names == old(names) + [name]
    {
      names := names + [name];
    }

    method Pop()
      requires names != []
      modifies this
      ensures names == old(names[..|names| - 1])
    {
      names := names[..|names| - 1];
    }
  }

  lemma RejectedReference(types: seq<RecordType>, current: string, before: seq<string>, record: RecordType,
      field: FieldType, name: string)
    requires current !in before && FindRecord(types, current) == Some(record)
    requires field in record.fields && name in InlineReferences(field.ty)
    requires !Accepts(types, name, before + [current])
    ensures !Accepts(types, current, before)
  {
  }

  method ValidateNoRecursiveType(root: string, current: string, types: seq<RecordType>,
      path: NamePath) returns (r: Outcome)
    modifies path
    ensures r == if Accepts(types, current, old(path.names)) then Pass else Fail(RecursiveType(root))
    ensures r.Pass? ==> path.names == old(path.names)
    decreases |NotOn(types, path.names)|
  {
    ghost var before := path.names;
    if current in path.names {
      return Fail(RecursiveType(root));
    }
    path.Push(current);
    var found := FindRecord(types, current);
    if found.Some? {
      PathGrows(types, before, current);
      var fields := found.value.fields;
      for i := 0 to |fields|
        invariant path.names == before + [current]
        invariant FieldsAccepted(types, fields[..i], before + [current])
      {
        var references := InlineReferences(fields[i].ty);
        for j := 0 to |references|
          invariant path.names == before + [current]
          invariant forall name <- references[..j] :: Accepts(types, name, before + [current])
        {
          r := ValidateNoRecursiveType(root, references[j], types, path);
          if r.Fail? {
            RejectedReference(types, current, before, found.value, fields[i], references[j]);
            return;
          }
        }
        OneMoreAccepted(types, fields, i, before + [current]);
      }
      assert fields[..|fields|] == fields;
    }
    if found.Some? {
      AcceptedRecord(types, current, before, found.value);
    }
    path.Pop();
    r := Pass;
  }

  lemma AcceptedRecord(types: seq<RecordType>, current: string, before: seq<string>, record: RecordType)
    requires current !in before && FindRecord(types, current) == Some(record)
    requires FieldsAccepted(types, record.fields, before + [current])
    ensures Accepts(types, current, before)
  {
  }

  /** The search accepts what the fields hold in place. */
  predicate FieldsAccepted(types: seq<RecordType>, fields: seq<FieldType>, path: seq<string>) {
    forall f <- fields, name <- InlineReferences(f.ty) :: Accepts(types, name, path)
  }

  lemma OneMoreAccepted(types: seq<RecordType>, fields: seq<FieldType>, i: nat, path: seq<string>)
    requires i < |fields| && FieldsAccepted(types, fields[..i], path)
    requires forall name <- InlineReferences(fields[i].ty) :: Accepts(types, name, path)
    ensures FieldsAccepted(types, fields[..i + 1], path)
  {
    assert fields[..i + 1] == fields[..i] + [fields[i]];
  }

  /** A walk follows inline references. */
  predicate IsWalk(types: seq<RecordType>, w: seq<string>) {
    w != [] && forall i | 0 <= i < |w| - 1 :: Refers(types, w[i], w[i + 1])
  }

  predicate IsCycle(types: seq<RecordType>, w: seq<string>) {
    |w| >= 2 && IsWalk(types, w) && w[0] == w[|w| - 1]
  }

  ghost predicate HasCycle(types: seq<RecordType>) {
    exists w :: IsCycle(types, w)
  }

  predicate AllAccepted(types: seq<RecordType>) {
    forall t <- types :: Accepts(types, t.name, [])
  }

  /** An accepted name starts only walks that stay off the path and never repeat. */
  lemma {:induction false} AcceptedWalksAreFresh(types: seq<RecordType>, w: seq<string>, path: seq<string>)
    requires IsWalk(types, w) && Accepts(types, w[0], path)
    ensures forall i | 0 <= i < |w| :: w[i] !in path
    ensures forall i, j | 0 <= i < j < |w| :: w[i] != w[j]
    decreases |w|
  {
    if |w| > 1 {
      assert Refers(types, w[0], w[1]);
      var record := FindRecord(types, w[0]).value;
      var f :| f in record.fields && w[1] in InlineReferences(f.ty);
      assert Accepts(types, w[1], path + [w[0]]);
      forall i | 0 <= i < |w[1..]| - 1 ensures Refers(types, w[1..][i], w[1..][i + 1]) {
        assert Refers(types, w[i + 1], w[i + 2]);
      }
      AcceptedWalksAreFresh(types, w[1..], path + [w[0]]);
      forall i | 1 <= i < |w| ensures w[i] !in path && w[i] != w[0] {
        assert w[i] == w[1..][i - 1];
        assert w[1..][i - 1] !in path + [w[0]];
      }
      forall i, j | 0 <= i < j < |w| ensures w[i] != w[j] {
        if i > 0 {
          assert w[i] == w[1..][i - 1] && w[j] == w[1..][j - 1];
        }
      }
    }
  }

  lemma {:induction false} RejectionFindsCycle(types: seq<RecordType>, current: string, path: seq<string>)
    requires IsWalk(types, path + [current]) && !Accepts(types, current, path)
    ensures HasCycle(types)
    decreases |NotOn(types, path)|
  {
    var w := path + [current];
    if current in path {
      var i :| 0 <= i < |path| && path[i] == current;
      var cycle := w[i..];
      forall k | 0 <= k < |cycle| - 1 ensures Refers(types, cycle[k], cycle[k + 1]) {
        assert Refers(types, w[i + k], w[i + k + 1]);
      }
      assert IsCycle(types, cycle);
    } else {
      PathGrows(types, path, current);
      var record := FindRecord(types, current).value;
      var f, name :| f in record.fields && name in InlineReferences(f.ty) && !Accepts(types, name, w);
      assert Refers(types, current, name);
      var longer := w + [name];
      forall k | 0 <= k < |longer| - 1 ensures Refers(types, longer[k], longer[k + 1]) {
        assert k < |w| - 1 ==> Refers(types, w[k], w[k + 1]);
      }
      RejectionFindsCycle(types, name, w);
    }
  }

  /** The search accepts every record exactly when no inline references form a cycle. */
  lemma AcceptedExactlyWithoutCycle(types: seq<RecordType>)
    ensures AllAccepted(types) <==> !HasCycle(types)
  {
    if AllAccepted(types) {
      forall w | IsCycle(types, w) ensures false {
        assert Refers(types, w[0], w[1]);
        assert FindRecord(types, w[0]).value in types;
        AcceptedWalksAreFresh(types, w, []);
      }
    } else {
      var t :| t in types && !Accepts(types, t.name, []);
      RejectionFindsCycle(types, t.name, []);
    }
  }

  // Finite layout -----------------------------------------------------------------------------

  /** Every inline reference leads to a smaller rank, so a record's layout is finite. */
  ghost predicate Ranks(types: seq<RecordType>, rank: string -> nat) {
    forall a, b :: Refers(types, a, b) ==> rank(b) < rank(a)
  }

  ghost predicate Connected(types: seq<RecordType>, a: string, b: string) {
    exists w :: IsWalk(types, w) && w[0] == a && w[|w| - 1] == b
  }

  function Referenced(types: seq<RecordType>): set<string> {
    set t <- types, f <- t.fields, name <- InlineReferences(f.ty) :: name
  }

  ghost function Reach(types: seq<RecordType>, a: string): set<string> {
    set b | b in Declared(types) + Referenced(types) && Connected(types, a, b)
  }

  lemma WalkFrom(types: seq<RecordType>, a: string, w: seq<string>)
    requires IsWalk(types, w) && Refers(types, a, w[0])
    ensures IsWalk(types, [a] + w)
  {
    var longer := [a] + w;
    forall k | 0 <= k < |longer| - 1 ensures Refers(types, longer[k], longer[k + 1]) {
      assert k > 0 ==> Refers(types, w[k - 1], w[k]);
    }
  }

  lemma SmallerReach(types: seq<RecordType>, a: string, b: string)
    requires !HasCycle(types) && Refers(types, a, b)
    ensures |Reach(types, b)| < |Reach(types, a)|
  {
    forall c | c in Reach(types, b) ensures c in Reach(types, a) {
      var w :| IsWalk(types, w) && w[0] == b && w[|w| - 1] == c;
      WalkFrom(types, a, w);
      assert ([a] + w)[|[a] + w| - 1] == c;
    }
    assert a in Reach(types, a) by {
      assert FindRecord(types, a).value in types;
      assert IsWalk(types, [a]);
    }
    if a in Reach(types, b) {
      var w :| IsWalk(types, w) && w[0] == b && w[|w| - 1] == a;
      WalkFrom(types, a, w);
      assert IsCycle(types, [a] + w);
    }
    StrictSubsetIsSmaller(Reach(types, b), Reach(types, a));
  }

  lemma StrictSubsetIsSmaller(a: set<string>, b: set<string>)
    requires a < b
    ensures |a| < |b|
  {
    assert b == a + (b - a) && b - a != {};
  }

  /** Acceptance and a rank for every inline reference are the same thing. */
  lemma AcceptedExactlyWithRank(types: seq<RecordType>)
    ensures AllAccepted(types) <==> exists rank :: Ranks(types, rank)
  {
    AcceptedExactlyWithoutCycle(types);
    if !HasCycle(types) {
      ghost var rank: string -> nat := name => |Reach(types, name)|;
      forall a, b | Refers(types, a, b) ensures rank(b) < rank(a) {
        SmallerReach(types, a, b);
      }
      assert Ranks(types, rank);
    }
    if rank: string -> nat :| Ranks(types, rank) {
      forall w | IsCycle(types, w) ensures false {
        RankFallsAlong(types, rank, w);
      }
    }
  }

  lemma {:induction false} RankFallsAlong(types: seq<RecordType>, rank: string -> nat, w: seq<string>)
    requires Ranks(types, rank) && IsWalk(types, w)
    ensures |w| > 1 ==> rank(w[|w| - 1]) < rank(w[0])
    decreases |w|
  {
    if |w| > 1 {
      var shorter := w[..|w| - 1];
      assert Refers(types, w[|w| - 2], w[|w| - 1]);
      forall k | 0 <= k < |shorter| - 1 ensures Refers(types, shorter[k], shorter[k + 1]) {
        assert Refers(types, w[k], w[k + 1]);
      }
      RankFallsAlong(types, rank, shorter);
    }
  }

  // Layouts -----------------------------------------------------------------------------------

  /**
   * The size of a value, records nested at most `n` deep. An option or a wrapper stores its item in place, a result
   * stores both sides; a list, set, map, resource or signal stores a pointer, and any other type has a size of its own.
   */
  function LayoutSize(types: seq<RecordType>, ty: AxType, n: nat): Option<nat>
    decreases n, ty
  {
    match ty
    case Optional(item) => Together(LayoutSize(types, item, n), Some(0))
    case Secret(item) => Together(LayoutSize(types, item, n), Some(0))
    case Public(item) => Together(LayoutSize(types, item, n), Some(0))
    case Result(left, right) => Together(LayoutSize(types, left, n), LayoutSize(types, right, n))
    case Record(name) =>
      (match FindRecord(types, name)
       case None => Some(1)
       case Some(record) => if n == 0 then None else FieldsSize(types, record.fields, n - 1))
    case _ => Some(1)
  }

  function FieldsSize(types: seq<RecordType>, fields: seq<FieldType>, n: nat): Option<nat>
    decreases n, fields
  {
    if fields == [] then Some(0)
    else Together(LayoutSize(types, fields[0].ty, n), FieldsSize(types, fields[1..], n))
  }

  function Together(a: Option<nat>, b: Option<nat>): Option<nat> {
    if a.Some? && b.Some? then Some(a.value + b.value + 1) else None
  }

  /** Every declared record has a size. */
  ghost predicate HasLayout(types: seq<RecordType>) {
    exists n: nat :: AllSized(types, n)
  }

  predicate AllSized(types: seq<RecordType>, n: nat) {
    forall t <- types :: LayoutSize(types, Record(t.name), n).Some?
  }

  lemma {:induction false} FieldsAreSized(types: seq<RecordType>, fields: seq<FieldType>, n: nat)
    ensures FieldsSize(types, fields, n).Some? <==> forall f <- fields :: LayoutSize(types, f.ty, n).Some?
  {
    if fields != [] {
      FieldsAreSized(types, fields[1..], n);
      assert forall f <- fields :: f == fields[0] || f in fields[1..];
    }
  }

  /** What a type holds inline is sized where the type is. */
  lemma {:induction false} HeldIsSized(types: seq<RecordType>, ty: AxType, name: string, n: nat)
    requires LayoutSize(types, ty, n).Some? && name in InlineReferences(ty)
    ensures LayoutSize(types, Record(name), n).Some?
  {
    match ty {
      case Optional(item) => HeldIsSized(types, item, name, n);
      case Secret(item) => HeldIsSized(types, item, name, n);
      case Public(item) => HeldIsSized(types, item, name, n);
      case Result(left, right) =>
        if name in InlineReferences(left) {
          HeldIsSized(types, left, name, n);
        } else {
          HeldIsSized(types, right, name, n);
        }
      case _ =>
    }
  }

  lemma {:induction false} DeeperIsSized(types: seq<RecordType>, ty: AxType, n: nat)
    requires LayoutSize(types, ty, n).Some?
    ensures LayoutSize(types, ty, n + 1).Some?
    decreases n, ty
  {
    match ty {
      case Optional(item) => DeeperIsSized(types, item, n);
      case Secret(item) => DeeperIsSized(types, item, n);
      case Public(item) => DeeperIsSized(types, item, n);
      case Result(left, right) =>
        DeeperIsSized(types, left, n);
        DeeperIsSized(types, right, n);
      case Record(name) =>
        var found := FindRecord(types, name);
        if found.Some? {
          FieldsAreSized(types, found.value.fields, n - 1);
          forall f <- found.value.fields ensures LayoutSize(types, f.ty, n).Some? {
            DeeperIsSized(types, f.ty, n - 1);
          }
          FieldsAreSized(types, found.value.fields, n);
        }
      case _ =>
    }
  }

  /** The least depth, up to `n`, at which a record is sized. */
  function Height(types: seq<RecordType>, name: string, n: nat): (h: nat)
    ensures h <= n
  {
    if n > 0 && LayoutSize(types, Record(name), n - 1).Some? then Height(types, name, n - 1) else n
  }

  lemma {:induction false} HeightIsLeast(types: seq<RecordType>, name: string, n: nat)
    requires LayoutSize(types, Record(name), n).Some?
    ensures var h := Height(types, name, n);
            && LayoutSize(types, Record(name), h).Some? && (h > 0 ==> LayoutSize(types, Record(name), h - 1).None?)
  {
    if n > 0 && LayoutSize(types, Record(name), n - 1).Some? {
      HeightIsLeast(types, name, n - 1);
    }
  }

  lemma {:induction false} SizedIsHigh(types: seq<RecordType>, name: string, n: nat, m: nat)
    requires m <= n && LayoutSize(types, Record(name), m).Some?
    ensures Height(types, name, n) <= m
  {
    if m < n {
      SizedBetween(types, name, m, n - 1);
      SizedIsHigh(types, name, n - 1, m);
    }
  }

  lemma {:induction false} SizedBetween(types: seq<RecordType>, name: string, m: nat, n: nat)
    requires m <= n && LayoutSize(types, Record(name), m).Some?
    ensures LayoutSize(types, Record(name), n).Some?
  {
    if m < n {
      SizedBetween(types, name, m, n - 1);
      DeeperIsSized(types, Record(name), n - 1);
    }
  }

  /** A reference is sized less deep than the record that holds it. */
  lemma HeightFalls(types: seq<RecordType>, a: string, b: string, n: nat)
    requires Refers(types, a, b) && LayoutSize(types, Record(a), n).Some?
    ensures Height(types, b, n) < Height(types, a, n)
  {
    var h := Height(types, a, n);
    var record := FindRecord(types, a).value;
    HeightIsLeast(types, a, n);
    FieldsAreSized(types, record.fields, h - 1);
    var f :| f in record.fields && b in InlineReferences(f.ty);
    HeldIsSized(types, f.ty, b, h - 1);
    SizedIsHigh(types, b, n, h - 1);
  }

  lemma {:induction false} SizedByRank(types: seq<RecordType>, rank: string -> nat, ty: AxType, n: nat)
    requires Ranks(types, rank) && forall name <- InlineReferences(ty) :: rank(name) < n
    ensures LayoutSize(types, ty, n).Some?
    decreases n, ty
  {
    match ty {
      case Optional(item) => SizedByRank(types, rank, item, n);
      case Secret(item) => SizedByRank(types, rank, item, n);
      case Public(item) => SizedByRank(types, rank, item, n);
      case Result(left, right) =>
        SizedByRank(types, rank, left, n);
        SizedByRank(types, rank, right, n);
      case Record(name) =>
        assert name in InlineReferences(ty);
        var found := FindRecord(types, name);
        if found.Some? {
          forall f <- found.value.fields ensures LayoutSize(types, f.ty, n - 1).Some? {
            assert forall other <- InlineReferences(f.ty) :: Refers(types, name, other);
            SizedByRank(types, rank, f.ty, n - 1);
          }
          FieldsAreSized(types, found.value.fields, n - 1);
        }
      case _ =>
    }
  }

  lemma {:induction false} RankBound(types: seq<RecordType>, rank: string -> nat) returns (n: nat)
    ensures forall t <- types :: rank(t.name) < n
  {
    if types == [] {
      n := 0;
    } else {
      var rest := RankBound(types[1..], rank);
      n := if rank(types[0].name) < rest then rest else rank(types[0].name) + 1;
      assert forall t <- types :: t == types[0] || t in types[1..];
    }
  }

  /** The search accepts every record exactly when every record has a layout of finite size. */
  lemma AcceptedExactlyWithLayout(types: seq<RecordType>)
    ensures AllAccepted(types) <==> HasLayout(types)
  {
    AcceptedExactlyWithRank(types);
    if AllAccepted(types) {
      var rank: string -> nat :| Ranks(types, rank);
      var n := RankBound(types, rank);
      forall t <- types ensures LayoutSize(types, Record(t.name), n).Some? {
        SizedByRank(types, rank, Record(t.name), n);
      }
      assert AllSized(types, n);
    }
    if n: nat :| AllSized(types, n) {
      ghost var rank: string -> nat := name => Height(types, name, n);
      forall a, b | Refers(types, a, b) ensures rank(b) < rank(a) {
        assert FindRecord(types, a).value in types;
        HeightFalls(types, a, b, n);
      }
      assert Ranks(types, rank);
    }
  }

  // All contracts -----------------------------------------------------------------------------

  /** Every record name a type mentions. */
  function Mentioned(ty: AxType): set<string> {
    match ty
    case Record(name) => {name}
    case List(item) => Mentioned(item)
    case Set(item) => Mentioned(item)
    case Optional(item) => Mentioned(item)
    case Secret(item) => Mentioned(item)
    case Public(item) => Mentioned(item)
    case Signal(item) => Mentioned(item)
    case Map(left, right) => Mentioned(left) + Mentioned(right)
    case Result(left, right) => Mentioned(left) + Mentioned(right)
    case Resource(left, right) => Mentioned(left) + Mentioned(right)
    case _ => {}
  }

  function Parameters(ty: AxType): (items: seq<AxType>)
    ensures forall i | 0 <= i < |items| :: items[i] < ty
  {
    match ty
    case List(item) => [item]
    case Set(item) => [item]
    case Optional(item) => [item]
    case Secret(item) => [item]
    case Public(item) => [item]
    case Signal(item) => [item]
    case Map(left, right) => [left, right]
    case Result(left, right) => [left, right]
    case Resource(left, right) => [left, right]
    case _ => []
  }

  /** A type is reached from another through parameters. */
  predicate IsPartOf(part: AxType, ty: AxType) {
    part == ty || exists i | 0 <= i < |Parameters(ty)| :: IsPartOf(part, Parameters(ty)[i])
  }

  /** A name is mentioned exactly if the record of that name is a part of the type, at any nesting. */
  lemma {:induction false} MentionedExactly(ty: AxType, name: string)
    ensures name in Mentioned(ty) <==> IsPartOf(Record(name), ty)
  {
    forall i | 0 <= i < |Parameters(ty)|
      ensures name in Mentioned(Parameters(ty)[i]) <==> IsPartOf(Record(name), Parameters(ty)[i])
    {
      MentionedExactly(Parameters(ty)[i], name);
    }
    if name in Mentioned(ty) && !ty.Record? {
      var parts := Parameters(ty);
      assert (|parts| > 0 && name in Mentioned(parts[0])) || (|parts| > 1 && name in Mentioned(parts[1]));
    }
  }

  /** The first mentioned name that is not declared. */
  function FirstUnknown(ty: AxType, names: set<string>): (r: Option<string>)
    ensures r.None? <==> Mentioned(ty) <= names
    ensures r.Some? ==> r.value in Mentioned(ty) - names
  {
    match ty
    case Record(name) => if name in names then None else Some(name)
    case List(item) => FirstUnknown(item, names)
    case Set(item) => FirstUnknown(item, names)
    case Optional(item) => FirstUnknown(item, names)
    case Secret(item) => FirstUnknown(item, names)
    case Public(item) => FirstUnknown(item, names)
    case Signal(item) => FirstUnknown(item, names)
    case Map(left, right) => FirstOf(FirstUnknown(left, names), FirstUnknown(right, names))
    case Result(left, right) => FirstOf(FirstUnknown(left, names), FirstUnknown(right, names))
    case Resource(left, right) => FirstOf(FirstUnknown(left, names), FirstUnknown(right, names))
    case _ => None
  }

  function FirstOf(a: Option<string>, b: Option<string>): Option<string> {
    if a.Some? then a else b
  }

  function NamesOf(types: seq<RecordType>): seq<string> {
    seq(|types|, i requires 0 <= i < |types| => types[i].name)
  }

  function NameSet(names: seq<string>): set<string> {
    set name <- names
  }

  predicate AllDistinct(names: seq<string>) {
    forall i, j | 0 <= i < j < |names| :: names[i] != names[j]
  }

  function UnionNames(unions: seq<LiteralUnion>): seq<string> {
    seq(|unions|, i requires 0 <= i < |unions| => unions[i].name)
  }

  function AllNames(types: seq<RecordType>, unions: seq<LiteralUnion>): seq<string> {
    NamesOf(types) + UnionNames(unions)
  }

  predicate AllKnown(types: seq<RecordType>, names: set<string>) {
    forall t <- types, f <- t.fields :: Mentioned(f.ty) <= names
  }

  /** Which fault a failure reports. */
  ghost predicate Explains(error: ContractError, types: seq<RecordType>, unions: seq<LiteralUnion>) {
    match error
    case DuplicateType(name) => name in AllNames(types, unions) && !AllDistinct(AllNames(types, unions))
    case UnionFault(fault) => exists union <- unions :: ExplainsUnion(fault, union)
    case UnknownTypeReference(record, field, target) =>
      && target !in AllNames(types, unions)
      && exists t <- types, f <- t.fields :: t.name == record && f.name == field && target in Mentioned(f.ty)
    case RecursiveType(name) => name in NamesOf(types) && !Accepts(types, name, [])
  }

  /**
   * The contracts hold exactly when names are distinct, unions have distinct variants, references are known, and
   * every record has a layout of finite size.
   */
  method ValidateTypeContracts(types: seq<RecordType>, unions: seq<LiteralUnion>) returns (r: Outcome)
    ensures r.Pass? <==>
      && AllDistinct(AllNames(types, unions))
      && (forall union <- unions :: UnionOk(union))
      && AllKnown(types, NameSet(AllNames(types, unions)))
      && HasLayout(types)
    ensures r.Fail? ==> Explains(r.error, types, unions)
  {
    AcceptedExactlyWithLayout(types);
    var names;
    names, r := CollectNames(NamesOf(types));
    if r.Fail? {
      RepeatedInFront(NamesOf(types), UnionNames(unions));
      return;
    }
    names, r := CollectUnions(NamesOf(types), names, unions);
    if r.Pass? {
      r := ValidateReferences(types, names);
    }
    if r.Pass? {
      r := ValidateAllRecursion(types);
    }
  }

  lemma RepeatedInFront(a: seq<string>, b: seq<string>)
    ensures !AllDistinct(a) ==> !AllDistinct(a + b)
  {
    if i, j :| 0 <= i < j < |a| && a[i] == a[j] {
      assert (a + b)[i] == (a + b)[j];
    }
  }

  method CollectNames(declared: seq<string>) returns (names: set<string>, r: Outcome)
    ensures r.Pass? <==> AllDistinct(declared)
    ensures r.Pass? ==> names == NameSet(declared)
    ensures r.Fail? ==> r.error.DuplicateType? && r.error.name in declared
  {
    names := {};
    for i := 0 to |declared|
      invariant names == NameSet(declared[..i])
      invariant AllDistinct(declared[..i])
    {
      assert declared[..i + 1] == declared[..i] + [declared[i]];
      if declared[i] in names {
        var j :| 0 <= j < i && declared[j] == declared[i];
        return names, Fail(DuplicateType(declared[i]));
      }
      names := names + {declared[i]};
    }
    assert declared[..|declared|] == declared;
    r := Pass;
  }

  /** Adds the unions' names to those of the records, and checks the variants of each union on the way. */
  method CollectUnions(records: seq<string>, before: set<string>, unions: seq<LiteralUnion>)
    returns (names: set<string>, r: Outcome)
    requires AllDistinct(records) && before == NameSet(records)
    ensures r.Pass? <==> AllDistinct(records + UnionNames(unions)) && forall union <- unions :: UnionOk(union)
    ensures r.Pass? ==> names == NameSet(records + UnionNames(unions))
    ensures r.Fail? ==>
              || (&& r.error.DuplicateType? && r.error.name in records + UnionNames(unions)
                  && !AllDistinct(records + UnionNames(unions)))
              || (r.error.UnionFault? && exists union <- unions :: ExplainsUnion(r.error.error, union))
  {
    names := before;
    ghost var all := records + UnionNames(unions);
    assert all[..|records|] == records;
    for i := 0 to |unions|
      invariant names == NameSet(all[..|records| + i])
      invariant AllDistinct(all[..|records| + i])
      invariant forall union <- unions[..i] :: UnionOk(union)
    {
      var name := unions[i].name;
      assert all[|records| + i] == name && unions[i] in unions;
      assert all[..|records| + i + 1] == all[..|records| + i] + [name];
      if name in names {
        ghost var j :| 0 <= j < |records| + i && all[j] == name;
        return names, Fail(DuplicateType(name));
      }
      names := names + {name};
      var _, error := LiteralUnionVariants(unions[i]);
      if error.Some? {
        return names, Fail(UnionFault(error.value));
      }
    }
    assert all[..|records| + |unions|] == all;
    r := Pass;
  }

  method ValidateReferences(types: seq<RecordType>, names: set<string>) returns (r: Outcome)
    ensures r.Pass? <==> AllKnown(types, names)
    ensures r.Fail? ==> r.error.UnknownTypeReference? && r.error.target !in names
    ensures r.Fail? ==> exists t <- types, f <- t.fields ::
              t.name == r.error.record && f.name == r.error.field && r.error.target in Mentioned(f.ty)
  {
    for i := 0 to |types|
      invariant AllKnown(types[..i], names)
    {
      var fields := types[i].fields;
      for j := 0 to |fields|
        invariant forall f <- fields[..j] :: Mentioned(f.ty) <= names
      {
        var unknown := FirstUnknown(fields[j].ty, names);
        if unknown.Some? {
          assert types[i] in types && fields[j] in types[i].fields;
          return Fail(UnknownTypeReference(types[i].name, fields[j].name, unknown.value));
        }
      }
    }
    r := Pass;
  }

  method ValidateAllRecursion(types: seq<RecordType>) returns (r: Outcome)
    ensures r.Pass? <==> AllAccepted(types)
    ensures r.Fail? ==> r.error.RecursiveType? && r.error.name in NamesOf(types) && !Accepts(types, r.error.name, [])
  {
    for i := 0 to |types|
      invariant forall t <- types[..i] :: Accepts(types, t.name, [])
    {
      var path := new NamePath();
      r := ValidateNoRecursiveType(types[i].name, types[i].name, types, path);
      if r.Fail? {
        assert types[i] in types && NamesOf(types)[i] == types[i].name;
        return;
      }
    }
    r := Pass;
  }

  // Request input -----------------------------------------------------------------------------

  datatype Plan = Plan(types: seq<RecordType>, unions: seq<string>)

  datatype Reason =
    | TooDeep
    | UnsupportedType(ty: AxType)
    | InField(record: string, field: string, inner: Reason)

  predicate IsPlainInput(ty: AxType) {
    ty.String? || ty.Bool? || ty.Int? || ty.Number? || ty.Float? || ty.DateTime? || ty.Date? || ty.Time? || ty.Uuid?
  }

  const PLAIN_INPUTS: set<AxType> := {String, Bool, Int, Number, Float, DateTime, Date, Time, Uuid}

  /** The plain types are these nine. */
  lemma PlainInputsExactly(ty: AxType)
    ensures IsPlainInput(ty) <==> ty in PLAIN_INPUTS
  {
  }

  function UnsupportedRecord(plan: Plan, record: RecordType, depth: nat): Option<Reason>
    requires depth <= 65
    decreases 66 - depth, 0
  {
    if depth > 64 then Some(TooDeep) else UnsupportedFields(plan, record, record.fields, depth + 1)
  }

  function UnsupportedFields(plan: Plan, record: RecordType, fields: seq<FieldType>, depth: nat): Option<Reason>
    requires depth <= 65
    decreases 66 - depth, 2, fields
  {
    if fields == [] then None
    else match UnsupportedInput(plan, fields[0].ty, depth)
      case Some(reason) => Some(InField(record.name, fields[0].name, reason))
      case None => UnsupportedFields(plan, record, fields[1..], depth)
  }

  function UnsupportedInput(plan: Plan, ty: AxType, depth: nat): Option<Reason>
    requires depth <= 65
    decreases 66 - depth, 1, ty
  {
    if IsPlainInput(ty) then None
    else match ty
      case Optional(item) => UnsupportedInput(plan, item, depth)
      case List(item) => UnsupportedInput(plan, item, depth)
      case Map(key, value) =>
        var k := UnsupportedInput(plan, key, depth);
        if k.Some? then k else UnsupportedInput(plan, value, depth)
      case Record(name) =>
        if name in plan.unions then None
        else (match FindRecord(plan.types, name)
              case None => Some(UnsupportedType(ty))
              case Some(record) => UnsupportedRecord(plan, record, depth))
      case _ => Some(UnsupportedType(ty))
  }

  /** The types a field's type is made of, through optional, list and map. */
  function Atoms(ty: AxType): set<AxType> {
    match ty
    case Optional(item) => Atoms(item)
    case List(item) => Atoms(item)
    case Map(key, value) => Atoms(key) + Atoms(value)
    case _ => {ty}
  }

  predicate AtomOk(plan: Plan, atom: AxType) {
    || IsPlainInput(atom)
    || (atom.Record? && (atom.name in plan.unions || FindRecord(plan.types, atom.name).Some?))
  }

  /** Every atom of every field is supported, a literal union or a declared record. */
  predicate RecordOk(plan: Plan, record: RecordType) {
    forall f <- record.fields, atom <- Atoms(f.ty) :: AtomOk(plan, atom)
  }

  /** The declared record that an atom stands for. */
  function NestedRecord(plan: Plan, atom: AxType): Option<RecordType> {
    if atom.Record? && atom.name !in plan.unions then FindRecord(plan.types, atom.name) else None
  }

  predicate Nests(plan: Plan, a: RecordType, b: RecordType) {
    exists f <- a.fields, atom <- Atoms(f.ty) :: NestedRecord(plan, atom) == Some(b)
  }

  predicate IsChain(plan: Plan, w: seq<RecordType>) {
    w != [] && forall i | 0 <= i < |w| - 1 :: Nests(plan, w[i], w[i + 1])
  }

  /** Nesting stays within a budget and meets only supported types. */
  predicate Fits(plan: Plan, record: RecordType, budget: int)
    decreases if budget < 0 then 0 else budget + 1
  {
    && budget >= 0
    && RecordOk(plan, record)
    && forall f <- record.fields, atom <- Atoms(f.ty) ::
         var nested := NestedRecord(plan, atom);
         nested.Some? ==> Fits(plan, nested.value, budget - 1)
  }

  predicate InputFits(plan: Plan, ty: AxType, budget: int) {
    forall atom <- Atoms(ty) ::
      && AtomOk(plan, atom)
      && (NestedRecord(plan, atom).Some? ==> Fits(plan, NestedRecord(plan, atom).value, budget))
  }

  lemma {:induction false} SupportedRecordFits(plan: Plan, record: RecordType, depth: nat)
    requires depth <= 65
    ensures UnsupportedRecord(plan, record, depth).None? <==> Fits(plan, record, 64 - depth)
    decreases 66 - depth, 0
  {
    if depth <= 64 {
      SupportedFieldsFit(plan, record, record.fields, depth + 1);
      assert (forall f <- record.fields :: InputFits(plan, f.ty, 63 - depth)) <==> Fits(plan, record, 64 - depth);
    }
  }

  lemma {:induction false} SupportedFieldsFit(plan: Plan, record: RecordType, fields: seq<FieldType>, depth: nat)
    requires depth <= 65
    ensures UnsupportedFields(plan, record, fields, depth).None? <==> forall f <- fields ::
            InputFits(plan, f.ty, 64 - depth)
    decreases 66 - depth, 2, fields
  {
    if fields != [] {
      SupportedInputFits(plan, fields[0].ty, depth);
      SupportedFieldsFit(plan, record, fields[1..], depth);
      assert forall f <- fields :: f == fields[0] || f in fields[1..];
    }
  }

  lemma {:induction false} SupportedInputFits(plan: Plan, ty: AxType, depth: nat)
    requires depth <= 65
    ensures UnsupportedInput(plan, ty, depth).None? <==> InputFits(plan, ty, 64 - depth)
    decreases 66 - depth, 1, ty
  {
    match ty {
      case Optional(item) => SupportedInputFits(plan, item, depth);
      case List(item) => SupportedInputFits(plan, item, depth);
      case Map(key, value) =>
        SupportedInputFits(plan, key, depth);
        SupportedInputFits(plan, value, depth);
      case Record(name) =>
        assert Atoms(ty) == {ty};
        if name !in plan.unions && FindRecord(plan.types, name).Some? {
          SupportedRecordFits(plan, FindRecord(plan.types, name).value, depth);
        }
      case _ =>
        assert Atoms(ty) == {ty};
    }
  }

  /** Within budget, every chain is short and ends in a supported record. */
  lemma {:induction false} FittingChains(plan: Plan, w: seq<RecordType>, budget: int)
    requires IsChain(plan, w) && Fits(plan, w[0], budget)
    ensures |w| - 1 <= budget && Fits(plan, w[|w| - 1], budget - (|w| - 1))
    decreases |w|
  {
    if |w| > 1 {
      assert Nests(plan, w[0], w[1]);
      var rest := w[1..];
      forall k | 0 <= k < |rest| - 1 ensures Nests(plan, rest[k], rest[k + 1]) {
        assert Nests(plan, w[k + 1], w[k + 2]);
      }
      FittingChains(plan, rest, budget - 1);
    }
  }

  /** Out of budget, some chain is too long or ends in an unsupported record. */
  lemma {:induction false} UnfittingChain(plan: Plan, record: RecordType, budget: int) returns (w: seq<RecordType>)
    requires !Fits(plan, record, budget) && budget >= -1
    ensures IsChain(plan, w) && w[0] == record
    ensures |w| - 1 > budget || !RecordOk(plan, w[|w| - 1])
    decreases budget + 1
  {
    w := [record];
    if budget >= 0 && RecordOk(plan, record) {
      var f, atom :| f in record.fields && atom in Atoms(f.ty)
        && NestedRecord(plan, atom).Some? && !Fits(plan, NestedRecord(plan, atom).value, budget - 1);
      var rest := UnfittingChain(plan, NestedRecord(plan, atom).value, budget - 1);
      assert Nests(plan, record, rest[0]);
      w := [record] + rest;
      ChainGrows(plan, record, rest);
    }
  }

  lemma ChainGrows(plan: Plan, record: RecordType, rest: seq<RecordType>)
    requires IsChain(plan, rest) && Nests(plan, record, rest[0])
    ensures IsChain(plan, [record] + rest)
  {
    var w := [record] + rest;
    forall k | 0 <= k < |w| - 1 ensures Nests(plan, w[k], w[k + 1]) {
      assert k > 0 ==> Nests(plan, rest[k - 1], rest[k]);
    }
  }

  ghost predicate AllChainsGood(plan: Plan, record: RecordType) {
    forall w | IsChain(plan, w) && w[0] == record :: |w| - 1 <= 64 && RecordOk(plan, w[|w| - 1])
  }

  /** A record is readable exactly when no chain of nested records has over 64 steps or meets an unsupported type. */
  lemma RecordInputIsExact(plan: Plan, record: RecordType)
    ensures UnsupportedRecord(plan, record, 0).None? <==> AllChainsGood(plan, record)
  {
    SupportedRecordFits(plan, record, 0);
    if Fits(plan, record, 64) {
      forall w | IsChain(plan, w) && w[0] == record ensures |w| - 1 <= 64 && RecordOk(plan, w[|w| - 1]) {
        FittingChains(plan, w, 64);
      }
    } else {
      var w := UnfittingChain(plan, record, 64);
    }
  }

  // Handlers ----------------------------------------------------------------------------------

  datatype InputField = InputField(name: string, ty: string, optional: bool, hasDefault: bool)

  datatype HandlerKind = Action | Route | OtherKind

  datatype Handler = Handler(name: string, kind: HandlerKind, input: seq<InputField>)

  /** A field of a handler's input that cannot be read; no reason means that it is optional or has a default. */
  datatype InputFault = UnsupportedRequestRecordInput(handler: string, field: string, reason: Option<Reason>)

  /** A record in the input is required, and every chain of records in it is short and supported. */
  ghost predicate InputOk(plan: Plan, field: InputField) {
    var record := FindRecord(plan.types, field.ty);
    record.Some? ==> !field.optional && !field.hasDefault && AllChainsGood(plan, record.value)
  }

  /** What the check asks of a field. */
  predicate PassesCheck(plan: Plan, field: InputField) {
    var record := FindRecord(plan.types, field.ty);
    record.Some? ==> !field.optional && !field.hasDefault && UnsupportedRecord(plan, record.value, 0).None?
  }

  lemma InputExactly(plan: Plan, field: InputField)
    ensures InputOk(plan, field) <==> PassesCheck(plan, field)
  {
    var record := FindRecord(plan.types, field.ty);
    if record.Some? {
      RecordInputIsExact(plan, record.value);
    }
  }

  ghost predicate HandlerOk(plan: Plan, handler: Handler) {
    handler.kind != OtherKind ==> forall field <- handler.input :: InputOk(plan, field)
  }

  method ValidateRequestRecordInputs(plan: Plan, handlers: seq<Handler>) returns (fault: Option<InputFault>)
    ensures fault.None? <==> forall handler <- handlers :: HandlerOk(plan, handler)
    ensures fault.Some? ==> exists handler <- handlers, field <- handler.input ::
              && handler.name == fault.value.handler && field.name == fault.value.field && !InputOk(plan, field)
              && (fault.value.reason.None? <==> field.optional || field.hasDefault)
  {
    for i := 0 to |handlers|
      invariant forall handler <- handlers[..i] :: HandlerOk(plan, handler)
    {
      assert handlers[i] in handlers;
      if handlers[i].kind != OtherKind {
        forall field <- handlers[i].input ensures InputOk(plan, field) <==> PassesCheck(plan, field) {
          InputExactly(plan, field);
        }
        fault := ValidateInputs(plan, handlers[i]);
        if fault.Some? {
          return;
        }
      }
    }
    fault := None;
  }

  /** The fields of one handler. */
  method ValidateInputs(plan: Plan, handler: Handler) returns (fault: Option<InputFault>)
    ensures fault.None? <==> forall field <- handler.input :: PassesCheck(plan, field)
    ensures fault.Some? ==> fault.value.handler == handler.name && exists field <- handler.input ::
              && field.name == fault.value.field && !PassesCheck(plan, field)
              && (fault.value.reason.None? <==> field.optional || field.hasDefault)
  {
    for j := 0 to |handler.input|
      invariant forall field <- handler.input[..j] :: PassesCheck(plan, field)
    {
      var field := handler.input[j];
      assert field in handler.input;
      var found := FindRecord(plan.types, field.ty);
      if found.Some? {
        if field.optional || field.hasDefault {
          return Some(UnsupportedRequestRecordInput(handler.name, field.name, None));
        }
        var reason := UnsupportedRecord(plan, found.value, 0);
        if reason.Some? {
          return Some(UnsupportedRequestRecordInput(handler.name, field.name, reason));
        }
      }
    }
    fault := None;
  }

  /** A record that nests itself, directly or not, is rejected, and so is every record that reaches it. */
  lemma ReachableCycleIsRejected(plan: Plan, w: seq<RecordType>, i: nat)
    requires IsChain(plan, w) && i < |w| - 1 && w[i] == w[|w| - 1]
    ensures UnsupportedRecord(plan, w[0], 0).Some?
  {
    SupportedRecordFits(plan, w[0], 0);
    if Fits(plan, w[0], 64) {
      var front, loop := w[0..i + 1], w[i..|w|];
      SubChain(plan, w, 0, i + 1);
      SubChain(plan, w, i, |w|);
      FittingChains(plan, front, 64);
      LoopNeverFits(plan, loop, 64 - i);
    }
  }

  lemma SubChain(plan: Plan, w: seq<RecordType>, lo: nat, hi: nat)
    requires IsChain(plan, w) && lo < hi <= |w|
    ensures IsChain(plan, w[lo..hi])
  {
    forall k | 0 <= k < hi - lo - 1 ensures Nests(plan, w[lo..hi][k], w[lo..hi][k + 1]) {
      assert Nests(plan, w[lo + k], w[lo + k + 1]);
    }
  }

  lemma {:induction false} LoopNeverFits(plan: Plan, loop: seq<RecordType>, budget: int)
    requires IsChain(plan, loop) && |loop| >= 2 && loop[0] == loop[|loop| - 1]
    ensures !Fits(plan, loop[0], budget)
    decreases if budget < 0 then 0 else budget + 1
  {
    if Fits(plan, loop[0], budget) {
      FittingChains(plan, loop, budget);
      LoopNeverFits(plan, loop, budget - (|loop| - 1));
    }
  }
}
