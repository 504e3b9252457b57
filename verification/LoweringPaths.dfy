/** Render paths identify statement visits and component instances within a run. */
module LoweringPaths {
  import opened Text
  import opened LoweringModel
  import opened Evaluation
  import opened Lowering
  import opened LoweringMarks

  predicate Below(path: string, above: string) {
    HasPrefix(path, above + ".")
  }

  predicate Within(path: string, above: string) {
    path == above || Below(path, above)
  }

  lemma BelowTrans(path: string, middle: string, above: string, segment: string)
    requires Within(path, middle) && middle == above + "." + segment
    ensures Below(path, above)
  {
    assert path[..|above| + 1] == middle[..|above| + 1] == above + ".";
  }

  /** Different segments below the same path lead to different paths. */
  lemma SegmentsKeepApart(above: string, s: string, t: string, p: string, q: string)
    requires '.' !in s && '.' !in t && s != t
    requires Within(p, above + "." + s) && Within(q, above + "." + t)
    ensures p != q
  {
    if p == q {
      SegmentAt(above, s, p);
      SegmentAt(above, t, p);
    }
  }

  lemma SegmentAt(above: string, s: string, p: string)
    requires Within(p, above + "." + s)
    ensures |p| >= |above| + 1 + |s| && p[|above| + 1..][..|s|] == s
    ensures |p| > |above| + 1 + |s| ==> p[|above| + 1..][|s|] == '.'
  {
    var whole := above + "." + s;
    assert p[..|whole|] == whole;
    assert p[|above| + 1..][..|s|] == whole[|above| + 1..] == s;
    if p != whole {
      assert p[..|whole| + 1] == whole + ".";
      assert p[|whole|] == (whole + ".")[|whole|];
    }
  }

  predicate IsPlace(e: Event) {
    e.Visit? || e.Instance?
  }

  /** No two places of a trace are the same. */
  predicate Distinct(trace: seq<Event>) {
    forall i, j | 0 <= i < j < |trace| && IsPlace(trace[i]) :: trace[i] != trace[j]
  }

  predicate AllBelow(trace: seq<Event>, above: string) {
    forall e <- trace | IsPlace(e) :: Below(e.path, above)
  }

  /** What a statement at a path may visit: itself as an instance, and anything below it. */
  predicate PlacedAt(trace: seq<Event>, here: string) {
    forall e <- trace | IsPlace(e) :: e == Instance(here) || Below(e.path, here)
  }

  predicate InSegment(path: string, parent: string, index: nat) {
    Within(path, parent + "." + NatText(index))
  }

  ghost predicate PlacedFrom(trace: seq<Event>, parent: string, index: nat) {
    forall e <- trace | IsPlace(e) :: exists k: nat :: k >= index && InSegment(e.path, parent, k)
  }

  predicate InItem(path: string, here: string, index: nat) {
    Below(path, here + ".each" + NatText(index))
  }

  ghost predicate PlacedInItems(trace: seq<Event>, here: string, index: nat) {
    forall e <- trace | IsPlace(e) :: exists k: nat :: k >= index && InItem(e.path, here, k)
  }

  /** Keys of one list hash apart; different lists may collide. */
  predicate HashesApart(env: Env, trace: seq<Event>) {
    forall d <- trace, e <- trace | d.KeyedItem? && e.KeyedItem? && d.path == e.path ::
      env.hash(d.identity) == env.hash(e.identity) ==> d.identity == e.identity
  }

  /** The hash is printed without dots. */
  ghost predicate PlainHash(env: Env) {
    forall identity :: '.' !in env.hash(identity)
  }

  ghost predicate PlacedInKeys(env: Env, trace: seq<Event>, here: string, seen: set<string>) {
    forall e <- trace | IsPlace(e) ::
      exists id :: id !in seen && KeyedItem(here, id) in trace && Below(e.path, ItemPath(env, here, id))
  }

  /** The runs the uniqueness theorem is about: keys of one list do not collide. */
  ghost predicate Plain(env: Env, trace: seq<Event>) {
    PlainHash(env) && HashesApart(env, trace)
  }

  /** No pipeline has two stages that are instances, or two that lower statements. */
  predicate PipelinesApart(trace: seq<Event>) {
    forall e <- trace | e.PipelineRun? :: e.locals <= 1 && e.visitors <= 1
  }

  /** Places repeat exactly where a pipeline's stages make them. */
  predicate Exact(trace: seq<Event>) {
    Distinct(trace) <==> PipelinesApart(trace)
  }

  predicate IsNeutral(e: Event) {
    !IsPlace(e) && !e.PipelineRun?
  }

  lemma PlainPart(env: Env, whole: seq<Event>, part: seq<Event>)
    requires Plain(env, whole)
    requires forall e <- part :: e in whole
    ensures Plain(env, part)
  {
  }

  lemma DistinctParts(a: seq<Event>, b: seq<Event>)
    requires Distinct(a + b)
    ensures Distinct(a) && Distinct(b)
  {
    forall i, j | 0 <= i < j < |a| && IsPlace(a[i]) ensures a[i] != a[j] {
      assert (a + b)[i] == a[i] && (a + b)[j] == a[j];
    }
    forall i, j | 0 <= i < j < |b| && IsPlace(b[i]) ensures b[i] != b[j] {
      assert (a + b)[|a| + i] == b[i] && (a + b)[|a| + j] == b[j];
    }
  }

  lemma SharedPlaceRepeats(a: seq<Event>, b: seq<Event>, e: Event)
    requires IsPlace(e) && e in a && e in b
    ensures !Distinct(a + b)
  {
    var i :| 0 <= i < |a| && a[i] == e;
    var j :| 0 <= j < |b| && b[j] == e;
    assert (a + b)[i] == e && (a + b)[|a| + j] == e;
  }

  lemma DistinctTogether(a: seq<Event>, b: seq<Event>)
    requires Distinct(a) && Distinct(b)
    requires forall e <- a | IsPlace(e) :: e !in b
    ensures Distinct(a + b)
  {
    forall i, j | 0 <= i < j < |a + b| && IsPlace((a + b)[i]) ensures (a + b)[i] != (a + b)[j] {
      if i < |a| <= j {
        assert a[i] in a && b[j - |a|] in b;
      } else if i >= |a| {
        assert (a + b)[i] == b[i - |a|] && (a + b)[j] == b[j - |a|];
      }
    }
  }

  lemma DistinctConcat(a: seq<Event>, b: seq<Event>)
    ensures Distinct(a + b) <==> Distinct(a) && Distinct(b) && forall e <- a | IsPlace(e) :: e !in b
  {
    if e :| e in a && IsPlace(e) && e in b {
      SharedPlaceRepeats(a, b, e);
    } else if Distinct(a) && Distinct(b) {
      DistinctTogether(a, b);
    } else if Distinct(a + b) {
      DistinctParts(a, b);
    }
  }

  lemma ExactConcat(a: seq<Event>, b: seq<Event>)
    requires Exact(a) && Exact(b)
    requires forall e <- a | IsPlace(e) :: e !in b
    ensures Exact(a + b)
  {
    DistinctConcat(a, b);
    assert PipelinesApart(a + b) <==> PipelinesApart(a) && PipelinesApart(b) by {
      forall e | e in a || e in b ensures e in a + b {}
    }
  }

  lemma NeutralIsExact(a: seq<Event>)
    requires forall e <- a :: IsNeutral(e)
    ensures Exact(a)
  {
    assert forall i | 0 <= i < |a| :: a[i] in a;
  }

  lemma ExactWithout(a: seq<Event>, b: seq<Event>)
    requires Exact(b)
    requires forall e <- a :: IsNeutral(e)
    ensures Exact(a + b) && Exact(b + a)
  {
    NeutralIsExact(a);
    ExactConcat(a, b);
    ExactConcat(b, a);
  }

  lemma {:induction false} StatementsPlaced(env: Env, fuel: nat, statements: seq<Statement>, scope: Scope, slots: Slots)
    requires LowerStatements(env, fuel, statements, scope, slots).Ok?
    requires Plain(env, LowerStatements(env, fuel, statements, scope, slots).value.trace)
    ensures var trace := LowerStatements(env, fuel, statements, scope, slots).value.trace;
            Exact(trace) && AllBelow(trace, RenderPathOf(scope))
    decreases fuel, slots, statements, 3
  {
    var parent := RenderPathOf(scope);
    var r := LowerFrom(env, fuel, statements, 0, parent, scope, slots).value;
    FromPlaced(env, fuel, statements, 0, parent, scope, slots);
    forall e <- r.trace | IsPlace(e) ensures Below(e.path, parent) {
      var k: nat :| InSegment(e.path, parent, k);
      BelowTrans(e.path, parent + "." + NatText(k), parent, NatText(k));
    }
  }

  lemma {:induction false} FromPlaced(env: Env, fuel: nat, statements: seq<Statement>, index: nat, parent: string,
      scope: Scope, slots: Slots)
    requires LowerFrom(env, fuel, statements, index, parent, scope, slots).Ok?
    requires Plain(env, LowerFrom(env, fuel, statements, index, parent, scope, slots).value.trace)
    ensures var trace := LowerFrom(env, fuel, statements, index, parent, scope, slots).value.trace;
            Exact(trace) && PlacedFrom(trace, parent, index)
    decreases fuel, slots, statements, 2
  {
    if statements != [] {
      var here := parent + "." + NatText(index);
      var whole := LowerFrom(env, fuel, statements, index, parent, scope, slots).value.trace;
      var first := LowerStatement(env, fuel, statements[0], here, At(scope, here), slots).value;
      var rest := LowerFrom(env, fuel, statements[1..], index + 1, parent, first.scope, slots).value;
      PlainPart(env, whole, first.trace);
      PlainPart(env, whole, rest.trace);
      StatementPlaced(env, fuel, statements[0], here, At(scope, here), slots);
      FromPlaced(env, fuel, statements[1..], index + 1, parent, first.scope, slots);
      PlacedInOrder(parent, index, first.trace, rest.trace);
    }
  }

  /** A statement's places come before, and apart from, those of the statements after it. */
  lemma PlacedInOrder(parent: string, index: nat, first: seq<Event>, rest: seq<Event>)
    requires Exact(first) && PlacedAt(first, parent + "." + NatText(index))
    requires Exact(rest) && PlacedFrom(rest, parent, index + 1)
    ensures var trace := [Visit(parent + "." + NatText(index))] + first + rest;
            Exact(trace) && PlacedFrom(trace, parent, index)
  {
    var here := parent + "." + NatText(index);
    VisitThenBelow(here, first);
    var front := [Visit(here)] + first;
    forall e <- front | IsPlace(e) ensures e !in rest && InSegment(e.path, parent, index) {
      if e in rest {
        var k: nat :| k >= index + 1 && InSegment(e.path, parent, k);
        if NatText(index) == NatText(k) { NatTextInjective(index, k); }
        SegmentsKeepApart(parent, NatText(index), NatText(k), e.path, e.path);
      }
    }
    ExactConcat(front, rest);
  }

  lemma VisitThenBelow(here: string, trace: seq<Event>)
    requires Exact(trace) && PlacedAt(trace, here)
    ensures Exact([Visit(here)] + trace)
    ensures forall e <- [Visit(here)] + trace | IsPlace(e) :: Within(e.path, here)
  {
    ExactConcat([Visit(here)], trace);
  }

  lemma {:induction false} StatementPlaced(env: Env, fuel: nat, s: Statement, here: string, scope: Scope, slots: Slots)
    requires here != "" && RenderPathOf(scope) == here
    requires LowerStatement(env, fuel, s, here, scope, slots).Ok?
    requires Plain(env, LowerStatement(env, fuel, s, here, scope, slots).value.trace)
    ensures var trace := LowerStatement(env, fuel, s, here, scope, slots).value.trace;
            Exact(trace) && PlacedAt(trace, here)
    decreases fuel, slots, s, 1
  {
    match s {
      case Data(_, _) =>
      case TextOf(_) =>
      case If(_, _, _) => IfPlaced(env, fuel, s, here, scope, slots);
      case Match(_, _, _) => MatchPlaced(env, fuel, s, here, scope, slots);
      case Each(_, _, _, _, _) => EachPlaced(env, fuel, s, here, scope, slots);
      case Use(component) =>
        var trace := LowerComponentNodes(env, fuel, component, scope, slots).value.trace;
        RenamedPlain(env, trace, Marked);
        ComponentPlaced(env, fuel, component, here, scope, slots);
        RenamedPlaced(trace, Marked, here);
      case Pipeline(_, _) => PipelinePlaced(env, fuel, s, here, scope, slots);
    }
  }

  /** Renaming marks moves no place. */
  lemma RenamedPlaced(trace: seq<Event>, mark: Event, here: string)
    requires IsNeutral(mark)
    requires Exact(trace) && PlacedAt(trace, here)
    ensures var renamed := Renamed(trace, mark);
            Exact(renamed) && PlacedAt(renamed, here) && forall e | IsPlace(e) :: e in renamed <==> e in trace
  {
    var renamed := Renamed(trace, mark);
    forall i | 0 <= i < |trace| ensures renamed[i] == trace[i] || (IsNeutral(renamed[i]) && IsNeutral(trace[i])) {}
    forall e | !IsNeutral(e) ensures e in renamed <==> e in trace {
      RenamedHolds(trace, mark, e);
    }
  }

  lemma RenamedPlain(env: Env, trace: seq<Event>, mark: Event)
    requires Plain(env, Renamed(trace, mark))
    ensures Plain(env, trace)
  {
    forall e <- trace | e != OwnMark ensures e in Renamed(trace, mark) {
      RenamedHolds(trace, mark, e);
    }
  }

  /** A statement's own marks are no places. */
  lemma NestedPlaced(bad: bool, scope: Scope, nodes: seq<Node>, trace: seq<Event>, here: string)
    requires Exact(trace) && PlacedAt(trace, here)
    ensures var whole := Nested(bad, scope, nodes, trace).trace; Exact(whole) && PlacedAt(whole, here)
  {
    ExactWithout(MarkEvents(bad, scope), trace);
  }

  lemma {:induction false} IfPlaced(env: Env, fuel: nat, s: Statement, here: string, scope: Scope, slots: Slots)
    requires s.If? && LowerIf(env, fuel, s, here, scope, slots).Ok?
    requires Plain(env, LowerIf(env, fuel, s, here, scope, slots).value.trace)
    ensures var trace := LowerIf(env, fuel, s, here, scope, slots).value.trace;
            Exact(trace) && PlacedAt(trace, here)
    decreases fuel, slots, s, 0
  {
    var bad := ReferencesItem(s.condition, scope);
    var v := Eval(env, s.condition, MarkIf(bad, scope)).value;
    var segment := if Truthy(v) then "if1" else "if0";
    var nested := At(MarkIf(bad, scope), here + (if Truthy(v) then ".if1" else ".if0"));
    var body := if Truthy(v) then s.body else s.elseBody;
    assert here + (if Truthy(v) then ".if1" else ".if0") == here + "." + segment;
    var r := LowerNonempty(env, fuel, body, nested, slots).value;
    PlainPart(env, LowerIf(env, fuel, s, here, scope, slots).value.trace, r.trace);
    BranchPlaced(env, fuel, body, here, segment, nested, slots);
    NestedPlaced(bad, scope, r.nodes, r.trace, here);
  }

  lemma {:induction false} MatchPlaced(env: Env, fuel: nat, s: Statement, here: string, scope: Scope, slots: Slots)
    requires s.Match? && LowerMatch(env, fuel, s, here, scope, slots).Ok?
    requires Plain(env, LowerMatch(env, fuel, s, here, scope, slots).value.trace)
    ensures var trace := LowerMatch(env, fuel, s, here, scope, slots).value.trace;
            Exact(trace) && PlacedAt(trace, here)
    decreases fuel, slots, s, 0
  {
    var bad := ReferencesItem(s.value, scope);
    var v := Eval(env, s.value, MarkIf(bad, scope)).value;
    var found := FindCase(s.cases, AsString(v));
    var body := if found.Some? then s.cases[found.value].body else s.defaultBody;
    var nested := At(MarkIf(bad, scope), here + ".match");
    assert here + ".match" == here + "." + "match";
    var r := LowerNonempty(env, fuel, body, nested, slots).value;
    PlainPart(env, LowerMatch(env, fuel, s, here, scope, slots).value.trace, r.trace);
    BranchPlaced(env, fuel, body, here, "match", nested, slots);
    NestedPlaced(bad, scope, r.nodes, r.trace, here);
  }

  lemma {:induction false} EachPlaced(env: Env, fuel: nat, s: Statement, here: string, scope: Scope, slots: Slots)
    requires s.Each? && here != "" && RenderPathOf(scope) == here
    requires LowerEach(env, fuel, s, here, scope, slots).Ok?
    requires Plain(env, LowerEach(env, fuel, s, here, scope, slots).value.trace)
    ensures var trace := LowerEach(env, fuel, s, here, scope, slots).value.trace;
            Exact(trace) && PlacedAt(trace, here)
    decreases fuel, slots, s, 0
  {
    var whole := LowerEach(env, fuel, s, here, scope, slots).value;
    var bad := ReferencesItem(s.source, scope);
    var marked := MarkIf(bad, scope);
    var items := Eval(env, s.source, marked).value.items;
    var inner: seq<Event>;
    if items == [] {
      inner := LowerStatements(env, fuel, s.emptyBody, marked, slots).value.trace;
      PlainPart(env, whole.trace, inner);
      StatementsPlaced(env, fuel, s.emptyBody, marked, slots);
    } else if s.key.Some? {
      inner := LowerKeyed(env, fuel, s.binding, s.key.value, s.body, here, marked, slots, items, {}, None).value.trace;
      PlainPart(env, whole.trace, inner);
      KeyedPlaced(env, fuel, s.binding, s.key.value, s.body, here, marked, slots, items, {}, None);
      KeysAreBelow(env, inner, here);
    } else {
      inner := LowerItems(env, fuel, s.binding, s.body, here, marked, slots, items, 0).value.trace;
      PlainPart(env, whole.trace, inner);
      ItemsPlaced(env, fuel, s.binding, s.body, here, marked, slots, items, 0);
      ItemsAreBelow(inner, here);
    }
    NestedPlaced(bad, scope, whole.nodes, inner, here);
  }

  lemma {:induction false} PipelinePlaced(env: Env, fuel: nat, s: Statement, here: string, scope: Scope, slots: Slots)
    requires s.Pipeline? && RenderPathOf(scope) == here && LowerPipeline(env, fuel, s, scope, slots).Ok?
    requires Plain(env, LowerPipeline(env, fuel, s, scope, slots).value.trace)
    ensures var trace := LowerPipeline(env, fuel, s, scope, slots).value.trace;
            Exact(trace) && PlacedAt(trace, here)
    decreases fuel, slots, s, 0
  {
    var marked := MarkIf(ReferencesItem(s.source, scope), scope);
    var marks := PipelineParts(env, fuel, s, scope, slots);
    var stages := LowerStages(env, fuel, s.stages, marked, slots).value.trace;
    var run := RunOf(env, s.stages, marked, slots);
    PlainPart(env, marks + ([run] + stages), stages);
    StagesPlaced(env, fuel, s.stages, here, marked, slots);
    RunThenStages(marks, run, stages, here);
  }

  /** The events of a pipeline: a mark, the run of its stages, and theirs. */
  lemma PipelineParts(env: Env, fuel: nat, s: Statement, scope: Scope, slots: Slots) returns (marks: seq<Event>)
    requires s.Pipeline? && LowerPipeline(env, fuel, s, scope, slots).Ok?
    ensures forall e <- marks :: IsNeutral(e)
    ensures var marked := MarkIf(ReferencesItem(s.source, scope), scope);
            var r := LowerStages(env, fuel, s.stages, marked, slots);
            && r.Ok?
            && LowerPipeline(env, fuel, s, scope, slots).value.trace
               == marks + ([RunOf(env, s.stages, marked, slots)] + r.value.trace)
  {
    marks := MarkEvents(ReferencesItem(s.source, scope), scope);
  }

  lemma RunThenStages(marks: seq<Event>, run: Event, stages: seq<Event>, here: string)
    requires run.PipelineRun? && PlacedAt(stages, here) && forall e <- marks :: IsNeutral(e)
    requires Distinct(stages) <==> PipelinesApart(stages) && run.locals <= 1 && run.visitors <= 1
    ensures var whole := marks + ([run] + stages); Exact(whole) && PlacedAt(whole, here)
  {
    var counted := [run] + stages;
    DistinctConcat([run], stages);
    assert PipelinesApart(counted) <==> PipelinesApart(stages) && run.locals <= 1 && run.visitors <= 1 by {
      forall e | e == run || e in stages ensures e in counted {}
    }
    ExactWithout(marks, counted);
  }

  lemma {:induction false} BranchPlaced(env: Env, fuel: nat, body: seq<Statement>, here: string, segment: string,
      nested: Scope, slots: Slots)
    requires RenderPathOf(nested) == here + "." + segment
    requires LowerNonempty(env, fuel, body, nested, slots).Ok?
    requires Plain(env, LowerNonempty(env, fuel, body, nested, slots).value.trace)
    ensures var trace := LowerNonempty(env, fuel, body, nested, slots).value.trace;
            Exact(trace) && PlacedAt(trace, here)
    decreases fuel, slots, body, 4
  {
    if body != [] {
      var inner := LowerStatements(env, fuel, body, nested, slots).value.trace;
      StatementsPlaced(env, fuel, body, nested, slots);
      forall e <- inner | IsPlace(e) ensures Below(e.path, here) {
        BelowTrans(e.path, here + "." + segment, here, segment);
      }
    }
  }

  lemma {:induction false} ItemsPlaced(env: Env, fuel: nat, binding: string, body: seq<Statement>, here: string,
      scope: Scope, slots: Slots, items: seq<Value>, index: nat)
    requires LowerItems(env, fuel, binding, body, here, scope, slots, items, index).Ok?
    requires Plain(env, LowerItems(env, fuel, binding, body, here, scope, slots, items, index).value.trace)
    ensures var trace := LowerItems(env, fuel, binding, body, here, scope, slots, items, index).value.trace;
            Exact(trace) && PlacedInItems(trace, here, index)
    decreases fuel, slots, body, 4, |items|
  {
    if items != [] {
      var path := here + ".each" + NatText(index);
      var nested := At(scope[User(binding) := items[0]], path);
      var whole := LowerItems(env, fuel, binding, body, here, scope, slots, items, index).value.trace;
      var first := LowerStatements(env, fuel, body, nested, slots).value.trace;
      var rest := LowerItems(env, fuel, binding, body, here, scope, slots, items[1..], index + 1).value.trace;
      PlainPart(env, whole, first);
      PlainPart(env, whole, rest);
      StatementsPlaced(env, fuel, body, nested, slots);
      ItemsPlaced(env, fuel, binding, body, here, scope, slots, items[1..], index + 1);
      forall e <- first | IsPlace(e) ensures e !in rest && InItem(e.path, here, index) {
        if e in rest {
          var k: nat :| k >= index + 1 && InItem(e.path, here, k);
          ItemsApart(here, index, k, e.path);
        }
      }
      ExactConcat(first, rest);
    }
  }

  lemma ItemsApart(here: string, j: nat, k: nat, path: string)
    requires InItem(path, here, j) && InItem(path, here, k)
    ensures j == k
  {
    if j != k {
      if NatText(j) == NatText(k) { NatTextInjective(j, k); }
      assert ("each" + NatText(j))[4..] == NatText(j) && ("each" + NatText(k))[4..] == NatText(k);
      assert here + ".each" + NatText(j) == here + "." + ("each" + NatText(j));
      assert here + ".each" + NatText(k) == here + "." + ("each" + NatText(k));
      SegmentsKeepApart(here, "each" + NatText(j), "each" + NatText(k), path, path);
    }
  }

  lemma ItemsAreBelow(trace: seq<Event>, here: string)
    requires PlacedInItems(trace, here, 0)
    ensures PlacedAt(trace, here)
  {
    forall e <- trace | IsPlace(e) ensures Below(e.path, here) {
      var k: nat :| InItem(e.path, here, k);
      assert here + ".each" + NatText(k) == here + "." + ("each" + NatText(k));
      BelowTrans(e.path, here + ".each" + NatText(k), here, "each" + NatText(k));
    }
  }

  lemma {:induction false} KeyedPlaced(env: Env, fuel: nat, binding: string, key: Expr, body: seq<Statement>,
      here: string, scope: Scope, slots: Slots, items: seq<Value>, seen: set<string>, kind: Option<string>)
    requires LowerKeyed(env, fuel, binding, key, body, here, scope, slots, items, seen, kind).Ok?
    requires Plain(env, LowerKeyed(env, fuel, binding, key, body, here, scope, slots, items, seen, kind).value.trace)
    ensures var trace := LowerKeyed(env, fuel, binding, key, body, here, scope, slots, items, seen, kind).value.trace;
            Exact(trace) && PlacedInKeys(env, trace, here, seen)
    decreases fuel, slots, body, 5, |items|
  {
    if items != [] {
      var identity := KeyedParts(env, fuel, binding, key, body, here, scope, slots, items, seen, kind);
      var id := identity.0 + ":" + identity.1;
      var first := LowerItem(env, fuel, binding, body, ItemPath(env, here, id), scope, slots, items[0]).value.trace;
      var rest := LowerKeyed(env, fuel, binding, key, body, here, scope, slots, items[1..], seen + {id},
          Some(identity.0)).value.trace;
      PlainPart(env, [KeyedItem(here, id)] + first + rest, first);
      PlainPart(env, [KeyedItem(here, id)] + first + rest, rest);
      StatementsPlaced(env, fuel, body, At(ItemScope(scope, binding, items[0]), ItemPath(env, here, id)), slots);
      KeyedPlaced(env, fuel, binding, key, body, here, scope, slots, items[1..], seen + {id}, Some(identity.0));
      KeysPlacedInOrder(env, here, id, seen, first, rest);
    }
  }

  /** The events of a keyed loop: the first item's key, those of its body, and those of the items after it. */
  lemma KeyedParts(env: Env, fuel: nat, binding: string, key: Expr, body: seq<Statement>, here: string, scope: Scope,
      slots: Slots, items: seq<Value>, seen: set<string>, kind: Option<string>)
    returns (identity: (string, string))
    requires LowerKeyed(env, fuel, binding, key, body, here, scope, slots, items, seen, kind).Ok? && items != []
    ensures var whole := LowerKeyed(env, fuel, binding, key, body, here, scope, slots, items, seen, kind).value;
            var id := identity.0 + ":" + identity.1;
            var first := LowerItem(env, fuel, binding, body, ItemPath(env, here, id), scope, slots, items[0]);
            var rest := LowerKeyed(env, fuel, binding, key, body, here, scope, slots, items[1..], seen + {id},
                          Some(identity.0));
            && id !in seen && first.Ok? && rest.Ok?
            && whole.trace == [KeyedItem(here, id)] + first.value.trace + rest.value.trace
  {
    identity := AcceptKey(env, key, ItemScope(scope, binding, items[0]), seen, kind).value;
  }

  /** An item's places are apart from those of the items after it. */
  lemma KeysPlacedInOrder(env: Env, here: string, id: string, seen: set<string>, first: seq<Event>, rest: seq<Event>)
    requires id !in seen
    requires Exact(first) && AllBelow(first, ItemPath(env, here, id))
    requires Exact(rest) && PlacedInKeys(env, rest, here, seen + {id})
    requires Plain(env, [KeyedItem(here, id)] + first + rest)
    ensures var whole := [KeyedItem(here, id)] + first + rest;
            Exact(whole) && PlacedInKeys(env, whole, here, seen)
  {
    var whole := [KeyedItem(here, id)] + first + rest;
    assert KeyedItem(here, id) in whole;
    forall e <- first | IsPlace(e) ensures e !in rest {
      if e in rest {
        var other :| other !in seen + {id} && KeyedItem(here, other) in rest
            && Below(e.path, ItemPath(env, here, other));
        assert KeyedItem(here, other) in whole;
        KeysApart(env, here, id, other, e.path);
      }
    }
    ExactWithout([KeyedItem(here, id)], first);
    ExactConcat([KeyedItem(here, id)] + first, rest);
    KeysStayPlaced(env, here, id, seen, first, rest);
  }

  lemma KeysStayPlaced(env: Env, here: string, id: string, seen: set<string>, first: seq<Event>, rest: seq<Event>)
    requires id !in seen && AllBelow(first, ItemPath(env, here, id)) && PlacedInKeys(env, rest, here, seen + {id})
    ensures PlacedInKeys(env, [KeyedItem(here, id)] + first + rest, here, seen)
  {
    var whole := [KeyedItem(here, id)] + first + rest;
    forall e <- whole | IsPlace(e)
      ensures exists k :: k !in seen && KeyedItem(here, k) in whole && Below(e.path, ItemPath(env, here, k))
    {
      if e in first {
        assert KeyedItem(here, id) in whole;
      } else {
        var k :| k !in seen + {id} && KeyedItem(here, k) in rest && Below(e.path, ItemPath(env, here, k));
        assert KeyedItem(here, k) in whole;
      }
    }
  }

  lemma KeysApart(env: Env, here: string, j: string, k: string, path: string)
    requires PlainHash(env)
    requires Below(path, ItemPath(env, here, j)) && Below(path, ItemPath(env, here, k))
    ensures env.hash(j) == env.hash(k)
  {
    var s, t := "key" + env.hash(j), "key" + env.hash(k);
    assert s[3..] == env.hash(j) && t[3..] == env.hash(k);
    assert ItemPath(env, here, j) == here + "." + s && ItemPath(env, here, k) == here + "." + t;
    if s != t {
      SegmentsKeepApart(here, s, t, path, path);
    }
  }

  lemma KeysAreBelow(env: Env, trace: seq<Event>, here: string)
    requires PlacedInKeys(env, trace, here, {})
    ensures PlacedAt(trace, here)
  {
    forall e <- trace | IsPlace(e) ensures Below(e.path, here) {
      var k :| Below(e.path, ItemPath(env, here, k));
      assert ItemPath(env, here, k) == here + "." + ("key" + env.hash(k));
      BelowTrans(e.path, ItemPath(env, here, k), here, "key" + env.hash(k));
    }
  }

  // Stages of a pipeline ----------------------------------------------------------------------

  function FirstPath(here: string): string {
    here + "." + NatText(0)
  }

  /** An instance and a first statement are there if the counts say so, and without statements nothing is below. */
  ghost predicate IsCounted(trace: seq<Event>, here: string, locals: nat, visitors: nat) {
    && (Instance(here) in trace <==> locals > 0)
    && (visitors > 0 ==> Visit(FirstPath(here)) in trace)
    && (visitors == 0 ==> forall e <- trace | IsPlace(e) :: !Below(e.path, here))
  }

  lemma StatementsVisitFirst(env: Env, fuel: nat, statements: seq<Statement>, scope: Scope, slots: Slots)
    requires statements != [] && LowerStatements(env, fuel, statements, scope, slots).Ok?
    ensures Visit(FirstPath(RenderPathOf(scope))) in LowerStatements(env, fuel, statements, scope, slots).value.trace
  {
  }

  /** All stages of a pipeline are lowered at its path, so their places meet as soon as two have places of a kind. */
  lemma {:induction false} StagesPlaced(env: Env, fuel: nat, stages: seq<Stage>, here: string, scope: Scope,
      slots: Slots)
    requires RenderPathOf(scope) == here && LowerStages(env, fuel, stages, scope, slots).Ok?
    requires Plain(env, LowerStages(env, fuel, stages, scope, slots).value.trace)
    ensures var trace := LowerStages(env, fuel, stages, scope, slots).value.trace;
            var locals, visitors := LocalStages(env, stages), VisitingStages(env, stages, scope, slots);
            && PlacedAt(trace, here) && IsCounted(trace, here, locals, visitors)
            && (Distinct(trace) <==> PipelinesApart(trace) && locals <= 1 && visitors <= 1)
    decreases fuel, slots, stages, 0
  {
    if stages != [] {
      var whole := LowerStages(env, fuel, stages, scope, slots).value.trace;
      var first := LowerStage(env, fuel, stages[0], scope, slots).value.trace;
      var rest := LowerStages(env, fuel, stages[1..], scope, slots).value.trace;
      PlainPart(env, whole, first);
      PlainPart(env, whole, rest);
      StagesPlaced(env, fuel, stages[1..], here, scope, slots);
      match stages[0] {
        case EachStage(_) => assert first + rest == rest;
        case ComponentStage(c) =>
          assert c < stages[0];
          StagePlaced(env, fuel, c, here, scope, slots);
          StagesMeet(first, rest, here, if IsLocal(env, c) then 1 else 0, LocalStages(env, stages[1..]),
                     if Visited(env, c, scope, slots) != [] then 1
                         else 0, VisitingStages(env, stages[1..], scope, slots));
      }
    }
  }

  lemma {:induction false} StagePlaced(env: Env, fuel: nat, c: Component, here: string, scope: Scope, slots: Slots)
    requires RenderPathOf(scope) == here && LowerComponentNodes(env, fuel, c, scope, slots).Ok?
    requires Plain(env, LowerStage(env, fuel, ComponentStage(c), scope, slots).value.trace)
    ensures var trace := LowerStage(env, fuel, ComponentStage(c), scope, slots).value.trace;
            && Exact(trace) && PlacedAt(trace, here)
            && IsCounted(trace, here, if IsLocal(env, c) then 1 else 0, if Visited(env, c, scope, slots) != [] then 1
                else 0)
    decreases fuel, slots, c, 3
  {
    var inner := LowerComponentNodes(env, fuel, c, scope, slots).value.trace;
    var stage := [PipelineStage(c, scope)];
    PlainPart(env, stage + Renamed(inner, StrayMark), Renamed(inner, StrayMark));
    RenamedPlain(env, inner, StrayMark);
    ComponentPlaced(env, fuel, c, here, scope, slots);
    ComponentIsCounted(env, fuel, c, here, scope, slots);
    RenamedPlaced(inner, StrayMark, here);
    ExactWithout(stage, Renamed(inner, StrayMark));
  }

  /** A component's instance and statements, seen before it is lowered. */
  lemma {:induction false} ComponentIsCounted(env: Env, fuel: nat, c: Component, here: string, scope: Scope,
      slots: Slots)
    requires RenderPathOf(scope) == here
    requires LowerComponentNodes(env, fuel, c, scope, slots).Ok?
    requires Plain(env, LowerComponentNodes(env, fuel, c, scope, slots).value.trace)
    ensures IsCounted(LowerComponentNodes(env, fuel, c, scope, slots).value.trace, here,
                      if IsLocal(env, c) then 1 else 0, if Visited(env, c, scope, slots) != [] then 1 else 0)
    decreases fuel, slots, c, 2
  {
    var visited := Visited(env, c, scope, slots);
    if c.name == "Slot" {
      if slots.SlotOf? {
        BlockIsCounted(env, fuel, visited, here, scope, slots.parent);
      }
    } else if IsLocal(env, c) {
      LocalIsCounted(env, fuel, c, FindComponent(env.components, c.name).value, here, scope, slots);
    } else {
      var inner := LowerChildren(env, fuel, c, scope, slots).value;
      PlainPart(env, LowerComponentNodes(env, fuel, c, scope, slots).value.trace, inner.trace);
      ChildrenAreCounted(env, fuel, c, here, scope, slots);
      if c.name != "Fragment" {
        var outer := NativeElement(env, c, inner.nodes, inner.scope).value.trace;
        NativeHasNoPlaces(env, c, inner.nodes, inner.scope);
        assert forall e | IsPlace(e) :: e in inner.trace + outer <==> e in inner.trace;
      }
    }
  }

  lemma {:induction false} ChildrenAreCounted(env: Env, fuel: nat, c: Component, here: string, scope: Scope,
      slots: Slots)
    requires RenderPathOf(scope) == here && LowerChildren(env, fuel, c, scope, slots).Ok?
    requires Plain(env, LowerChildren(env, fuel, c, scope, slots).value.trace)
    ensures IsCounted(LowerChildren(env, fuel, c, scope, slots).value.trace, here, 0,
                      if c.body.Block? && c.body.statements != [] then 1 else 0)
    decreases fuel, slots, c, 1
  {
    if c.body.Block? {
      BlockIsCounted(env, fuel, c.body.statements, here, scope, slots);
    }
  }

  lemma {:induction false} BlockIsCounted(env: Env, fuel: nat, statements: seq<Statement>, here: string, scope: Scope,
      slots: Slots)
    requires RenderPathOf(scope) == here && LowerStatements(env, fuel, statements, scope, slots).Ok?
    requires Plain(env, LowerStatements(env, fuel, statements, scope, slots).value.trace)
    ensures IsCounted(LowerStatements(env, fuel, statements, scope, slots).value.trace, here, 0,
                      if statements != [] then 1 else 0)
    decreases fuel, slots, statements, 4
  {
    StatementsPlaced(env, fuel, statements, scope, slots);
    if statements != [] {
      StatementsVisitFirst(env, fuel, statements, scope, slots);
    }
  }

  lemma {:induction false} LocalIsCounted(env: Env, fuel: nat, c: Component, def: ComponentDef, here: string,
      scope: Scope, slots: Slots)
    requires fuel > 0 && RenderPathOf(scope) == here
    requires LowerLocal(env, fuel, c, def, scope, slots).Ok?
    requires Plain(env, LowerLocal(env, fuel, c, def, scope, slots).value.trace)
    ensures IsCounted(LowerLocal(env, fuel, c, def, scope, slots).value.trace, here, 1, if def.body != [] then 1 else 0)
    decreases fuel, slots, c, 1
  {
    LocalIsOf(env, fuel, c, def, scope, slots);
    BodyIsCounted(env, fuel, c, def, here, scope, slots, EnterLocal(env, c, def, scope).value);
  }

  lemma {:induction false} BodyIsCounted(env: Env, fuel: nat, c: Component, def: ComponentDef, here: string,
      scope: Scope, slots: Slots, entry: LocalEntry)
    requires fuel > 0 && RenderPathOf(scope) == here && EnterLocal(env, c, def, scope) == Ok(entry)
    requires var r := LowerStatements(env, fuel - 1, def.body, entry.scope, SlotOf(ChildStatements(c.body), slots));
             r.Ok? && Plain(env, entry.trace + r.value.trace)
    ensures var r := LowerStatements(env, fuel - 1, def.body, entry.scope, SlotOf(ChildStatements(c.body), slots));
            IsCounted(entry.trace + r.value.trace, here, 1, if def.body != [] then 1 else 0)
    decreases fuel, slots, c, 0
  {
    EntryIsInstance(env, c, def, scope);
    var handed, less: nat := SlotOf(ChildStatements(c.body), slots), fuel - 1;
    var inner := LowerStatements(env, less, def.body, entry.scope, handed).value.trace;
    PlainAfter(env, entry.trace, inner);
    BlockIsCounted(env, less, def.body, here, entry.scope, handed);
    InstanceIsCounted(entry.trace, inner, here, if def.body != [] then 1 else 0);
  }

  lemma EntryIsInstance(env: Env, c: Component, def: ComponentDef, scope: Scope)
    requires EnterLocal(env, c, def, scope).Ok?
    ensures var entry := EnterLocal(env, c, def, scope).value;
            && RenderPathOf(entry.scope) == RenderPathOf(scope) && Instance(RenderPathOf(scope)) in entry.trace
            && forall e <- entry.trace | IsPlace(e) :: e == Instance(RenderPathOf(scope))
  {
    EntryPlaced(env, c, def, scope);
  }

  lemma InstanceIsCounted(entry: seq<Event>, inner: seq<Event>, here: string, visitors: nat)
    requires Instance(here) in entry && forall e <- entry | IsPlace(e) :: e == Instance(here)
    requires IsCounted(inner, here, 0, visitors)
    ensures IsCounted(entry + inner, here, 1, visitors)
  {
    forall e <- entry + inner ensures e in entry || e in inner {}
  }

  /** Two stages, or a stage and those after it, have no place in common exactly if at most one has each kind. */
  lemma StagesMeet(first: seq<Event>, rest: seq<Event>, here: string, local: nat, locals: nat, visitor: nat,
      visitors: nat)
    requires local <= 1 && visitor <= 1
    requires Exact(first) && PlacedAt(first, here) && IsCounted(first, here, local, visitor)
    requires PlacedAt(rest, here) && IsCounted(rest, here, locals, visitors)
    requires Distinct(rest) <==> PipelinesApart(rest) && locals <= 1 && visitors <= 1
    ensures var whole := first + rest;
            && PlacedAt(whole, here) && IsCounted(whole, here, local + locals, visitor + visitors)
            && (Distinct(whole) <==> PipelinesApart(whole) && local + locals <= 1 && visitor + visitors <= 1)
  {
    var whole := first + rest;
    DistinctConcat(first, rest);
    assert PipelinesApart(whole) <==> PipelinesApart(first) && PipelinesApart(rest) by {
      forall e | e in first || e in rest ensures e in whole {}
    }
    assert (forall e <- first | IsPlace(e) :: e !in rest) <==>
        !(local > 0 && locals > 0) && !(visitor > 0 && visitors > 0) by {
      if local > 0 && locals > 0 {
        assert Instance(here) in first && Instance(here) in rest;
      } else if visitor > 0 && visitors > 0 {
        assert Visit(FirstPath(here)) in first && Visit(FirstPath(here)) in rest;
      } else {
        forall e <- first | IsPlace(e) ensures e !in rest {
          assert e == Instance(here) || Below(e.path, here);
        }
      }
    }
  }

  lemma {:induction false} ComponentPlaced(env: Env, fuel: nat, c: Component, here: string, scope: Scope, slots: Slots)
    requires RenderPathOf(scope) == here
    requires LowerComponentNodes(env, fuel, c, scope, slots).Ok?
    requires Plain(env, LowerComponentNodes(env, fuel, c, scope, slots).value.trace)
    ensures var trace := LowerComponentNodes(env, fuel, c, scope, slots).value.trace;
            Exact(trace) && PlacedAt(trace, here)
    decreases fuel, slots, c, 2
  {
    if c.name == "Slot" {
      if slots.SlotOf? {
        var requested := SlotName(env, c.props, {"name", "slot"}, scope).value;
        var selected := SelectSlot(env, slots.body, requested, scope).value;
        StatementsPlaced(env, fuel, selected, scope, slots.parent);
      }
    } else if c.name == "Fragment" {
      ChildrenPlaced(env, fuel, c, here, scope, slots);
    } else if FindComponent(env.components, c.name).Some? {
      LocalPlaced(env, fuel, c, FindComponent(env.components, c.name).value, here, scope, slots);
    } else {
      var inner := LowerChildren(env, fuel, c, scope, slots).value;
      var outer := NativeElement(env, c, inner.nodes, inner.scope).value;
      PlainPart(env, LowerNative(env, fuel, c, scope, slots).value.trace, inner.trace);
      ChildrenPlaced(env, fuel, c, here, scope, slots);
      NativeHasNoPlaces(env, c, inner.nodes, inner.scope);
      ExactWithout(outer.trace, inner.trace);
    }
  }

  lemma {:induction false} ChildrenPlaced(env: Env, fuel: nat, c: Component, here: string, scope: Scope, slots: Slots)
    requires RenderPathOf(scope) == here
    requires LowerChildren(env, fuel, c, scope, slots).Ok?
    requires Plain(env, LowerChildren(env, fuel, c, scope, slots).value.trace)
    ensures var trace := LowerChildren(env, fuel, c, scope, slots).value.trace;
            Exact(trace) && AllBelow(trace, here)
    decreases fuel, slots, c, 0
  {
    match c.body {
      case Empty =>
      case Inline(_) =>
      case Block(statements) => StatementsPlaced(env, fuel, statements, scope, slots);
    }
  }

  lemma {:induction false} PropsHaveNoPlaces(env: Env, props: seq<Prop>, scope: Scope)
    requires EvalProps(env, props, scope).Ok?
    ensures forall e <- EvalProps(env, props, scope).value.trace :: IsNeutral(e)
  {
    if props != [] {
      PropsHaveNoPlaces(env, props[1..], scope);
    }
  }

  lemma {:induction false} AttachHasNoPlaces(props: seq<Prop>, attrs: map<string, string>, scope: Scope)
    ensures forall e <- AttachProps(props, attrs, scope).trace :: IsNeutral(e)
  {
    if props != [] {
      AttachHasNoPlaces(props[1..], attrs, AttachProp(props[0], attrs, scope).scope);
    }
  }

  lemma StyleHasNoPlaces(c: Component, attrs: map<string, string>, scope: Scope)
    ensures forall e <- Attach(c, attrs, scope).trace :: IsNeutral(e)
  {
    AttachHasNoPlaces(c.props, attrs, scope);
  }

  lemma NativeHasNoPlaces(env: Env, c: Component, children: seq<Node>, scope: Scope)
    requires NativeElement(env, c, children, scope).Ok?
    ensures forall e <- NativeElement(env, c, children, scope).value.trace :: IsNeutral(e)
  {
    PropsHaveNoPlaces(env, c.props, scope);
    var attrs := ElementParts(env, c, children, scope);
    StyleHasNoPlaces(c, attrs, scope);
  }

  lemma {:induction false} LocalPlaced(env: Env, fuel: nat, c: Component, def: ComponentDef, here: string, scope: Scope,
      slots: Slots)
    requires fuel > 0 && RenderPathOf(scope) == here
    requires LowerLocal(env, fuel, c, def, scope, slots).Ok?
    requires Plain(env, LowerLocal(env, fuel, c, def, scope, slots).value.trace)
    ensures var trace := LowerLocal(env, fuel, c, def, scope, slots).value.trace;
            Exact(trace) && PlacedAt(trace, here)
    decreases fuel, slots, c, 1
  {
    LocalIsOf(env, fuel, c, def, scope, slots);
    var entry := EnterLocal(env, c, def, scope).value;
    var r := LowerStatements(env, fuel - 1, def.body, entry.scope, SlotOf(ChildStatements(c.body), slots)).value;
    PlainPart(env, LowerLocal(env, fuel, c, def, scope, slots).value.trace, entry.trace + r.trace);
    BodyPlaced(env, fuel, c, def, here, scope, slots, entry);
    ExactWithout(OverrideEvents(r.nodes, entry.attrs), entry.trace + r.trace);
  }

  lemma {:induction false} BodyPlaced(env: Env, fuel: nat, c: Component, def: ComponentDef, here: string, scope: Scope,
      slots: Slots, entry: LocalEntry)
    requires fuel > 0 && RenderPathOf(scope) == here
    requires EnterLocal(env, c, def, scope) == Ok(entry)
    requires var r := LowerStatements(env, fuel - 1, def.body, entry.scope, SlotOf(ChildStatements(c.body), slots));
             r.Ok? && Plain(env, entry.trace + r.value.trace)
    ensures var r := LowerStatements(env, fuel - 1, def.body, entry.scope, SlotOf(ChildStatements(c.body), slots));
            Exact(entry.trace + r.value.trace) && PlacedAt(entry.trace + r.value.trace, here)
    decreases fuel, slots, c, 0
  {
    var handed := SlotOf(ChildStatements(c.body), slots);
    var r := LowerStatements(env, fuel - 1, def.body, entry.scope, handed).value;
    EntryPlaced(env, c, def, scope);
    PlainAfter(env, entry.trace, r.trace);
    StatementsPlaced(env, fuel - 1, def.body, entry.scope, handed);
    InstanceThenBelow(EvalProps(env, c.props, scope).value.trace, here, r.trace);
  }

  lemma PlainAfter(env: Env, before: seq<Event>, trace: seq<Event>)
    requires Plain(env, before + trace)
    ensures Plain(env, trace)
  {
    PlainPart(env, before + trace, trace);
  }

  /** Entering a component makes its body run as the instance that the trace names. */
  lemma EntryPlaced(env: Env, c: Component, def: ComponentDef, scope: Scope)
    requires EnterLocal(env, c, def, scope).Ok?
    ensures var entry := EnterLocal(env, c, def, scope).value;
            var quiet := EvalProps(env, c.props, scope).value.trace;
            && RenderPathOf(entry.scope) == InstancePathOf(entry.scope) == RenderPathOf(scope)
            && entry.trace == quiet + [Instance(RenderPathOf(scope))]
            && (forall e <- quiet :: IsNeutral(e))
  {
    var evaluated := EvalProps(env, c.props, scope).value;
    var entered := scope[InstancePath := Str(RenderPathOf(scope))];
    var own := PropagateParams(c.props, scope, entered);
    var bound := BindParams(env, def, def.params, evaluated.props, own).value;
    PropagateKeepsPath(c.props, scope, entered);
    ParamsKeepPath(env, def, def.params, evaluated.props, own);
    StatesKeepPath(env, def.states, bound);
    PropsHaveNoPlaces(env, c.props, scope);
  }

  lemma InstanceThenBelow(quiet: seq<Event>, here: string, inner: seq<Event>)
    requires forall e <- quiet :: IsNeutral(e)
    requires Exact(inner) && AllBelow(inner, here)
    ensures var trace := quiet + [Instance(here)] + inner; Exact(trace) && PlacedAt(trace, here)
  {
    ExactConcat([Instance(here)], inner);
    ExactWithout(quiet, [Instance(here)] + inner);
    assert quiet + [Instance(here)] + inner == quiet + ([Instance(here)] + inner);
  }

  predicate SamePlace(s: Scope, t: Scope) {
    RenderPathOf(s) == RenderPathOf(t) && (InstancePath in s ==>
        InstancePath in t && s[InstancePath] == t[InstancePath])
  }

  lemma {:induction false} PropagateKeepsPath(props: seq<Prop>, source: Scope, target: Scope)
    ensures SamePlace(target, PropagateParams(props, source, target))
  {
    if props != [] {
      PropagateKeepsPath(props[1..], source,
        match EachRenderPath(props[0].value, source)
        case Some(path) => target[EachParam(props[0].name) := Str(path)]
        case None => target);
    }
  }

  lemma {:induction false} ParamsKeepPath(env: Env, def: ComponentDef, params: seq<Param>, props: map<string, Value>,
      scope: Scope)
    requires BindParams(env, def, params, props, scope).Ok?
    ensures SamePlace(scope, BindParams(env, def, params, props, scope).value)
  {
    if params != [] {
      var p := params[0];
      var v := if p.name in props then props[p.name]
               else if p.default.Some? then Eval(env, p.default.value, scope).value
               else Null;
      ParamsKeepPath(env, def, params[1..], props, scope[User(p.name) := v]);
    }
  }

  lemma {:induction false} StatesKeepPath(env: Env, states: seq<State>, scope: Scope)
    requires BindStates(env, states, scope).Ok?
    ensures SamePlace(scope, BindStates(env, states, scope).value)
  {
    if states != [] {
      var v := Eval(env, states[0].initial, scope).value;
      StatesKeepPath(env, states[1..], scope[User(states[0].name) := v]);
    }
  }

  /** Binding a page's parameters leaves it at its path. */
  lemma {:induction false} PageParamsKeepPlace(env: Env, params: seq<Param>, scope: Scope)
    requires BindPageParams(env, params, scope).Ok?
    ensures var bound := BindPageParams(env, params, scope).value;
            forall k: Key | !k.User? :: (k in bound <==> k in scope) && (k in bound ==> bound[k] == scope[k])
  {
    if params != [] {
      if User(params[0].name) in scope {
        PageParamsKeepPlace(env, params[1..], scope);
      } else {
        var v := if params[0].default.Some? then Eval(env, params[0].default.value, scope).value else Null;
        PageParamsKeepPlace(env, params[1..], scope[User(params[0].name) := v]);
      }
    }
  }

  /**
   * In a run whose lists have no colliding keys, no two statement visits and no two component instances have the
   * same path, exactly if no pipeline has two stages that are instances or two that lower statements.
   */
  lemma PathsAreUniqueExactly(env: Env, fuel: nat, page: Page, scope: Scope)
    requires LowerPage(env, fuel, page, scope).Ok?
    requires Plain(env, LowerPage(env, fuel, page, scope).value.trace)
    ensures var trace := LowerPage(env, fuel, page, scope).value.trace; Distinct(trace) <==> PipelinesApart(trace)
  {
    StatementsPlaced(env, fuel, page.body, BindPageParams(env, page.params, At(scope, "0")).value, NoSlot);
  }

  /** In one run, no two statement visits and no two component instances have the same path. */
  lemma RenderPathsAreUnique(env: Env, fuel: nat, page: Page, scope: Scope, i: nat, j: nat)
    requires LowerPage(env, fuel, page, scope).Ok?
    requires var trace := LowerPage(env, fuel, page, scope).value.trace; Plain(env, trace) && PipelinesApart(trace)
    requires i < j < |LowerPage(env, fuel, page, scope).value.trace|
    ensures var trace := LowerPage(env, fuel, page, scope).value.trace;
            && (trace[i].Visit? && trace[j].Visit? ==> trace[i].path != trace[j].path)
            && (trace[i].Instance? && trace[j].Instance? ==> trace[i].path != trace[j].path)
  {
    PathsAreUniqueExactly(env, fuel, page, scope);
  }

  predicate Colonless(parts: seq<string>) {
    forall part <- parts :: ':' !in part
  }

  /** A signal's name determines the instance it belongs to. */
  lemma SignalsAreInjective(c: string, p: string, s: string, i: string, d: string, q: string, t: string, j: string)
    requires Colonless([c, s, i]) && Colonless([d, t, j])
    requires SignalName(c, p, s, i) == SignalName(d, q, t, j)
    ensures c == d && p == q && s == t && i == j
  {
    SignalParts(c, p, s, i);
    SignalParts(d, q, t, j);
    var left := ["component"] + ([c] + (SplitOn(':', p) + [s, i]));
    var right := ["component"] + ([d] + (SplitOn(':', q) + [t, j]));
    assert left[1] == right[1] && left[|left| - 1] == right[|right| - 1] && left[|left| - 2] == right[|right| - 2];
    var before := |"component:" + c + ":"|;
    assert SignalName(c, p, s, i)[before..][..|p|] == p;
    assert SignalName(d, q, t, j)[before..][..|q|] == q;
  }

  lemma SplitHead(head: string, tail: string)
    requires ':' !in head
    ensures SplitOn(':', head + ":" + tail) == [head] + SplitOn(':', tail)
  {
    SplitOnAtom(':', head);
    SplitOnConcat(':', head, tail);
  }

  lemma SignalParts(c: string, p: string, s: string, i: string)
    requires Colonless([c, s, i])
    ensures SplitOn(':', SignalName(c, p, s, i)) == ["component"] + ([c] + (SplitOn(':', p) + [s, i]))
  {
    assert c in [c, s, i] && s in [c, s, i] && i in [c, s, i];
    var last := s + ":" + i;
    assert SplitOn(':', last) == [s, i] by {
      SplitHead(s, i);
      SplitOnAtom(':', i);
    }
    var middle := p + ":" + last;
    SplitOnConcat(':', p, last);
    var rest := c + ":" + middle;
    SplitHead(c, middle);
    SplitHead("component", rest);
  }

  lemma {:induction false} PartsAreApart(sep: char, s: string)
    ensures forall part <- SplitOn(sep, s) :: sep !in part
  {
    if s != "" {
      PartsAreApart(sep, s[1..]);
    }
  }

  /** Values that turn into the same signal were turned in scopes of the same instance. */
  lemma SignalTellsInstance(v: Value, s: Scope, w: Value, t: Scope)
    requires StateSignalOf(v, s).Some? && StateSignalOf(v, s) == StateSignalOf(w, t)
    ensures InstancePathOf(s) == InstancePathOf(t)
  {
    var x, y := v.text[|STATE_PREFIX|..], w.text[|STATE_PREFIX|..];
    PartsAreApart(':', x);
    PartsAreApart(':', y);
    var p, q := SplitOn(':', x), SplitOn(':', y);
    SignalsAreInjective(p[0], InstancePathOf(s), p[1], p[2], q[0], InstancePathOf(t), q[1], q[2]);
  }

  /** A value turns into the same signal in two scopes exactly if they belong to the same instance. */
  lemma SignalsMeetExactly(v: Value, s: Scope, t: Scope)
    requires StateSignalOf(v, s).Some?
    ensures StateSignalOf(v, s) == StateSignalOf(v, t) <==> InstancePathOf(s) == InstancePathOf(t)
  {
    if StateSignalOf(v, s) == StateSignalOf(v, t) {
      SignalTellsInstance(v, s, v, t);
    }
  }

  /** Two component instances of one run never share a state signal. */
  lemma InstancesShareNoSignal(env: Env, fuel: nat, page: Page, scope: Scope, a: nat, b: nat, v: Value,
      s: Scope, w: Value, t: Scope)
    requires LowerPage(env, fuel, page, scope).Ok?
    requires var trace := LowerPage(env, fuel, page, scope).value.trace; Plain(env, trace) && PipelinesApart(trace)
    requires a < b < |LowerPage(env, fuel, page, scope).value.trace|
    requires var trace := LowerPage(env, fuel, page, scope).value.trace;
             && trace[a] == Instance(InstancePathOf(s))
             && trace[b] == Instance(InstancePathOf(t))
    requires StateSignalOf(v, s).Some?
    ensures StateSignalOf(v, s) != StateSignalOf(w, t)
  {
    RenderPathsAreUnique(env, fuel, page, scope, a, b);
    if StateSignalOf(v, s) == StateSignalOf(w, t) {
      SignalTellsInstance(v, s, w, t);
    }
  }

  /** Any two local components among the stages of a pipeline are two instances with the pipeline's path. */
  lemma {:induction false} LocalStagesShareInstance(env: Env, fuel: nat, stages: seq<Stage>, scope: Scope, slots: Slots)
    requires LowerStages(env, fuel, stages, scope, slots).Ok?
    ensures var trace := LowerStages(env, fuel, stages, scope, slots).value.trace;
            multiset(trace)[Instance(RenderPathOf(scope))] >= LocalStages(env, stages)
  {
    if stages != [] {
      var first := LowerStage(env, fuel, stages[0], scope, slots).value.trace;
      LocalStagesShareInstance(env, fuel, stages[1..], scope, slots);
      if stages[0].ComponentStage? && IsLocal(env, stages[0].component) {
        LocalStageIsInstance(env, fuel, stages[0].component, scope, slots);
      }
    }
  }

  lemma LocalStageIsInstance(env: Env, fuel: nat, c: Component, scope: Scope, slots: Slots)
    requires IsLocal(env, c) && LowerComponentNodes(env, fuel, c, scope, slots).Ok?
    ensures Instance(RenderPathOf(scope)) in LowerStage(env, fuel, ComponentStage(c), scope, slots).value.trace
  {
    var def := FindComponent(env.components, c.name).value;
    var inner := LowerComponentNodes(env, fuel, c, scope, slots).value.trace;
    EntryPlaced(env, c, def, scope);
    LocalIsOf(env, fuel, c, def, scope, slots);
    assert Instance(RenderPathOf(scope)) in inner;
    RenamedHolds(inner, StrayMark, Instance(RenderPathOf(scope)));
  }
}
