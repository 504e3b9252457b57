/** Optional bindings that a `require` narrows, in the handlers that the generator writes and on every run of them. */
module Narrowing {
  import opened Text
  import TypeContracts

  type AxType = TypeContracts.AxType

  datatype Step = Let(binding: string, ty: Option<AxType>) | Require(code: string) | OtherStep

  /** Generated statements: a binding, decoded when its type is known; a guard; and the match that unwraps a binding. */
  datatype Instr =
    | Bind(binding: string, ty: Option<AxType>)
    | Guard(code: string)
    | Unwrap(binding: string)
    | OtherInstr

  predicate IsIdentifierStart(c: char) {
    c == '_' || 'a' <= c <= 'z' || 'A' <= c <= 'Z'
  }

  predicate IsRustIdentifier(s: string) {
    s != "" && IsIdentifierStart(s[0]) && forall c <- s :: IsIdentifierStart(c) || '0' <= c <= '9'
  }

  // The generator -----------------------------------------------------------------------------

  /** Whether requiring this code narrows a binding. */
  predicate Narrows(code: string, types: map<string, AxType>) {
    IsRustIdentifier(Trim(code)) && Trim(code) in types && types[Trim(code)].Optional?
  }

  function CodeOf(step: Step, types: map<string, AxType>): seq<Instr> {
    match step
    case Let(binding, ty) => [Bind(binding, ty)]
    case Require(code) => [Guard(code)] + if Narrows(code, types) then [Unwrap(Trim(code))] else []
    case OtherStep => [OtherInstr]
  }

  function TypesAfter(step: Step, types: map<string, AxType>): map<string, AxType> {
    match step
    case Let(binding, ty) => if ty.Some? then types[binding := ty.value] else types
    case Require(code) => if Narrows(code, types) then types[Trim(code) := types[Trim(code)].item] else types
    case OtherStep => types
  }

  function CodeOfAll(steps: seq<Step>, types: map<string, AxType>): seq<Instr> {
    if steps == [] then [] else CodeOf(steps[0], types) + CodeOfAll(steps[1..], TypesAfter(steps[0], types))
  }

  class Generator {
    var typedBindings: map<string, AxType>

    constructor ()
      ensures typedBindings == map[]
    {
      typedBindings := map[];
    }

    method RenderStep(step: Step) returns (code: seq<Instr>)
      modifies this
      ensures code == CodeOf(step, old(typedBindings)) && typedBindings == TypesAfter(step, old(typedBindings))
    {
      match step {
        case Let(binding, ty) =>
          code := [Bind(binding, ty)];
          if ty.Some? {
            typedBindings := typedBindings[binding := ty.value];
          }
        case Require(required) =>
          var narrowing := RenderNarrowing(required);
          code := [Guard(required)] + narrowing;
        case OtherStep =>
          code := [OtherInstr];
      }
    }

    method RenderNarrowing(required: string) returns (code: seq<Instr>)
      modifies this
      ensures code == if Narrows(required, old(typedBindings)) then [Unwrap(Trim(required))] else []
      ensures typedBindings == TypesAfter(Require(required), old(typedBindings))
    {
      var binding := Trim(required);
      if !IsRustIdentifier(binding) || binding !in typedBindings || !typedBindings[binding].Optional? {
        return [];
      }
      typedBindings := typedBindings[binding := typedBindings[binding].item];
      code := [Unwrap(binding)];
    }
  }

  method RenderSteps(steps: seq<Step>) returns (code: seq<Instr>)
    ensures code == CodeOfAll(steps, map[])
  {
    var generator := new Generator();
    code := [];
    assert steps[0..] == steps && [] + CodeOfAll(steps, map[]) == CodeOfAll(steps, map[]);
    for i := 0 to |steps|
      invariant fresh(generator)
      invariant code + CodeOfAll(steps[i..], generator.typedBindings) == CodeOfAll(steps, map[])
    {
      assert steps[i..][0] == steps[i] && steps[i..][1..] == steps[i + 1..];
      ghost var rest := CodeOfAll(steps[i + 1..], TypesAfter(steps[i], generator.typedBindings));
      var more := generator.RenderStep(steps[i]);
      assert code + (more + rest) == (code + more) + rest;
      code := code + more;
    }
    assert code + [] == code;
  }

  // Runs --------------------------------------------------------------------------------------

  datatype Json =
    | Null
    | Boolean(b: bool)
    | Number(text: string)
    | String(text: string)
    | Array(items: seq<Json>)
    | Object(fields: seq<(string, Json)>)

  predicate IsTruthy(value: Json) {
    match value
    case Null => false
    case Boolean(b) => b
    case Number(_) => true
    case String(text) => text != ""
    case Array(items) => items != []
    case Object(fields) => fields != []
  }

  /** A value bound in a running handler: an option, or a value of any other type as its JSON. */
  datatype Bound = Plain(json: Json) | Empty | Full(value: Bound)

  function ToJson(v: Bound): Json {
    match v
    case Plain(json) => json
    case Empty => Null
    case Full(value) => ToJson(value)
  }

  /** Decoding JSON into a type; `others` decodes the types that are no options. */
  function Decode(others: imap<(AxType, Json), Json>, ty: AxType, json: Json): (r: Option<Bound>)
    ensures r.Some? ==> HasShape(ty, r.value)
    decreases ty
  {
    if ty.Optional? then
      if json == Null then Some(Empty)
      else match Decode(others, ty.item, json)
        case None => None
        case Some(value) => Some(Full(value))
    else if (ty, json) in others then Some(Plain(others[(ty, json)]))
    else None
  }

  predicate HasShape(ty: AxType, v: Bound)
    decreases ty
  {
    if ty.Optional? then v.Empty? || (v.Full? && HasShape(ty.item, v.value)) else v.Plain?
  }

  datatype Progress = Running(env: map<string, Bound>) | Left | Unreachable | IllTyped

  /** One statement; `input` is what an expression that is no binding gives. */
  function Execute(others: imap<(AxType, Json), Json>, instr: Instr, env: map<string, Bound>, input: Json): Progress {
    match instr
    case Bind(binding, None) => Running(env[binding := Plain(input)])
    case Bind(binding, Some(ty)) =>
      (match Decode(others, ty, input)
       case None => Left
       case Some(value) => Running(env[binding := value]))
    case Guard(code) => if IsTruthy(if Trim(code) in env then ToJson(env[Trim(code)]) else input) then Running(env)
        else Left
    case Unwrap(binding) =>
      if binding !in env || env[binding].Plain? then IllTyped
      else if env[binding].Empty? then Unreachable
      else Running(env[binding := env[binding].value])
    case OtherInstr => Running(env)
  }

  function Run(others: imap<(AxType, Json), Json>, code: seq<Instr>, env: map<string, Bound>,
      inputs: seq<Json>): Progress
    requires |code| == |inputs|
  {
    if code == [] then Running(env)
    else match Execute(others, code[0], env, inputs[0])
      case Running(next) => Run(others, code[1..], next, inputs[1..])
      case stopped => stopped
  }

  // When narrowing is safe --------------------------------------------------------------------

  /** A name is required whose option was replaced by an untyped binding: the generator still believes in the option. */
  predicate RequiresStale(steps: seq<Step>, types: map<string, AxType>, stale: set<string>) {
    steps != [] &&
    match steps[0]
    case Let(binding, Some(ty)) => RequiresStale(steps[1..], types[binding := ty], stale - {binding})
    case Let(binding, None) => RequiresStale(steps[1..], types, stale + {binding})
    case Require(code) =>
      (Narrows(code, types) && Trim(code) in stale) || RequiresStale(steps[1..], TypesAfter(steps[0], types), stale)
    case OtherStep => RequiresStale(steps[1..], types, stale)
  }

  /** Tracked types are the types of the bindings, apart from stale ones. */
  ghost predicate Tracks(types: map<string, AxType>, stale: set<string>, env: map<string, Bound>) {
    && (forall x <- types :: x in env && (x !in stale ==> HasShape(types[x], env[x])))
    && forall x <- types :: x in stale ==> env[x].Plain?
  }

  lemma TruthyIsFull(ty: AxType, v: Bound)
    requires ty.Optional? && HasShape(ty, v) && IsTruthy(ToJson(v))
    ensures v.Full?
  {
  }

  function StaleAfter(step: Step, stale: set<string>): set<string> {
    if step.Let? then if step.ty.Some? then stale - {step.binding} else stale + {step.binding} else stale
  }

  /** After the code of a step has run, tracked types still match; the unreachable arm is not taken. */
  lemma StepKeepsTracking(others: imap<(AxType, Json), Json>, step: Step, types: map<string, AxType>,
      stale: set<string>, env: map<string, Bound>, inputs: seq<Json>)
    requires |CodeOf(step, types)| == |inputs| && Tracks(types, stale, env)
    requires step.Require? ==> !(Narrows(step.code, types) && Trim(step.code) in stale)
    ensures var p := Run(others, CodeOf(step, types), env, inputs);
            p.Left? || (p.Running? && Tracks(TypesAfter(step, types), StaleAfter(step, stale), p.env))
  {
    var code := CodeOf(step, types);
    if step.Require? && Narrows(step.code, types) {
      var x := Trim(step.code);
      assert code[1..] == [Unwrap(x)] && [Unwrap(x)][1..] == [];
      if IsTruthy(ToJson(env[x])) {
        TruthyIsFull(types[x], env[x]);
        assert code[0] == Guard(step.code) && Execute(others, code[0], env, inputs[0]) == Running(env);
        var after := env[x := env[x].value];
        assert Run(others, [], after, inputs[1..][1..]) == Running(after);
        assert Run(others, code[1..], env, inputs[1..]) == Running(after);
      }
    } else {
      assert code[1..] == [];
    }
  }

  lemma {:induction false} RunSplits(others: imap<(AxType, Json), Json>, first: seq<Instr>, rest: seq<Instr>,
      env: map<string, Bound>, inputs: seq<Json>)
    requires |first + rest| == |inputs|
    ensures var p := Run(others, first, env, inputs[..|first|]);
            Run(others, first + rest, env, inputs) == if p.Running? then Run(others, rest, p.env, inputs[|first|..])
                else p
  {
    if first == [] {
      assert first + rest == rest && inputs[0..] == inputs;
    } else {
      assert (first + rest)[0] == first[0] && (first + rest)[1..] == first[1..] + rest;
      assert inputs[..|first|][1..] == inputs[1..][..|first| - 1] && inputs[..|first|][0] == inputs[0];
      var p := Execute(others, first[0], env, inputs[0]);
      if p.Running? {
        RunSplits(others, first[1..], rest, p.env, inputs[1..]);
        assert inputs[1..][|first| - 1..] == inputs[|first|..];
      }
    }
  }

  function TypesAfterAll(steps: seq<Step>, types: map<string, AxType>): map<string, AxType> {
    if steps == [] then types else TypesAfterAll(steps[1..], TypesAfter(steps[0], types))
  }

  function StaleAfterAll(steps: seq<Step>, stale: set<string>): set<string> {
    if steps == [] then stale else StaleAfterAll(steps[1..], StaleAfter(steps[0], stale))
  }

  /** On every run no narrowing goes wrong, and the tracked types match the bindings at its end. */
  lemma {:induction false} NarrowingIsSafe(others: imap<(AxType, Json), Json>, steps: seq<Step>,
      types: map<string, AxType>, stale: set<string>, env: map<string, Bound>, inputs: seq<Json>)
    requires |CodeOfAll(steps, types)| == |inputs|
    requires Tracks(types, stale, env) && !RequiresStale(steps, types, stale)
    ensures var p := Run(others, CodeOfAll(steps, types), env, inputs);
            && !p.Unreachable? && !p.IllTyped?
            && (p.Running? ==> Tracks(TypesAfterAll(steps, types), StaleAfterAll(steps, stale), p.env))
  {
    if steps != [] {
      var first, rest := CodeOf(steps[0], types), CodeOfAll(steps[1..], TypesAfter(steps[0], types));
      RunSplits(others, first, rest, env, inputs);
      StepKeepsTracking(others, steps[0], types, stale, env, inputs[..|first|]);
      var p := Run(others, first, env, inputs[..|first|]);
      if p.Running? {
        NarrowingIsSafe(others, steps[1..], TypesAfter(steps[0], types), StaleAfter(steps[0], stale), p.env,
            inputs[|first|..]);
      }
    }
  }

  /** Names that are bound once are never stale. */
  lemma {:induction false} BoundOnceIsNeverStale(steps: seq<Step>, types: map<string, AxType>, stale: set<string>)
    requires forall i, j | 0 <= i < j < |steps| && steps[i].Let? && steps[j].Let? ::
             steps[i].binding != steps[j].binding
    requires forall i | 0 <= i < |steps| && steps[i].Let? :: steps[i].binding !in types
    requires types.Keys !! stale
    ensures !RequiresStale(steps, types, stale)
  {
    if steps != [] {
      assert forall i | 0 <= i < |steps[1..]| :: steps[1..][i] == steps[i + 1];
      BoundOnceIsNeverStale(steps[1..], TypesAfter(steps[0], types), StaleAfter(steps[0], stale));
    }
  }

  // What the compiler accepts -----------------------------------------------------------------

  /** The Rust type of each binding, where `None` stands for untyped JSON. */
  predicate Checks(code: seq<Instr>, types: map<string, Option<AxType>>) {
    code == [] ||
    match code[0]
    case Bind(binding, ty) => Checks(code[1..], types[binding := ty])
    case Unwrap(binding) =>
      && binding in types && types[binding].Some? && types[binding].value.Optional?
      && Checks(code[1..], types[binding := Some(types[binding].value.item)])
    case _ => Checks(code[1..], types)
  }

  ghost predicate Knows(types: map<string, AxType>, stale: set<string>, actual: map<string, Option<AxType>>) {
    forall x <- types :: x in actual && actual[x] == if x in stale then None else Some(types[x])
  }

  /** The generated code is well typed exactly when no stale name is required. */
  lemma {:induction false} ChecksExactlyWithoutStale(steps: seq<Step>, types: map<string, AxType>, stale: set<string>,
      actual: map<string, Option<AxType>>)
    requires Knows(types, stale, actual)
    ensures Checks(CodeOfAll(steps, types), actual) <==> !RequiresStale(steps, types, stale)
  {
    if steps != [] {
      var rest := CodeOfAll(steps[1..], TypesAfter(steps[0], types));
      if steps[0].Require? && Narrows(steps[0].code, types) {
        var x := Trim(steps[0].code);
        ChecksNarrowing(steps[0].code, x, rest, actual);
        if x !in stale {
          ChecksExactlyWithoutStale(steps[1..], types[x := types[x].item], stale, actual[x := Some(types[x].item)]);
        }
      } else {
        var next := if steps[0].Let? then actual[steps[0].binding := steps[0].ty] else actual;
        ChecksOne(CodeOf(steps[0], types)[0], rest, actual, next);
        ChecksExactlyWithoutStale(steps[1..], TypesAfter(steps[0], types), StaleAfter(steps[0], stale), next);
      }
    }
  }

  lemma ChecksOne(instr: Instr, rest: seq<Instr>, actual: map<string, Option<AxType>>,
      next: map<string, Option<AxType>>)
    requires !instr.Unwrap? && next == if instr.Bind? then actual[instr.binding := instr.ty] else actual
    ensures Checks([instr] + rest, actual) == Checks(rest, next)
  {
    assert ([instr] + rest)[1..] == rest;
  }

  lemma ChecksNarrowing(code: string, x: string, rest: seq<Instr>, actual: map<string, Option<AxType>>)
    ensures Checks([Guard(code)] + [Unwrap(x)] + rest, actual)
            <==>
              && x in actual && actual[x].Some? && actual[x].value.Optional?
              && Checks(rest, actual[x := Some(actual[x].value.item)])
  {
    assert ([Guard(code)] + [Unwrap(x)] + rest)[1..] == [Unwrap(x)] + rest;
    assert ([Unwrap(x)] + rest)[1..] == rest;
  }

  /** Rebinding an optional query result as untyped data before requiring it gives code that does not compile. */
  lemma RebindingIsRefused(x: string, ty: AxType)
    requires IsRustIdentifier(x) && ty.Optional?
    ensures var steps := [Let(x, Some(ty)), Let(x, None), Require(x)]; !Checks(CodeOfAll(steps, map[]), map[])
  {
    var steps := [Let(x, Some(ty)), Let(x, None), Require(x)];
    assert Trim(x) == x by {
      assert IsIdentifierStart(x[|x| - 1]) || '0' <= x[|x| - 1] <= '9';
    }
    assert RequiresStale(steps[1..][1..], map[x := ty], {} + {x});
    assert RequiresStale(steps[1..], map[x := ty], {});
    assert map[][x := ty] == map[x := ty] && {} - {x} == {};
    ChecksExactlyWithoutStale(steps, map[], {}, map[]);
  }

  // What requiring a binding means ------------------------------------------------------------

  /** A binding's name: a letter or underscore, and then these and digits. */
  lemma RustIdentifiers(s: string)
    ensures IsRustIdentifier(s) <==>
              && s != "" && s[0] !in DIGITS
              && forall c <- s :: c in SMALL || c in LARGE || c in DIGITS || c == '_'
  {
    assert s != "" ==> s[0] in s;
  }

  /** These values are false, and no others. */
  lemma FalseExactly(value: Json)
    ensures !IsTruthy(value) <==> value in {Null, Boolean(false), String(""), Array([]), Object([])}
  {
  }

  /**
   * Requiring an optional binding ends the handler if the binding is empty or holds a false value, and otherwise leaves
   * the item bound, with the item's type.
   */
  lemma RequiredIsNarrowed(others: imap<(AxType, Json), Json>, x: string, types: map<string, AxType>,
      env: map<string, Bound>, inputs: seq<Json>)
    requires IsRustIdentifier(x) && x in types && types[x].Optional? && x in env && HasShape(types[x], env[x])
    requires |inputs| == 2
    ensures Trim(x) == x && CodeOf(Require(x), types) == [Guard(x), Unwrap(x)]
    ensures TypesAfter(Require(x), types) == types[x := types[x].item]
    ensures Run(others, [Guard(x), Unwrap(x)], env, inputs) ==
              if env[x].Full? && IsTruthy(ToJson(env[x].value)) then Running(env[x := env[x].value]) else Left
  {
    assert Trim(x) == x by {
      assert IsIdentifierStart(x[|x| - 1]) || '0' <= x[|x| - 1] <= '9';
    }
    var code := [Guard(x), Unwrap(x)];
    assert code[1..] == [Unwrap(x)] && [Unwrap(x)][1..] == [];
    if env[x].Full? && IsTruthy(ToJson(env[x].value)) {
      var after := env[x := env[x].value];
      assert Run(others, [], after, inputs[1..][1..]) == Running(after);
      assert Run(others, [Unwrap(x)], env, inputs[1..]) == Running(after);
    }
  }

  /** Requiring anything else is a guard only. */
  lemma OtherRequirementsGuard(others: imap<(AxType, Json), Json>, code: string, types: map<string, AxType>,
      env: map<string, Bound>, input: Json)
    requires !IsRustIdentifier(Trim(code)) || Trim(code) !in types || !types[Trim(code)].Optional?
    ensures CodeOf(Require(code), types) == [Guard(code)] && TypesAfter(Require(code), types) == types
    ensures Trim(code) !in env ==>
              Execute(others, Guard(code), env, input) == if IsTruthy(input) then Running(env) else Left
  {
    assert [Guard(code)] + [] == [Guard(code)];
  }

  /** A value of an optional type is empty for null and otherwise holds what its item's type makes of it. */
  lemma OptionsAreDecoded(others: imap<(AxType, Json), Json>, ty: AxType, json: Json)
    requires ty.Optional?
    ensures json == Null ==> Decode(others, ty, json) == Some(Empty)
    ensures json != Null && Decode(others, ty.item, json).None? ==> Decode(others, ty, json) == None
    ensures json != Null && Decode(others, ty.item, json).Some? ==>
              Decode(others, ty, json) == Some(Full(Decode(others, ty.item, json).value))
  {
  }

  /** A binding holds its input, decoded if its type is known; what cannot be decoded ends the handler. */
  lemma BindingsHold(others: imap<(AxType, Json), Json>, x: string, ty: Option<AxType>, types: map<string, AxType>,
      env: map<string, Bound>, input: Json)
    ensures CodeOf(Let(x, ty), types) == [Bind(x, ty)]
    ensures ty.Some? ==> TypesAfter(Let(x, ty), types) == types[x := ty.value]
    ensures ty.None? ==> Execute(others, Bind(x, ty), env, input) == Running(env[x := Plain(input)])
    ensures ty.Some? && Decode(others, ty.value, input).None? ==> Execute(others, Bind(x, ty), env, input) == Left
    ensures ty.Some? && Decode(others, ty.value, input).Some? ==>
              Execute(others, Bind(x, ty), env, input) == Running(env[x := Decode(others, ty.value, input).value])
  {
  }
}
