/** The syntax, the values and the scope that the page lowerer works on. */
module LoweringModel {
  import opened Text

  /** A finite float stands for its printed text; the printer is injective. */
  datatype Value =
    | Null
    | Str(text: string)
    | Num(n: int)
    | Flt(text: string)
    | Bool(b: bool)
    | Record(fields: map<string, Value>)
    | List(items: seq<Value>)

  function BoolText(b: bool): string {
    if b then "true" else "false"
  }

  function AsString(v: Value): string {
    match v
    case Null => ""
    case Str(text) => text
    case Num(n) => IntText(n)
    case Flt(text) => text
    case Bool(b) => BoolText(b)
    case Record(_) => "[record]"
    case List(_) => "[list]"
  }

  predicate Truthy(v: Value) {
    match v
    case Null => false
    case Str(text) => text != ""
    case Num(n) => n != 0
    case Flt(text) => text != "0"
    case Bool(b) => b
    case Record(fields) => fields != map[]
    case List(items) => items != []
  }

  datatype UnaryOp = Not | Neg

  datatype BinaryOp =
    | Add | Sub | Mul | Div | Rem
    | Eq | Ne | Gt | Ge | Lt | Le | In
    | And | Or | Fallback

  datatype Field = Field(name: string, value: Expr)

  /** An object literal lists its fields in key order. */
  datatype Expr =
    | StrLit(text: string)
    | NumLit(n: int)
    | FltLit(text: string)
    | BoolLit(b: bool)
    | ListLit(items: seq<Expr>)
    | ObjLit(fields: seq<Field>)
    | Ident(name: string)
    | Unary(unary: UnaryOp, operand: Expr)
    | Binary(op: BinaryOp, left: Expr, right: Expr)
    | Index(base: Expr, index: Expr)
    | Member(base: Expr, property: string)
    | OptionalMember(base: Expr, property: string)
    | Call(path: seq<string>, args: seq<Expr>)

  datatype Prop = Prop(name: string, value: Expr)

  datatype Body = Empty | Inline(text: Expr) | Block(statements: seq<Statement>)

  datatype Component = Component(
    name: string,
    props: seq<Prop>,
    recipe: Option<Expr>,
    class_: Option<Expr>,
    body: Body)

  datatype MatchCase = MatchCase(value: string, body: seq<Statement>)

  datatype Stage = ComponentStage(component: Component) | EachStage(binding: string)

  datatype Statement =
    | Data(name: string, value: Expr)
    | Each(binding: string, source: Expr, key: Option<Expr>, body: seq<Statement>, emptyBody: seq<Statement>)
    | If(condition: Expr, body: seq<Statement>, elseBody: seq<Statement>)
    | Match(value: Expr, cases: seq<MatchCase>, defaultBody: seq<Statement>)
    | TextOf(text: Expr)
    | Use(component: Component)
    | Pipeline(source: Expr, stages: seq<Stage>)

  datatype Param = Param(name: string, literals: seq<string>, default: Option<Expr>)

  datatype State = State(name: string, initial: Expr)

  datatype ComponentDef = ComponentDef(
    name: string,
    params: seq<Param>,
    states: seq<State>,
    body: seq<Statement>)

  datatype Page = Page(name: string, params: seq<Param>, body: seq<Statement>)

  /**
   * The lowerer keeps its own entries in the same map as the user's names, under spellings that
   * start with `__ax_`.
   */
  datatype Key =
    | User(name: string)
    | RenderPath
    | InstancePath
    | EachBinding
    | EachParam(name: string)
    | EachUnsupported

  type Scope = map<Key, Value>

  function Spelling(key: Key): string {
    match key
    case User(name) => name
    case RenderPath => "__ax_render_path"
    case InstancePath => "__ax_component_instance_path"
    case EachBinding => "__ax_each_render_binding"
    case EachParam(name) => "__ax_each_render_param:" + name
    case EachUnsupported => "__ax_each_render_unsupported"
  }

  /** Two entries share a spelling only if a user's name starts with `__ax_`. */
  lemma SpellingInjective(j: Key, k: Key)
    requires j.User? ==> !HasPrefix(j.name, "__ax_")
    requires k.User? ==> !HasPrefix(k.name, "__ax_")
    requires Spelling(j) == Spelling(k)
    ensures j == k
  {
    var prefix := "__ax_each_render_param:";
    forall key: Key | !key.User? ensures HasPrefix(Spelling(key), "__ax_") {
      assert Spelling(key)[..5] == "__ax_";
    }
    forall key: Key | key.EachParam?
      ensures Spelling(key)[17] == 'p' && Spelling(key)[|prefix|..] == key.name
    {
      assert Spelling(key)[17] == prefix[17];
    }
    if j.EachParam? && k.EachParam? {
      assert j.name == Spelling(j)[|prefix|..] == k.name;
    }
    assert Spelling(EachBinding)[17] == 'b' && Spelling(EachUnsupported)[17] == 'u';
    assert Spelling(RenderPath)[5] == 'r' && Spelling(InstancePath)[5] == 'c';
    assert prefix[5] == 'e';
  }

  datatype RenderMode = SetAttribute | SetBoolean

  /** One entry of the JSON list in `data-ax-each-render-attrs`. */
  datatype RenderBinding = RenderBinding(target: string, path: string, mode: RenderMode)

  datatype Node =
    | TextNode(text: string)
    | Element(tag: string, attrs: map<string, string>, bindings: seq<RenderBinding>, children: seq<Node>)

  datatype LowerError =
    | UnknownIdentifier(name: string)
    | UnknownMember(property: string)
    | UnsupportedCall(path: seq<string>)
    | UnsupportedExpression(message: string)
    | EachRequiresList
    | InvalidEachKey
    | DuplicateEachKey(key: string)
    | InvalidComponentPropLiteral(component: string, prop: string, value: string, expected: seq<string>)
    | OutOfFuel
    | OutsideModel(component: string)

  datatype Result<+T> = Ok(value: T) | Err(error: LowerError) {
    predicate IsFailure() {
      Err?
    }

    function PropagateFailure<U>(): Result<U>
      requires Err?
    {
      Err(error)
    }

    function Extract(): T
      requires Ok?
    {
      value
    }
  }

  /**
   * What the lowerer is given besides the page: the caller's resolver, the arithmetic that is not modelled, the
   * key hash and the document's components.
   */
  datatype Env = Env(
    resolve: (seq<string>, seq<Value>) -> Option<Value>,
    arithmetic: (BinaryOp, Value, Value) -> Result<Value>,
    negate: Value -> Result<Value>,
    hash: string -> string,
    components: seq<ComponentDef>)
}
