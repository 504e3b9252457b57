/** Members of native JSON bindings become index expressions. */
module MemberRewriting {
  import opened Text
  import opened ArgSplitter
  import opened ExprPrinter
  import opened TokenTrees
  import opened TextEdits

  // Chains ------------------------------------------------------------------------------------

  /** A dot and a field name that is not a method call. */
  predicate IsMember(tokens: seq<Spaced>, i: int) {
    IsPunct(tokens, i, '.') && IsIdent(tokens, i + 1) && !IsGroup(tokens, i + 2, Parenthesis)
  }

  /** Where the indices and members that go on from a token stop. */
  function ChainStop(tokens: seq<Spaced>, i: nat): (end: nat)
    requires i <= |tokens|
    ensures i <= end <= |tokens|
    decreases |tokens| - i
  {
    if IsGroup(tokens, i, Bracket) then ChainStop(tokens, i + 1)
    else if IsMember(tokens, i) then ChainStop(tokens, i + 2)
    else i
  }

  /** A binding, or a whole chain of one in parentheses. */
  predicate Root(bindings: set<string>, t: Token)
    decreases t
  {
    match t
    case Ident(name) => name in bindings
    case Group(d, inner) => d == Parenthesis && IsChain(bindings, inner.tokens)
    case _ => false
  }

  predicate IsChain(bindings: set<string>, tokens: seq<Spaced>)
    decreases tokens
  {
    tokens != [] && Root(bindings, tokens[0].token) && ChainStop(tokens, 1) == |tokens|
  }

  predicate StartsChain(bindings: set<string>, tokens: seq<Spaced>, i: nat)
    requires i < |tokens|
  {
    !AfterPath(tokens, i) && Root(bindings, tokens[i].token)
  }

  // The structural rewriting ------------------------------------------------------------------

  function StripRaw(name: string): string {
    if HasPrefix(name, "r#") then StripRaw(name[2..]) else name
  }

  function BracketText(printable: char -> bool, name: string): string {
    "[" + DebugText(printable, StripRaw(name)) + "]"
  }

  function IndexToken(printable: char -> bool, name: string): Token {
    Group(Bracket, Stream([Spaced("", Literal(DebugText(printable, StripRaw(name))))], ""))
  }

  function Rewritten(printable: char -> bool, bindings: set<string>, s: Stream): Stream
    decreases s
  {
    Stream(RewrittenFrom(printable, bindings, s.tokens, 0, false), s.tail)
  }

  /** The rewritten tokens from one on; `chained` says that the token before it belongs to a chain. */
  function RewrittenFrom(printable: char -> bool, bindings: set<string>, tokens: seq<Spaced>, i: nat,
      chained: bool): seq<Spaced>
    requires i <= |tokens|
    decreases tokens, 1, |tokens| - i
  {
    if i == |tokens| then []
    else if chained && IsMember(tokens, i) then
      [Spaced(tokens[i].gap, IndexToken(printable, tokens[i + 1].token.name))]
          + RewrittenFrom(printable, bindings, tokens, i + 2, true)
    else
      [RewrittenSpaced(printable, bindings, tokens, i)]
          + RewrittenFrom(printable, bindings, tokens, i + 1, Chains(bindings, tokens, i, chained))
  }

  /** Whether a token that is no member belongs to a chain. */
  predicate Chains(bindings: set<string>, tokens: seq<Spaced>, i: nat, chained: bool)
    requires i < |tokens|
  {
    (chained && IsGroup(tokens, i, Bracket)) || StartsChain(bindings, tokens, i)
  }

  function RewrittenSpaced(printable: char -> bool, bindings: set<string>, tokens: seq<Spaced>, i: nat): Spaced
    requires i < |tokens|
    decreases tokens, 0
  {
    match tokens[i].token
    case Group(d, inner) => Spaced(tokens[i].gap, Group(d, Rewritten(printable, bindings, inner)))
    case _ => tokens[i]
  }

  // Pieces ------------------------------------------------------------------------------------

  function CutFrom(printable: char -> bool, bindings: set<string>, tokens: seq<Spaced>, i: nat,
      chained: bool): seq<Piece>
    requires i <= |tokens|
    decreases tokens, 1, |tokens| - i
  {
    if i == |tokens| then []
    else if chained && IsMember(tokens, i) then
      CutMember(printable, tokens, i) + CutFrom(printable, bindings, tokens, i + 2, true)
    else
      CutToken(printable, bindings, tokens, i)
          + CutFrom(printable, bindings, tokens, i + 1, Chains(bindings, tokens, i, chained))
  }

  function MemberSource(tokens: seq<Spaced>, i: nat): string
    requires i + 1 < |tokens|
  {
    "." + SpacedText(tokens[i + 1])
  }

  function CutMember(printable: char -> bool, tokens: seq<Spaced>, i: nat): seq<Piece>
    requires IsMember(tokens, i)
  {
    Change(tokens[i].gap, MemberSource(tokens, i), BracketText(printable, tokens[i + 1].token.name))
  }

  function CutToken(printable: char -> bool, bindings: set<string>, tokens: seq<Spaced>, i: nat): seq<Piece>
    requires i < |tokens|
    decreases tokens, 0
  {
    match tokens[i].token
    case Group(d, inner) =>
      [Kept(tokens[i].gap + Opening(d))] + CutFrom(printable, bindings, inner.tokens, 0, false)
          + [Kept(inner.tail + Closing(d))]
    case _ => [Kept(SpacedText(tokens[i]))]
  }

  /** The pieces make up the old text and the rewritten tree's text. */
  lemma {:induction false} PiecesPrint(printable: char -> bool, bindings: set<string>, tokens: seq<Spaced>, i: nat,
      chained: bool)
    requires i <= |tokens|
    ensures Before(CutFrom(printable, bindings, tokens, i, chained)) == TokensText(tokens[i..])
    ensures After(CutFrom(printable, bindings, tokens, i, chained))
            == TokensText(RewrittenFrom(printable, bindings, tokens, i, chained))
    decreases tokens, 1, |tokens| - i
  {
    if i < |tokens| {
      if chained && IsMember(tokens, i) {
        MemberPrints(printable, tokens, i);
        TwoDropped(tokens, i);
        PiecesPrint(printable, bindings, tokens, i + 2, true);
        TextsConcat(CutMember(printable, tokens, i), CutFrom(printable, bindings, tokens, i + 2, true));
      } else {
        var next := Chains(bindings, tokens, i, chained);
        TokenPrintsBoth(printable, bindings, tokens, i);
        assert tokens[i..][1..] == tokens[i + 1..];
        PiecesPrint(printable, bindings, tokens, i + 1, next);
        TextsConcat(CutToken(printable, bindings, tokens, i), CutFrom(printable, bindings, tokens, i + 1, next));
      }
    }
  }

  lemma MemberPrints(printable: char -> bool, tokens: seq<Spaced>, i: nat)
    requires IsMember(tokens, i)
    ensures Before(CutMember(printable, tokens, i)) == SpacedText(tokens[i]) + SpacedText(tokens[i + 1])
    ensures After(CutMember(printable, tokens, i))
            == SpacedText(Spaced(tokens[i].gap, IndexToken(printable, tokens[i + 1].token.name)))
  {
    var gap, name := tokens[i].gap, tokens[i + 1].token.name;
    ChangeTexts(gap, MemberSource(tokens, i), BracketText(printable, name));
    ConcatTwice(gap, ".", SpacedText(tokens[i + 1]));
    var quoted := Spaced("", Literal(DebugText(printable, StripRaw(name))));
    TokensTextOne(quoted);
    assert StreamText(Stream([quoted], "")) == DebugText(printable, StripRaw(name));
  }

  lemma {:induction false} TokenPrintsBoth(printable: char -> bool, bindings: set<string>, tokens: seq<Spaced>, i: nat)
    requires i < |tokens|
    ensures Before(CutToken(printable, bindings, tokens, i)) == SpacedText(tokens[i])
    ensures After(CutToken(printable, bindings, tokens, i))
            == SpacedText(RewrittenSpaced(printable, bindings, tokens, i))
    decreases tokens, 0
  {
    var x := tokens[i];
    match x.token {
      case Group(d, inner) =>
        PiecesPrint(printable, bindings, inner.tokens, 0, false);
        assert inner.tokens[0..] == inner.tokens;
        var new_ := Rewritten(printable, bindings, inner);
        GroupPieces(x.gap, d, inner, new_, CutFrom(printable, bindings, inner.tokens, 0, false));
        TokensTextOne(Spaced(x.gap, Group(d, new_)));
      case _ => OnePiece(Kept(SpacedText(x)), 0);
    }
  }
}
