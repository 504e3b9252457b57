/** Token trees with the text between their tokens. */
module TokenTrees {
  import opened Text
  import opened ArgSplitter

  datatype Delimiter = Parenthesis | Bracket | Brace

  datatype Token =
    | Ident(name: string)
    | Punct(mark: char)
    | Literal(text: string)
    | Group(delimiter: Delimiter, inner: Stream)

  /** A token after the blanks and comments that separate it from what comes before. */
  datatype Spaced = Spaced(gap: string, token: Token)

  datatype Stream = Stream(tokens: seq<Spaced>, tail: string)

  function Opening(d: Delimiter): string {
    match d
    case Parenthesis => "("
    case Bracket => "["
    case Brace => "{"
  }

  function Closing(d: Delimiter): string {
    match d
    case Parenthesis => ")"
    case Bracket => "]"
    case Brace => "}"
  }

  function TokenText(t: Token): string {
    match t
    case Ident(name) => name
    case Punct(mark) => [mark]
    case Literal(text) => text
    case Group(d, inner) => Opening(d) + StreamText(inner) + Closing(d)
  }

  function SpacedText(x: Spaced): string {
    x.gap + TokenText(x.token)
  }

  function TokensText(tokens: seq<Spaced>): string {
    if tokens == [] then "" else SpacedText(tokens[0]) + TokensText(tokens[1..])
  }

  function StreamText(s: Stream): string {
    TokensText(s.tokens) + s.tail
  }

  function TokenWeight(t: Token): nat {
    match t
    case Group(_, inner) => 2 + Weight(inner.tokens)
    case _ => 1
  }

  function Weight(tokens: seq<Spaced>): nat {
    if tokens == [] then 0 else TokenWeight(tokens[0].token) + Weight(tokens[1..])
  }

  lemma {:induction false} TokensTextConcat(xs: seq<Spaced>, ys: seq<Spaced>)
    ensures TokensText(xs + ys) == TokensText(xs) + TokensText(ys)
  {
    if xs == [] {
      assert xs + ys == ys;
    } else {
      TokensTextConcat(xs[1..], ys);
      assert (xs + ys)[0] == xs[0] && (xs + ys)[1..] == xs[1..] + ys;
      ConcatTwice(SpacedText(xs[0]), TokensText(xs[1..]), TokensText(ys));
    }
  }

  lemma TokensTextFirst(x: Spaced, rest: seq<Spaced>)
    ensures TokensText([x] + rest) == SpacedText(x) + TokensText(rest)
  {
    assert ([x] + rest)[1..] == rest;
  }

  lemma TokensTextOne(x: Spaced)
    ensures TokensText([x]) == SpacedText(x)
  {
    assert [x][1..] == [];
  }

  lemma {:induction false} WeightConcat(xs: seq<Spaced>, ys: seq<Spaced>)
    ensures Weight(xs + ys) == Weight(xs) + Weight(ys)
  {
    if xs == [] {
      assert xs + ys == ys;
    } else {
      WeightConcat(xs[1..], ys);
      assert (xs + ys)[1..] == xs[1..] + ys;
    }
  }

  lemma WeightSplit(tokens: seq<Spaced>, i: nat)
    requires i <= |tokens|
    ensures Weight(tokens) == Weight(tokens[..i]) + Weight(tokens[i..])
  {
    WeightConcat(tokens[..i], tokens[i..]);
    assert tokens[..i] + tokens[i..] == tokens;
  }

  lemma WeightAt(tokens: seq<Spaced>, i: nat)
    requires i < |tokens|
    ensures TokenWeight(tokens[i].token) <= Weight(tokens)
    ensures Weight(tokens[i..]) == TokenWeight(tokens[i].token) + Weight(tokens[i + 1..])
  {
    WeightSplit(tokens, i);
    assert tokens[i..][1..] == tokens[i + 1..];
  }

  // Looking around ----------------------------------------------------------------------------

  predicate IsPunct(tokens: seq<Spaced>, i: int, mark: char) {
    0 <= i < |tokens| && tokens[i].token == Punct(mark)
  }

  predicate IsIdent(tokens: seq<Spaced>, i: int) {
    0 <= i < |tokens| && tokens[i].token.Ident?
  }

  predicate IsGroup(tokens: seq<Spaced>, i: int, d: Delimiter) {
    0 <= i < |tokens| && tokens[i].token.Group? && tokens[i].token.delimiter == d
  }

  /** A name here is a field or a path segment, not a name of its own. */
  predicate AfterPath(tokens: seq<Spaced>, i: int) {
    IsPunct(tokens, i - 1, '.') || (IsPunct(tokens, i - 1, ':') && IsPunct(tokens, i - 2, ':'))
  }

  /** Tokens as a lexer cuts them: none is empty, and blanks lie between them. */
  predicate Lexed(t: Token) {
    match t
    case Ident(name) => Tight(name)
    case Punct(mark) => !IsSpace(mark)
    case Literal(text) => Tight(text)
    case Group(_, inner) => AllLexed(inner.tokens)
  }

  predicate AllLexed(tokens: seq<Spaced>) {
    forall x <- tokens :: Lexed(x.token)
  }

  // Joining streams ---------------------------------------------------------------------------

  function Append(s: Stream, t: Stream): Stream {
    if t.tokens == [] then Stream(s.tokens, s.tail + t.tail)
    else Stream(s.tokens + [Spaced(s.tail + t.tokens[0].gap, t.tokens[0].token)] + t.tokens[1..], t.tail)
  }

  lemma AppendText(s: Stream, t: Stream)
    ensures StreamText(Append(s, t)) == StreamText(s) + StreamText(t)
  {
    if t.tokens != [] {
      var x := t.tokens[0];
      var y := Spaced(s.tail + x.gap, x.token);
      TokensTextConcat(s.tokens + [y], t.tokens[1..]);
      TokensTextConcat(s.tokens, [y]);
      TokensTextOne(y);
      assert SpacedText(y) == s.tail + SpacedText(x);
    }
  }

  function One(x: Spaced): Stream {
    Stream([x], "")
  }

  function JoinStreams(streams: seq<Stream>): Stream {
    if streams == [] then Stream([], "")
    else if |streams| == 1 then streams[0]
    else Append(Append(streams[0], Stream([Spaced("", Punct(','))], " ")), JoinStreams(streams[1..]))
  }

  function Texts(streams: seq<Stream>): seq<string> {
    seq(|streams|, i requires 0 <= i < |streams| => StreamText(streams[i]))
  }

  lemma {:induction false} JoinStreamsText(streams: seq<Stream>)
    ensures StreamText(JoinStreams(streams)) == Join(Texts(streams))
  {
    if |streams| > 1 {
      var comma := Stream([Spaced("", Punct(','))], " ");
      JoinStreamsText(streams[1..]);
      TokensTextOne(comma.tokens[0]);
      AppendText(streams[0], comma);
      AppendText(Append(streams[0], comma), JoinStreams(streams[1..]));
      assert Texts(streams)[1..] == Texts(streams[1..]);
      assert StreamText(comma) == ", ";
    }
  }

  lemma ConcatThrice(a: string, b: string, c: string, d: string)
    ensures (a + b) + c + d == a + (b + c + d)
  {
  }

  lemma TwoDropped(tokens: seq<Spaced>, i: nat)
    requires i + 1 < |tokens|
    ensures TokensText(tokens[i..]) == SpacedText(tokens[i]) + SpacedText(tokens[i + 1]) + TokensText(tokens[i + 2..])
  {
    assert tokens[i..][1..] == tokens[i + 1..] && tokens[i + 1..][1..] == tokens[i + 2..];
    ConcatTwice(SpacedText(tokens[i]), SpacedText(tokens[i + 1]), TokensText(tokens[i + 2..]));
  }
}
