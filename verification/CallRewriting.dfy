/** Calls of declared functions are rewritten in the text around them, by edits that the token tree yields. */
module CallRewriting {
  import opened Text
  import opened ArgSplitter
  import opened TokenTrees

  datatype Function = Function(name: string, input: seq<string>)

  function FindFunction(functions: seq<Function>, name: string): Option<Function> {
    if functions == [] then None
    else if functions[0].name == name then Some(functions[0])
    else FindFunction(functions[1..], name)
  }

  /** The declared function that the tokens call here. */
  function Called(functions: seq<Function>, tokens: seq<Spaced>, i: nat): (r: Option<Function>)
    requires i < |tokens|
    ensures r.Some? ==> tokens[i].token.Ident? && IsGroup(tokens, i + 1, Parenthesis)
  {
    if tokens[i].token.Ident? && !AfterPath(tokens, i) && IsGroup(tokens, i + 1, Parenthesis)
    then FindFunction(functions, tokens[i].token.name)
    else None
  }

  // Arguments ---------------------------------------------------------------------------------

  function CommaFrom(tokens: seq<Spaced>, i: nat): (c: nat)
    requires i <= |tokens|
    ensures i <= c <= |tokens|
    ensures c < |tokens| ==> IsPunct(tokens, c, ',')
    ensures forall j | i <= j < c :: !IsPunct(tokens, j, ',')
    decreases |tokens| - i
  {
    if i == |tokens| || IsPunct(tokens, i, ',') then i else CommaFrom(tokens, i + 1)
  }

  /** The stretches between the commas of a stream's own level; the one from a token on comes first. */
  function Segments(s: Stream, from: nat): (r: seq<Stream>)
    requires from <= |s.tokens|
    ensures r != []
    decreases |s.tokens| - from
  {
    var c := CommaFrom(s.tokens, from);
    if c == |s.tokens| then [Stream(s.tokens[from..c], s.tail)]
    else [Stream(s.tokens[from..c], s.tokens[c].gap)] + Segments(s, c + 1)
  }

  lemma {:induction false} SegmentsWeighLess(s: Stream, from: nat)
    requires from <= |s.tokens|
    ensures forall x <- Segments(s, from) :: Weight(x.tokens) <= Weight(s.tokens)
    decreases |s.tokens| - from
  {
    var c := CommaFrom(s.tokens, from);
    PartWeighsLess(s.tokens, from, c);
    if c < |s.tokens| {
      SegmentsWeighLess(s, c + 1);
    }
  }

  lemma PartWeighsLess(tokens: seq<Spaced>, i: nat, j: nat)
    requires i <= j <= |tokens|
    ensures Weight(tokens[i..j]) <= Weight(tokens)
  {
    WeightSplit(tokens, i);
    WeightSplit(tokens[i..], j - i);
    assert tokens[i..][..j - i] == tokens[i..j];
  }

  function TrimStream(s: Stream): (r: Stream)
    ensures Weight(r.tokens) == Weight(s.tokens)
  {
    if s.tokens == [] then Stream([], Trim(s.tail))
    else
      var first := s.tokens[0].(gap := TrimStart(s.tokens[0].gap));
      assert ([first] + s.tokens[1..])[1..] == s.tokens[1..];
      Stream([first] + s.tokens[1..], TrimEnd(s.tail))
  }

  /** A last segment without text is no argument. */
  function Given(segments: seq<Stream>): seq<Stream>
    requires segments != []
  {
    var last := |segments| - 1;
    if Trim(StreamText(segments[last])) == "" then segments[..last] else segments
  }

  function TrimStreams(streams: seq<Stream>): seq<Stream> {
    seq(|streams|, i requires 0 <= i < |streams| => TrimStream(streams[i]))
  }

  function Arguments(inner: Stream): (r: seq<Stream>)
    ensures forall x <- r :: Weight(x.tokens) <= Weight(inner.tokens)
  {
    var given := Given(Segments(inner, 0));
    SegmentsWeighLess(inner, 0);
    assert forall x <- given :: x in Segments(inner, 0);
    TrimStreams(given)
  }

  // The structural rewriting ------------------------------------------------------------------

  predicate IsScalar(ty: string) {
    ty in {"bool", "i32", "i64", "u32", "u64", "f32", "f64"}
  }

  function Grouped(inner: Stream): Spaced {
    Spaced("", Group(Parenthesis, inner))
  }

  /** An argument as its parameter takes it: a record by reference, a scalar as it is, anything else cloned. */
  function Passed(records: set<string>, ty: string, arg: Stream): Stream {
    if ty in records then Stream([Spaced("", Punct('&')), Grouped(arg)], "")
    else if IsScalar(ty) then arg
    else Stream([Grouped(arg), Spaced("", Punct('.')), Spaced("", Ident("clone")), Grouped(Stream([], ""))], "")
  }

  function PassedText(records: set<string>, ty: string, arg: string): string {
    if ty in records then "&(" + arg + ")" else if IsScalar(ty) then arg else "(" + arg + ").clone()"
  }

  function PassedAll(records: set<string>, tys: seq<string>, args: seq<Stream>): seq<Stream>
    requires |tys| == |args|
  {
    seq(|args|, i requires 0 <= i < |args| => Passed(records, tys[i], args[i]))
  }

  function CallStream(gap: string, records: set<string>, f: Function, args: seq<Stream>): Stream
    requires |f.input| == |args|
  {
    Stream([Spaced(gap, Ident(f.name)), Grouped(JoinStreams(PassedAll(records, f.input, args))),
        Spaced("", Punct('?'))], "")
  }

  function Rewritten(functions: seq<Function>, records: set<string>, s: Stream): (r: Option<Stream>)
    decreases Weight(s.tokens), 3
  {
    RewrittenFrom(functions, records, s, 0)
  }

  function RewrittenFrom(functions: seq<Function>, records: set<string>, s: Stream, i: nat): (r: Option<Stream>)
    requires i <= |s.tokens|
    decreases Weight(s.tokens), 2, |s.tokens| - i
  {
    if i == |s.tokens| then Some(Stream([], s.tail))
    else if Called(functions, s.tokens, i).Some? then
      Follow(RewrittenCall(functions, records, s.tokens, i), RewrittenFrom(functions, records, s, i + 2))
    else
      Follow(RewrittenToken(functions, records, s.tokens, i), RewrittenFrom(functions, records, s, i + 1))
  }

  function Follow(first: Option<Stream>, rest: Option<Stream>): Option<Stream> {
    match (first, rest)
    case (Some(first), Some(rest)) => Some(Append(first, rest))
    case _ => None
  }

  function RewrittenCall(functions: seq<Function>, records: set<string>, tokens: seq<Spaced>,
      i: nat): (r: Option<Stream>)
    requires i < |tokens| && Called(functions, tokens, i).Some?
    decreases Weight(tokens), 1
  {
    var f := Called(functions, tokens, i).value;
    var args := Arguments(tokens[i + 1].token.inner);
    WeightAt(tokens, i + 1);
    if |args| != |f.input| then None
    else match RewrittenAll(functions, records, args, Weight(tokens))
      case None => None
      case Some(args) => Some(CallStream(tokens[i].gap, records, f, args))
  }

  function RewrittenToken(functions: seq<Function>, records: set<string>, tokens: seq<Spaced>,
      i: nat): (r: Option<Stream>)
    requires i < |tokens|
    decreases Weight(tokens), 1
  {
    match tokens[i].token
    case Group(d, inner) =>
      WeightAt(tokens, i);
      (match Rewritten(functions, records, inner)
       case None => None
       case Some(inner) => Some(One(Spaced(tokens[i].gap, Group(d, inner)))))
    case _ => Some(One(tokens[i]))
  }

  function RewrittenAll(functions: seq<Function>, records: set<string>, args: seq<Stream>,
      size: nat): (r: Option<seq<Stream>>)
    requires forall arg <- args :: Weight(arg.tokens) < size
    ensures r.Some? ==> |r.value| == |args|
    decreases size, 0, |args|
  {
    if args == [] then Some([])
    else match (Rewritten(functions, records, args[0]), RewrittenAll(functions, records, args[1..], size))
      case (Some(first), Some(rest)) => Some([first] + rest)
      case _ => None
  }

  // Which calls are wrong ---------------------------------------------------------------------

  predicate Wrong(functions: seq<Function>, tokens: seq<Spaced>, i: nat)
    requires i < |tokens|
  {
    var f := Called(functions, tokens, i);
    f.Some? && |Arguments(tokens[i + 1].token.inner)| != |f.value.input|
  }

  /** Some call at the tokens' own level, or at any level below, has a wrong number of arguments. */
  predicate Broken(functions: seq<Function>, tokens: seq<Spaced>) {
    BrokenBetween(functions, tokens, 0, |tokens|)
  }

  predicate BrokenBetween(functions: seq<Function>, tokens: seq<Spaced>, from: nat, to: nat)
    requires from <= to <= |tokens|
    decreases tokens, to - from
  {
    from < to && (Wrong(functions, tokens, from) || BrokenInside(functions, tokens[from].token)
                  || BrokenBetween(functions, tokens, from + 1, to))
  }

  predicate BrokenInside(functions: seq<Function>, t: Token)
    decreases t
  {
    t.Group? && BrokenBetween(functions, t.inner.tokens, 0, |t.inner.tokens|)
  }

  lemma {:induction false} GapsDoNotMatter(functions: seq<Function>, xs: seq<Spaced>, ys: seq<Spaced>, from: nat)
    requires |xs| == |ys| && from <= |xs| && forall i | 0 <= i < |xs| :: xs[i].token == ys[i].token
    ensures BrokenBetween(functions, xs, from, |xs|) == BrokenBetween(functions, ys, from, |ys|)
    decreases |xs| - from
  {
    if from < |xs| {
      assert Called(functions, xs, from) == Called(functions, ys, from);
      GapsDoNotMatter(functions, xs, ys, from + 1);
    }
  }

  /** Between two commas, calls are the same calls when the tokens between are taken alone. */
  lemma WrongWithin(functions: seq<Function>, tokens: seq<Spaced>, from: nat, to: nat, j: nat)
    requires from + j < to <= |tokens|
    requires from > 0 ==> IsPunct(tokens, from - 1, ',')
    requires to < |tokens| ==> IsPunct(tokens, to, ',')
    ensures Wrong(functions, tokens[from..to], j) == Wrong(functions, tokens, from + j)
  {
    var part, i := tokens[from..to], from + j;
    assert part[j] == tokens[i];
    assert i + 1 < to ==> part[j + 1] == tokens[i + 1];
    assert AfterPath(part, j) == AfterPath(tokens, i);
    assert Called(functions, part, j) == Called(functions, tokens, i);
  }

  lemma {:induction false} BrokenWithin(functions: seq<Function>, tokens: seq<Spaced>, from: nat, to: nat, j: nat)
    requires from + j <= to <= |tokens|
    requires from > 0 ==> IsPunct(tokens, from - 1, ',')
    requires to < |tokens| ==> IsPunct(tokens, to, ',')
    ensures BrokenBetween(functions, tokens[from..to], j, |tokens[from..to]|)
            == BrokenBetween(functions, tokens, from + j, to)
    decreases |tokens| - j
  {
    if from + j < to {
      WrongWithin(functions, tokens, from, to, j);
      BrokenWithin(functions, tokens, from, to, j + 1);
    }
  }

  lemma {:induction false} BrokenSplit(functions: seq<Function>, tokens: seq<Spaced>, from: nat, mid: nat, to: nat)
    requires from <= mid <= to <= |tokens|
    ensures BrokenBetween(functions, tokens, from, to)
            <==> BrokenBetween(functions, tokens, from, mid) || BrokenBetween(functions, tokens, mid, to)
    decreases mid - from
  {
    if from < mid {
      BrokenSplit(functions, tokens, from + 1, mid, to);
    }
  }

  predicate SomeBroken(functions: seq<Function>, streams: seq<Stream>) {
    exists x <- streams :: Broken(functions, x.tokens)
  }

  lemma {:induction false} SegmentsBroken(functions: seq<Function>, s: Stream, from: nat)
    requires from <= |s.tokens| && (from > 0 ==> IsPunct(s.tokens, from - 1, ','))
    ensures SomeBroken(functions, Segments(s, from)) <==> BrokenBetween(functions, s.tokens, from, |s.tokens|)
    decreases |s.tokens| - from
  {
    var c := CommaFrom(s.tokens, from);
    BrokenWithin(functions, s.tokens, from, c, 0);
    if c == |s.tokens| {
      OneBroken(functions, Stream(s.tokens[from..c], s.tail));
    } else {
      var first, rest := Stream(s.tokens[from..c], s.tokens[c].gap), Segments(s, c + 1);
      SegmentsBroken(functions, s, c + 1);
      assert Segments(s, from) == [first] + rest;
      FirstBroken(functions, first, rest);
      BrokenAround(functions, s.tokens, from, c);
    }
  }

  lemma BrokenAround(functions: seq<Function>, tokens: seq<Spaced>, from: nat, c: nat)
    requires from <= c < |tokens| && IsPunct(tokens, c, ',')
    ensures BrokenBetween(functions, tokens, from, |tokens|)
            <==> BrokenBetween(functions, tokens, from, c) || BrokenBetween(functions, tokens, c + 1, |tokens|)
  {
    BrokenSplit(functions, tokens, from, c, |tokens|);
  }

  lemma OneBroken(functions: seq<Function>, s: Stream)
    ensures SomeBroken(functions, [s]) <==> Broken(functions, s.tokens)
  {
    assert [s][0] == s;
  }

  lemma FirstBroken(functions: seq<Function>, first: Stream, rest: seq<Stream>)
    ensures SomeBroken(functions, [first] + rest) <==> Broken(functions, first.tokens) || SomeBroken(functions, rest)
  {
    assert ([first] + rest)[0] == first;
    assert forall x <- rest :: x in [first] + rest;
  }

  lemma TokenIsTight(t: Token)
    requires Lexed(t)
    ensures Tight(TokenText(t))
  {
    match t {
      case Group(d, inner) =>
        var text := TokenText(t);
        assert text[0] == Opening(d)[0] && text[|text| - 1] == Closing(d)[0];
      case _ =>
    }
  }

  lemma {:induction false} TokensEndTight(tokens: seq<Spaced>)
    requires AllLexed(tokens) && tokens != []
    ensures var text := TokensText(tokens); text != "" && !IsSpace(text[|text| - 1])
  {
    TokenIsTight(tokens[0].token);
    if |tokens| > 1 {
      TokensEndTight(tokens[1..]);
    }
  }

  /** Trimming the text of a stream trims its ends and no token. */
  lemma TrimStreamText(s: Stream)
    requires AllLexed(s.tokens)
    ensures StreamText(TrimStream(s)) == Trim(StreamText(s))
  {
    if s.tokens != [] {
      var x := s.tokens[0];
      var core := TokenText(x.token) + TokensText(s.tokens[1..]);
      CoreIsTight(s.tokens);
      StreamAround(s);
      var r := TrimStream(s);
      assert r.tokens[0] == x.(gap := TrimStart(x.gap)) && r.tokens[1..] == s.tokens[1..] && r.tail == TrimEnd(s.tail);
      StreamAround(r);
      TrimAround(x.gap, core, s.tail);
    } else {
      assert StreamText(s) == s.tail;
    }
  }

  lemma StreamAround(s: Stream)
    requires s.tokens != []
    ensures StreamText(s) == s.tokens[0].gap + (TokenText(s.tokens[0].token) + TokensText(s.tokens[1..])) + s.tail
  {
    var x, rest := s.tokens[0], s.tokens[1..];
    assert TokensText(s.tokens) == SpacedText(x) + TokensText(rest);
    ConcatTwice(x.gap, TokenText(x.token), TokensText(rest));
  }

  lemma CoreIsTight(tokens: seq<Spaced>)
    requires AllLexed(tokens) && tokens != []
    ensures Tight(TokenText(tokens[0].token) + TokensText(tokens[1..]))
  {
    TokenIsTight(tokens[0].token);
    if |tokens| > 1 {
      TokensEndTight(tokens[1..]);
    } else {
      assert tokens[1..] == [];
    }
  }

  lemma BlankHasNoTokens(s: Stream)
    requires AllLexed(s.tokens) && Trim(StreamText(s)) == ""
    ensures s.tokens == []
  {
    TrimStreamText(s);
    var r := TrimStream(s);
    if s.tokens != [] {
      TokenIsTight(r.tokens[0].token);
      StreamAround(r);
    }
  }

  lemma {:induction false} SegmentsLexed(s: Stream, from: nat)
    requires AllLexed(s.tokens) && from <= |s.tokens|
    ensures forall x <- Segments(s, from) :: AllLexed(x.tokens)
    decreases |s.tokens| - from
  {
    if CommaFrom(s.tokens, from) < |s.tokens| {
      SegmentsLexed(s, CommaFrom(s.tokens, from) + 1);
    }
  }

  lemma ArgumentsLexed(inner: Stream)
    requires AllLexed(inner.tokens)
    ensures forall x <- Arguments(inner) :: AllLexed(x.tokens)
  {
    SegmentsLexed(inner, 0);
    var given := Given(Segments(inner, 0));
    forall x <- given ensures AllLexed(TrimStream(x).tokens) {
      assert x in Segments(inner, 0);
    }
  }

  lemma GivenBroken(functions: seq<Function>, segments: seq<Stream>)
    requires segments != [] && forall x <- segments :: AllLexed(x.tokens)
    ensures SomeBroken(functions, Given(segments)) <==> SomeBroken(functions, segments)
  {
    var last := |segments| - 1;
    if Trim(StreamText(segments[last])) == "" {
      BlankHasNoTokens(segments[last]);
      assert segments == segments[..last] + [segments[last]];
      LastBroken(functions, segments[..last], segments[last]);
    }
  }

  lemma LastBroken(functions: seq<Function>, streams: seq<Stream>, last: Stream)
    ensures SomeBroken(functions, streams + [last]) <==>
            SomeBroken(functions, streams) || Broken(functions, last.tokens)
  {
    assert (streams + [last])[|streams|] == last;
    assert forall x <- streams :: x in streams + [last];
  }

  lemma TrimmedBroken(functions: seq<Function>, streams: seq<Stream>)
    ensures SomeBroken(functions, TrimStreams(streams)) <==> SomeBroken(functions, streams)
  {
    var trimmed := TrimStreams(streams);
    forall i | 0 <= i < |streams| ensures Broken(functions, trimmed[i].tokens) == Broken(functions, streams[i].tokens) {
      GapsDoNotMatter(functions, trimmed[i].tokens, streams[i].tokens, 0);
    }
    forall x <- streams | Broken(functions, x.tokens) ensures SomeBroken(functions, trimmed) {
      var i :| 0 <= i < |streams| && streams[i] == x;
      assert trimmed[i] in trimmed;
    }
    forall x <- trimmed | Broken(functions, x.tokens) ensures SomeBroken(functions, streams) {
      var i :| 0 <= i < |trimmed| && trimmed[i] == x;
      assert streams[i] in streams;
    }
  }

  lemma ArgumentsBroken(functions: seq<Function>, inner: Stream)
    requires AllLexed(inner.tokens)
    ensures SomeBroken(functions, Arguments(inner)) <==> Broken(functions, inner.tokens)
  {
    SegmentsLexed(inner, 0);
    SegmentsBroken(functions, inner, 0);
    GivenBroken(functions, Segments(inner, 0));
    TrimmedBroken(functions, Given(Segments(inner, 0)));
  }

  /** The rewriting fails exactly when some call, at any nesting, has a wrong number of arguments. */
  lemma {:induction false} FailsExactlyOnWrongCall(functions: seq<Function>, records: set<string>, s: Stream)
    requires AllLexed(s.tokens)
    ensures Rewritten(functions, records, s).None? <==> Broken(functions, s.tokens)
    decreases Weight(s.tokens), 3
  {
    FromFails(functions, records, s, 0);
  }

  lemma {:induction false} FromFails(functions: seq<Function>, records: set<string>, s: Stream, i: nat)
    requires i <= |s.tokens| && AllLexed(s.tokens)
    ensures RewrittenFrom(functions, records, s, i).None? <==> BrokenBetween(functions, s.tokens, i, |s.tokens|)
    decreases Weight(s.tokens), 2, |s.tokens| - i
  {
    if i < |s.tokens| {
      if Called(functions, s.tokens, i).Some? {
        FromFails(functions, records, s, i + 2);
        CallFails(functions, records, s.tokens, i);
        CallIsBroken(functions, s.tokens, i);
      } else {
        FromFails(functions, records, s, i + 1);
        TokenFails(functions, records, s.tokens, i);
      }
    }
  }

  lemma CallIsBroken(functions: seq<Function>, tokens: seq<Spaced>, i: nat)
    requires i < |tokens| && Called(functions, tokens, i).Some?
    ensures BrokenBetween(functions, tokens, i, |tokens|)
            <==> Wrong(functions, tokens, i) || BrokenInside(functions, tokens[i + 1].token)
                 || BrokenBetween(functions, tokens, i + 2, |tokens|)
  {
    assert !BrokenInside(functions, tokens[i].token) && !Wrong(functions, tokens, i + 1);
  }

  lemma {:induction false} TokenFails(functions: seq<Function>, records: set<string>, tokens: seq<Spaced>, i: nat)
    requires i < |tokens| && AllLexed(tokens)
    ensures RewrittenToken(functions, records, tokens, i).None? <==> BrokenInside(functions, tokens[i].token)
    decreases Weight(tokens), 1
  {
    if tokens[i].token.Group? {
      WeightAt(tokens, i);
      assert Lexed(tokens[i].token);
      FailsExactlyOnWrongCall(functions, records, tokens[i].token.inner);
    }
  }

  lemma {:induction false} CallFails(functions: seq<Function>, records: set<string>, tokens: seq<Spaced>, i: nat)
    requires i < |tokens| && AllLexed(tokens) && Called(functions, tokens, i).Some?
    ensures RewrittenCall(functions, records, tokens, i).None?
            <==> Wrong(functions, tokens, i) || BrokenInside(functions, tokens[i + 1].token)
    decreases Weight(tokens), 1
  {
    var inner := tokens[i + 1].token.inner;
    WeightAt(tokens, i + 1);
    assert Lexed(tokens[i + 1].token);
    ArgumentsBroken(functions, inner);
    ArgumentsLexed(inner);
    AllFail(functions, records, Arguments(inner), Weight(tokens));
  }

  lemma {:induction false} AllFail(functions: seq<Function>, records: set<string>, args: seq<Stream>, size: nat)
    requires forall arg <- args :: Weight(arg.tokens) < size && AllLexed(arg.tokens)
    ensures RewrittenAll(functions, records, args, size).None? <==> SomeBroken(functions, args)
    decreases size, 0, |args|
  {
    if args != [] {
      FailsExactlyOnWrongCall(functions, records, args[0]);
      AllFail(functions, records, args[1..], size);
      FirstBroken(functions, args[0], args[1..]);
      assert args == [args[0]] + args[1..];
    }
  }
}
