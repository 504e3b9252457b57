/** The text rewriter for calls: it collects edits from the token tree, sorts them and splices them in. */
module CallEdits {
  import opened Text
  import opened ArgSplitter
  import opened TokenTrees
  import opened TextEdits
  import opened CallRewriting

  function PassedTexts(records: set<string>, tys: seq<string>, args: seq<string>): seq<string>
    requires |tys| == |args|
  {
    seq(|args|, i requires 0 <= i < |args| => PassedText(records, tys[i], args[i]))
  }

  function CallText(records: set<string>, f: Function, args: seq<string>): string
    requires |f.input| == |args|
  {
    f.name + "(" + Join(PassedTexts(records, f.input, args)) + ")?"
  }

  function Printed(s: Option<Stream>): Option<string> {
    match s
    case None => None
    case Some(s) => Some(StreamText(s))
  }

  function PrintedAll(streams: Option<seq<Stream>>): Option<seq<string>> {
    match streams
    case None => None
    case Some(streams) => Some(Texts(streams))
  }

  /** The tokens' text cut into what stays and the calls that are replaced. */
  function Pieces(functions: seq<Function>, records: set<string>, tokens: seq<Spaced>, i: nat): Option<seq<Piece>>
    requires i <= |tokens|
    decreases tokens, 1, |tokens| - i
  {
    if i == |tokens| then Some([])
    else if Called(functions, tokens, i).Some? then
      Then(CallPieces(functions, records, tokens, i), Pieces(functions, records, tokens, i + 2))
    else
      Then(TokenPieces(functions, records, tokens, i), Pieces(functions, records, tokens, i + 1))
  }

  function Then(first: Option<seq<Piece>>, rest: Option<seq<Piece>>): Option<seq<Piece>> {
    match (first, rest)
    case (Some(first), Some(rest)) => Some(first + rest)
    case _ => None
  }

  /** The rewritten texts of a call's arguments, if there are as many as the function takes. */
  function ArgumentTexts(functions: seq<Function>, records: set<string>, tokens: seq<Spaced>,
      i: nat): (r: Option<seq<string>>)
    requires i < |tokens| && Called(functions, tokens, i).Some?
    ensures r.Some? ==> |r.value| == |Called(functions, tokens, i).value.input|
  {
    var args := Arguments(tokens[i + 1].token.inner);
    WeightAt(tokens, i + 1);
    if |args| != |Called(functions, tokens, i).value.input| then None
    else PrintedAll(RewrittenAll(functions, records, args, Weight(tokens)))
  }

  function CallPieces(functions: seq<Function>, records: set<string>, tokens: seq<Spaced>, i: nat): Option<seq<Piece>>
    requires i < |tokens| && Called(functions, tokens, i).Some?
  {
    match ArgumentTexts(functions, records, tokens, i)
    case None => None
    case Some(texts) =>
      Some(Change(tokens[i].gap, CallSource(tokens, i), CallText(records, Called(functions, tokens, i).value, texts)))
  }

  function CallSource(tokens: seq<Spaced>, i: nat): string
    requires i + 1 < |tokens|
  {
    TokenText(tokens[i].token) + SpacedText(tokens[i + 1])
  }

  function TokenPieces(functions: seq<Function>, records: set<string>, tokens: seq<Spaced>, i: nat): Option<seq<Piece>>
    requires i < |tokens|
    decreases tokens, 0
  {
    match tokens[i].token
    case Group(d, inner) =>
      (match Pieces(functions, records, inner.tokens, 0)
       case None => None
       case Some(inside) => Some([Kept(tokens[i].gap + Opening(d))] + inside + [Kept(inner.tail + Closing(d))]))
    case _ => Some([Kept(SpacedText(tokens[i]))])
  }

  // The pieces make up the old text and the rewritten tree's text ---------------------------------

  lemma PassedPrints(records: set<string>, ty: string, arg: Stream)
    ensures StreamText(Passed(records, ty, arg)) == PassedText(records, ty, StreamText(arg))
  {
    var text := StreamText(arg);
    GroupedPrints(arg);
    if ty in records {
      var tokens := [Spaced("", Punct('&')), Grouped(arg)];
      assert tokens[1..] == [Grouped(arg)];
      TokensTextOne(Grouped(arg));
      assert SpacedText(tokens[0]) == "&";
    } else if !IsScalar(ty) {
      var clone := [Spaced("", Punct('.')), Spaced("", Ident("clone")), Grouped(Stream([], ""))];
      CloneText(clone);
      assert Passed(records, ty, arg).tokens == [Grouped(arg)] + clone;
      TokensTextConcat([Grouped(arg)], clone);
      TokensTextOne(Grouped(arg));
    }
  }

  lemma CloneText(clone: seq<Spaced>)
    requires clone == [Spaced("", Punct('.')), Spaced("", Ident("clone")), Grouped(Stream([], ""))]
    ensures TokensText(clone) == ".clone()"
  {
    ThreeTokens(clone[0], clone[1], clone[2]);
    GroupedPrints(Stream([], ""));
  }

  lemma GroupedPrints(inner: Stream)
    ensures SpacedText(Grouped(inner)) == "(" + StreamText(inner) + ")"
  {
    assert "" + TokenText(Group(Parenthesis, inner)) == TokenText(Group(Parenthesis, inner));
  }

  lemma CallPrints(gap: string, records: set<string>, f: Function, args: seq<Stream>)
    requires |f.input| == |args|
    ensures StreamText(CallStream(gap, records, f, args)) == gap + CallText(records, f, Texts(args))
  {
    var passed := PassedAll(records, f.input, args);
    JoinStreamsText(passed);
    forall i | 0 <= i < |args| ensures Texts(passed)[i] == PassedTexts(records, f.input, Texts(args))[i] {
      PassedPrints(records, f.input[i], args[i]);
    }
    assert Texts(passed) == PassedTexts(records, f.input, Texts(args));
    ThreeTokens(Spaced(gap, Ident(f.name)), Grouped(JoinStreams(passed)), Spaced("", Punct('?')));
    GroupedPrints(JoinStreams(passed));
    CallConcat(gap, f.name, Join(Texts(passed)));
  }

  lemma CallConcat(gap: string, name: string, args: string)
    ensures (gap + name) + ("(" + args + ")") + "?" == gap + (name + "(" + args + ")?")
  {
  }

  lemma ThreeTokens(x: Spaced, y: Spaced, z: Spaced)
    ensures TokensText([x, y, z]) == SpacedText(x) + SpacedText(y) + SpacedText(z)
  {
    assert [x, y, z][1..] == [y, z] && [y, z][1..] == [z];
    TokensTextOne(z);
    ConcatTwice(SpacedText(x), SpacedText(y), SpacedText(z));
  }

  /** The edits exist when the rewritten tree does, and turn the old text into its text. */
  lemma {:induction false} PiecesAreRewriting(functions: seq<Function>, records: set<string>, s: Stream, i: nat)
    requires i <= |s.tokens|
    ensures Pieces(functions, records, s.tokens, i).Some? == RewrittenFrom(functions, records, s, i).Some?
    ensures Pieces(functions, records, s.tokens, i).Some? ==>
              var pieces := Pieces(functions, records, s.tokens, i).value;
              && Before(pieces) == TokensText(s.tokens[i..])
              && StreamText(RewrittenFrom(functions, records, s, i).value) == After(pieces) + s.tail
    decreases s, 1, |s.tokens| - i
  {
    if i < |s.tokens| {
      if Called(functions, s.tokens, i).Some? {
        PiecesAreRewriting(functions, records, s, i + 2);
        CallPiecesPrint(functions, records, s.tokens, i);
        TwoDropped(s.tokens, i);
        Following(CallPieces(functions, records, s.tokens, i), Pieces(functions, records, s.tokens, i + 2),
                  RewrittenCall(functions, records, s.tokens, i), RewrittenFrom(functions, records, s, i + 2), s.tail);
      } else {
        PiecesAreRewriting(functions, records, s, i + 1);
        TokenPiecesPrint(functions, records, s.tokens, i);
        assert s.tokens[i..][1..] == s.tokens[i + 1..];
        Following(TokenPieces(functions, records, s.tokens, i), Pieces(functions, records, s.tokens, i + 1),
                  RewrittenToken(functions, records, s.tokens, i), RewrittenFrom(functions, records, s, i + 1), s.tail);
      }
    }
  }

  lemma Following(first: Option<seq<Piece>>, rest: Option<seq<Piece>>, one: Option<Stream>, more: Option<Stream>,
      tail: string)
    requires first.Some? == one.Some? && rest.Some? == more.Some?
    requires first.Some? ==> After(first.value) == StreamText(one.value)
    requires rest.Some? ==> StreamText(more.value) == After(rest.value) + tail
    ensures Then(first, rest).Some? == Follow(one, more).Some?
    ensures Then(first, rest).Some? ==>
              && Before(Then(first, rest).value) == Before(first.value) + Before(rest.value)
              && StreamText(Follow(one, more).value) == After(Then(first, rest).value) + tail
  {
    if first.Some? && rest.Some? {
      TextsConcat(first.value, rest.value);
      AppendText(one.value, more.value);
      ConcatTwice(After(first.value), After(rest.value), tail);
    }
  }

  lemma CallPiecesPrint(functions: seq<Function>, records: set<string>, tokens: seq<Spaced>, i: nat)
    requires i < |tokens| && Called(functions, tokens, i).Some?
    ensures CallPieces(functions, records, tokens, i).Some? == RewrittenCall(functions, records, tokens, i).Some?
    ensures CallPieces(functions, records, tokens, i).Some? ==>
              var pieces := CallPieces(functions, records, tokens, i).value;
              && Before(pieces) == SpacedText(tokens[i]) + SpacedText(tokens[i + 1])
              && After(pieces) == StreamText(RewrittenCall(functions, records, tokens, i).value)
  {
    var f := Called(functions, tokens, i).value;
    var args := Arguments(tokens[i + 1].token.inner);
    WeightAt(tokens, i + 1);
    var done := RewrittenAll(functions, records, args, Weight(tokens));
    if |args| == |f.input| && done.Some? {
      var gap := tokens[i].gap;
      CallPrints(gap, records, f, done.value);
      ChangeTexts(gap, CallSource(tokens, i), CallText(records, f, Texts(done.value)));
      ConcatTwice(gap, TokenText(tokens[i].token), SpacedText(tokens[i + 1]));
    }
  }

  lemma {:induction false} TokenPiecesPrint(functions: seq<Function>, records: set<string>, tokens: seq<Spaced>, i: nat)
    requires i < |tokens|
    ensures TokenPieces(functions, records, tokens, i).Some? == RewrittenToken(functions, records, tokens, i).Some?
    ensures TokenPieces(functions, records, tokens, i).Some? ==>
              var pieces := TokenPieces(functions, records, tokens, i).value;
              && Before(pieces) == SpacedText(tokens[i])
              && After(pieces) == StreamText(RewrittenToken(functions, records, tokens, i).value)
    decreases tokens, 0
  {
    var x := tokens[i];
    match x.token {
      case Group(d, inner) =>
        PiecesAreRewriting(functions, records, inner, 0);
        assert inner.tokens[0..] == inner.tokens;
        var inside := Pieces(functions, records, inner.tokens, 0);
        if inside.Some? {
          GroupPieces(x.gap, d, inner, Rewritten(functions, records, inner).value, inside.value);
        }
      case _ =>
        OnePiece(Kept(SpacedText(x)), 0);
        TokensTextOne(x);
    }
  }

  // Reading arguments off the text ----------------------------------------------------------------

  /** How far the tokens before a token reach. */
  function Offset(tokens: seq<Spaced>, i: nat): nat
    requires i <= |tokens|
  {
    |TokensText(tokens[..i])|
  }

  lemma PrefixGrows(tokens: seq<Spaced>, i: nat, j: nat)
    requires i <= j <= |tokens|
    ensures TokensText(tokens[..j]) == TokensText(tokens[..i]) + TokensText(tokens[i..j])
  {
    assert tokens[..j] == tokens[..i] + tokens[i..j];
    TokensTextConcat(tokens[..i], tokens[i..j]);
  }

  lemma OffsetStep(tokens: seq<Spaced>, i: nat)
    requires i < |tokens|
    ensures Offset(tokens, i + 1) == Offset(tokens, i) + |SpacedText(tokens[i])|
  {
    assert tokens[..i + 1] == tokens[..i] + [tokens[i]];
    TokensTextConcat(tokens[..i], [tokens[i]]);
    TokensTextOne(tokens[i]);
  }

  /** A part of the code that prints a stream. */
  predicate Prints(code: string, at: nat, text: string) {
    at + |text| <= |code| && code[at..at + |text|] == text
  }

  lemma PrintsPart(code: string, at: nat, before: string, text: string, after: string)
    requires Prints(code, at, before + text + after)
    ensures Prints(code, at + |before|, text)
  {
    var whole := before + text + after;
    assert whole[|before|..|before| + |text|] == text;
    SliceOfSlice(code, at, at + |whole|, |before|, |before| + |text|);
    assert at + (|before| + |text|) == at + |before| + |text|;
  }

  lemma SliceOfSlice(s: string, a: nat, b: nat, c: nat, d: nat)
    requires a <= b <= |s| && c <= d <= b - a
    ensures s[a..b][c..d] == s[a + c..a + d]
  {
    var x, y := s[a..b][c..d], s[a + c..a + d];
    assert |x| == |y| && forall k | 0 <= k < |x| :: x[k] == y[k];
  }

  /** The stretch of a stream from one token to the blanks before another, or to its end. */
  function Stretch(s: Stream, from: nat, to: nat): Stream
    requires from <= to <= |s.tokens|
  {
    Stream(s.tokens[from..to], if to == |s.tokens| then s.tail else s.tokens[to].gap)
  }

  lemma StretchPrints(code: string, at: nat, s: Stream, from: nat, to: nat)
    requires Prints(code, at, StreamText(s)) && from <= to <= |s.tokens|
    ensures Prints(code, at + Offset(s.tokens, from), StreamText(Stretch(s, from, to)))
    ensures Offset(s.tokens, from) + |StreamText(Stretch(s, from, to))|
            == Offset(s.tokens, to) + |Stretch(s, from, to).tail|
  {
    var tokens := s.tokens;
    var r := Stretch(s, from, to);
    PrefixGrows(tokens, from, to);
    var after := if to == |tokens| then "" else TokenText(tokens[to].token) + TokensText(tokens[to + 1..]) + s.tail;
    StreamFrom(s, to);
    assert StreamText(s) == TokensText(tokens[..from]) + StreamText(r) + after;
    PrintsPart(code, at, TokensText(tokens[..from]), StreamText(r), after);
  }

  lemma StreamFrom(s: Stream, to: nat)
    requires to <= |s.tokens|
    ensures StreamText(s) == TokensText(s.tokens[..to]) +
              if to == |s.tokens| then s.tail
              else s.tokens[to].gap + (TokenText(s.tokens[to].token) + TokensText(s.tokens[to + 1..]) + s.tail)
  {
    assert s.tokens == s.tokens[..to] + s.tokens[to..];
    TokensTextConcat(s.tokens[..to], s.tokens[to..]);
    ConcatTwice(TokensText(s.tokens[..to]), TokensText(s.tokens[to..]), s.tail);
    if to < |s.tokens| {
      var rest := Stream(s.tokens[to..], s.tail);
      assert rest.tokens[1..] == s.tokens[to + 1..];
      StreamAround(rest);
      ConcatTwice(s.tokens[to].gap, TokenText(s.tokens[to].token) + TokensText(s.tokens[to + 1..]), s.tail);
    }
  }

  /** The ranges of the code whose texts, trimmed, are the arguments. */
  predicate RangesOf(code: string, ranges: seq<(nat, nat)>, args: seq<Stream>) {
    && |ranges| == |args|
    && forall k | 0 <= k < |args| :: ranges[k].0 <= ranges[k].1 <= |code|
        && code[ranges[k].0..ranges[k].1] == StreamText(args[k])
  }

  /** The segments before the open one are read, and no comma ends the open one before the token. */
  predicate Reading(code: string, open: nat, inner: Stream, index: nat, at: nat, from: nat, start: nat,
      ranges: seq<(nat, nat)>, args: seq<Stream>) {
    && from <= index <= |inner.tokens|
    && start == open + Offset(inner.tokens, from) && at == open + Offset(inner.tokens, index)
    && Segments(inner, 0) == args + Segments(inner, from)
    && CommaFrom(inner.tokens, from) == CommaFrom(inner.tokens, index)
    && RangesOf(code, ranges, args)
  }

  lemma ReadComma(code: string, open: nat, inner: Stream, index: nat, at: nat, from: nat, start: nat,
      ranges: seq<(nat, nat)>, args: seq<Stream>)
    requires Prints(code, open, StreamText(inner)) && Reading(code, open, inner, index, at, from, start, ranges, args)
    requires IsPunct(inner.tokens, index, ',')
    ensures var x := inner.tokens[index]; var next := at + |SpacedText(x)|;
            Reading(code, open, inner, index + 1, next, index + 1, next, ranges + [(start, at + |x.gap|)],
                args + [Stretch(inner, from, index)])
  {
    OffsetStep(inner.tokens, index);
    StretchPrints(code, open, inner, from, index);
    var first := Stretch(inner, from, index);
    assert Segments(inner, from) == [first] + Segments(inner, index + 1);
    assert args + ([first] + Segments(inner, index + 1)) == (args + [first]) + Segments(inner, index + 1);
    RangesGrow(code, ranges, args, start, at + |inner.tokens[index].gap|, first);
  }

  lemma ReadOther(code: string, open: nat, inner: Stream, index: nat, at: nat, from: nat, start: nat,
      ranges: seq<(nat, nat)>, args: seq<Stream>)
    requires Reading(code, open, inner, index, at, from, start, ranges, args)
    requires index < |inner.tokens| && !IsPunct(inner.tokens, index, ',')
    ensures Reading(code, open, inner, index + 1, at + |SpacedText(inner.tokens[index])|, from, start, ranges, args)
  {
    OffsetStep(inner.tokens, index);
  }

  lemma ReadLast(code: string, open: nat, inner: Stream, at: nat, from: nat, start: nat, ranges: seq<(nat, nat)>,
      args: seq<Stream>)
    requires Prints(code, open, StreamText(inner))
             && Reading(code, open, inner, |inner.tokens|, at, from, start, ranges, args)
    ensures var last := Stretch(inner, from, |inner.tokens|); var end := open + |StreamText(inner)|;
            && Segments(inner, 0) == args + [last]
            && start <= end <= |code| && code[start..end] == StreamText(last)
  {
    LastSegment(inner, from);
    LastPrints(code, open, inner, from);
  }

  lemma LastPrints(code: string, open: nat, inner: Stream, from: nat)
    requires Prints(code, open, StreamText(inner)) && from <= |inner.tokens|
    ensures var start, end := open + Offset(inner.tokens, from), open + |StreamText(inner)|;
            start <= end <= |code| && code[start..end] == StreamText(Stretch(inner, from, |inner.tokens|))
  {
    StretchPrints(code, open, inner, from, |inner.tokens|);
    assert inner.tokens[..|inner.tokens|] == inner.tokens;
  }

  lemma LastSegment(inner: Stream, from: nat)
    requires from <= |inner.tokens| && CommaFrom(inner.tokens, from) == |inner.tokens|
    ensures Segments(inner, from) == [Stretch(inner, from, |inner.tokens|)]
  {
  }

  lemma RangesGrow(code: string, ranges: seq<(nat, nat)>, args: seq<Stream>, from: nat, to: nat, arg: Stream)
    requires RangesOf(code, ranges, args) && from <= to <= |code| && code[from..to] == StreamText(arg)
    ensures RangesOf(code, ranges + [(from, to)], args + [arg])
  {
  }

  /** The ranges that end at a comma, and where the last one starts. */
  method ReadClosed(code: string, open: nat, inner: Stream)
    returns (ranges: seq<(nat, nat)>, args: seq<Stream>, from: nat, start: nat)
    requires Prints(code, open, StreamText(inner))
    ensures Reading(code, open, inner, |inner.tokens|, open + Offset(inner.tokens, |inner.tokens|), from, start,
            ranges, args)
  {
    ranges, args := [], [];
    start, from := open, 0;
    var at: nat := open;
    ReadStart(code, open, inner);
    for index := 0 to |inner.tokens|
      invariant Reading(code, open, inner, index, at, from, start, ranges, args)
    {
      var x := inner.tokens[index];
      var next := at + |SpacedText(x)|;
      if x.token == Punct(',') {
        ReadComma(code, open, inner, index, at, from, start, ranges, args);
        ranges, args := ranges + [(start, at + |x.gap|)], args + [Stretch(inner, from, index)];
        start, from := next, index + 1;
      } else {
        ReadOther(code, open, inner, index, at, from, start, ranges, args);
      }
      at := next;
    }
  }

  method ReadArguments(code: string, open: nat, inner: Stream) returns (ranges: seq<(nat, nat)>, args: seq<Stream>)
    requires Prints(code, open, StreamText(inner))
    ensures args == Given(Segments(inner, 0)) && RangesOf(code, ranges, args)
  {
    var from, start;
    ranges, args, from, start := ReadClosed(code, open, inner);
    var end := open + |StreamText(inner)|;
    var last := Stretch(inner, from, |inner.tokens|);
    ReadLast(code, open, inner, open + Offset(inner.tokens, |inner.tokens|), from, start, ranges, args);
    ReadGiven(code, ranges, args, start, end, last);
    if Trim(code[start..end]) != "" {
      ranges, args := ranges + [(start, end)], args + [last];
    }
  }

  lemma ReadGiven(code: string, ranges: seq<(nat, nat)>, args: seq<Stream>, start: nat, end: nat, last: Stream)
    requires RangesOf(code, ranges, args) && start <= end <= |code| && code[start..end] == StreamText(last)
    ensures Given(args + [last]) == if Trim(code[start..end]) == "" then args else args + [last]
    ensures RangesOf(code, ranges + [(start, end)], args + [last])
  {
    GivenLast(args, last);
    RangesGrow(code, ranges, args, start, end, last);
  }

  lemma ReadStart(code: string, open: nat, inner: Stream)
    ensures Reading(code, open, inner, 0, open, 0, open, [], [])
  {
    assert inner.tokens[..0] == [];
    assert [] + Segments(inner, 0) == Segments(inner, 0);
  }

  lemma GivenLast(args: seq<Stream>, last: Stream)
    ensures Given(args + [last]) == if Trim(StreamText(last)) == "" then args else args + [last]
  {
    assert (args + [last])[..|args|] == args;
  }

  // The loops -------------------------------------------------------------------------------------

  /** Rewrites the calls in code whose tokens have been read: the result is the rewritten tree's text. */
  method RewriteCalls(code: string, parsed: Stream, functions: seq<Function>,
      records: set<string>) returns (r: Option<string>)
    requires code == StreamText(parsed) && AllLexed(parsed.tokens)
    ensures r == Printed(Rewritten(functions, records, parsed))
    decreases Weight(parsed.tokens), 5
  {
    if |functions| == 0 {
      NothingToRewrite(records, parsed, 0);
      return Some(code);
    }
    var list := new EditList();
    PiecesAreRewriting(functions, records, parsed, 0);
    assert parsed.tokens[0..] == parsed.tokens;
    PrintsPart(code, 0, "", TokensText(parsed.tokens), parsed.tail);
    var ok := Collect(code, parsed.tokens, 0, functions, records, list);
    if !ok {
      return None;
    }
    ghost var pieces := Pieces(functions, records, parsed.tokens, 0).value;
    SplicesWhole(code, pieces, parsed.tail);
    EditsOfFit(pieces, 0);
    assert list.items == EditsOf(pieces, 0);
    SortedStays(list.items, 0, |Before(pieces)|);
    r := Splice(code, SortEdits(list.items));
  }

  lemma {:induction false} NothingToRewrite(records: set<string>, s: Stream, i: nat)
    requires i <= |s.tokens|
    ensures RewrittenFrom([], records, s, i) == Some(Stream(s.tokens[i..], s.tail))
    decreases s, |s.tokens| - i
  {
    if i < |s.tokens| {
      NothingToRewrite(records, s, i + 1);
      if s.tokens[i].token.Group? {
        NothingToRewrite(records, s.tokens[i].token.inner, 0);
        assert s.tokens[i].token.inner.tokens[0..] == s.tokens[i].token.inner.tokens;
      }
      assert RewrittenToken([], records, s.tokens, i) == Some(One(s.tokens[i]));
      AppendBack(s.tokens[i..], s.tail);
      assert s.tokens[i..][1..] == s.tokens[i + 1..];
    } else {
      assert s.tokens[i..] == [];
    }
  }

  lemma AppendBack(tokens: seq<Spaced>, tail: string)
    requires tokens != []
    ensures Append(One(tokens[0]), Stream(tokens[1..], tail)) == Stream(tokens, tail)
  {
    if |tokens| > 1 {
      var x := tokens[1];
      assert Spaced("" + x.gap, x.token) == x;
      assert tokens == [tokens[0]] + [x] + tokens[1..][1..];
    } else {
      assert tokens == [tokens[0]];
      assert "" + tail == tail;
    }
  }

  method RewriteArguments(code: string, ranges: seq<(nat, nat)>, slices: seq<Stream>, functions: seq<Function>,
      records: set<string>, ghost size: nat)
    returns (r: Option<seq<string>>)
    requires RangesOf(code, ranges, slices)
    requires forall x <- slices :: Weight(x.tokens) < size && AllLexed(x.tokens)
    requires forall x <- TrimStreams(slices) :: Weight(x.tokens) < size
    ensures r == PrintedAll(RewrittenAll(functions, records, TrimStreams(slices), size))
    decreases size, 0
  {
    ghost var args := TrimStreams(slices);
    ghost var done: seq<Stream> := [];
    var texts: seq<string> := [];
    assert args[0..] == args;
    AllAfterNone(RewrittenAll(functions, records, args, size));
    for k := 0 to |slices|
      invariant texts == Texts(done)
      invariant AllAfter(done, RewrittenAll(functions, records, args[k..], size))
               == RewrittenAll(functions, records, args, size)
    {
      SliceParses(code, ranges, slices, k);
      assert args[k..][0] == args[k] && args[k..][1..] == args[k + 1..];
      var text := RewriteCalls(Trim(code[ranges[k].0..ranges[k].1]), TrimStream(slices[k]), functions, records);
      if text.None? {
        return None;
      }
      ghost var arg := Rewritten(functions, records, args[k]).value;
      AllAfterStep(done, arg, RewrittenAll(functions, records, args[k + 1..], size));
      done, texts := done + [arg], texts + [text.value];
    }
    assert args[|slices|..] == [] && done + [] == done;
    r := Some(texts);
  }

  /** The trimmed text of a range is the text of its trimmed tokens. */
  lemma SliceParses(code: string, ranges: seq<(nat, nat)>, slices: seq<Stream>, k: nat)
    requires k < |slices| && RangesOf(code, ranges, slices) && AllLexed(slices[k].tokens)
    ensures ranges[k].0 <= ranges[k].1 <= |code|
            && Trim(code[ranges[k].0..ranges[k].1]) == StreamText(TrimStream(slices[k]))
    ensures AllLexed(TrimStream(slices[k]).tokens)
  {
    TrimStreamText(slices[k]);
  }

  function AllAfter(done: seq<Stream>, rest: Option<seq<Stream>>): Option<seq<Stream>> {
    match rest
    case None => None
    case Some(rest) => Some(done + rest)
  }

  lemma AllAfterNone(rest: Option<seq<Stream>>)
    ensures AllAfter([], rest) == rest
  {
    if rest.Some? {
      assert [] + rest.value == rest.value;
    }
  }

  lemma AllAfterStep(done: seq<Stream>, arg: Stream, rest: Option<seq<Stream>>)
    ensures rest.Some? ==> done + ([arg] + rest.value) == (done + [arg]) + rest.value
  {
    if rest.Some? {
      assert done + ([arg] + rest.value) == (done + [arg]) + rest.value;
    }
  }

  method ReadTexts(code: string, tokens: seq<Spaced>, index: nat, at: nat, functions: seq<Function>,
      records: set<string>)
    returns (texts: Option<seq<string>>)
    requires index < |tokens| && Called(functions, tokens, index).Some? && AllLexed(tokens)
    requires Prints(code, at, SpacedText(tokens[index]) + SpacedText(tokens[index + 1]))
    ensures texts == ArgumentTexts(functions, records, tokens, index)
    decreases Weight(tokens), 1
  {
    var name, group := tokens[index], tokens[index + 1];
    GroupPrints(code, at, name, group);
    var ranges, slices := ReadArguments(code, at + |SpacedText(name)| + |group.gap| + 1, group.token.inner);
    if |ranges| != |Called(functions, tokens, index).value.input| {
      return None;
    }
    SlicesAreSmall(tokens, index + 1, slices);
    texts := RewriteArguments(code, ranges, slices, functions, records, Weight(tokens));
  }

  /** The edit for one call, or nothing when the call or an argument of it is wrong. */
  method CollectCall(code: string, tokens: seq<Spaced>, index: nat, at: nat, functions: seq<Function>,
      records: set<string>)
    returns (r: Option<Edit>)
    requires index < |tokens| && Called(functions, tokens, index).Some? && AllLexed(tokens)
    requires Prints(code, at, SpacedText(tokens[index]) + SpacedText(tokens[index + 1]))
    ensures r == CallEdit(functions, records, tokens, index, at)
    decreases Weight(tokens), 2
  {
    var texts := ReadTexts(code, tokens, index, at, functions, records);
    if texts.None? {
      return None;
    }
    var start := at + |tokens[index].gap|;
    var end := start + |CallSource(tokens, index)|;
    r := Some(Edit(start, end, CallText(records, Called(functions, tokens, index).value, texts.value)));
  }

  lemma SlicesAreSmall(tokens: seq<Spaced>, i: nat, slices: seq<Stream>)
    requires i < |tokens| && tokens[i].token.Group? && AllLexed(tokens)
    requires slices == Given(Segments(tokens[i].token.inner, 0))
    ensures forall x <- slices :: Weight(x.tokens) < Weight(tokens) && AllLexed(x.tokens)
    ensures forall x <- TrimStreams(slices) :: Weight(x.tokens) < Weight(tokens)
  {
    var inner := tokens[i].token.inner;
    WeightAt(tokens, i);
    assert Lexed(tokens[i].token);
    SegmentsWeighLess(inner, 0);
    SegmentsLexed(inner, 0);
    assert forall x <- slices :: x in Segments(inner, 0);
  }

  /** A call's edit: from its name to the end of its arguments. */
  function CallEdit(functions: seq<Function>, records: set<string>, tokens: seq<Spaced>, i: nat, at: nat): Option<Edit>
    requires i < |tokens| && Called(functions, tokens, i).Some?
  {
    var start := at + |tokens[i].gap|;
    match ArgumentTexts(functions, records, tokens, i)
    case None => None
    case Some(texts) =>
      Some(Edit(start, start + |CallSource(tokens, i)|,
                CallText(records, Called(functions, tokens, i).value, texts)))
  }

  lemma CallPiecesGive(functions: seq<Function>, records: set<string>, tokens: seq<Spaced>, i: nat, at: nat)
    requires i < |tokens| && Called(functions, tokens, i).Some?
    requires CallEdit(functions, records, tokens, i, at).Some?
    ensures EditsOf(CallPieces(functions, records, tokens, i).value, at)
            == [CallEdit(functions, records, tokens, i, at).value]
  {
    var texts := ArgumentTexts(functions, records, tokens, i).value;
    ChangeEdits(tokens[i].gap, CallSource(tokens, i), CallText(records, Called(functions, tokens, i).value, texts), at);
  }

  lemma GroupPrints(code: string, at: nat, name: Spaced, group: Spaced)
    requires group.token.Group? && Prints(code, at, SpacedText(name) + SpacedText(group))
    ensures Prints(code, at + |SpacedText(name)| + |group.gap| + 1, StreamText(group.token.inner))
  {
    var Group(d, inner) := group.token;
    var before := SpacedText(name) + group.gap + Opening(d);
    assert SpacedText(name) + SpacedText(group) == before + StreamText(inner) + Closing(d);
    PrintsPart(code, at, before, StreamText(inner), Closing(d));
  }

  /** The pieces up to a token are done, and the rest of the pieces follow them. */
  predicate Collecting(functions: seq<Function>, records: set<string>, tokens: seq<Spaced>, index: nat,
      done: seq<Piece>) {
    && index <= |tokens|
    && Before(done) == TokensText(tokens[..index])
    && Then(Some(done), Pieces(functions, records, tokens, index)) == Pieces(functions, records, tokens, 0)
  }

  lemma CollectingStep(functions: seq<Function>, records: set<string>, tokens: seq<Spaced>, index: nat, next: nat,
      done: seq<Piece>, pieces: seq<Piece>)
    requires Collecting(functions, records, tokens, index, done) && index < next <= |tokens|
    requires Pieces(functions, records, tokens, index) == Then(Some(pieces), Pieces(functions, records, tokens, next))
    requires Before(pieces) == TokensText(tokens[index..next])
    ensures Collecting(functions, records, tokens, next, done + pieces)
  {
    TextsConcat(done, pieces);
    PrefixGrows(tokens, index, next);
    ThenTwice(done, pieces, Pieces(functions, records, tokens, next));
  }

  lemma ThenTwice(first: seq<Piece>, second: seq<Piece>, rest: Option<seq<Piece>>)
    ensures Then(Some(first), Then(Some(second), rest)) == Then(Some(first + second), rest)
  {
    if rest.Some? {
      assert first + (second + rest.value) == (first + second) + rest.value;
    }
  }

  /** The pieces of the call or the token that comes next, and the token after it. */
  function NextPieces(functions: seq<Function>, records: set<string>, tokens: seq<Spaced>, i: nat): Option<seq<Piece>>
    requires i < |tokens|
  {
    if Called(functions, tokens, i).Some? then CallPieces(functions, records, tokens, i)
    else TokenPieces(functions, records, tokens, i)
  }

  function NextIndex(functions: seq<Function>, tokens: seq<Spaced>, i: nat): (next: nat)
    requires i < |tokens|
    ensures i < next <= |tokens|
  {
    if Called(functions, tokens, i).Some? then i + 2 else i + 1
  }

  lemma NextPiecesPrint(functions: seq<Function>, records: set<string>, tokens: seq<Spaced>, i: nat)
    requires i < |tokens| && NextPieces(functions, records, tokens, i).Some?
    ensures Before(NextPieces(functions, records, tokens, i).value)
            == TokensText(tokens[i..NextIndex(functions, tokens, i)])
  {
    if Called(functions, tokens, i).Some? {
      CallPiecesPrint(functions, records, tokens, i);
      TwoTokens(tokens, i);
    } else {
      TokenPiecesPrint(functions, records, tokens, i);
      OneToken(tokens, i);
    }
  }

  method Collect(code: string, tokens: seq<Spaced>, base: nat, functions: seq<Function>, records: set<string>,
      list: EditList)
    returns (ok: bool)
    requires Prints(code, base, TokensText(tokens)) && AllLexed(tokens)
    modifies list
    ensures ok == Pieces(functions, records, tokens, 0).Some?
    ensures ok ==> list.items == old(list.items) + EditsOf(Pieces(functions, records, tokens, 0).value, base)
    decreases Weight(tokens), 4
  {
    var index := 0;
    var at := base;
    ghost var done: seq<Piece> := [];
    ghost var before := list.items;
    CollectingStart(functions, records, tokens);
    while index < |tokens|
      invariant Collecting(functions, records, tokens, index, done)
      invariant at == base + |Before(done)|
      invariant list.items == before + EditsOf(done, base)
      decreases |tokens| - index
    {
      var next := NextIndex(functions, tokens, index);
      ok := CollectNext(code, tokens, base, index, at, functions, records, list);
      if !ok {
        return;
      }
      ghost var pieces := NextPieces(functions, records, tokens, index).value;
      NextPiecesPrint(functions, records, tokens, index);
      CollectingStep(functions, records, tokens, index, next, done, pieces);
      EditsGrow(before, done, pieces, base);
      done := done + pieces;
      at := at + |TokensText(tokens[index..next])|;
      index := next;
    }
    ok := true;
    assert done + [] == done;
  }

  /** Collects the edits of a call, or of what lies inside a token. */
  method CollectNext(code: string, tokens: seq<Spaced>, base: nat, index: nat, at: nat, functions: seq<Function>,
      records: set<string>, list: EditList)
    returns (ok: bool)
    requires index < |tokens| && AllLexed(tokens)
    requires Prints(code, base, TokensText(tokens)) && at == base + |TokensText(tokens[..index])|
    modifies list
    ensures ok == NextPieces(functions, records, tokens, index).Some?
    ensures ok ==> list.items == old(list.items) + EditsOf(NextPieces(functions, records, tokens, index).value, at)
    decreases Weight(tokens), 3
  {
    if Called(functions, tokens, index).Some? {
      TwoPrint(code, base, tokens, index);
      var edit := CollectCall(code, tokens, index, at, functions, records);
      if edit.Some? {
        CallPiecesGive(functions, records, tokens, index, at);
        list.Push(edit.value);
      }
      ok := edit.Some?;
    } else {
      TokenPrints(code, base, tokens, index);
      ok := CollectToken(code, tokens, index, at, functions, records, list);
    }
  }

  lemma CollectingStart(functions: seq<Function>, records: set<string>, tokens: seq<Spaced>)
    ensures Collecting(functions, records, tokens, 0, [])
  {
    assert tokens[..0] == [];
    var rest := Pieces(functions, records, tokens, 0);
    assert rest.Some? ==> [] + rest.value == rest.value;
  }

  lemma OneToken(tokens: seq<Spaced>, i: nat)
    requires i < |tokens|
    ensures TokensText(tokens[i..i + 1]) == SpacedText(tokens[i])
  {
    assert tokens[i..i + 1] == [tokens[i]];
    TokensTextOne(tokens[i]);
  }

  lemma TwoTokens(tokens: seq<Spaced>, i: nat)
    requires i + 1 < |tokens|
    ensures TokensText(tokens[i..i + 2]) == SpacedText(tokens[i]) + SpacedText(tokens[i + 1])
  {
    assert tokens[i..i + 2] == [tokens[i]] + [tokens[i + 1]];
    TokensTextConcat([tokens[i]], [tokens[i + 1]]);
    TokensTextOne(tokens[i]);
    TokensTextOne(tokens[i + 1]);
  }

  lemma TokenPrints(code: string, base: nat, tokens: seq<Spaced>, i: nat)
    requires i < |tokens| && Prints(code, base, TokensText(tokens))
    ensures Prints(code, base + |TokensText(tokens[..i])|, SpacedText(tokens[i]))
  {
    assert tokens == tokens[..i] + tokens[i..];
    TokensTextConcat(tokens[..i], tokens[i..]);
    ConcatTwice(TokensText(tokens[..i]), SpacedText(tokens[i]), TokensText(tokens[i..][1..]));
    PrintsPart(code, base, TokensText(tokens[..i]), SpacedText(tokens[i]), TokensText(tokens[i..][1..]));
  }

  lemma TwoPrint(code: string, base: nat, tokens: seq<Spaced>, i: nat)
    requires i + 1 < |tokens| && Prints(code, base, TokensText(tokens))
    ensures Prints(code, base + |TokensText(tokens[..i])|, SpacedText(tokens[i]) + SpacedText(tokens[i + 1]))
  {
    assert tokens == tokens[..i] + tokens[i..];
    TokensTextConcat(tokens[..i], tokens[i..]);
    TwoDropped(tokens, i);
    var two, rest := SpacedText(tokens[i]) + SpacedText(tokens[i + 1]), TokensText(tokens[i + 2..]);
    ConcatTwice(TokensText(tokens[..i]), two, rest);
    PrintsPart(code, base, TokensText(tokens[..i]), two, rest);
  }

  method CollectToken(code: string, tokens: seq<Spaced>, index: nat, at: nat, functions: seq<Function>,
      records: set<string>, list: EditList)
    returns (ok: bool)
    requires index < |tokens| && AllLexed(tokens) && Prints(code, at, SpacedText(tokens[index]))
    modifies list
    ensures ok == TokenPieces(functions, records, tokens, index).Some?
    ensures ok ==> list.items == old(list.items) + EditsOf(TokenPieces(functions, records, tokens, index).value, at)
    decreases Weight(tokens), 1
  {
    var x := tokens[index];
    ok := true;
    if x.token.Group? {
      var Group(d, inner) := x.token;
      WeightAt(tokens, index);
      assert Lexed(x.token);
      InnerPrints(code, at, x);
      ok := Collect(code, inner.tokens, at + |x.gap| + 1, functions, records, list);
      if ok {
        GroupEdits(functions, records, tokens, index, at);
      }
    } else {
      PlainEdits(functions, records, tokens, index, at);
      assert list.items + [] == list.items;
    }
  }

  lemma PlainEdits(functions: seq<Function>, records: set<string>, tokens: seq<Spaced>, i: nat, at: nat)
    requires i < |tokens| && !tokens[i].token.Group?
    ensures EditsOf(TokenPieces(functions, records, tokens, i).value, at) == []
  {
    OnePiece(Kept(SpacedText(tokens[i])), at);
  }

  lemma InnerPrints(code: string, at: nat, x: Spaced)
    requires x.token.Group? && Prints(code, at, SpacedText(x))
    ensures Prints(code, at + |x.gap| + 1, TokensText(x.token.inner.tokens))
  {
    var Group(d, inner) := x.token;
    var text := TokensText(inner.tokens);
    assert StreamText(inner) == text + inner.tail;
    assert TokenText(x.token) == Opening(d) + StreamText(inner) + Closing(d);
    GroupConcat(x.gap, Opening(d), text, inner.tail, Closing(d));
    PrintsPart(code, at, x.gap + Opening(d), text, inner.tail + Closing(d));
  }

  lemma GroupEdits(functions: seq<Function>, records: set<string>, tokens: seq<Spaced>, i: nat, at: nat)
    requires i < |tokens| && tokens[i].token.Group?
    requires Pieces(functions, records, tokens[i].token.inner.tokens, 0).Some?
    ensures EditsOf(TokenPieces(functions, records, tokens, i).value, at)
            == EditsOf(Pieces(functions, records, tokens[i].token.inner.tokens, 0).value, at + |tokens[i].gap| + 1)
  {
    var Group(d, inner) := tokens[i].token;
    EditsInside(tokens[i].gap + Opening(d), Pieces(functions, records, inner.tokens, 0).value, inner.tail + Closing(d),
        at);
  }
}
