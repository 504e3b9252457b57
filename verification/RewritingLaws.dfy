/** What the rewriters do to calls, members and request paths, said of the tokens themselves. */
module RewritingLaws {
  import opened Text
  import opened ArgSplitter
  import opened TokenTrees
  import CallRewriting
  import CallEdits
  import MemberRewriting
  import ContextMembers
  import ExprPrinter

  type Function = CallRewriting.Function

  // Names that stand alone ----------------------------------------------------------------------

  predicate Marks(tokens: seq<Spaced>, i: int, marks: string) {
    0 <= i && i + |marks| <= |tokens| && forall k | 0 <= k < |marks| :: tokens[i + k].token == Punct(marks[k])
  }

  /** A name belongs to a path exactly if a dot or two colons stand before it. */
  lemma AfterPathExactly(tokens: seq<Spaced>, i: nat)
    requires i < |tokens|
    ensures AfterPath(tokens, i) <==> Marks(tokens, i - 1, ".") || Marks(tokens, i - 2, "::")
  {
    if i > 0 {
      assert Marks(tokens, i - 1, ".") <==> tokens[i - 1 + 0].token == Punct("."[0]);
    }
    if i > 1 {
      assert Marks(tokens, i - 2, "::") <==>
          tokens[i - 2 + 0].token == Punct("::"[0]) && tokens[i - 2 + 1].token == Punct("::"[1]);
    }
  }

  // Calls ---------------------------------------------------------------------------------------

  /** The name of a declared function, alone, with an argument list; of two declarations the first counts. */
  ghost predicate Calls(functions: seq<Function>, tokens: seq<Spaced>, i: nat, f: Function)
    requires i < |tokens|
  {
    && tokens[i].token == Ident(f.name) && !Marks(tokens, i - 1, ".") && !Marks(tokens, i - 2, "::")
    && i + 1 < |tokens| && tokens[i + 1].token.Group? && tokens[i + 1].token.delimiter.Parenthesis?
    && exists k | 0 <= k < |functions| ::
         functions[k] == f && forall j | 0 <= j < k :: functions[j].name != f.name
  }

  lemma {:induction false} FoundExactly(functions: seq<Function>, name: string, f: Function)
    ensures CallRewriting.FindFunction(functions, name) == Some(f)
            <==> f.name == name && exists k | 0 <= k < |functions| ::
                   functions[k] == f && forall j | 0 <= j < k :: functions[j].name != name
  {
    if functions != [] {
      FoundExactly(functions[1..], name, f);
      if functions[0].name != name {
        if CallRewriting.FindFunction(functions, name) == Some(f) {
          var k :| 0 <= k < |functions| - 1 && functions[1..][k] == f
                   && forall j | 0 <= j < k :: functions[1..][j].name != name;
          assert functions[k + 1] == f && forall j | 1 <= j < k + 1 :: functions[j] == functions[1..][j - 1];
        }
        if k :| 0 <= k < |functions| && functions[k] == f && f.name == name
                && forall j | 0 <= j < k :: functions[j].name != name {
          assert functions[1..][k - 1] == f && forall j | 0 <= j < k - 1 :: functions[1..][j] == functions[j + 1];
        }
      }
    }
  }

  lemma CalledExactly(functions: seq<Function>, tokens: seq<Spaced>, i: nat, f: Function)
    requires i < |tokens|
    ensures CallRewriting.Called(functions, tokens, i) == Some(f) <==> Calls(functions, tokens, i, f)
  {
    AfterPathExactly(tokens, i);
    if tokens[i].token.Ident? {
      FoundExactly(functions, tokens[i].token.name, f);
    }
  }

  const SCALARS: seq<string> := ["bool", "i32", "i64", "u32", "u64", "f32", "f64"]

  /** How an argument is passed: a record by reference, a scalar as it is, and any other value as a clone. */
  predicate IsPassed(records: set<string>, ty: string, arg: string, text: string) {
    if ty in records then text == "&(" + arg + ")"
    else if ty in SCALARS then text == arg
    else text == "(" + arg + ").clone()"
  }

  lemma PassedExactly(records: set<string>, ty: string, arg: Stream)
    ensures IsPassed(records, ty, StreamText(arg), StreamText(CallRewriting.Passed(records, ty, arg)))
  {
    CallEdits.PassedPrints(records, ty, arg);
  }

  /** A call becomes the same call of its rewritten arguments, passed as their parameters take them, and may fail. */
  ghost predicate BecomesCall(records: set<string>, gap: string, f: Function, args: seq<Stream>, text: string) {
    exists passed: seq<string> ::
      && |passed| == |args| == |f.input|
      && (forall k | 0 <= k < |args| :: IsPassed(records, f.input[k], StreamText(args[k]), passed[k]))
      && text == gap + f.name + "(" + Join(passed) + ")?"
  }

  lemma CallBecomes(gap: string, records: set<string>, f: Function, args: seq<Stream>)
    requires |f.input| == |args|
    ensures BecomesCall(records, gap, f, args, StreamText(CallRewriting.CallStream(gap, records, f, args)))
  {
    var passed := CallEdits.PassedTexts(records, f.input, Texts(args));
    CallEdits.CallPrints(gap, records, f, args);
    forall k | 0 <= k < |args| ensures IsPassed(records, f.input[k], StreamText(args[k]), passed[k]) {
      CallEdits.PassedPrints(records, f.input[k], args[k]);
      PassedExactly(records, f.input[k], args[k]);
    }
    assert gap + (f.name + "(" + Join(passed) + ")?") == gap + f.name + "(" + Join(passed) + ")?";
  }

  // Arguments -----------------------------------------------------------------------------------

  /** The arguments' texts with commas between are the text between the parentheses. */
  function JoinCommas(streams: seq<Stream>): string {
    if streams == [] then ""
    else if |streams| == 1 then StreamText(streams[0])
    else StreamText(streams[0]) + "," + JoinCommas(streams[1..])
  }

  predicate HasNoComma(s: Stream) {
    forall i | 0 <= i < |s.tokens| :: s.tokens[i].token != Punct(',')
  }

  lemma {:induction false} SegmentsExactly(s: Stream, from: nat)
    requires from <= |s.tokens|
    ensures JoinCommas(CallRewriting.Segments(s, from)) == TokensText(s.tokens[from..]) + s.tail
    ensures forall x <- CallRewriting.Segments(s, from) :: HasNoComma(x)
    decreases |s.tokens| - from
  {
    var c := CallRewriting.CommaFrom(s.tokens, from);
    var first := Stream(s.tokens[from..c], if c == |s.tokens| then s.tail else s.tokens[c].gap);
    forall i | 0 <= i < |first.tokens| ensures first.tokens[i].token != Punct(',') {
      assert !IsPunct(s.tokens, from + i, ',');
    }
    TextTo(s.tokens, from, c);
    if c < |s.tokens| {
      SegmentsExactly(s, c + 1);
      JoinedFirst(first, CallRewriting.Segments(s, c + 1));
      SameText(first, s, from, c);
    }
  }

  lemma TextTo(tokens: seq<Spaced>, from: nat, c: nat)
    requires from <= c <= |tokens|
    ensures TokensText(tokens[from..]) == TokensText(tokens[from..c]) + TokensText(tokens[c..])
  {
    assert tokens[from..] == tokens[from..c] + tokens[c..];
    TokensTextConcat(tokens[from..c], tokens[c..]);
  }

  lemma JoinedFirst(first: Stream, rest: seq<Stream>)
    requires rest != []
    ensures JoinCommas([first] + rest) == StreamText(first) + "," + JoinCommas(rest)
  {
    assert ([first] + rest)[1..] == rest;
  }

  lemma SameText(first: Stream, s: Stream, from: nat, c: nat)
    requires from <= c < |s.tokens| && s.tokens[c].token == Punct(',')
    requires first == Stream(s.tokens[from..c], s.tokens[c].gap)
    ensures StreamText(first) + "," + (TokensText(s.tokens[c + 1..]) + s.tail) == TokensText(s.tokens[from..]) + s.tail
  {
    TextTo(s.tokens, from, c);
    assert s.tokens[c..][1..] == s.tokens[c + 1..];
    assert SpacedText(s.tokens[c]) == s.tokens[c].gap + ",";
  }

  /** Cut at the commas of its own level, without a blank last piece, and each piece trimmed. */
  ghost predicate AreArguments(inner: Stream, args: seq<Stream>) {
    exists pieces: seq<Stream> :: ArePieces(inner, pieces) && TrimmedFrom(pieces, args)
  }

  predicate ArePieces(inner: Stream, pieces: seq<Stream>) {
    pieces != [] && JoinCommas(pieces) == StreamText(inner) && forall x <- pieces :: HasNoComma(x)
  }

  predicate TrimmedFrom(pieces: seq<Stream>, args: seq<Stream>)
    requires pieces != []
  {
    && |args| == (if Trim(StreamText(pieces[|pieces| - 1])) == "" then |pieces| - 1 else |pieces|)
    && forall k | 0 <= k < |args| :: StreamText(args[k]) == Trim(StreamText(pieces[k]))
  }

  lemma ArgumentsExactly(inner: Stream)
    requires AllLexed(inner.tokens)
    ensures AreArguments(inner, CallRewriting.Arguments(inner))
  {
    var pieces := CallRewriting.Segments(inner, 0);
    SegmentsExactly(inner, 0);
    CallRewriting.SegmentsLexed(inner, 0);
    assert inner.tokens[0..] == inner.tokens;
    GivenAreTrimmed(pieces);
  }

  lemma GivenAreTrimmed(pieces: seq<Stream>)
    requires pieces != [] && forall x <- pieces :: AllLexed(x.tokens)
    ensures TrimmedFrom(pieces, CallRewriting.TrimStreams(CallRewriting.Given(pieces)))
  {
    var args := CallRewriting.TrimStreams(CallRewriting.Given(pieces));
    forall k | 0 <= k < |args| ensures StreamText(args[k]) == Trim(StreamText(pieces[k])) {
      assert pieces[k] in pieces && args[k] == CallRewriting.TrimStream(pieces[k]);
      CallRewriting.TrimStreamText(pieces[k]);
    }
  }

  lemma {:induction false} EachIsRewritten(functions: seq<Function>, records: set<string>, args: seq<Stream>, size: nat)
    requires forall arg <- args :: Weight(arg.tokens) < size
    requires CallRewriting.RewrittenAll(functions, records, args, size).Some?
    ensures var done := CallRewriting.RewrittenAll(functions, records, args, size).value;
            |done| == |args| && forall k | 0 <= k < |args| ::
              CallRewriting.Rewritten(functions, records, args[k]) == Some(done[k])
  {
    if args != [] {
      EachIsRewritten(functions, records, args[1..], size);
    }
  }

  /** A call with as many arguments as parameters becomes the call of its rewritten arguments. */
  lemma CallIsRewritten(functions: seq<Function>, records: set<string>, tokens: seq<Spaced>, i: nat, f: Function)
    returns (args: seq<Stream>, done: seq<Stream>)
    requires i < |tokens| && AllLexed(tokens) && Calls(functions, tokens, i, f)
    requires CallRewriting.Called(functions, tokens, i).Some?
    requires CallRewriting.RewrittenCall(functions, records, tokens, i).Some?
    ensures AreArguments(tokens[i + 1].token.inner, args) && |args| == |f.input| == |done|
    ensures forall k | 0 <= k < |args| :: CallRewriting.Rewritten(functions, records, args[k]) == Some(done[k])
    ensures BecomesCall(records, tokens[i].gap, f, done,
            StreamText(CallRewriting.RewrittenCall(functions, records, tokens, i).value))
  {
    CalledExactly(functions, tokens, i, f);
    WeightAt(tokens, i + 1);
    assert Lexed(tokens[i + 1].token);
    args := CallRewriting.Arguments(tokens[i + 1].token.inner);
    ArgumentsExactly(tokens[i + 1].token.inner);
    done := CallRewriting.RewrittenAll(functions, records, args, Weight(tokens)).value;
    EachIsRewritten(functions, records, args, Weight(tokens));
    CallBecomes(tokens[i].gap, records, f, done);
  }

  // Members -------------------------------------------------------------------------------------

  /** A dot and a field, which is no method: the parentheses of a call do not follow. */
  predicate Field(tokens: seq<Spaced>, i: nat) {
    && i + 1 < |tokens| && tokens[i].token == Punct('.') && tokens[i + 1].token.Ident?
    && !(i + 2 < |tokens| && tokens[i + 2].token.Group? && tokens[i + 2].token.delimiter.Parenthesis?)
  }

  predicate Subscript(tokens: seq<Spaced>, i: nat) {
    i < |tokens| && tokens[i].token.Group? && tokens[i].token.delimiter.Bracket?
  }

  /** A field of a chain becomes a subscript with its name in quotes, and the chain goes on behind it. */
  lemma FieldBecomes(printable: char -> bool, bindings: set<string>, tokens: seq<Spaced>, i: nat)
    requires Field(tokens, i)
    ensures MemberRewriting.RewrittenFrom(printable, bindings, tokens, i, true)
            == [Spaced(tokens[i].gap, Group(Bracket, Stream([Spaced("", Literal(
                  ExprPrinter.DebugText(printable, MemberRewriting.StripRaw(tokens[i + 1].token.name))))], "")))]
               + MemberRewriting.RewrittenFrom(printable, bindings, tokens, i + 2, true)
  {
  }

  /** A subscript of a chain is rewritten inside, and the chain goes on behind it. */
  lemma SubscriptBecomes(printable: char -> bool, bindings: set<string>, tokens: seq<Spaced>, i: nat)
    requires Subscript(tokens, i)
    ensures MemberRewriting.RewrittenFrom(printable, bindings, tokens, i, true)
            == [Spaced(tokens[i].gap, Group(Bracket, MemberRewriting.Rewritten(printable, bindings,
                  tokens[i].token.inner)))]
               + MemberRewriting.RewrittenFrom(printable, bindings, tokens, i + 1, true)
  {
  }

  /** A binding's name, alone, starts a chain; any other name, or a field outside of a chain, is kept. */
  lemma NameBecomes(printable: char -> bool, bindings: set<string>, tokens: seq<Spaced>, i: nat, chained: bool)
    requires i < |tokens| && tokens[i].token.Ident?
    ensures MemberRewriting.RewrittenFrom(printable, bindings, tokens, i, chained)
            == [tokens[i]] + MemberRewriting.RewrittenFrom(printable, bindings, tokens, i + 1,
                 tokens[i].token.name in bindings && !Marks(tokens, i - 1, ".") && !Marks(tokens, i - 2, "::"))
  {
    AfterPathExactly(tokens, i);
  }

  /** Marks and literals are kept, but for the dot of a chain's field, and end a chain. */
  lemma OtherBecomes(printable: char -> bool, bindings: set<string>, tokens: seq<Spaced>, i: nat, chained: bool)
    requires i < |tokens| && (tokens[i].token.Punct? || tokens[i].token.Literal?) && !(chained && Field(tokens, i))
    ensures MemberRewriting.RewrittenFrom(printable, bindings, tokens, i, chained)
            == [tokens[i]] + MemberRewriting.RewrittenFrom(printable, bindings, tokens, i + 1, false)
  {
  }

  /** A chain in parentheses: a binding, or such a chain again, and nothing behind it but fields and subscripts. */
  ghost predicate WholeChain(bindings: set<string>, tokens: seq<Spaced>)
    decreases tokens
  {
    && tokens != []
    && (match tokens[0].token
        case Ident(name) => name in bindings
        case Group(d, inner) => d.Parenthesis? && WholeChain(bindings, inner.tokens)
        case _ => false)
    && LinksFrom(tokens, 1)
  }

  predicate LinksFrom(tokens: seq<Spaced>, i: nat)
    decreases |tokens| - i
  {
    || i == |tokens|
    || (Subscript(tokens, i) && LinksFrom(tokens, i + 1))
    || (Field(tokens, i) && LinksFrom(tokens, i + 2))
  }

  lemma {:induction false} StopsAtEnd(tokens: seq<Spaced>, i: nat)
    requires i <= |tokens|
    ensures MemberRewriting.ChainStop(tokens, i) == |tokens| <==> LinksFrom(tokens, i)
    decreases |tokens| - i
  {
    if Subscript(tokens, i) {
      StopsAtEnd(tokens, i + 1);
    } else if Field(tokens, i) {
      StopsAtEnd(tokens, i + 2);
    }
  }

  lemma {:induction false} ChainExactly(bindings: set<string>, tokens: seq<Spaced>)
    ensures MemberRewriting.IsChain(bindings, tokens) <==> WholeChain(bindings, tokens)
    decreases tokens
  {
    if tokens != [] {
      StopsAtEnd(tokens, 1);
      if tokens[0].token.Group? {
        ChainExactly(bindings, tokens[0].token.inner.tokens);
      }
    }
  }

  /** A group is rewritten inside; it is part of a chain as a subscript of one, or in parentheses as a chain, alone. */
  lemma GroupBecomes(printable: char -> bool, bindings: set<string>, tokens: seq<Spaced>, i: nat, chained: bool)
    requires i < |tokens| && tokens[i].token.Group?
    ensures var t := tokens[i].token;
            var goes := || (chained && t.delimiter.Bracket?)
                        || (t.delimiter.Parenthesis? && WholeChain(bindings, t.inner.tokens)
                            && !Marks(tokens, i - 1, ".") && !Marks(tokens, i - 2, "::"));
            MemberRewriting.RewrittenFrom(printable, bindings, tokens, i, chained)
            == [Spaced(tokens[i].gap, Group(t.delimiter, MemberRewriting.Rewritten(printable, bindings, t.inner)))]
               + MemberRewriting.RewrittenFrom(printable, bindings, tokens, i + 1, goes)
  {
    AfterPathExactly(tokens, i);
    ChainExactly(bindings, tokens[i].token.inner.tokens);
  }

  /** A raw name is quoted without its mark. */
  lemma RawNames(name: string)
    ensures MemberRewriting.StripRaw("r#" + name) == MemberRewriting.StripRaw(name)
    ensures !HasPrefix(name, "r#") ==> MemberRewriting.StripRaw(name) == name
  {
    assert ("r#" + name)[2..] == name && ("r#" + name)[..2] == "r#";
  }

  // Request paths -------------------------------------------------------------------------------

  /** The names of a path from a root on: the root, and each name behind a dot. */
  predicate PathTokens(tokens: seq<Spaced>, i: nat, names: seq<string>) {
    && names != [] && i + 2 * |names| - 1 <= |tokens|
    && (forall k | 0 <= k < |names| :: tokens[i + 2 * k].token == Ident(names[k]))
    && forall k | 1 <= k < |names| :: tokens[i + 2 * k - 1].token == Punct('.')
  }

  /** Which names paths start from: these four, and no others. */
  lemma RequestRoots(rendered: map<string, string>, name: string)
    ensures name in ContextMembers.RequestLookups(rendered).roots
            <==> name == "query" || name == "params" || name == "request" || name == "Auth"
  {
  }

  /** What stands for a path is the borrowed code it is rendered as, owned: without its borrows, in parentheses. */
  lemma RequestCode(rendered: map<string, string>, path: string, code: string)
    requires path in rendered && rendered[path] == "&" + code && !HasPrefix(code, "&")
    ensures ContextMembers.RequestLookups(rendered).code[path] == "(" + code + ").to_owned()"
  {
    assert ("&" + code)[1..] == code && ("&" + code)[..1] == "&";
    assert ContextMembers.WithoutBorrow("&" + code) == ContextMembers.WithoutBorrow(code) == code;
  }

  /** The names spell a path that stands for something, and no shorter path does. */
  ghost predicate IsShortest(lookups: ContextMembers.Lookups, tokens: seq<Spaced>, i: nat, names: seq<string>,
      least: nat) {
    && PathTokens(tokens, i, names) && |names| > least && JoinDots(names) in lookups.code
    && forall n | least < n < |names| :: JoinDots(names[..n]) !in lookups.code
  }

  lemma {:induction false} ReachExactly(lookups: ContextMembers.Lookups, tokens: seq<Spaced>, i: nat,
      path: seq<string>) returns (names: seq<string>)
    requires PathTokens(tokens, i, path)
    ensures var r := ContextMembers.Reach(lookups, tokens, i + 2 * |path| - 2, path);
            if r.Some? then
              && IsShortest(lookups, tokens, i, names, |path|) && names[..|path|] == path
              && r.value == ContextMembers.Path(i + 2 * |names| - 2, lookups.code[JoinDots(names)])
            else
              forall other | PathTokens(tokens, i, other) && |other| > |path| :: JoinDots(other) !in lookups.code
    decreases |tokens| - |path|
  {
    var at := i + 2 * |path| - 2;
    names := path;
    if ContextMembers.HasMember(tokens, at) {
      var longer := ContextMembers.Longer(path, tokens, at);
      LongerPath(tokens, i, path);
      if JoinDots(longer) in lookups.code {
        names := longer;
      } else {
        SameReach(lookups, tokens, at + 2, i + 2 * |longer| - 2, longer);
        names := ReachExactly(lookups, tokens, i, longer);
        var r := ContextMembers.Reach(lookups, tokens, at + 2, longer);
        if r.Some? {
          ShortestFrom(lookups, tokens, i, names, path, longer);
        } else {
          NoneFrom(lookups, tokens, i, path, longer);
        }
      }
    } else {
      LongerHasMember(tokens, i, |path|);
    }
  }

  lemma ShortestFrom(lookups: ContextMembers.Lookups, tokens: seq<Spaced>, i: nat, names: seq<string>,
      path: seq<string>, longer: seq<string>)
    requires |longer| == |path| + 1 && longer[..|path|] == path && JoinDots(longer) !in lookups.code
    requires IsShortest(lookups, tokens, i, names, |longer|) && names[..|longer|] == longer
    ensures IsShortest(lookups, tokens, i, names, |path|) && names[..|path|] == path
  {
    assert names[..|path|] == names[..|longer|][..|path|];
  }

  lemma NoneFrom(lookups: ContextMembers.Lookups, tokens: seq<Spaced>, i: nat, path: seq<string>, longer: seq<string>)
    requires |longer| == |path| + 1 && PathTokens(tokens, i, longer) && JoinDots(longer) !in lookups.code
    requires forall other | PathTokens(tokens, i, other) && |other| > |longer| :: JoinDots(other) !in lookups.code
    ensures forall other | PathTokens(tokens, i, other) && |other| > |path| :: JoinDots(other) !in lookups.code
  {
    OnePath(tokens, i, longer);
  }

  lemma SameReach(lookups: ContextMembers.Lookups, tokens: seq<Spaced>, i: nat, j: nat, path: seq<string>)
    requires i == j && i < |tokens|
    ensures ContextMembers.Reach(lookups, tokens, i, path) == ContextMembers.Reach(lookups, tokens, j, path)
  {
  }

  lemma LongerHasMember(tokens: seq<Spaced>, i: nat, n: nat)
    requires n > 0
    ensures forall other | PathTokens(tokens, i, other) && |other| > n ::
              ContextMembers.HasMember(tokens, i + 2 * n - 2)
  {
    forall other | PathTokens(tokens, i, other) && |other| > n
      ensures ContextMembers.HasMember(tokens, i + 2 * n - 2)
    {
      assert tokens[i + 2 * n - 1].token == Punct('.') && tokens[i + 2 * n].token == Ident(other[n]);
    }
  }

  /** A root's name, alone, starts a path. */
  predicate StartsAt(lookups: ContextMembers.Lookups, tokens: seq<Spaced>, i: nat)
    requires i < |tokens|
  {
    && tokens[i].token.Ident? && tokens[i].token.name in lookups.roots
    && !Marks(tokens, i - 1, ".") && !Marks(tokens, i - 2, "::")
  }

  /** The shortest path from a root that stands for something is replaced by what it stands for; otherwise none is. */
  lemma PathExactly(lookups: ContextMembers.Lookups, tokens: seq<Spaced>, i: nat) returns (names: seq<string>)
    requires i < |tokens|
    ensures var r := ContextMembers.PathAt(lookups, tokens, i);
            if r.Some? then
              && StartsAt(lookups, tokens, i) && IsShortest(lookups, tokens, i, names, 1)
              && r.value == ContextMembers.Path(i + 2 * |names| - 2, lookups.code[JoinDots(names)])
            else
              StartsAt(lookups, tokens, i) ==>
                forall other | PathTokens(tokens, i, other) && |other| > 1 :: JoinDots(other) !in lookups.code
  {
    AfterPathExactly(tokens, i);
    names := [];
    if StartsAt(lookups, tokens, i) {
      names := ReachExactly(lookups, tokens, i, [tokens[i].token.name]);
    }
  }

  lemma LongerPath(tokens: seq<Spaced>, i: nat, path: seq<string>)
    requires PathTokens(tokens, i, path) && ContextMembers.HasMember(tokens, i + 2 * |path| - 2)
    ensures PathTokens(tokens, i, ContextMembers.Longer(path, tokens, i + 2 * |path| - 2))
  {
  }

  /** Two paths from the same token go the same way. */
  lemma OnePath(tokens: seq<Spaced>, i: nat, path: seq<string>)
    requires PathTokens(tokens, i, path)
    ensures forall other | PathTokens(tokens, i, other) && |other| == |path| :: other == path
    ensures forall other | PathTokens(tokens, i, other) && |other| > |path| :: other[..|path|] == path
  {
    forall other | PathTokens(tokens, i, other) && |other| >= |path| ensures other[..|path|] == path {
      forall k | 0 <= k < |path| ensures other[k] == path[k] {
        assert tokens[i + 2 * k].token == Ident(path[k]);
      }
    }
  }
}
