/** Lookups in the request context are rewritten where a path of members names one. */
module ContextMembers {
  import opened Text
  import opened TokenTrees
  import opened TextEdits

  /** The names that paths start from, and the code that stands for each path. */
  datatype Lookups = Lookups(roots: set<string>, code: map<string, string>)

  const ROOTS: set<string> := {"query", "params", "request", "Auth"}

  function WithoutBorrow(s: string): string {
    if HasPrefix(s, "&") then WithoutBorrow(s[1..]) else s
  }

  function OwnedText(value: string): string {
    "(" + WithoutBorrow(value) + ").to_owned()"
  }

  /** The lookups of a request: `rendered` gives the borrowed expression of each path that names one. */
  function RequestLookups(rendered: map<string, string>): Lookups {
    Lookups(ROOTS, map path | path in rendered :: OwnedText(rendered[path]))
  }

  predicate StartsPath(lookups: Lookups, tokens: seq<Spaced>, i: nat)
    requires i < |tokens|
  {
    !AfterPath(tokens, i) && tokens[i].token.Ident? && tokens[i].token.name in lookups.roots
  }

  predicate HasMember(tokens: seq<Spaced>, i: nat) {
    IsPunct(tokens, i + 1, '.') && IsIdent(tokens, i + 2)
  }

  function Longer(path: seq<string>, tokens: seq<Spaced>, i: nat): seq<string>
    requires HasMember(tokens, i)
  {
    path + [tokens[i + 2].token.name]
  }

  datatype Path = Path(end: nat, value: string)

  /** The end of the shortest path from a root that names a lookup, and what it is rendered as. */
  function Reach(lookups: Lookups, tokens: seq<Spaced>, i: nat, path: seq<string>): (r: Option<Path>)
    requires i < |tokens|
    ensures r.Some? ==> i + 2 <= r.value.end < |tokens|
    decreases |tokens| - i
  {
    if !HasMember(tokens, i) then None
    else
      var longer := Longer(path, tokens, i);
      if JoinDots(longer) in lookups.code then Some(Path(i + 2, lookups.code[JoinDots(longer)]))
          else Reach(lookups, tokens, i + 2, longer)
  }

  function PathAt(lookups: Lookups, tokens: seq<Spaced>, i: nat): (r: Option<Path>)
    requires i < |tokens|
    ensures r.Some? ==> i + 2 <= r.value.end < |tokens|
  {
    if StartsPath(lookups, tokens, i) then Reach(lookups, tokens, i, [tokens[i].token.name]) else None
  }

  // The structural rewriting ------------------------------------------------------------------

  function Rewritten(lookups: Lookups, s: Stream): Stream
    decreases s
  {
    Stream(RewrittenFrom(lookups, s.tokens, 0), s.tail)
  }

  /** The tokens with each path as one piece of generated code. */
  function RewrittenFrom(lookups: Lookups, tokens: seq<Spaced>, i: nat): seq<Spaced>
    requires i <= |tokens|
    decreases tokens, 1, |tokens| - i
  {
    if i == |tokens| then []
    else match PathAt(lookups, tokens, i)
      case Some(p) => [Spaced(tokens[i].gap, Literal(p.value))] + RewrittenFrom(lookups, tokens, p.end + 1)
      case None => [RewrittenSpaced(lookups, tokens, i)] + RewrittenFrom(lookups, tokens, i + 1)
  }

  function RewrittenSpaced(lookups: Lookups, tokens: seq<Spaced>, i: nat): Spaced
    requires i < |tokens|
    decreases tokens, 0
  {
    match tokens[i].token
    case Group(d, inner) => Spaced(tokens[i].gap, Group(d, Rewritten(lookups, inner)))
    case _ => tokens[i]
  }

  // Pieces ------------------------------------------------------------------------------------

  function CutFrom(lookups: Lookups, tokens: seq<Spaced>, i: nat): seq<Piece>
    requires i <= |tokens|
    decreases tokens, 1, |tokens| - i
  {
    if i == |tokens| then []
    else match PathAt(lookups, tokens, i)
      case Some(p) => CutPath(tokens, i, p) + CutFrom(lookups, tokens, p.end + 1)
      case None => CutToken(lookups, tokens, i) + CutFrom(lookups, tokens, i + 1)
  }

  function CutPath(tokens: seq<Spaced>, i: nat, p: Path): seq<Piece>
    requires i < p.end < |tokens|
  {
    Change(tokens[i].gap, PathSource(tokens, i, p.end), p.value)
  }

  /** The text of the tokens from one to another. */
  function SourceTo(tokens: seq<Spaced>, i: nat, end: nat): string
    requires end < |tokens|
    decreases end + 1 - i
  {
    if i > end then "" else SpacedText(tokens[i]) + SourceTo(tokens, i + 1, end)
  }

  function PathSource(tokens: seq<Spaced>, i: nat, end: nat): string
    requires i < end < |tokens|
  {
    TokenText(tokens[i].token) + SourceTo(tokens, i + 1, end)
  }

  function CutToken(lookups: Lookups, tokens: seq<Spaced>, i: nat): seq<Piece>
    requires i < |tokens|
    decreases tokens, 0
  {
    match tokens[i].token
    case Group(d, inner) => [Kept(tokens[i].gap + Opening(d))] + CutFrom(lookups, inner.tokens, 0)
        + [Kept(inner.tail + Closing(d))]
    case _ => [Kept(SpacedText(tokens[i]))]
  }

  lemma {:induction false} SourceThenRest(tokens: seq<Spaced>, i: nat, end: nat)
    requires i <= end + 1 <= |tokens|
    ensures SourceTo(tokens, i, end) + TokensText(tokens[end + 1..]) == TokensText(tokens[i..])
    decreases end + 1 - i
  {
    if i <= end {
      SourceThenRest(tokens, i + 1, end);
      assert tokens[i..][1..] == tokens[i + 1..];
      ConcatTwice(SpacedText(tokens[i]), SourceTo(tokens, i + 1, end), TokensText(tokens[end + 1..]));
    } else {
      assert "" + TokensText(tokens[i..]) == TokensText(tokens[i..]);
    }
  }

  lemma PathText(tokens: seq<Spaced>, i: nat, end: nat)
    requires i < end < |tokens|
    ensures (tokens[i].gap + PathSource(tokens, i, end)) + TokensText(tokens[end + 1..]) == TokensText(tokens[i..])
  {
    SourceThenRest(tokens, i, end);
    ConcatTwice(tokens[i].gap, TokenText(tokens[i].token), SourceTo(tokens, i + 1, end));
  }

  lemma PathPrints(tokens: seq<Spaced>, i: nat, p: Path, pieces: seq<Piece>)
    requires i < p.end < |tokens| && Before(pieces) == TokensText(tokens[p.end + 1..])
    ensures Before(CutPath(tokens, i, p) + pieces) == TokensText(tokens[i..])
    ensures After(CutPath(tokens, i, p) + pieces) == SpacedText(Spaced(tokens[i].gap, Literal(p.value))) + After(pieces)
  {
    ChangeTexts(tokens[i].gap, PathSource(tokens, i, p.end), p.value);
    TextsConcat(CutPath(tokens, i, p), pieces);
    PathText(tokens, i, p.end);
  }

  lemma {:induction false} PiecesPrint(lookups: Lookups, tokens: seq<Spaced>, i: nat)
    requires i <= |tokens|
    ensures Before(CutFrom(lookups, tokens, i)) == TokensText(tokens[i..])
    ensures After(CutFrom(lookups, tokens, i)) == TokensText(RewrittenFrom(lookups, tokens, i))
    decreases tokens, 1, |tokens| - i, 1
  {
    if i < |tokens| {
      if PathAt(lookups, tokens, i).Some? {
        PathPiecesPrint(lookups, tokens, i, PathAt(lookups, tokens, i).value);
      } else {
        TokenPiecesPrint(lookups, tokens, i);
      }
    }
  }

  lemma {:induction false} PathPiecesPrint(lookups: Lookups, tokens: seq<Spaced>, i: nat, p: Path)
    requires i < |tokens| && PathAt(lookups, tokens, i) == Some(p)
    ensures Before(CutFrom(lookups, tokens, i)) == TokensText(tokens[i..])
    ensures After(CutFrom(lookups, tokens, i)) == TokensText(RewrittenFrom(lookups, tokens, i))
    decreases tokens, 1, |tokens| - i, 0
  {
    var rest := CutFrom(lookups, tokens, p.end + 1);
    PiecesPrint(lookups, tokens, p.end + 1);
    assert CutFrom(lookups, tokens, i) == CutPath(tokens, i, p) + rest;
    PathPrints(tokens, i, p, rest);
    var first, more := Spaced(tokens[i].gap, Literal(p.value)), RewrittenFrom(lookups, tokens, p.end + 1);
    assert RewrittenFrom(lookups, tokens, i) == [first] + more;
    TokensTextFirst(first, more);
  }

  lemma {:induction false} TokenPiecesPrint(lookups: Lookups, tokens: seq<Spaced>, i: nat)
    requires i < |tokens| && PathAt(lookups, tokens, i).None?
    ensures Before(CutFrom(lookups, tokens, i)) == TokensText(tokens[i..])
    ensures After(CutFrom(lookups, tokens, i)) == TokensText(RewrittenFrom(lookups, tokens, i))
    decreases tokens, 1, |tokens| - i, 0
  {
    PiecesPrint(lookups, tokens, i + 1);
    TokenPrintsBoth(lookups, tokens, i);
    TextsConcat(CutToken(lookups, tokens, i), CutFrom(lookups, tokens, i + 1));
    assert tokens[i..][1..] == tokens[i + 1..];
  }

  lemma {:induction false} TokenPrintsBoth(lookups: Lookups, tokens: seq<Spaced>, i: nat)
    requires i < |tokens|
    ensures Before(CutToken(lookups, tokens, i)) == SpacedText(tokens[i])
    ensures After(CutToken(lookups, tokens, i)) == SpacedText(RewrittenSpaced(lookups, tokens, i))
    decreases tokens, 0
  {
    var x := tokens[i];
    match x.token {
      case Group(d, inner) =>
        PiecesPrint(lookups, inner.tokens, 0);
        assert inner.tokens[0..] == inner.tokens;
        var new_ := Rewritten(lookups, inner);
        GroupPieces(x.gap, d, inner, new_, CutFrom(lookups, inner.tokens, 0));
        TokensTextOne(Spaced(x.gap, Group(d, new_)));
      case _ => OnePiece(Kept(SpacedText(x)), 0);
    }
  }

  // Positions -------------------------------------------------------------------------------------

  /** How far the tokens before a token reach. */
  function Offset(tokens: seq<Spaced>, i: nat): nat
    requires i <= |tokens|
  {
    if i == 0 then 0 else Offset(tokens, i - 1) + |SpacedText(tokens[i - 1])|
  }

  lemma {:induction false} OffsetAfter(tokens: seq<Spaced>, i: nat, end: nat)
    requires i <= end + 1 <= |tokens|
    ensures Offset(tokens, end + 1) == Offset(tokens, i) + |SourceTo(tokens, i, end)|
    decreases end + 1 - i
  {
    if i <= end {
      OffsetAfter(tokens, i + 1, end);
      assert SourceTo(tokens, i, end) == SpacedText(tokens[i]) + SourceTo(tokens, i + 1, end);
    }
  }

  lemma PathWidth(tokens: seq<Spaced>, i: nat, p: Path)
    requires i < p.end < |tokens|
    ensures Offset(tokens, i) + |Before(CutPath(tokens, i, p))| == Offset(tokens, p.end + 1)
    ensures Offset(tokens, p.end + 1) == Offset(tokens, i) + |tokens[i].gap| + |PathSource(tokens, i, p.end)|
  {
    ChangeTexts(tokens[i].gap, PathSource(tokens, i, p.end), p.value);
    OffsetAfter(tokens, i + 1, p.end);
  }

  predicate IsPathMember(tokens: seq<Spaced>, i: nat) {
    IsPunct(tokens, i, '.') || (IsIdent(tokens, i) && IsPunct(tokens, i - 1, '.'))
  }

  /** Dots and the names after them: they start no path and hold no tokens. */
  predicate Members(tokens: seq<Spaced>, i: nat, end: nat)
    requires end <= |tokens|
  {
    forall k | i <= k < end :: IsPathMember(tokens, k)
  }

  lemma {:induction false} ReachedByMembers(lookups: Lookups, tokens: seq<Spaced>, i: nat, path: seq<string>)
    requires i < |tokens| && Reach(lookups, tokens, i, path).Some?
    ensures Members(tokens, i + 1, Reach(lookups, tokens, i, path).value.end + 1)
    decreases |tokens| - i
  {
    if JoinDots(Longer(path, tokens, i)) !in lookups.code {
      ReachedByMembers(lookups, tokens, i + 2, Longer(path, tokens, i));
    }
  }

  /** The pieces of the token, or of the path, that comes next. */
  function NextPieces(lookups: Lookups, tokens: seq<Spaced>, i: nat): seq<Piece>
    requires i < |tokens|
  {
    var p := PathAt(lookups, tokens, i);
    if p.Some? then CutPath(tokens, i, p.value) else CutToken(lookups, tokens, i)
  }

  function NextIndex(lookups: Lookups, tokens: seq<Spaced>, i: nat): (next: nat)
    requires i < |tokens|
    ensures i < next <= |tokens|
  {
    var p := PathAt(lookups, tokens, i);
    if p.Some? then p.value.end + 1 else i + 1
  }

  lemma NextIsCut(lookups: Lookups, tokens: seq<Spaced>, i: nat, done: seq<Piece>)
    requires i < |tokens|
    ensures done + CutFrom(lookups, tokens, i)
            == (done + NextPieces(lookups, tokens, i)) + CutFrom(lookups, tokens, NextIndex(lookups, tokens, i))
  {
    JoinPieces(done, NextPieces(lookups, tokens, i), CutFrom(lookups, tokens, NextIndex(lookups, tokens, i)));
  }

  lemma MembersFollow(lookups: Lookups, tokens: seq<Spaced>, i: nat)
    requires i < |tokens|
    ensures Members(tokens, i + 1, NextIndex(lookups, tokens, i))
  {
    if PathAt(lookups, tokens, i).Some? {
      ReachedByMembers(lookups, tokens, i, [tokens[i].token.name]);
    }
  }

  lemma NextWidth(lookups: Lookups, tokens: seq<Spaced>, i: nat)
    requires i < |tokens|
    ensures Offset(tokens, i) + |Before(NextPieces(lookups, tokens, i))|
            == Offset(tokens, NextIndex(lookups, tokens, i))
  {
    var p := PathAt(lookups, tokens, i);
    if p.Some? {
      PathWidth(tokens, i, p.value);
    } else {
      TokenPrintsBoth(lookups, tokens, i);
      assert Offset(tokens, i + 1) == Offset(tokens, i) + |SpacedText(tokens[i])|;
    }
  }

  /** A member of a path has no edits of its own. */
  lemma MemberHasNoEdits(lookups: Lookups, tokens: seq<Spaced>, i: nat, at: nat)
    requires i < |tokens| && IsPathMember(tokens, i)
    ensures EditsOf(NextPieces(lookups, tokens, i), at) == []
  {
    OnePiece(Kept(SpacedText(tokens[i])), at);
  }

  lemma JoinPieces(a: seq<Piece>, b: seq<Piece>, c: seq<Piece>)
    ensures a + (b + c) == (a + b) + c
  {
  }

  // The loops -------------------------------------------------------------------------------------

  method FindPath(lookups: Lookups, tokens: seq<Spaced>, index: nat) returns (r: Option<Path>)
    requires index < |tokens|
    ensures r == PathAt(lookups, tokens, index)
  {
    if !StartsPath(lookups, tokens, index) {
      return None;
    }
    var path := [tokens[index].token.name];
    var end := index;
    while HasMember(tokens, end)
      invariant index <= end < |tokens|
      invariant Reach(lookups, tokens, end, path) == PathAt(lookups, tokens, index)
      decreases |tokens| - end
    {
      path := Longer(path, tokens, end);
      end := end + 2;
      if JoinDots(path) in lookups.code {
        return Some(Path(end, lookups.code[JoinDots(path)]));
      }
    }
    r := None;
  }

  /** What has been cut, and where the cutting goes on. */
  predicate Cutting(lookups: Lookups, tokens: seq<Spaced>, index: nat, next: nat, done: seq<Piece>, whole: seq<Piece>) {
    && index <= next <= |tokens| && Members(tokens, index, next)
    && |Before(done)| == Offset(tokens, next)
    && done + CutFrom(lookups, tokens, next) == whole
  }

  method Collect(lookups: Lookups, tokens: seq<Spaced>, base: nat, list: EditList)
    modifies list
    ensures list.items == old(list.items) + EditsOf(CutFrom(lookups, tokens, 0), base)
    decreases tokens, 2
  {
    ghost var whole := CutFrom(lookups, tokens, 0);
    assert [] + whole == whole;
    CollectAll(lookups, tokens, base, list, whole);
  }

  method CollectAll(lookups: Lookups, tokens: seq<Spaced>, base: nat, list: EditList, ghost whole: seq<Piece>)
    requires Cutting(lookups, tokens, 0, 0, [], whole)
    modifies list
    ensures list.items == old(list.items) + EditsOf(whole, base)
    decreases tokens, 1
  {
    var at: nat := base;
    ghost var next, done := 0, [];
    ghost var before := list.items;
    assert before + [] == before;
    for index := 0 to |tokens|
      invariant Cutting(lookups, tokens, index, next, done, whole) && at == base + Offset(tokens, index)
      invariant list.items == before + EditsOf(done, base)
    {
      CollectAt(lookups, tokens, index, at, list);
      next, done := CutNext(lookups, tokens, index, next, done, whole, before, base);
      at := at + |SpacedText(tokens[index])|;
    }
    CutAll(lookups, tokens, next, done, whole);
  }

  lemma CutAll(lookups: Lookups, tokens: seq<Spaced>, next: nat, done: seq<Piece>, whole: seq<Piece>)
    requires Cutting(lookups, tokens, |tokens|, next, done, whole)
    ensures done == whole
  {
    assert done + [] == done;
  }

  /** The edits of a token extend the edits of what is cut: by nothing, if it is a member of the last path. */
  lemma CutNext(lookups: Lookups, tokens: seq<Spaced>, index: nat, next: nat, done: seq<Piece>, whole: seq<Piece>,
      before: seq<Edit>, base: nat)
    returns (after: nat, cut: seq<Piece>)
    requires index < |tokens| && Cutting(lookups, tokens, index, next, done, whole)
    ensures Cutting(lookups, tokens, index + 1, after, cut, whole)
    ensures Extends(before, base, done, cut, NextPieces(lookups, tokens, index), base + Offset(tokens, index))
  {
    if index == next {
      var pieces := NextPieces(lookups, tokens, index);
      CutOn(lookups, tokens, index, done, whole);
      ExtendsByPieces(before, base, done, pieces, base + Offset(tokens, index));
      after, cut := NextIndex(lookups, tokens, index), done + pieces;
    } else {
      CutMembers(lookups, tokens, index, before + EditsOf(done, base), base + Offset(tokens, index));
      after, cut := next, done;
    }
  }

  /** The edits of the pieces lead from the edits of what was cut to those of what is cut. */
  predicate Extends(before: seq<Edit>, base: nat, done: seq<Piece>, cut: seq<Piece>, pieces: seq<Piece>, at: nat) {
    (before + EditsOf(done, base)) + EditsOf(pieces, at) == before + EditsOf(cut, base)
  }

  lemma ExtendsByPieces(before: seq<Edit>, base: nat, done: seq<Piece>, pieces: seq<Piece>, at: nat)
    requires at == base + |Before(done)|
    ensures Extends(before, base, done, done + pieces, pieces, at)
  {
    EditsGrow(before, done, pieces, base);
  }

  lemma CutMembers(lookups: Lookups, tokens: seq<Spaced>, i: nat, edits: seq<Edit>, at: nat)
    requires i < |tokens| && IsPathMember(tokens, i)
    ensures edits + EditsOf(NextPieces(lookups, tokens, i), at) == edits
  {
    MemberHasNoEdits(lookups, tokens, i, at);
  }

  lemma CutOn(lookups: Lookups, tokens: seq<Spaced>, index: nat, done: seq<Piece>, whole: seq<Piece>)
    requires index < |tokens| && Cutting(lookups, tokens, index, index, done, whole)
    ensures Cutting(lookups, tokens, index + 1, NextIndex(lookups, tokens, index),
            done + NextPieces(lookups, tokens, index), whole)
  {
    NextIsCut(lookups, tokens, index, done);
    MembersFollow(lookups, tokens, index);
    NextWidth(lookups, tokens, index);
    TextsConcat(done, NextPieces(lookups, tokens, index));
  }

  /** Collects what lies inside a token, and the path that starts at it. */
  method CollectAt(lookups: Lookups, tokens: seq<Spaced>, index: nat, at: nat, list: EditList)
    requires index < |tokens|
    modifies list
    ensures list.items == old(list.items) + EditsOf(NextPieces(lookups, tokens, index), at)
    decreases tokens, 0
  {
    if tokens[index].token.Group? {
      Collect(lookups, tokens[index].token.inner.tokens, at + |tokens[index].gap| + 1, list);
      GroupEdits(lookups, tokens, index, at);
    } else {
      ghost var before := list.items;
      var found := FindPath(lookups, tokens, index);
      if found.Some? {
        var start := at + |tokens[index].gap|;
        list.Push(Edit(start, start + |PathSource(tokens, index, found.value.end)|, found.value.value));
        ChangeEdits(tokens[index].gap, PathSource(tokens, index, found.value.end), found.value.value, at);
      } else {
        OnePiece(Kept(SpacedText(tokens[index])), at);
        assert before + [] == before;
      }
    }
  }

  lemma GroupEdits(lookups: Lookups, tokens: seq<Spaced>, i: nat, at: nat)
    requires i < |tokens| && tokens[i].token.Group?
    ensures EditsOf(NextPieces(lookups, tokens, i), at)
            == EditsOf(CutFrom(lookups, tokens[i].token.inner.tokens, 0), at + |tokens[i].gap| + 1)
  {
    var Group(d, inner) := tokens[i].token;
    EditsInside(tokens[i].gap + Opening(d), CutFrom(lookups, inner.tokens, 0), inner.tail + Closing(d), at);
  }

  /** Renders the lookups in code whose tokens have been read; nothing outside the paths changes. */
  method RenderContextMembers(code: string, parsed: Stream, rendered: map<string, string>) returns (output: string)
    requires code == StreamText(parsed)
    ensures output == StreamText(Rewritten(RequestLookups(rendered), parsed))
  {
    output := RenderLookups(code, parsed, RequestLookups(rendered));
  }

  method RenderLookups(code: string, parsed: Stream, lookups: Lookups) returns (output: string)
    requires code == StreamText(parsed)
    ensures output == StreamText(Rewritten(lookups, parsed))
  {
    var list := new EditList();
    Collect(lookups, parsed.tokens, 0, list);
    ghost var pieces := CutFrom(lookups, parsed.tokens, 0);
    assert list.items == EditsOf(pieces, 0);
    PiecesPrint(lookups, parsed.tokens, 0);
    assert parsed.tokens[0..] == parsed.tokens;
    EditsOfFit(pieces, 0);
    SortedStays(list.items, 0, |Before(pieces)|);
    SplicesWhole(code, pieces, parsed.tail);
    output := SpliceUnguarded(code, SortEdits(list.items));
  }
}
