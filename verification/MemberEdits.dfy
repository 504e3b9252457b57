/** The text rewriter for members: its edits come out of order, and sorting puts them in the order of the text. */
module MemberEdits {
  import opened Text
  import opened ArgSplitter
  import opened ExprPrinter
  import opened TokenTrees
  import opened TextEdits
  import opened MemberRewriting

  // The edits in the order in which they are found ----------------------------------------------

  function Collected(printable: char -> bool, bindings: set<string>, tokens: seq<Spaced>, i: nat, at: nat): seq<Edit>
    requires i <= |tokens|
    decreases tokens, 1, |tokens| - i
  {
    if i == |tokens| then []
    else
      Inside(printable, bindings, tokens, i, at) + OfChain(printable, bindings, tokens, i, at)
      + Collected(printable, bindings, tokens, i + 1, at + |SpacedText(tokens[i])|)
  }

  function Inside(printable: char -> bool, bindings: set<string>, tokens: seq<Spaced>, i: nat, at: nat): seq<Edit>
    requires i < |tokens|
    decreases tokens, 0
  {
    match tokens[i].token
    case Group(_, inner) => Collected(printable, bindings, inner.tokens, 0, at + |tokens[i].gap| + 1)
    case _ => []
  }

  function OfChain(printable: char -> bool, bindings: set<string>, tokens: seq<Spaced>, i: nat, at: nat): seq<Edit>
    requires i < |tokens|
  {
    if StartsChain(bindings, tokens, i) then ChainEdits(printable, tokens, i + 1, at + |SpacedText(tokens[i])|) else []
  }

  function ChainEdits(printable: char -> bool, tokens: seq<Spaced>, i: nat, at: nat): seq<Edit>
    requires i <= |tokens|
    decreases |tokens| - i
  {
    if IsGroup(tokens, i, Bracket) then ChainEdits(printable, tokens, i + 1, at + |SpacedText(tokens[i])|)
    else if IsMember(tokens, i) then
      [MemberEdit(printable, tokens, i, at)]
      + ChainEdits(printable, tokens, i + 2, at + |SpacedText(tokens[i])| + |SpacedText(tokens[i + 1])|)
    else []
  }

  /** From the dot to the end of the name. */
  function MemberEdit(printable: char -> bool, tokens: seq<Spaced>, i: nat, at: nat): (e: Edit)
    requires IsMember(tokens, i)
    ensures e.start < e.end
  {
    var start := at + |tokens[i].gap|;
    Edit(start, start + |MemberSource(tokens, i)|, BracketText(printable, tokens[i + 1].token.name))
  }

  // The same edits as in the order of the text --------------------------------------------------

  lemma CutMemberEdit(printable: char -> bool, tokens: seq<Spaced>, i: nat, at: nat)
    requires IsMember(tokens, i)
    ensures EditsOf(CutMember(printable, tokens, i), at) == [MemberEdit(printable, tokens, i, at)]
  {
    ChangeEdits(tokens[i].gap, MemberSource(tokens, i), BracketText(printable, tokens[i + 1].token.name), at);
  }

  function Count(x: Edit, edits: seq<Edit>): nat {
    if edits == [] then 0 else (if edits[0] == x then 1 else 0) + Count(x, edits[1..])
  }

  lemma {:induction false} CountIsMultiplicity(x: Edit, edits: seq<Edit>)
    ensures Count(x, edits) == multiset(edits)[x]
  {
    if edits != [] {
      CountIsMultiplicity(x, edits[1..]);
      assert edits == [edits[0]] + edits[1..];
    }
  }

  lemma SameCounts(xs: seq<Edit>, ys: seq<Edit>)
    requires forall x :: Count(x, xs) == Count(x, ys)
    ensures multiset(xs) == multiset(ys)
  {
    forall x ensures multiset(xs)[x] == multiset(ys)[x] {
      CountIsMultiplicity(x, xs);
      CountIsMultiplicity(x, ys);
      assert Count(x, xs) == Count(x, ys);
    }
  }

  lemma {:induction false} CountConcat(x: Edit, xs: seq<Edit>, ys: seq<Edit>)
    ensures Count(x, xs + ys) == Count(x, xs) + Count(x, ys)
  {
    if xs == [] {
      assert xs + ys == ys;
    } else {
      assert (xs + ys)[0] == xs[0] && (xs + ys)[1..] == xs[1..] + ys;
      CountConcat(x, xs[1..], ys);
    }
  }

  lemma CountOne(x: Edit, e: Edit, rest: seq<Edit>)
    ensures Count(x, [e] + rest) == (if e == x then 1 else 0) + Count(x, rest)
  {
    assert ([e] + rest)[1..] == rest;
  }

  lemma CountThree(x: Edit, a: seq<Edit>, b: seq<Edit>, c: seq<Edit>)
    ensures Count(x, a + b + c) == Count(x, a) + Count(x, b) + Count(x, c)
  {
    CountConcat(x, a, b);
    CountConcat(x, a + b, c);
  }

  /** How often an edit is made in the order of the text. */
  function InText(x: Edit, printable: char -> bool, bindings: set<string>, tokens: seq<Spaced>, i: nat, chained: bool,
      at: nat): nat
    requires i <= |tokens|
    decreases tokens, 1, |tokens| - i
  {
    if i == |tokens| then 0
    else
      var next := at + |SpacedText(tokens[i])|;
      if chained && IsMember(tokens, i) then
        AsCount(x, MemberEdit(printable, tokens, i, at))
        + InText(x, printable, bindings, tokens, i + 2, true, next + |SpacedText(tokens[i + 1])|)
      else
        InTextInside(x, printable, bindings, tokens[i], at)
        + InText(x, printable, bindings, tokens, i + 1, Chains(bindings, tokens, i, chained), next)
  }

  function InTextInside(x: Edit, printable: char -> bool, bindings: set<string>, t: Spaced, at: nat): nat
    decreases t, 0
  {
    match t.token
    case Group(_, inner) => InText(x, printable, bindings, inner.tokens, 0, false, at + |t.gap| + 1)
    case _ => 0
  }

  function AsCount(x: Edit, e: Edit): nat {
    if e == x then 1 else 0
  }

  /** How often an edit is found. */
  function Found(x: Edit, printable: char -> bool, bindings: set<string>, tokens: seq<Spaced>, i: nat, at: nat): nat
    requires i <= |tokens|
    decreases tokens, 1, |tokens| - i
  {
    if i == |tokens| then 0
    else
      var next := at + |SpacedText(tokens[i])|;
      FoundInside(x, printable, bindings, tokens[i], at)
      + (if StartsChain(bindings, tokens, i) then FoundInChain(x, printable, tokens, i + 1, next) else 0)
      + Found(x, printable, bindings, tokens, i + 1, next)
  }

  function FoundInside(x: Edit, printable: char -> bool, bindings: set<string>, t: Spaced, at: nat): nat
    decreases t, 0
  {
    match t.token
    case Group(_, inner) => Found(x, printable, bindings, inner.tokens, 0, at + |t.gap| + 1)
    case _ => 0
  }

  function FoundInChain(x: Edit, printable: char -> bool, tokens: seq<Spaced>, i: nat, at: nat): nat
    requires i <= |tokens|
    decreases |tokens| - i
  {
    if IsGroup(tokens, i, Bracket) then FoundInChain(x, printable, tokens, i + 1, at + |SpacedText(tokens[i])|)
    else if IsMember(tokens, i) then
      AsCount(x, MemberEdit(printable, tokens, i, at))
      + FoundInChain(x, printable, tokens, i + 2, at + |SpacedText(tokens[i])| + |SpacedText(tokens[i + 1])|)
    else 0
  }

  /** Outside a chain, both orders have the same edits. */
  lemma {:induction false} UnchainedSame(x: Edit, printable: char -> bool, bindings: set<string>, tokens: seq<Spaced>,
      i: nat, at: nat)
    requires i <= |tokens|
    ensures InText(x, printable, bindings, tokens, i, false, at) == Found(x, printable, bindings, tokens, i, at)
    decreases tokens, 1, |tokens| - i, 0
  {
    if i < |tokens| {
      var next := at + |SpacedText(tokens[i])|;
      InsideSame(x, printable, bindings, tokens[i], at);
      if StartsChain(bindings, tokens, i) {
        ChainedSame(x, printable, bindings, tokens, i + 1, next);
      } else {
        UnchainedSame(x, printable, bindings, tokens, i + 1, next);
      }
    }
  }

  lemma {:induction false} InsideSame(x: Edit, printable: char -> bool, bindings: set<string>, t: Spaced, at: nat)
    ensures InTextInside(x, printable, bindings, t, at) == FoundInside(x, printable, bindings, t, at)
    decreases t, 0
  {
    if t.token.Group? {
      UnchainedSame(x, printable, bindings, t.token.inner.tokens, 0, at + |t.gap| + 1);
    }
  }

  /** Inside a chain, the text order mixes the chain's own edits with those of the indices between them. */
  lemma {:induction false} ChainedSame(x: Edit, printable: char -> bool, bindings: set<string>, tokens: seq<Spaced>,
      i: nat, at: nat)
    requires i <= |tokens|
    ensures InText(x, printable, bindings, tokens, i, true, at)
            == FoundInChain(x, printable, tokens, i, at) + Found(x, printable, bindings, tokens, i, at)
    decreases tokens, 1, |tokens| - i, 1
  {
    if IsMember(tokens, i) {
      ChainedSame(x, printable, bindings, tokens, i + 2, at + |SpacedText(tokens[i])| + |SpacedText(tokens[i + 1])|);
      MemberIsSkipped(x, printable, bindings, tokens, i, at);
    } else if IsGroup(tokens, i, Bracket) {
      InsideSame(x, printable, bindings, tokens[i], at);
      ChainedSame(x, printable, bindings, tokens, i + 1, at + |SpacedText(tokens[i])|);
    } else {
      UnchainedSame(x, printable, bindings, tokens, i, at);
    }
  }

  lemma MemberIsSkipped(x: Edit, printable: char -> bool, bindings: set<string>, tokens: seq<Spaced>, i: nat, at: nat)
    requires IsMember(tokens, i)
    ensures Found(x, printable, bindings, tokens, i, at)
            == Found(x, printable, bindings, tokens, i + 2, at + |SpacedText(tokens[i])| + |SpacedText(tokens[i + 1])|)
  {
    assert !StartsChain(bindings, tokens, i) && AfterPath(tokens, i + 1);
    assert Found(x, printable, bindings, tokens, i, at)
        == Found(x, printable, bindings, tokens, i + 1, at + |SpacedText(tokens[i])|);
  }

  lemma {:induction false} TextCounts(x: Edit, printable: char -> bool, bindings: set<string>, tokens: seq<Spaced>,
      i: nat, chained: bool, at: nat)
    requires i <= |tokens|
    ensures Count(x, EditsOf(CutFrom(printable, bindings, tokens, i, chained), at))
            == InText(x, printable, bindings, tokens, i, chained, at)
    decreases tokens, 1, |tokens| - i, 1
  {
    if i < |tokens| {
      if chained && IsMember(tokens, i) {
        TextMember(x, printable, bindings, tokens, i, at);
      } else {
        TextToken(x, printable, bindings, tokens, i, chained, at);
      }
    }
  }

  lemma {:induction false} TextMember(x: Edit, printable: char -> bool, bindings: set<string>, tokens: seq<Spaced>,
      i: nat, at: nat)
    requires IsMember(tokens, i)
    ensures Count(x, EditsOf(CutFrom(printable, bindings, tokens, i, true), at))
            == InText(x, printable, bindings, tokens, i, true, at)
    decreases tokens, 1, |tokens| - i, 0
  {
    var rest := CutFrom(printable, bindings, tokens, i + 2, true);
    TextCounts(x, printable, bindings, tokens, i + 2, true, at + |SpacedText(tokens[i])| + |SpacedText(tokens[i + 1])|);
    MemberCounts(x, printable, tokens, i, rest, at);
    assert CutFrom(printable, bindings, tokens, i, true) == CutMember(printable, tokens, i) + rest;
  }

  lemma {:induction false} TextToken(x: Edit, printable: char -> bool, bindings: set<string>, tokens: seq<Spaced>,
      i: nat, chained: bool, at: nat)
    requires i < |tokens| && !(chained && IsMember(tokens, i))
    ensures Count(x, EditsOf(CutFrom(printable, bindings, tokens, i, chained), at))
            == InText(x, printable, bindings, tokens, i, chained, at)
    decreases tokens, 1, |tokens| - i, 0
  {
    var starts := Chains(bindings, tokens, i, chained);
    var rest := CutFrom(printable, bindings, tokens, i + 1, starts);
    var next := at + |SpacedText(tokens[i])|;
    assert CutFrom(printable, bindings, tokens, i, chained) == CutToken(printable, bindings, tokens, i) + rest;
    assert InText(x, printable, bindings, tokens, i, chained, at)
        == InTextInside(x, printable, bindings, tokens[i], at)
            + InText(x, printable, bindings, tokens, i + 1, starts, next);
    CutCounts(x, printable, bindings, tokens, i, rest, at);
    TokenCounts(x, printable, bindings, tokens, i, at);
    TextCounts(x, printable, bindings, tokens, i + 1, starts, next);
  }

  lemma CutCounts(x: Edit, printable: char -> bool, bindings: set<string>, tokens: seq<Spaced>, i: nat,
      rest: seq<Piece>, at: nat)
    requires i < |tokens|
    ensures Count(x, EditsOf(CutToken(printable, bindings, tokens, i) + rest, at))
            == Count(x, EditsOf(CutToken(printable, bindings, tokens, i), at))
                + Count(x, EditsOf(rest, at + |SpacedText(tokens[i])|))
  {
    var first := CutToken(printable, bindings, tokens, i);
    TokenPrintsBoth(printable, bindings, tokens, i);
    EditsConcat(first, rest, at);
    CountConcat(x, EditsOf(first, at), EditsOf(rest, at + |SpacedText(tokens[i])|));
  }

  lemma CutGroupEdits(printable: char -> bool, bindings: set<string>, tokens: seq<Spaced>, i: nat, at: nat)
    requires i < |tokens| && tokens[i].token.Group?
    ensures EditsOf(CutToken(printable, bindings, tokens, i), at)
            == EditsOf(CutFrom(printable, bindings, tokens[i].token.inner.tokens, 0, false), at + |tokens[i].gap| + 1)
  {
    var Group(d, inner) := tokens[i].token;
    EditsInside(tokens[i].gap + Opening(d), CutFrom(printable, bindings, inner.tokens, 0, false),
        inner.tail + Closing(d), at);
  }

  lemma {:induction false} TokenCounts(x: Edit, printable: char -> bool, bindings: set<string>, tokens: seq<Spaced>,
      i: nat, at: nat)
    requires i < |tokens|
    ensures Count(x, EditsOf(CutToken(printable, bindings, tokens, i), at))
            == InTextInside(x, printable, bindings, tokens[i], at)
    decreases tokens, 0
  {
    match tokens[i].token {
      case Group(d, inner) =>
        CutGroupEdits(printable, bindings, tokens, i, at);
        TextCounts(x, printable, bindings, inner.tokens, 0, false, at + |tokens[i].gap| + 1);
      case _ => OnePiece(Kept(SpacedText(tokens[i])), at);
    }
  }

  lemma MemberWidth(printable: char -> bool, tokens: seq<Spaced>, i: nat)
    requires IsMember(tokens, i)
    ensures |Before(CutMember(printable, tokens, i))| == |SpacedText(tokens[i])| + |SpacedText(tokens[i + 1])|
  {
    MemberPrints(printable, tokens, i);
  }

  lemma OneEditFirst(x: Edit, cut: seq<Piece>, e: Edit, rest: seq<Piece>, at: nat, next: nat)
    requires EditsOf(cut, at) == [e] && next == at + |Before(cut)|
    ensures Count(x, EditsOf(cut + rest, at)) == AsCount(x, e) + Count(x, EditsOf(rest, next))
  {
    var more := EditsOf(rest, next);
    EditsConcat(cut, rest, at);
    CountOne(x, e, more);
  }

  lemma MemberCounts(x: Edit, printable: char -> bool, tokens: seq<Spaced>, i: nat, rest: seq<Piece>, at: nat)
    requires IsMember(tokens, i)
    ensures Count(x, EditsOf(CutMember(printable, tokens, i) + rest, at))
            == AsCount(x, MemberEdit(printable, tokens, i, at))
               + Count(x, EditsOf(rest, at + |SpacedText(tokens[i])| + |SpacedText(tokens[i + 1])|))
  {
    var cut, e := CutMember(printable, tokens, i), MemberEdit(printable, tokens, i, at);
    var next := at + |SpacedText(tokens[i])| + |SpacedText(tokens[i + 1])|;
    assert EditsOf(cut, at) == [e] by { CutMemberEdit(printable, tokens, i, at); }
    assert next == at + |Before(cut)| by { MemberWidth(printable, tokens, i); }
    OneEditFirst(x, cut, e, rest, at, next);
  }

  lemma {:induction false} CollectedCounts(x: Edit, printable: char -> bool, bindings: set<string>, tokens: seq<Spaced>,
      i: nat, at: nat)
    requires i <= |tokens|
    ensures Count(x, Collected(printable, bindings, tokens, i, at)) == Found(x, printable, bindings, tokens, i, at)
    decreases tokens, 1, |tokens| - i
  {
    if i < |tokens| {
      var next := at + |SpacedText(tokens[i])|;
      InsideCounts(x, printable, bindings, tokens, i, at);
      ChainCounts(x, printable, tokens, i + 1, next);
      CollectedCounts(x, printable, bindings, tokens, i + 1, next);
      CountThree(x, Inside(printable, bindings, tokens, i, at), OfChain(printable, bindings, tokens, i, at),
          Collected(printable, bindings, tokens, i + 1, next));
    }
  }

  lemma {:induction false} InsideCounts(x: Edit, printable: char -> bool, bindings: set<string>, tokens: seq<Spaced>,
      i: nat, at: nat)
    requires i < |tokens|
    ensures Count(x, Inside(printable, bindings, tokens, i, at)) == FoundInside(x, printable, bindings, tokens[i], at)
    decreases tokens, 0
  {
    if tokens[i].token.Group? {
      CollectedCounts(x, printable, bindings, tokens[i].token.inner.tokens, 0, at + |tokens[i].gap| + 1);
    }
  }

  lemma {:induction false} ChainCounts(x: Edit, printable: char -> bool, tokens: seq<Spaced>, i: nat, at: nat)
    requires i <= |tokens|
    ensures Count(x, ChainEdits(printable, tokens, i, at)) == FoundInChain(x, printable, tokens, i, at)
    decreases |tokens| - i
  {
    if IsGroup(tokens, i, Bracket) {
      ChainCounts(x, printable, tokens, i + 1, at + |SpacedText(tokens[i])|);
    } else if IsMember(tokens, i) {
      var next := at + |SpacedText(tokens[i])| + |SpacedText(tokens[i + 1])|;
      ChainCounts(x, printable, tokens, i + 2, next);
      CountOne(x, MemberEdit(printable, tokens, i, at), ChainEdits(printable, tokens, i + 2, next));
    }
  }

  predicate Filled(pieces: seq<Piece>) {
    forall p <- pieces :: p.Swapped? ==> p.was != ""
  }

  lemma {:induction false} FilledIsProper(pieces: seq<Piece>, at: nat)
    requires Filled(pieces)
    ensures Proper(EditsOf(pieces, at))
  {
    if pieces != [] {
      assert pieces[0] in pieces;
      FilledIsProper(pieces[1..], at + |OldText(pieces[0])|);
    }
  }

  lemma {:induction false} PiecesAreFilled(printable: char -> bool, bindings: set<string>, tokens: seq<Spaced>, i: nat,
      chained: bool)
    requires i <= |tokens|
    ensures Filled(CutFrom(printable, bindings, tokens, i, chained))
    decreases tokens, |tokens| - i
  {
    if i < |tokens| {
      if chained && IsMember(tokens, i) {
        PiecesAreFilled(printable, bindings, tokens, i + 2, true);
      } else {
        PiecesAreFilled(printable, bindings, tokens, i + 1, Chains(bindings, tokens, i, chained));
        if tokens[i].token.Group? {
          PiecesAreFilled(printable, bindings, tokens[i].token.inner.tokens, 0, false);
        }
      }
    }
  }

  /** Sorting the edits as they are found gives the edits in the order of the text, which do not overlap. */
  lemma SortedEdits(printable: char -> bool, bindings: set<string>, tokens: seq<Spaced>)
    ensures SortEdits(Collected(printable, bindings, tokens, 0, 0))
            == EditsOf(CutFrom(printable, bindings, tokens, 0, false), 0)
  {
    var pieces := CutFrom(printable, bindings, tokens, 0, false);
    forall x ensures Count(x, Collected(printable, bindings, tokens, 0, 0)) == Count(x, EditsOf(pieces, 0)) {
      UnchainedSame(x, printable, bindings, tokens, 0, 0);
      TextCounts(x, printable, bindings, tokens, 0, false, 0);
      CollectedCounts(x, printable, bindings, tokens, 0, 0);
    }
    SameCounts(Collected(printable, bindings, tokens, 0, 0), EditsOf(pieces, 0));
    PiecesAreFilled(printable, bindings, tokens, 0, false);
    FilledIsProper(pieces, 0);
    EditsOfFit(pieces, 0);
    SortFinds(Collected(printable, bindings, tokens, 0, 0), EditsOf(pieces, 0), 0, |Before(pieces)|);
  }

  // The loops -------------------------------------------------------------------------------------

  method IsRoot(t: Token, bindings: set<string>) returns (b: bool)
    ensures b == Root(bindings, t)
    decreases t, 0
  {
    match t {
      case Ident(name) => b := name in bindings;
      case Group(d, inner) =>
        if d != Parenthesis {
          return false;
        }
        var end := FindChainEnd(inner.tokens, 0, bindings);
        b := end == Some(|inner.tokens|);
      case _ => b := false;
    }
  }

  method FindChainEnd(tokens: seq<Spaced>, start: nat, bindings: set<string>) returns (r: Option<nat>)
    ensures r == if start < |tokens| && Root(bindings, tokens[start].token) then Some(ChainStop(tokens, start + 1))
            else None
    decreases tokens, 1
  {
    if start >= |tokens| {
      return None;
    }
    var rooted := IsRoot(tokens[start].token, bindings);
    if !rooted {
      return None;
    }
    var end := start + 1;
    while end < |tokens|
      invariant end <= |tokens| && ChainStop(tokens, end) == ChainStop(tokens, start + 1)
    {
      if IsGroup(tokens, end, Bracket) {
        end := end + 1;
      } else if IsPunct(tokens, end, '.') && IsIdent(tokens, end + 1) {
        if IsGroup(tokens, end + 2, Parenthesis) {
          break;
        }
        end := end + 2;
      } else {
        break;
      }
    }
    r := Some(end);
  }

  /** What has been pushed, and the chain's edits from a token on, are all the chain's edits. */
  predicate Pushing(printable: char -> bool, tokens: seq<Spaced>, i: nat, at: nat, end: nat, items: seq<Edit>,
      whole: seq<Edit>) {
    i <= |tokens| && ChainStop(tokens, i) == end && items + ChainEdits(printable, tokens, i, at) == whole
  }

  lemma PushMember(printable: char -> bool, tokens: seq<Spaced>, i: nat, at: nat, end: nat, items: seq<Edit>,
      whole: seq<Edit>)
    requires Pushing(printable, tokens, i, at, end, items, whole) && IsMember(tokens, i)
    ensures Pushing(printable, tokens, i + 2, at + |SpacedText(tokens[i])| + |SpacedText(tokens[i + 1])|, end,
                    items + [MemberEdit(printable, tokens, i, at)], whole)
  {
    var rest := ChainEdits(printable, tokens, i + 2, at + |SpacedText(tokens[i])| + |SpacedText(tokens[i + 1])|);
    JoinTwice(items, [MemberEdit(printable, tokens, i, at)], rest);
  }

  lemma PushIndex(printable: char -> bool, tokens: seq<Spaced>, i: nat, at: nat, end: nat, items: seq<Edit>,
      whole: seq<Edit>)
    requires Pushing(printable, tokens, i, at, end, items, whole) && i < end && !IsPunct(tokens, i, '.')
    ensures Pushing(printable, tokens, i + 1, at + |SpacedText(tokens[i])|, end, items, whole)
  {
  }

  method PushMembers(printable: char -> bool, tokens: seq<Spaced>, from: nat, end: nat, base: nat, list: EditList)
    requires from <= |tokens| && end == ChainStop(tokens, from)
    modifies list
    ensures list.items == old(list.items) + ChainEdits(printable, tokens, from, base)
  {
    var member, at: nat := from, base;
    ghost var whole := list.items + ChainEdits(printable, tokens, from, base);
    while member < end
      invariant Pushing(printable, tokens, member, at, end, list.items, whole)
      decreases end - member
    {
      if IsPunct(tokens, member, '.') {
        PushMember(printable, tokens, member, at, end, list.items, whole);
        list.Push(MemberEdit(printable, tokens, member, at));
        at := at + |SpacedText(tokens[member])| + |SpacedText(tokens[member + 1])|;
        member := member + 2;
      } else {
        PushIndex(printable, tokens, member, at, end, list.items, whole);
        at := at + |SpacedText(tokens[member])|;
        member := member + 1;
      }
    }
    PushedAll(printable, tokens, member, at, end, list.items, whole);
  }

  lemma PushedAll(printable: char -> bool, tokens: seq<Spaced>, i: nat, at: nat, end: nat, items: seq<Edit>,
      whole: seq<Edit>)
    requires Pushing(printable, tokens, i, at, end, items, whole) && i >= end
    ensures items == whole
  {
    assert items + [] == items;
  }

  method Collect(printable: char -> bool, tokens: seq<Spaced>, base: nat, bindings: set<string>, list: EditList)
    modifies list
    ensures list.items == old(list.items) + Collected(printable, bindings, tokens, 0, base)
    decreases tokens
  {
    var at: nat := base;
    for index := 0 to |tokens|
      invariant list.items + Collected(printable, bindings, tokens, index, at)
               == old(list.items) + Collected(printable, bindings, tokens, 0, base)
    {
      ghost var before := list.items;
      ghost var inside, chain := Inside(printable, bindings, tokens, index, at),
          OfChain(printable, bindings, tokens, index, at);
      var next := at + |SpacedText(tokens[index])|;
      match tokens[index].token {
        case Group(_, inner) => Collect(printable, inner.tokens, at + |tokens[index].gap| + 1, bindings, list);
        case _ => assert before + [] == before;
      }
      assert list.items == before + inside;
      if !AfterPath(tokens, index) {
        var end := FindChainEnd(tokens, index, bindings);
        if end.Some? {
          PushMembers(printable, tokens, index + 1, end.value, next, list);
        }
      }
      FourTogether(before, inside, chain, Collected(printable, bindings, tokens, index + 1, next));
      at := next;
    }
    assert list.items + [] == list.items;
  }

  lemma FourTogether(a: seq<Edit>, b: seq<Edit>, c: seq<Edit>, d: seq<Edit>)
    ensures a + (b + c + d) == a + b + c + d
    ensures a + b + [] == a + b
  {
  }

  /** Rewrites members in code whose tokens have been read: no guard fires, the result is the rewritten tree's text. */
  method RewriteMembers(code: string, parsed: Stream, bindings: set<string>,
      printable: char -> bool) returns (r: Option<string>)
    requires code == StreamText(parsed)
    ensures r == Some(StreamText(Rewritten(printable, bindings, parsed)))
  {
    if bindings == {} {
      NoBindings(printable, parsed.tokens, 0, false);
      assert parsed.tokens[0..] == parsed.tokens;
      return Some(code);
    }
    var list := new EditList();
    Collect(printable, parsed.tokens, 0, bindings, list);
    ghost var pieces := CutFrom(printable, bindings, parsed.tokens, 0, false);
    assert list.items == Collected(printable, bindings, parsed.tokens, 0, 0);
    SortedEdits(printable, bindings, parsed.tokens);
    PiecesPrint(printable, bindings, parsed.tokens, 0, false);
    assert parsed.tokens[0..] == parsed.tokens;
    SplicesWhole(code, pieces, parsed.tail);
    r := Splice(code, SortEdits(list.items));
  }

  lemma NoRoots(t: Token)
    ensures !Root({}, t)
    decreases t
  {
    if t.Group? && t.inner.tokens != [] {
      NoRoots(t.inner.tokens[0].token);
    }
  }

  lemma {:induction false} NoBindings(printable: char -> bool, tokens: seq<Spaced>, i: nat, chained: bool)
    requires i <= |tokens| && !chained
    ensures RewrittenFrom(printable, {}, tokens, i, chained) == tokens[i..]
    decreases tokens, |tokens| - i
  {
    if i < |tokens| {
      NoRoots(tokens[i].token);
      NoBindings(printable, tokens, i + 1, false);
      if tokens[i].token.Group? {
        NoBindings(printable, tokens[i].token.inner.tokens, 0, false);
        assert tokens[i].token.inner.tokens[0..] == tokens[i].token.inner.tokens;
      }
      assert RewrittenSpaced(printable, {}, tokens, i) == tokens[i];
      assert tokens[i..] == [tokens[i]] + tokens[i + 1..];
    } else {
      assert tokens[i..] == [];
    }
  }
}
