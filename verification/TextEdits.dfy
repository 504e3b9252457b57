/** Edits to a text: what they make of it, how they are sorted, and how they are spliced in. */
module TextEdits {
  import opened Text
  import opened TokenTrees

  // Edits -------------------------------------------------------------------------------------

  datatype Edit = Edit(start: nat, end: nat, text: string)

  /** Edits in order, apart from each other, and within the bounds. */
  predicate Fit(edits: seq<Edit>, from: nat, to: nat) {
    if edits == [] then from <= to
    else from <= edits[0].start <= edits[0].end && Fit(edits[1..], edits[0].end, to)
  }

  lemma {:induction false} FitBounds(edits: seq<Edit>, from: nat, to: nat)
    requires Fit(edits, from, to)
    ensures from <= to
    ensures forall e <- edits :: from <= e.start <= e.end <= to
  {
    if edits != [] {
      FitBounds(edits[1..], edits[0].end, to);
      forall e <- edits ensures from <= e.start <= e.end <= to {
        assert e == edits[0] || e in edits[1..];
      }
    }
  }

  /** The code from the cursor on, after the edits. */
  function Spliced(code: string, cursor: nat, edits: seq<Edit>): string
    requires Fit(edits, cursor, |code|)
    decreases edits
  {
    if edits == [] then code[cursor..]
    else
      FitBounds(edits, cursor, |code|);
      code[cursor..edits[0].start] + edits[0].text + Spliced(code, edits[0].end, edits[1..])
  }

  lemma FitEarlier(edits: seq<Edit>, from: nat, mid: nat, to: nat)
    requires from <= mid && Fit(edits, mid, to)
    ensures Fit(edits, from, to)
  {
  }

  // Pieces ------------------------------------------------------------------------------------

  /** A stretch of text that stays, or one that another replaces. */
  datatype Piece = Kept(text: string) | Swapped(was: string, now: string)

  function Before(pieces: seq<Piece>): string {
    if pieces == [] then "" else OldText(pieces[0]) + Before(pieces[1..])
  }

  function OldText(p: Piece): string {
    if p.Kept? then p.text else p.was
  }

  function After(pieces: seq<Piece>): string {
    if pieces == [] then "" else NewText(pieces[0]) + After(pieces[1..])
  }

  function NewText(p: Piece): string {
    if p.Kept? then p.text else p.now
  }

  function EditsOf(pieces: seq<Piece>, at: nat): seq<Edit> {
    if pieces == [] then []
    else EditOf(pieces[0], at) + EditsOf(pieces[1..], at + |OldText(pieces[0])|)
  }

  function EditOf(p: Piece, at: nat): seq<Edit> {
    if p.Kept? then [] else [Edit(at, at + |p.was|, p.now)]
  }

  lemma {:induction false} TextsConcat(ps: seq<Piece>, qs: seq<Piece>)
    ensures Before(ps + qs) == Before(ps) + Before(qs)
    ensures After(ps + qs) == After(ps) + After(qs)
  {
    if ps == [] {
      assert ps + qs == qs;
    } else {
      assert (ps + qs)[0] == ps[0] && (ps + qs)[1..] == ps[1..] + qs;
      TextsConcat(ps[1..], qs);
      ConcatTwice(OldText(ps[0]), Before(ps[1..]), Before(qs));
      ConcatTwice(NewText(ps[0]), After(ps[1..]), After(qs));
    }
  }

  lemma JoinTwice(a: seq<Edit>, b: seq<Edit>, c: seq<Edit>)
    ensures a + (b + c) == (a + b) + c
  {
  }

  lemma {:induction false} EditsConcat(ps: seq<Piece>, qs: seq<Piece>, at: nat)
    ensures EditsOf(ps + qs, at) == EditsOf(ps, at) + EditsOf(qs, at + |Before(ps)|)
  {
    if ps == [] {
      assert ps + qs == qs;
    } else {
      assert (ps + qs)[0] == ps[0] && (ps + qs)[1..] == ps[1..] + qs;
      var later := at + |OldText(ps[0])|;
      EditsConcat(ps[1..], qs, later);
      JoinTwice(EditOf(ps[0], at), EditsOf(ps[1..], later), EditsOf(qs, later + |Before(ps[1..])|));
    }
  }

  lemma OnePiece(p: Piece, at: nat)
    ensures Before([p]) == OldText(p) && After([p]) == NewText(p) && EditsOf([p], at) == EditOf(p, at)
  {
    assert [p][1..] == [];
  }

  lemma {:induction false} EditsOfFit(pieces: seq<Piece>, at: nat)
    ensures Fit(EditsOf(pieces, at), at, at + |Before(pieces)|)
  {
    if pieces != [] {
      var p := pieces[0];
      var rest := EditsOf(pieces[1..], at + |OldText(p)|);
      EditsOfFit(pieces[1..], at + |OldText(p)|);
      if p.Kept? {
        assert EditsOf(pieces, at) == rest;
        FitEarlier(rest, at, at + |p.text|, at + |Before(pieces)|);
      } else {
        assert EditsOf(pieces, at)[1..] == rest;
      }
    }
  }

  /** Splicing the edits of the pieces into the text they make up replaces exactly those pieces. */
  lemma {:induction false} SplicedPieces(head: string, code: string, pieces: seq<Piece>)
    requires code == head + Before(pieces)
    ensures Fit(EditsOf(pieces, |head|), |head|, |code|)
    ensures Spliced(code, |head|, EditsOf(pieces, |head|)) == After(pieces)
    decreases pieces
  {
    EditsOfFit(pieces, |head|);
    if pieces != [] {
      var p := pieces[0];
      var next := head + OldText(p);
      var rest := EditsOf(pieces[1..], |next|);
      ConcatTwice(head, OldText(p), Before(pieces[1..]));
      SplicedPieces(next, code, pieces[1..]);
      if p.Kept? {
        assert EditsOf(pieces, |head|) == rest;
        SplicedLater(code, |head|, |next|, rest);
        assert code[|head|..|next|] == p.text;
      } else {
        SplicedNow(code, |head|, EditsOf(pieces, |head|), rest, p, |next|);
      }
    }
  }

  lemma SplicedNow(code: string, cursor: nat, edits: seq<Edit>, rest: seq<Edit>, p: Piece, next: nat)
    requires p.Swapped? && next == cursor + |p.was| && edits == EditOf(p, cursor) + rest
    requires Fit(edits, cursor, |code|) && Fit(rest, next, |code|)
    ensures Spliced(code, cursor, edits) == p.now + Spliced(code, next, rest)
  {
    assert edits[0] == Edit(cursor, next, p.now) && edits[1..] == rest;
    FitBounds(edits, cursor, |code|);
    assert code[cursor..cursor] + p.now == p.now;
  }

  lemma SplicedLater(code: string, cursor: nat, next: nat, edits: seq<Edit>)
    requires cursor <= next && Fit(edits, next, |code|) && Fit(edits, cursor, |code|)
    ensures next <= |code| && Spliced(code, cursor, edits) == code[cursor..next] + Spliced(code, next, edits)
  {
    FitBounds(edits, next, |code|);
    if edits != [] {
      var e := edits[0];
      assert code[cursor..e.start] == code[cursor..next] + code[next..e.start];
      ConcatThrice(code[cursor..next], code[next..e.start], e.text, Spliced(code, e.end, edits[1..]));
    }
  }

  // Sorting -----------------------------------------------------------------------------------

  /** A stable sort by start. */
  function SortEdits(edits: seq<Edit>): seq<Edit> {
    if edits == [] then [] else InsertEdit(edits[0], SortEdits(edits[1..]))
  }

  function InsertEdit(e: Edit, sorted: seq<Edit>): seq<Edit> {
    if sorted == [] || e.start <= sorted[0].start then [e] + sorted
    else [sorted[0]] + InsertEdit(e, sorted[1..])
  }

  /** Edits that replace something: no two of them can start together. */
  predicate Proper(edits: seq<Edit>) {
    forall e <- edits :: e.start < e.end
  }

  lemma {:induction false} SortedStays(edits: seq<Edit>, from: nat, to: nat)
    requires Fit(edits, from, to)
    ensures SortEdits(edits) == edits
  {
    if edits != [] {
      SortedStays(edits[1..], edits[0].end, to);
      assert edits == [edits[0]] + edits[1..];
    }
  }

  predicate Ascending(edits: seq<Edit>) {
    edits == [] || ((forall e <- edits[1..] :: edits[0].start <= e.start) && Ascending(edits[1..]))
  }

  lemma {:induction false} InsertAscends(e: Edit, sorted: seq<Edit>)
    requires Ascending(sorted)
    ensures Ascending(InsertEdit(e, sorted)) && multiset(InsertEdit(e, sorted)) == multiset{e} + multiset(sorted)
  {
    var r := InsertEdit(e, sorted);
    if sorted == [] || e.start <= sorted[0].start {
      assert r[0] == e && r[1..] == sorted;
      forall x <- sorted ensures e.start <= x.start {
        assert x == sorted[0] || x in sorted[1..];
      }
    } else {
      InsertAscends(e, sorted[1..]);
      var rest := InsertEdit(e, sorted[1..]);
      assert r[0] == sorted[0] && r[1..] == rest;
      assert sorted == [sorted[0]] + sorted[1..];
      forall x <- rest ensures sorted[0].start <= x.start {
        assert x in multiset(rest) && (x == e || x in multiset(sorted[1..]));
      }
    }
  }

  lemma {:induction false} SortAscends(edits: seq<Edit>)
    ensures Ascending(SortEdits(edits)) && multiset(SortEdits(edits)) == multiset(edits)
  {
    if edits != [] {
      SortAscends(edits[1..]);
      InsertAscends(edits[0], SortEdits(edits[1..]));
      assert edits == [edits[0]] + edits[1..];
    }
  }

  /** Edits that fit in some order are sorted into that order. */
  lemma SortFinds(edits: seq<Edit>, order: seq<Edit>, from: nat, to: nat)
    requires multiset(edits) == multiset(order) && Fit(order, from, to) && Proper(order)
    ensures SortEdits(edits) == order
  {
    SortAscends(edits);
    OneOrder(SortEdits(edits), order, from, to);
  }

  lemma TailContents(edits: seq<Edit>)
    requires edits != []
    ensures multiset(edits[1..]) == multiset(edits) - multiset{edits[0]}
  {
    assert edits == [edits[0]] + edits[1..];
  }

  lemma {:induction false} OneOrder(sorted: seq<Edit>, order: seq<Edit>, from: nat, to: nat)
    requires Ascending(sorted) && multiset(sorted) == multiset(order) && Fit(order, from, to) && Proper(order)
    ensures sorted == order
  {
    assert |sorted| == |multiset(sorted)| == |multiset(order)| == |order|;
    if order != [] {
      FirstIsFirst(sorted, order, from, to);
      TailContents(sorted);
      TailContents(order);
      OneOrder(sorted[1..], order[1..], order[0].end, to);
      assert sorted == [sorted[0]] + sorted[1..] && order == [order[0]] + order[1..];
    }
  }

  lemma FirstIsFirst(sorted: seq<Edit>, order: seq<Edit>, from: nat, to: nat)
    requires sorted != [] && order != []
    requires Ascending(sorted) && multiset(sorted) == multiset(order) && Fit(order, from, to) && Proper(order)
    ensures sorted[0] == order[0]
  {
    FitBounds(order[1..], order[0].end, to);
    assert sorted[0] in multiset(sorted) && order[0] in multiset(order);
    var x, y, xs, ys := sorted[0], order[0], sorted[1..], order[1..];
    assert x in order && y in sorted;
    assert x == y || (x in ys && y in xs);
  }

  // Splicing ----------------------------------------------------------------------------------

  /** What has been copied, followed by the edited rest of the code, is the whole result. */
  predicate Remains(code: string, cursor: nat, edits: seq<Edit>, output: string, whole: string) {
    cursor <= |code| && Fit(edits, cursor, |code|) && output + Spliced(code, cursor, edits) == whole
  }

  lemma RemainsStep(code: string, cursor: nat, edits: seq<Edit>, output: string, whole: string)
    requires edits != [] && Remains(code, cursor, edits, output, whole)
    ensures var e := edits[0];
            cursor <= e.start <= e.end <= |code| && Remains(code, e.end, edits[1..],
                output + code[cursor..e.start] + e.text, whole)
  {
    FitBounds(edits, cursor, |code|);
    var e := edits[0];
    var rest := Spliced(code, e.end, edits[1..]);
    ConcatTwice(output, code[cursor..e.start] + e.text, rest);
    ConcatTwice(output, code[cursor..e.start], e.text);
  }

  /** Copies the text around the edits, in order, and refuses edits that overlap or run past the end. */
  method Splice(code: string, edits: seq<Edit>) returns (r: Option<string>)
    requires forall e <- edits :: e.start <= e.end
    ensures Fit(edits, 0, |code|) ==> r == Some(Spliced(code, 0, edits))
    ensures !Fit(edits, 0, |code|) ==> r == None
  {
    var output := "";
    var cursor := 0;
    var index := 0;
    ghost var fits := Fit(edits, 0, |code|);
    ghost var whole := if fits then Spliced(code, 0, edits) else "";
    assert edits[0..] == edits && code[0..] == code;
    while index < |edits|
      invariant index <= |edits| && cursor <= |code|
      invariant Fit(edits[index..], cursor, |code|) == fits
      invariant fits ==> Remains(code, cursor, edits[index..], output, whole)
    {
      var Edit(start, end, text) := edits[index];
      assert edits[index..][0] == edits[index] && edits[index..][1..] == edits[index + 1..];
      if fits {
        RemainsStep(code, cursor, edits[index..], output, whole);
      }
      if start < cursor || end > |code| {
        return None;
      }
      output := output + code[cursor..start] + text;
      cursor := end;
      index := index + 1;
    }
    output := output + code[cursor..];
    r := Some(output);
  }

  class EditList {
    var items: seq<Edit>

    constructor ()
      ensures items == []
    {
      items := [];
    }

    method Push(e: Edit)
      modifies this
      ensures items == old(items) + [e]
    {
      items := items + [e];
    }
  }

  /** Blanks that stay, and what is replaced after them. */
  function Change(gap: string, was: string, now: string): seq<Piece> {
    [Kept(gap), Swapped(was, now)]
  }

  lemma ChangeTexts(gap: string, was: string, now: string)
    ensures Before(Change(gap, was, now)) == gap + was && After(Change(gap, was, now)) == gap + now
  {
    var pieces := Change(gap, was, now);
    assert pieces[1..] == [Swapped(was, now)];
    OnePiece(pieces[1], 0);
  }

  lemma GroupPieces(gap: string, d: Delimiter, inner: Stream, new_: Stream, inside: seq<Piece>)
    requires Before(inside) == TokensText(inner.tokens) && StreamText(new_) == After(inside) + inner.tail
    ensures var pieces := [Kept(gap + Opening(d))] + inside + [Kept(inner.tail + Closing(d))];
            && Before(pieces) == SpacedText(Spaced(gap, Group(d, inner)))
            && After(pieces) == StreamText(One(Spaced(gap, Group(d, new_))))
  {
    var front, back := Kept(gap + Opening(d)), Kept(inner.tail + Closing(d));
    TextsConcat([front] + inside, [back]);
    TextsConcat([front], inside);
    OnePiece(front, 0);
    OnePiece(back, 0);
    TokensTextOne(Spaced(gap, Group(d, new_)));
    GroupConcat(gap, Opening(d), Before(inside), inner.tail, Closing(d));
    GroupConcat(gap, Opening(d), After(inside), inner.tail, Closing(d));
  }

  lemma GroupConcat(gap: string, open: string, inside: string, tail: string, close: string)
    ensures (gap + open) + inside + (tail + close) == gap + (open + (inside + tail) + close)
  {
  }

  lemma ChangeEdits(gap: string, was: string, now: string, at: nat)
    ensures EditsOf(Change(gap, was, now), at) == [Edit(at + |gap|, at + |gap| + |was|, now)]
  {
    var pieces := Change(gap, was, now);
    assert pieces[1..] == [Swapped(was, now)];
    OnePiece(pieces[1], at + |gap|);
  }

  lemma EditsInside(front: string, inside: seq<Piece>, back: string, at: nat)
    ensures EditsOf([Kept(front)] + inside + [Kept(back)], at) == EditsOf(inside, at + |front|)
  {
    EditsConcat([Kept(front)] + inside, [Kept(back)], at);
    EditsConcat([Kept(front)], inside, at);
    OnePiece(Kept(front), at);
    OnePiece(Kept(back), at + |Before([Kept(front)] + inside)|);
  }

  lemma SplicesWhole(code: string, pieces: seq<Piece>, tail: string)
    requires code == Before(pieces) + tail
    ensures Fit(EditsOf(pieces, 0), 0, |code|) && Spliced(code, 0, EditsOf(pieces, 0)) == After(pieces) + tail
    ensures forall e <- EditsOf(pieces, 0) :: e.start <= e.end
  {
    var whole := pieces + [Kept(tail)];
    KeptLast(pieces, tail);
    assert "" + Before(whole) == Before(whole);
    SplicedPieces("", code, whole);
    FitBounds(EditsOf(pieces, 0), 0, |code|);
  }

  lemma KeptLast(pieces: seq<Piece>, tail: string)
    ensures var whole := pieces + [Kept(tail)];
            && EditsOf(whole, 0) == EditsOf(pieces, 0)
            && Before(whole) == Before(pieces) + tail && After(whole) == After(pieces) + tail
  {
    OnePiece(Kept(tail), |Before(pieces)|);
    TextsConcat(pieces, [Kept(tail)]);
    EditsConcat(pieces, [Kept(tail)], 0);
  }

  /** The same without guards: edits that overlapped would make it fail. */
  method SpliceUnguarded(code: string, edits: seq<Edit>) returns (output: string)
    requires Fit(edits, 0, |code|)
    ensures output == Spliced(code, 0, edits)
  {
    output := "";
    var cursor := 0;
    ghost var whole := Spliced(code, 0, edits);
    assert edits[0..] == edits;
    for index := 0 to |edits|
      invariant cursor >= 0 && Remains(code, cursor, edits[index..], output, whole)
    {
      var Edit(start, end, text) := edits[index];
      assert edits[index..][0] == edits[index] && edits[index..][1..] == edits[index + 1..];
      RemainsStep(code, cursor, edits[index..], output, whole);
      output := output + code[cursor..start] + text;
      cursor := end;
    }
    output := output + code[cursor..];
  }

  lemma EditsGrow(before: seq<Edit>, done: seq<Piece>, pieces: seq<Piece>, base: nat)
    ensures (before + EditsOf(done, base)) + EditsOf(pieces, base + |Before(done)|)
            == before + EditsOf(done + pieces, base)
    ensures |Before(done + pieces)| == |Before(done)| + |Before(pieces)|
  {
    EditsConcat(done, pieces, base);
    TextsConcat(done, pieces);
    JoinTwice(before, EditsOf(done, base), EditsOf(pieces, base + |Before(done)|));
  }
}
