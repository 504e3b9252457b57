/** Rewriting members leaves none: a second rewriting changes nothing. */
module MemberFixpoint {
  import opened TokenTrees
  import opened MemberRewriting

  /** Whether a name is a field or a path segment is decided alike at both places. */
  predicate SameBefore(xs: seq<Spaced>, i: int, ys: seq<Spaced>, j: int) {
    && IsPunct(xs, i - 1, '.') == IsPunct(ys, j - 1, '.')
    && IsPunct(xs, i - 1, ':') == IsPunct(ys, j - 1, ':')
    && (IsPunct(xs, i - 1, ':') ==> IsPunct(xs, i - 2, ':') == IsPunct(ys, j - 2, ':'))
  }

  predicate SameKind(s: Token, t: Token) {
    match s
    case Group(d, _) => t.Group? && t.delimiter == d
    case _ => s == t
  }

  lemma KindIsKept(printable: char -> bool, bindings: set<string>, tokens: seq<Spaced>, i: nat)
    requires i < |tokens|
    ensures SameKind(tokens[i].token, RewrittenSpaced(printable, bindings, tokens, i).token)
  {
  }

  /** The first rewritten token where no member is replaced. */
  lemma FirstKept(printable: char -> bool, bindings: set<string>, tokens: seq<Spaced>, i: nat, chained: bool)
    requires i < |tokens| && !(chained && IsMember(tokens, i))
    ensures var r := RewrittenFrom(printable, bindings, tokens, i, chained);
            r != [] && r[0] == RewrittenSpaced(printable, bindings, tokens, i)
            && r[1..] == RewrittenFrom(printable, bindings, tokens, i + 1, Chains(bindings, tokens, i, chained))
  {
  }

  /** What is no member is none after the rewriting. */
  lemma NoNewMember(printable: char -> bool, bindings: set<string>, tokens: seq<Spaced>, i: nat, chained: bool)
    requires i < |tokens| && !(chained && IsMember(tokens, i))
    ensures IsMember(RewrittenFrom(printable, bindings, tokens, i, chained), 0) ==> IsMember(tokens, i)
  {
    FirstKept(printable, bindings, tokens, i, chained);
    if IsPunct(tokens, i, '.') && i + 1 < |tokens| {
      assert !Chains(bindings, tokens, i, chained);
      FirstKept(printable, bindings, tokens, i + 1, false);
      KindIsKept(printable, bindings, tokens, i + 1);
      if IsIdent(tokens, i + 1) && i + 2 < |tokens| {
        assert !Chains(bindings, tokens, i + 1, false);
        FirstKept(printable, bindings, tokens, i + 2, false);
        KindIsKept(printable, bindings, tokens, i + 2);
        var r := RewrittenFrom(printable, bindings, tokens, i, chained);
        assert r[2] == r[1..][1..][0];
      }
    }
  }

  lemma MemberAfter(front: seq<Spaced>, rest: seq<Spaced>)
    ensures IsMember(front + rest, |front|) == IsMember(rest, 0)
  {
  }

  lemma GroupAfter(front: seq<Spaced>, rest: seq<Spaced>)
    ensures IsGroup(front + rest, |front|, Bracket) == IsGroup(rest, 0, Bracket)
  {
  }

  /** A field of a chain and a subscript of one are rewritten to subscripts. */
  lemma LinkIsBracket(printable: char -> bool, bindings: set<string>, tokens: seq<Spaced>, i: nat)
    requires i < |tokens| && (IsMember(tokens, i) || IsGroup(tokens, i, Bracket))
    ensures IsGroup(RewrittenFrom(printable, bindings, tokens, i, true), 0, Bracket)
  {
    var rest := RewrittenFrom(printable, bindings, tokens, i, true);
    if IsMember(tokens, i) {
      assert rest[0].token == IndexToken(printable, tokens[i + 1].token.name);
    } else {
      assert rest[0] == RewrittenSpaced(printable, bindings, tokens, i);
      assert rest[0].token.Group? && rest[0].token.delimiter == tokens[i].token.delimiter;
    }
  }

  lemma {:induction false} StopIsKept(printable: char -> bool, bindings: set<string>, tokens: seq<Spaced>, i: nat,
      front: seq<Spaced>)
    requires i <= |tokens|
    ensures var out := front + RewrittenFrom(printable, bindings, tokens, i, true);
            ChainStop(out, |front|) == |out| <==> ChainStop(tokens, i) == |tokens|
    decreases |tokens| - i
  {
    var rest := RewrittenFrom(printable, bindings, tokens, i, true);
    var out := front + rest;
    if i < |tokens| {
      assert out[|front|] == rest[0];
      if IsMember(tokens, i) || IsGroup(tokens, i, Bracket) {
        var next := if IsMember(tokens, i) then i + 2 else i + 1;
        StopIsKept(printable, bindings, tokens, next, front + [rest[0]]);
        assert rest[1..] == RewrittenFrom(printable, bindings, tokens, next, true);
        assert (front + [rest[0]]) + rest[1..] == out;
        LinkIsBracket(printable, bindings, tokens, i);
        GroupAfter(front, rest);
      } else {
        NoNewMember(printable, bindings, tokens, i, true);
        FirstKept(printable, bindings, tokens, i, true);
        KindIsKept(printable, bindings, tokens, i);
        MemberAfter(front, rest);
      }
    }
  }

  lemma {:induction false} RootIsKept(printable: char -> bool, bindings: set<string>, tokens: seq<Spaced>, i: nat)
    requires i < |tokens|
    ensures Root(bindings, RewrittenSpaced(printable, bindings, tokens, i).token) == Root(bindings, tokens[i].token)
    decreases tokens
  {
    if tokens[i].token.Group? && tokens[i].token.inner.tokens == [] {
      assert RewrittenFrom(printable, bindings, tokens[i].token.inner.tokens, 0, false) == [];
    } else if tokens[i].token.Group? {
      var inside := tokens[i].token.inner.tokens;
      var out := RewrittenFrom(printable, bindings, inside, 0, false);
      FirstKept(printable, bindings, inside, 0, false);
      RootIsKept(printable, bindings, inside, 0);
      assert IsChain(bindings, out) == IsChain(bindings, inside) by {
        if Root(bindings, inside[0].token) {
          StopIsKept(printable, bindings, inside, 1, [out[0]]);
          assert [out[0]] + out[1..] == out;
        }
      }
    }
  }

  /** Rewriting again from where the rewritten tokens start gives the same tokens. */
  lemma {:induction false} Settled(printable: char -> bool, bindings: set<string>, tokens: seq<Spaced>, i: nat,
      chained: bool, front: seq<Spaced>)
    requires i <= |tokens| && SameBefore(tokens, i, front, |front|)
    ensures var rest := RewrittenFrom(printable, bindings, tokens, i, chained);
            RewrittenFrom(printable, bindings, front + rest, |front|, chained) == rest
    decreases tokens, 1, |tokens| - i, 1
  {
    if i < |tokens| {
      if chained && IsMember(tokens, i) {
        SettledMember(printable, bindings, tokens, i, front);
      } else {
        SettledToken(printable, bindings, tokens, i, chained, front);
      }
    }
  }

  lemma {:induction false} SettledMember(printable: char -> bool, bindings: set<string>, tokens: seq<Spaced>, i: nat,
      front: seq<Spaced>)
    requires IsMember(tokens, i) && SameBefore(tokens, i, front, |front|)
    ensures var rest := RewrittenFrom(printable, bindings, tokens, i, true);
            RewrittenFrom(printable, bindings, front + rest, |front|, true) == rest
    decreases tokens, 1, |tokens| - i, 0
  {
    var rest := RewrittenFrom(printable, bindings, tokens, i, true);
    var out, k := front + rest, |front|;
    assert rest[1..] == RewrittenFrom(printable, bindings, tokens, i + 2, true);
    Settled(printable, bindings, tokens, i + 2, true, front + [rest[0]]);
    assert (front + [rest[0]]) + rest[1..] == out;
    assert out[k] == rest[0];
    IndexIsSettled(printable, bindings, out, k, tokens[i + 1].token.name);
    SettledHere(printable, bindings, out, k, true, rest);
  }

  /** An index that the rewriting wrote goes on as it is, and with it the chain. */
  lemma IndexIsSettled(printable: char -> bool, bindings: set<string>, out: seq<Spaced>, k: nat, name: string)
    requires k < |out| && out[k].token == IndexToken(printable, name)
    ensures RewrittenSpaced(printable, bindings, out, k) == out[k] && IsGroup(out, k, Bracket)
  {
    var tokens := IndexToken(printable, name).inner.tokens;
    assert !Chains(bindings, tokens, 0, false);
    assert RewrittenFrom(printable, bindings, tokens, 1, false) == [];
    assert RewrittenFrom(printable, bindings, tokens, 0, false) == [tokens[0]] + [];
  }

  lemma SettledHere(printable: char -> bool, bindings: set<string>, out: seq<Spaced>, k: nat, chained: bool,
      rest: seq<Spaced>)
    requires k < |out| && rest != [] && out[k] == rest[0] && !(chained && IsMember(out, k))
    requires RewrittenSpaced(printable, bindings, out, k) == out[k]
    requires RewrittenFrom(printable, bindings, out, k + 1, Chains(bindings, out, k, chained)) == rest[1..]
    ensures RewrittenFrom(printable, bindings, out, k, chained) == rest
  {
    FirstKept(printable, bindings, out, k, chained);
    assert rest == [rest[0]] + rest[1..];
  }

  /** A token that is no member of a chain keeps its part in the rewritten tokens. */
  lemma TokenKeepsPart(printable: char -> bool, bindings: set<string>, tokens: seq<Spaced>, i: nat, chained: bool,
      front: seq<Spaced>)
    requires i < |tokens| && !(chained && IsMember(tokens, i)) && SameBefore(tokens, i, front, |front|)
    ensures var rest := RewrittenFrom(printable, bindings, tokens, i, chained);
            var out, k := front + rest, |front|;
            && rest != [] && out[k] == rest[0] == RewrittenSpaced(printable, bindings, tokens, i)
            && rest[1..] == RewrittenFrom(printable, bindings, tokens, i + 1, Chains(bindings, tokens, i, chained))
            && !(chained && IsMember(out, k))
            && Chains(bindings, out, k, chained) == Chains(bindings, tokens, i, chained)
            && SameBefore(tokens, i + 1, front + [rest[0]], k + 1)
  {
    var rest := RewrittenFrom(printable, bindings, tokens, i, chained);
    var out, k := front + rest, |front|;
    FirstKept(printable, bindings, tokens, i, chained);
    KindIsKept(printable, bindings, tokens, i);
    NoNewMember(printable, bindings, tokens, i, chained);
    MemberAfter(front, rest);
    RootIsKept(printable, bindings, tokens, i);
    assert SameBefore(tokens, i, out, k);
  }

  lemma {:induction false} SettledToken(printable: char -> bool, bindings: set<string>, tokens: seq<Spaced>, i: nat,
      chained: bool, front: seq<Spaced>)
    requires i < |tokens| && !(chained && IsMember(tokens, i)) && SameBefore(tokens, i, front, |front|)
    ensures var rest := RewrittenFrom(printable, bindings, tokens, i, chained);
            RewrittenFrom(printable, bindings, front + rest, |front|, chained) == rest
    decreases tokens, 1, |tokens| - i, 0
  {
    var rest := RewrittenFrom(printable, bindings, tokens, i, chained);
    var out, k := front + rest, |front|;
    TokenKeepsPart(printable, bindings, tokens, i, chained, front);
    Settled(printable, bindings, tokens, i + 1, Chains(bindings, tokens, i, chained), front + [rest[0]]);
    assert (front + [rest[0]]) + rest[1..] == out;
    InsideIsSettled(printable, bindings, tokens, i, out, k);
    SettledHere(printable, bindings, out, k, chained, rest);
  }

  lemma {:induction false} InsideIsSettled(printable: char -> bool, bindings: set<string>, tokens: seq<Spaced>, i: nat,
      out: seq<Spaced>, k: nat)
    requires i < |tokens| && k < |out| && out[k] == RewrittenSpaced(printable, bindings, tokens, i)
    ensures RewrittenSpaced(printable, bindings, out, k) == out[k]
    decreases tokens, 0
  {
    if tokens[i].token.Group? {
      MembersAreGone(printable, bindings, tokens[i].token.inner);
    }
  }

  /** The rewriting is idempotent. */
  lemma {:induction false} MembersAreGone(printable: char -> bool, bindings: set<string>, s: Stream)
    ensures Rewritten(printable, bindings, Rewritten(printable, bindings, s)) == Rewritten(printable, bindings, s)
    decreases s.tokens, 2
  {
    var out := RewrittenFrom(printable, bindings, s.tokens, 0, false);
    Settled(printable, bindings, s.tokens, 0, false, []);
    assert [] + out == out;
  }
}
