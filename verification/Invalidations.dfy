/** The list of query keys that an action invalidates, as the generated handlers keep it. */
module Invalidations {
  import opened Text

  datatype Entry = Entry(target: string, key: string)

  /** A target that a step invalidates, or that a `revalidate` names outright. */
  datatype Push = Push(target: string, explicit: bool)

  function StripStart(s: string, c: char): string {
    if s != "" && s[0] == c then StripStart(s[1..], c) else s
  }

  function StripEnd(s: string, c: char): string {
    if s != "" && s[|s| - 1] == c then StripEnd(s[..|s| - 1], c) else s
  }

  function Strip(s: string, c: char): string {
    StripEnd(StripStart(s, c), c)
  }

  function Dotted(s: string): string {
    if s == "" then "" else [if s[0] == '/' then '.' else s[0]] + Dotted(s[1..])
  }

  function Key(target: string): string {
    var value := Strip(Strip(Trim(target), '"'), '/');
    if value == "" then "root" else Dotted(value)
  }

  /** The position of a key's entry, or the length of the list. */
  function Position(entries: seq<Entry>, key: string): (i: nat)
    ensures i <= |entries|
    ensures i < |entries| ==> entries[i].key == key
    ensures forall j | 0 <= j < i :: entries[j].key != key
  {
    if entries == [] || entries[0].key == key then 0 else 1 + Position(entries[1..], key)
  }

  class InvalidationList {
    var entries: seq<Entry>

    constructor ()
      ensures entries == []
    {
      entries := [];
    }

    method Add(target: string, explicit: bool)
      modifies this
      ensures entries == Added(old(entries), Push(target, explicit))
    {
      var value := Entry(target, Key(target));
      var position := Position(entries, value.key);
      if position < |entries| {
        if explicit {
          entries := entries[position := value];
        }
      } else {
        entries := entries + [value];
      }
    }
  }

  function Added(entries: seq<Entry>, p: Push): seq<Entry> {
    var value := Entry(p.target, Key(p.target));
    var position := Position(entries, value.key);
    if position == |entries| then entries + [value]
    else if p.explicit then entries[position := value]
    else entries
  }

  method AddAll(pushes: seq<Push>) returns (list: InvalidationList)
    ensures list.entries == AfterAll(pushes)
  {
    list := new InvalidationList();
    assert pushes[..0] == [];
    for i := 0 to |pushes|
      invariant fresh(list) && list.entries == AfterAll(pushes[..i])
    {
      list.Add(pushes[i].target, pushes[i].explicit);
      assert pushes[..i + 1][..i] == pushes[..i] && pushes[..i + 1][i] == pushes[i];
    }
    assert pushes[..|pushes|] == pushes;
  }

  /** The list after a run of pushes. */
  function AfterAll(pushes: seq<Push>): seq<Entry> {
    if pushes == [] then [] else Added(AfterAll(pushes[..|pushes| - 1]), pushes[|pushes| - 1])
  }

  // What the list holds -----------------------------------------------------------------------

  /** The keys pushed, each once, in the order of their first pushes. */
  function FirstKeys(pushes: seq<Push>): seq<string> {
    if pushes == [] then [] else Grown(FirstKeys(pushes[..|pushes| - 1]), Key(pushes[|pushes| - 1].target))
  }

  predicate IsLastExplicit(pushes: seq<Push>, key: string, i: nat) {
    && i < |pushes| && Key(pushes[i].target) == key && pushes[i].explicit
    && forall j | i < j < |pushes| && Key(pushes[j].target) == key :: !pushes[j].explicit
  }

  predicate IsFirstOfSilent(pushes: seq<Push>, key: string, i: nat) {
    && i < |pushes| && Key(pushes[i].target) == key
    && (forall j | 0 <= j < i :: Key(pushes[j].target) != key)
    && forall j | 0 <= j < |pushes| && Key(pushes[j].target) == key :: !pushes[j].explicit
  }

  /** The target to report for a key: the last explicit one, or the first one if none is explicit. */
  ghost predicate IsTarget(pushes: seq<Push>, key: string, target: string) {
    exists i: nat :: (IsLastExplicit(pushes, key, i) || IsFirstOfSilent(pushes, key, i)) && pushes[i].target == target
  }

  predicate IsPushed(pushes: seq<Push>, key: string) {
    exists p <- pushes :: Key(p.target) == key
  }

  predicate AreKeys(pushes: seq<Push>, keys: seq<string>) {
    && (forall key <- keys :: IsPushed(pushes, key))
    && (forall p <- pushes :: Key(p.target) in keys)
    && forall i, j | 0 <= i < j < |keys| :: keys[i] != keys[j]
  }

  /** The first keys are exactly the keys pushed, without repetition. */
  lemma {:induction false} FirstKeysAreKeys(pushes: seq<Push>)
    ensures AreKeys(pushes, FirstKeys(pushes))
  {
    if pushes != [] {
      var before, last := pushes[..|pushes| - 1], pushes[|pushes| - 1];
      FirstKeysAreKeys(before);
      assert pushes == before + [last];
      KeysGrow(before, last, FirstKeys(before));
    }
  }

  function Grown(keys: seq<string>, key: string): seq<string> {
    if key in keys then keys else keys + [key]
  }

  lemma KeysGrow(before: seq<Push>, last: Push, keys: seq<string>)
    requires AreKeys(before, keys)
    ensures AreKeys(before + [last], Grown(keys, Key(last.target)))
  {
    assert (before + [last])[|before|] == last;
    forall key <- keys ensures IsPushed(before + [last], key) {
      var p :| p in before && Key(p.target) == key;
      assert p in before + [last];
    }
  }

  ghost predicate HoldsAt(pushes: seq<Push>, e: Entry, key: string) {
    e.key == key && IsTarget(pushes, key, e.target)
  }

  ghost predicate Holds(pushes: seq<Push>, entries: seq<Entry>, keys: seq<string>) {
    |entries| == |keys| && forall i | 0 <= i < |keys| :: HoldsAt(pushes, entries[i], keys[i])
  }

  /** The list has one entry for each key, in order, and each entry holds the key's target. */
  lemma {:induction false} ListHoldsEachKeyOnce(pushes: seq<Push>)
    ensures Holds(pushes, AfterAll(pushes), FirstKeys(pushes))
  {
    if pushes != [] {
      var before, last := pushes[..|pushes| - 1], pushes[|pushes| - 1];
      assert pushes == before + [last];
      ListHoldsEachKeyOnce(before);
      FirstKeysAreKeys(before);
      AddedHolds(before, last, AfterAll(before), FirstKeys(before));
    }
  }

  lemma AddedHolds(before: seq<Push>, last: Push, entries: seq<Entry>, keys: seq<string>)
    requires Holds(before, entries, keys)
    requires AreKeys(before, keys)
    ensures Holds(before + [last], Added(entries, last), Grown(keys, Key(last.target)))
  {
    var key := Key(last.target);
    var position := Position(entries, key);
    var added := Added(entries, last);
    forall i | 0 <= i < |entries| ensures HoldsAt(before + [last], added[i], keys[i]) {
      assert HoldsAt(before, entries[i], keys[i]);
      if i == position {
        SameKey(before, last, entries[i].target);
      } else {
        assert keys[i] != key by { OtherPosition(entries, keys, before, i, key); }
        OtherKey(before, last, keys[i], entries[i].target);
      }
    }
    if position == |entries| {
      assert forall i | 0 <= i < |keys| :: HoldsAt(before, entries[i], keys[i]) && keys[i] != key;
      NewKey(before, last);
    } else {
      assert HoldsAt(before, entries[position], keys[position]);
    }
  }

  lemma OtherPosition(entries: seq<Entry>, keys: seq<string>, pushes: seq<Push>, i: nat, key: string)
    requires Holds(pushes, entries, keys) && i < |keys| && i != Position(entries, key)
    requires forall i, j | 0 <= i < j < |keys| :: keys[i] != keys[j]
    ensures keys[i] != key
  {
    var position := Position(entries, key);
    assert HoldsAt(pushes, entries[i], keys[i]);
    if position < |keys| {
      assert HoldsAt(pushes, entries[position], keys[position]);
    }
  }

  lemma NewKey(before: seq<Push>, last: Push)
    requires forall p <- before :: Key(p.target) != Key(last.target)
    ensures IsTarget(before + [last], Key(last.target), last.target)
  {
    var pushes := before + [last];
    assert IsLastExplicit(pushes, Key(last.target), |before|) || IsFirstOfSilent(pushes, Key(last.target), |before|);
  }

  lemma SameKey(before: seq<Push>, last: Push, target: string)
    requires IsTarget(before, Key(last.target), target)
    ensures IsTarget(before + [last], Key(last.target), if last.explicit then last.target else target)
  {
    var pushes, key := before + [last], Key(last.target);
    if last.explicit {
      assert IsLastExplicit(pushes, key, |before|);
    } else {
      var i: nat :| (IsLastExplicit(before, key, i) || IsFirstOfSilent(before, key, i)) && before[i].target == target;
      assert IsLastExplicit(pushes, key, i) || IsFirstOfSilent(pushes, key, i);
    }
  }

  lemma OtherKey(before: seq<Push>, last: Push, key: string, target: string)
    requires IsTarget(before, key, target) && key != Key(last.target)
    ensures IsTarget(before + [last], key, target)
  {
    var pushes := before + [last];
    var i: nat :| (IsLastExplicit(before, key, i) || IsFirstOfSilent(before, key, i)) && before[i].target == target;
    assert IsLastExplicit(pushes, key, i) || IsFirstOfSilent(pushes, key, i);
  }

  // What a key is -----------------------------------------------------------------------------

  predicate AllAre(s: string, c: char) {
    forall x <- s :: x == c
  }

  /** What is left of a text without a character at its ends. */
  ghost predicate IsStripped(s: string, c: char, r: string) {
    && (r != "" ==> r[0] != c && r[|r| - 1] != c)
    && exists front, back :: s == front + r + back && AllAre(front, c) && AllAre(back, c)
  }

  lemma {:induction false} StripStartCuts(s: string, c: char) returns (front: string)
    ensures s == front + StripStart(s, c) && AllAre(front, c)
    ensures var r := StripStart(s, c); r == "" || r[0] != c
  {
    if s != "" && s[0] == c {
      var rest := StripStartCuts(s[1..], c);
      front := [c] + rest;
      assert s == [c] + s[1..];
      ConcatTwice([c], rest, StripStart(s[1..], c));
    } else {
      front := "";
      assert s == "" + s;
    }
  }

  lemma {:induction false} StripEndCuts(s: string, c: char) returns (back: string)
    ensures s == StripEnd(s, c) + back && AllAre(back, c)
    ensures var r := StripEnd(s, c); r == "" || (r[0] == s[0] && r[|r| - 1] != c)
  {
    if s != "" && s[|s| - 1] == c {
      var rest := StripEndCuts(s[..|s| - 1], c);
      back := rest + [c];
      assert s == s[..|s| - 1] + [c];
    } else {
      back := "";
      assert s == s + "";
    }
  }

  lemma StripIsExact(s: string, c: char)
    ensures IsStripped(s, c, Strip(s, c))
  {
    var front := StripStartCuts(s, c);
    var back := StripEndCuts(StripStart(s, c), c);
    ConcatTwice(front, Strip(s, c), back);
    assert s == front + Strip(s, c) + back;
  }

  /** Blanks, quotes and slashes are taken from the ends, in this order; slashes inside become dots; nothing is root. */
  ghost predicate IsKeyOf(target: string, key: string) {
    exists unquoted, path ::
      && IsStripped(Trim(target), '"', unquoted) && IsStripped(unquoted, '/', path)
      && if path == "" then key == "root"
         else |key| == |path| && forall i | 0 <= i < |path| :: key[i] == if path[i] == '/' then '.' else path[i]
  }

  lemma {:induction false} DottedIsExact(s: string)
    ensures |Dotted(s)| == |s| && forall i | 0 <= i < |s| :: Dotted(s)[i] == if s[i] == '/' then '.' else s[i]
  {
    if s != "" {
      DottedIsExact(s[1..]);
    }
  }

  lemma KeyIsExact(target: string)
    ensures IsKeyOf(target, Key(target))
  {
    var unquoted := Strip(Trim(target), '"');
    StripIsExact(Trim(target), '"');
    StripIsExact(unquoted, '/');
    DottedIsExact(Strip(unquoted, '/'));
  }
}
