/** How a source is cut into code, comments and quoted text. */
module CodeSegments {

  datatype Kind = InCode | InLineComment | InBlockComment | InQuotes

  datatype Segment = Segment(kind: Kind, start: nat, end: nat)

  // Where comments and quotes start -----------------------------------------------------------

  predicate Shows(s: seq<char>, i: nat, text: seq<char>) {
    i + |text| <= |s| && s[i..i + |text|] == text
  }

  predicate EndsLine(s: seq<char>, i: nat)
    requires i <= |s|
  {
    i == |s| || s[i] in {'\n', '\r'}
  }

  predicate StartsQuotes(s: seq<char>, i: nat)
    requires i < |s|
  {
    s[i] in {'\'', '"', '`'}
  }

  predicate StartsOther(s: seq<char>, i: nat)
    requires i < |s|
  {
    Shows(s, i, "//") || Shows(s, i, "/*") || StartsQuotes(s, i)
  }

  /** Behind an odd number of backslashes, counted back to where the quoted text begins. */
  predicate IsEscaped(s: seq<char>, begin: nat, i: nat)
    requires begin <= i <= |s|
  {
    i > begin && s[i - 1] == '\\' && !IsEscaped(s, begin, i - 1)
  }

  // Segments ----------------------------------------------------------------------------------

  predicate IsSegment(s: seq<char>, g: Segment) {
    && g.start < g.end <= |s|
    && match g.kind
       case InCode => IsCode(s, g.start, g.end)
       case InLineComment => IsLineComment(s, g.start, g.end)
       case InBlockComment => IsBlockComment(s, g.start, g.end)
       case InQuotes => IsQuoted(s, g.start, g.end)
  }

  /** Code goes on until something else starts. */
  predicate IsCode(s: seq<char>, start: nat, end: nat)
    requires start < end <= |s|
  {
    && (forall i | start <= i < end :: !StartsOther(s, i))
    && (end < |s| ==> StartsOther(s, end))
  }

  /** A line comment goes on until the line ends. */
  predicate IsLineComment(s: seq<char>, start: nat, end: nat)
    requires start < end <= |s|
  {
    Shows(s, start, "//") && EndsLine(s, end) && forall i | start <= i < end :: !EndsLine(s, i)
  }

  /** A block comment ends with the first end mark in it, or is never closed. */
  predicate IsBlockComment(s: seq<char>, start: nat, end: nat)
    requires start < end <= |s|
  {
    && Shows(s, start, "/*") && start + 2 <= end
    && if start + 4 <= end && Shows(s, end - 2, "*/") then forall i | start + 2 <= i < end - 2 :: !Shows(s, i, "*/")
       else end == |s| && forall i | start + 2 <= i < end :: !Shows(s, i, "*/")
  }

  /** Whether quoted text ends at a position: with its own delimiter, unless that is escaped. */
  predicate ClosesQuotes(s: seq<char>, start: nat, i: nat)
    requires start < i < |s|
  {
    s[i] == s[start] && !IsEscaped(s, start + 1, i)
  }

  /** Quoted text ends with the first delimiter that closes it, or is never closed. */
  predicate IsQuoted(s: seq<char>, start: nat, end: nat)
    requires start < end <= |s|
  {
    && !Shows(s, start, "//") && !Shows(s, start, "/*") && StartsQuotes(s, start)
    && (forall i | start < i < end - 1 :: !ClosesQuotes(s, start, i))
    && ((start < end - 1 && ClosesQuotes(s, start, end - 1)) || end == |s|)
  }

  /** The segments follow each other from a position to the end of the source. */
  predicate IsCut(s: seq<char>, from: nat, cut: seq<Segment>)
    decreases cut
  {
    if cut == [] then from == |s|
    else cut[0].start == from && IsSegment(s, cut[0]) && IsCut(s, cut[0].end, cut[1..])
  }

  /** What a position belongs to. */
  function KindAt(cut: seq<Segment>, k: nat): Kind {
    if cut == [] || cut[0].start <= k < cut[0].end then if cut == [] then InCode else cut[0].kind
    else KindAt(cut[1..], k)
  }

  // Every source has a cut --------------------------------------------------------------------

  lemma {:induction false} CodeEnds(s: seq<char>, start: nat, i: nat) returns (end: nat)
    requires start < i <= |s| && forall k | start <= k < i :: !StartsOther(s, k)
    ensures start < end <= |s| && IsCode(s, start, end)
    decreases |s| - i
  {
    if i == |s| || StartsOther(s, i) {
      end := i;
    } else {
      end := CodeEnds(s, start, i + 1);
    }
  }

  lemma {:induction false} LineEnds(s: seq<char>, start: nat, i: nat) returns (end: nat)
    requires start < i <= |s| && Shows(s, start, "//") && forall k | start <= k < i :: !EndsLine(s, k)
    ensures start < end <= |s| && IsLineComment(s, start, end)
    decreases |s| - i
  {
    if EndsLine(s, i) {
      end := i;
    } else {
      end := LineEnds(s, start, i + 1);
    }
  }

  lemma {:induction false} BlockEnds(s: seq<char>, start: nat, i: nat) returns (end: nat)
    requires start + 2 <= i <= |s| && Shows(s, start, "/*")
    requires forall k | start + 2 <= k < i :: !Shows(s, k, "*/")
    ensures start < end <= |s| && IsBlockComment(s, start, end)
    decreases |s| - i
  {
    if i == |s| {
      end := i;
    } else if Shows(s, i, "*/") {
      end := i + 2;
    } else {
      end := BlockEnds(s, start, i + 1);
    }
  }

  lemma {:induction false} QuotesEnd(s: seq<char>, start: nat, i: nat) returns (end: nat)
    requires start < i <= |s| && !Shows(s, start, "//") && !Shows(s, start, "/*") && StartsQuotes(s, start)
    requires forall k | start < k < i :: !ClosesQuotes(s, start, k)
    ensures start < end <= |s| && IsQuoted(s, start, end)
    decreases |s| - i
  {
    if i == |s| {
      end := i;
    } else if ClosesQuotes(s, start, i) {
      end := i + 1;
    } else {
      end := QuotesEnd(s, start, i + 1);
    }
  }

  lemma SegmentExists(s: seq<char>, from: nat) returns (g: Segment)
    requires from < |s|
    ensures g.start == from && IsSegment(s, g)
  {
    if Shows(s, from, "//") {
      assert s[from] == s[from..from + 2][0];
      var end := LineEnds(s, from, from + 1);
      g := Segment(InLineComment, from, end);
    } else if Shows(s, from, "/*") {
      var end := BlockEnds(s, from, from + 2);
      g := Segment(InBlockComment, from, end);
    } else if StartsQuotes(s, from) {
      var end := QuotesEnd(s, from, from + 1);
      g := Segment(InQuotes, from, end);
    } else {
      var end := CodeEnds(s, from, from + 1);
      g := Segment(InCode, from, end);
    }
  }

  /** Every source can be cut. */
  lemma {:induction false} CutExists(s: seq<char>, from: nat) returns (cut: seq<Segment>)
    requires from <= |s|
    ensures IsCut(s, from, cut)
    decreases |s| - from
  {
    if from == |s| {
      cut := [];
    } else {
      var first := SegmentExists(s, from);
      var rest := CutExists(s, first.end);
      cut := [first] + rest;
    }
  }

  lemma SegmentIsOnly(s: seq<char>, g: Segment, h: Segment)
    requires IsSegment(s, g) && IsSegment(s, h) && g.start == h.start
    ensures g == h
  {
    StartsOneThing(s, g.start);
    assert (g.kind == InCode <==> !StartsOther(s, g.start)) && (h.kind == InCode <==> !StartsOther(s, g.start));
    assert g.kind == h.kind;
    match g.kind {
      case InCode =>
      case InLineComment =>
      case InBlockComment => BlockIsOnly(s, g.start, g.end, h.end);
      case InQuotes =>
    }
  }

  lemma StartsOneThing(s: seq<char>, i: nat)
    requires i < |s|
    ensures !(Shows(s, i, "//") && Shows(s, i, "/*"))
  {
    if Shows(s, i, "//") {
      assert s[i..i + 2][1] == '/';
    }
  }

  lemma BlockIsOnly(s: seq<char>, start: nat, a: nat, b: nat)
    requires start < a <= |s| && start < b <= |s| && IsBlockComment(s, start, a) && IsBlockComment(s, start, b)
    ensures a == b
  {
  }

  /** A source can be cut in one way only. */
  lemma {:induction false} CutIsOnly(s: seq<char>, from: nat, cut: seq<Segment>, other: seq<Segment>)
    requires IsCut(s, from, cut) && IsCut(s, from, other)
    ensures cut == other
    decreases cut
  {
    if cut != [] && other != [] {
      SegmentIsOnly(s, cut[0], other[0]);
      CutIsOnly(s, cut[0].end, cut[1..], other[1..]);
    }
  }
}
