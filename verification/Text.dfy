/** Options and the decimal and dotted texts that the lowerer builds paths from. */
module Text {

  datatype Option<+T> = None | Some(value: T)

  function Digit(d: nat): (c: char)
    requires d < 10
    ensures '0' <= c <= '9'
  {
    "0123456789"[d]
  }

  function NatText(n: nat): (s: string)
    ensures s != "" && forall c <- s :: '0' <= c <= '9'
  {
    if n < 10 then [Digit(n)] else NatText(n / 10) + [Digit(n % 10)]
  }

  function IntText(n: int): string {
    if n < 0 then "-" + NatText(-n) else NatText(n)
  }

  lemma {:induction false} NatTextInjective(m: nat, n: nat)
    requires NatText(m) == NatText(n)
    ensures m == n
  {
    if m >= 10 && n >= 10 {
      var a, b := NatText(m), NatText(n);
      assert a[..|a| - 1] == NatText(m / 10) && b[..|b| - 1] == NatText(n / 10);
      assert a[|a| - 1] == Digit(m % 10) && b[|b| - 1] == Digit(n % 10);
      NatTextInjective(m / 10, n / 10);
    } else if m < 10 && n < 10 {
      assert NatText(m)[0] == NatText(n)[0];
    }
  }

  /** Joins parts with a dot; the empty list is the empty path. */
  function JoinDots(parts: seq<string>): string {
    if parts == [] then ""
    else if |parts| == 1 then parts[0]
    else parts[0] + "." + JoinDots(parts[1..])
  }

  /** Cuts a text at every separator. */
  function SplitOn(sep: char, text: string): (parts: seq<string>)
    ensures parts != []
  {
    if text == "" then [""]
    else if text[0] == sep then [""] + SplitOn(sep, text[1..])
    else AddToHead(text[0], SplitOn(sep, text[1..]))
  }

  function AddToHead(c: char, parts: seq<string>): seq<string>
    requires parts != []
  {
    [[c] + parts[0]] + parts[1..]
  }

  /** The parts of a dotted path; the empty path has none. */
  function SplitDots(path: string): seq<string> {
    if path == "" then [] else SplitOn('.', path)
  }

  predicate PartOk(part: string) {
    part != "" && '.' !in part
  }

  predicate PartsOk(parts: seq<string>) {
    forall part <- parts :: PartOk(part)
  }

  lemma {:induction false} SplitOnAtom(sep: char, part: string)
    requires sep !in part
    ensures SplitOn(sep, part) == [part]
  {
    if part != "" {
      SplitOnAtom(sep, part[1..]);
      assert [part[0]] + part[1..] == part;
    }
  }

  lemma {:induction false} SplitOnConcat(sep: char, a: string, b: string)
    ensures SplitOn(sep, a + [sep] + b) == SplitOn(sep, a) + SplitOn(sep, b)
  {
    if a == "" {
      assert (a + [sep] + b)[1..] == b;
    } else {
      SplitOnConcat(sep, a[1..], b);
      assert (a + [sep] + b)[1..] == a[1..] + [sep] + b;
      AddToHeadConcat(a[0], SplitOn(sep, a[1..]), SplitOn(sep, b));
    }
  }

  lemma AddToHeadConcat(c: char, xs: seq<string>, ys: seq<string>)
    requires xs != []
    ensures AddToHead(c, xs + ys) == AddToHead(c, xs) + ys
    ensures [""] + (xs + ys) == ([""] + xs) + ys
  {
    assert (xs + ys)[1..] == xs[1..] + ys;
  }

  lemma JoinDotsNonempty(parts: seq<string>)
    requires PartsOk(parts) && parts != []
    ensures JoinDots(parts) != ""
  {
    assert PartOk(parts[0]);
  }

  /** Splitting undoes joining. */
  lemma {:induction false} SplitJoin(parts: seq<string>)
    requires PartsOk(parts)
    ensures SplitDots(JoinDots(parts)) == parts
  {
    if parts != [] {
      assert PartOk(parts[0]);
      SplitOnAtom('.', parts[0]);
      JoinDotsNonempty(parts);
      if |parts| > 1 {
        SplitJoin(parts[1..]);
        JoinDotsNonempty(parts[1..]);
        SplitOnConcat('.', parts[0], JoinDots(parts[1..]));
      }
    }
  }

  /** The path of a member chain that continues an inherited path. */
  function ExtendPath(inherited: string, suffix: string): string {
    if inherited == "" then suffix
    else if suffix == "" then inherited
    else inherited + "." + suffix
  }

  lemma SplitExtend(inherited: string, suffix: string)
    ensures SplitDots(ExtendPath(inherited, suffix)) == SplitDots(inherited) + SplitDots(suffix)
  {
    if inherited != "" && suffix != "" {
      SplitOnConcat('.', inherited, suffix);
    }
  }

  /** The characters with the Unicode White_Space property. */
  predicate IsSpace(c: char) {
    || '\t' <= c <= '\r' || c in {' ', '\U{85}', '\U{A0}', '\U{1680}', '\U{2028}', '\U{2029}', '\U{202F}', '\U{205F}',
        '\U{3000}'}
    || '\U{2000}' <= c <= '\U{200A}'
  }

  predicate IsBlank(text: string) {
    forall c <- text :: IsSpace(c)
  }

  function TrimStart(s: string): string {
    if s != "" && IsSpace(s[0]) then TrimStart(s[1..]) else s
  }

  function TrimEnd(s: string): string {
    if s != "" && IsSpace(s[|s| - 1]) then TrimEnd(s[..|s| - 1]) else s
  }

  function Trim(s: string): string {
    TrimEnd(TrimStart(s))
  }

  predicate HasPrefix(text: string, prefix: string) {
    |prefix| <= |text| && text[..|prefix|] == prefix
  }

  /** Text that trimming leaves alone. */
  predicate Tight(s: string) {
    s != "" && !IsSpace(s[0]) && !IsSpace(s[|s| - 1])
  }

  lemma TightTrim(s: string)
    requires Tight(s)
    ensures Trim(s) == s && Trim(" " + s) == s
  {
    assert (" " + s)[1..] == s;
    assert TrimStart(" " + s) == TrimStart(s);
  }

  lemma {:induction false} TrimStartConcat(a: string, b: string)
    requires b != "" && !IsSpace(b[0])
    ensures TrimStart(a + b) == TrimStart(a) + b
  {
    if a == "" {
      assert a + b == b;
    } else {
      TrimStartConcat(a[1..], b);
      assert (a + b)[0] == a[0] && (a + b)[1..] == a[1..] + b;
    }
  }

  lemma {:induction false} TrimEndConcat(a: string, b: string)
    requires a != "" && !IsSpace(a[|a| - 1])
    ensures TrimEnd(a + b) == a + TrimEnd(b)
  {
    if b == "" {
      assert a + b == a;
    } else {
      var last := |b| - 1;
      TrimEndConcat(a, b[..last]);
      assert (a + b)[|a + b| - 1] == b[last] && (a + b)[..|a + b| - 1] == a + b[..last];
    }
  }

  lemma TrimAround(front: string, core: string, back: string)
    requires Tight(core)
    ensures Trim(front + core + back) == TrimStart(front) + core + TrimEnd(back)
  {
    ConcatTwice(front, core, back);
    TrimStartConcat(front, core + back);
    ConcatTwice(TrimStart(front), core, back);
    TrimEndConcat(TrimStart(front) + core, back);
  }

  predicate HasSuffix(text: string, suffix: string) {
    |suffix| <= |text| && text[|text| - |suffix|..] == suffix
  }

  lemma ConcatTwice(a: string, b: string, c: string)
    ensures a + (b + c) == (a + b) + c
  {
  }

  predicate IsDigits(s: string) {
    s != "" && forall c <- s :: '0' <= c <= '9'
  }

  function DigitsValue(s: string): nat
    requires forall c <- s :: '0' <= c <= '9'
  {
    if s == "" then 0
    else
      var front, last := s[..|s| - 1], s[|s| - 1];
      assert last in s && forall c <- front :: c in s;
      DigitsValue(front) * 10 + (last as int - '0' as int)
  }

  /** Reads an unsigned number of at most `max`, with an optional plus sign. */
  function ParseUnsigned(s: string, max: nat): Option<nat> {
    var digits := if HasPrefix(s, "+") then s[1..] else s;
    if IsDigits(digits) && DigitsValue(digits) <= max then Some(DigitsValue(digits)) else None
  }

  const MAX_U32: nat := 0xffff_ffff

  lemma {:induction false} DigitsOfNat(n: nat)
    ensures DigitsValue(NatText(n)) == n
  {
    var s := NatText(n);
    if n >= 10 {
      DigitsOfNat(n / 10);
      assert s[..|s| - 1] == NatText(n / 10) && s[|s| - 1] == Digit(n % 10);
    } else {
      assert s[..0] == "" && s[0] == Digit(n);
    }
  }

  // The letters and digits of ASCII, one by one.

  const SMALL := {'a', 'b', 'c', 'd', 'e', 'f', 'g', 'h', 'i', 'j', 'k', 'l', 'm', 'n', 'o', 'p', 'q', 'r', 's', 't',
      'u', 'v', 'w', 'x', 'y', 'z'}
  const LARGE := {'A', 'B', 'C', 'D', 'E', 'F', 'G', 'H', 'I', 'J', 'K', 'L', 'M', 'N', 'O', 'P', 'Q', 'R', 'S', 'T',
      'U', 'V', 'W', 'X', 'Y', 'Z'}
  const DIGITS := {'0', '1', '2', '3', '4', '5', '6', '7', '8', '9'}
}
