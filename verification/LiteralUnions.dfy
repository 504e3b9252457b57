/** The enum variants that a union of literals is rendered with: the literals, joined in camel case. */
module LiteralUnions {
  import opened Text

  datatype LiteralUnion = LiteralUnion(name: string, literals: seq<string>)

  datatype UnionError =
    | InvalidLiteralUnionValue(name: string, literal: string)
    | DuplicateLiteralUnionVariant(name: string, first: string, second: string, variant: string)

  predicate IsDigit(c: char) {
    '0' <= c <= '9'
  }

  predicate IsUpper(c: char) {
    'A' <= c <= 'Z'
  }

  predicate IsAlphanumeric(c: char) {
    IsDigit(c) || IsUpper(c) || 'a' <= c <= 'z'
  }

  predicate IsSeparator(c: char) {
    c == '-' || c == '_'
  }

  predicate IsLiteral(literal: string) {
    literal != "" && forall c <- literal :: IsAlphanumeric(c) || IsSeparator(c)
  }

  function Upper(c: char): (u: char)
    ensures IsAlphanumeric(c) ==> IsDigit(u) || IsUpper(u)
  {
    if 'a' <= c <= 'z' then c - 'a' + 'A' else c
  }

  /** The characters but the separators; what follows a separator is written large. */
  function Joined(literal: string, starts: bool): string {
    if literal == "" then ""
    else if IsSeparator(literal[0]) then Joined(literal[1..], true)
    else [if starts then Upper(literal[0]) else literal[0]] + Joined(literal[1..], false)
  }

  /** The variant of a literal: a name has to start with a letter. */
  function Variant(literal: string): Option<string> {
    var joined := Joined(literal, true);
    if !IsLiteral(literal) || joined == "" then None
    else Some(if IsDigit(joined[0]) then "V" + joined else joined)
  }

  // Parts -------------------------------------------------------------------------------------

  function Parts(literal: string): (parts: seq<string>)
    ensures parts != []
  {
    if literal == "" then [""]
    else if IsSeparator(literal[0]) then [""] + Parts(literal[1..])
    else AddToHead(literal[0], Parts(literal[1..]))
  }

  function Capitalized(part: string): string {
    if part == "" then "" else [Upper(part[0])] + part[1..]
  }

  function CapitalizedAll(parts: seq<string>): string {
    if parts == [] then "" else Capitalized(parts[0]) + CapitalizedAll(parts[1..])
  }

  lemma {:induction false} JoinedIsCapitalized(literal: string)
    ensures CapitalizedAll(Parts(literal)) == Joined(literal, true)
    ensures Parts(literal)[0] + CapitalizedAll(Parts(literal)[1..]) == Joined(literal, false)
  {
    if literal != "" {
      var rest := Parts(literal[1..]);
      JoinedIsCapitalized(literal[1..]);
      if IsSeparator(literal[0]) {
        assert Parts(literal)[1..] == rest;
      } else {
        var head := [literal[0]] + rest[0];
        assert Parts(literal) == [head] + rest[1..];
        assert Parts(literal)[1..] == rest[1..];
        assert head[1..] == rest[0];
        assert Capitalized(head) + CapitalizedAll(rest[1..])
            == [Upper(literal[0])] + (rest[0] + CapitalizedAll(rest[1..]));
        assert head + CapitalizedAll(rest[1..]) == [literal[0]] + (rest[0] + CapitalizedAll(rest[1..]));
      }
    }
  }

  lemma {:induction false} CapitalizedConcat(parts: seq<string>, last: string)
    ensures CapitalizedAll(parts + [last]) == CapitalizedAll(parts) + Capitalized(last)
  {
    if parts != [] {
      assert (parts + [last])[0] == parts[0] && (parts + [last])[1..] == parts[1..] + [last];
      CapitalizedConcat(parts[1..], last);
    } else {
      assert ([] + [last])[1..] == [];
    }
  }

  method LiteralUnionVariant(literal: string) returns (variant: Option<string>)
    ensures variant == Variant(literal)
  {
    if !IsLiteral(literal) {
      return None;
    }
    var parts, joined := Parts(literal), "";
    for i := 0 to |parts|
      invariant joined == CapitalizedAll(parts[..i])
    {
      assert parts[..i + 1] == parts[..i] + [parts[i]];
      CapitalizedConcat(parts[..i], parts[i]);
      if parts[i] != "" {
        joined := joined + [Upper(parts[i][0])] + parts[i][1..];
      }
    }
    assert parts[..|parts|] == parts;
    JoinedIsCapitalized(literal);
    if joined != "" && IsDigit(joined[0]) {
      joined := "V" + joined;
    }
    variant := if joined == "" then None else Some(joined);
  }

  lemma {:induction false} JoinedIsName(literal: string, starts: bool)
    requires forall c <- literal :: IsAlphanumeric(c) || IsSeparator(c)
    ensures forall c <- Joined(literal, starts) :: IsAlphanumeric(c)
    ensures starts && Joined(literal, starts) != "" ==> !('a' <= Joined(literal, starts)[0] <= 'z')
    ensures Joined(literal, starts) == "" <==> forall c <- literal :: IsSeparator(c)
  {
    if literal != "" {
      assert literal[0] in literal && forall c <- literal[1..] :: c in literal;
      JoinedIsName(literal[1..], IsSeparator(literal[0]));
      if IsSeparator(literal[0]) {
        assert literal == [literal[0]] + literal[1..];
      }
    }
  }

  /**
   * A literal has a variant exactly if it has letters or digits and, besides them, only separators; and the variant
   * is then a name that starts with a capital letter.
   */
  lemma VariantIsName(literal: string)
    ensures Variant(literal).Some? <==> IsLiteral(literal) && exists c <- literal :: IsAlphanumeric(c)
    ensures Variant(literal).Some? ==> Variant(literal).value != "" && IsUpper(Variant(literal).value[0])
    ensures Variant(literal).Some? ==> forall c <- Variant(literal).value :: IsAlphanumeric(c)
  {
    if IsLiteral(literal) {
      JoinedIsName(literal, true);
      var joined := Joined(literal, true);
      assert joined != "" ==> joined[0] in joined;
    }
  }

  // Unions ------------------------------------------------------------------------------------

  /** Every literal has a variant, and no two have the same. */
  predicate UnionOk(union: LiteralUnion) {
    && (forall literal <- union.literals :: Variant(literal).Some?)
    && forall i, j | 0 <= i < j < |union.literals| :: Variant(union.literals[i]) != Variant(union.literals[j])
  }

  /** Which fault of a union a failure reports. */
  predicate ExplainsUnion(error: UnionError, union: LiteralUnion) {
    && error.name == union.name
    && match error
       case InvalidLiteralUnionValue(_, literal) => literal in union.literals && Variant(literal).None?
       case DuplicateLiteralUnionVariant(_, first, second, variant) =>
         exists i, j | 0 <= i < j < |union.literals| ::
           && union.literals[i] == first && union.literals[j] == second
           && Variant(first) == Some(variant) && Variant(second) == Some(variant)
  }

  method LiteralUnionVariants(union: LiteralUnion) returns (lowered: seq<(string, string)>, error: Option<UnionError>)
    ensures error.None? <==> UnionOk(union)
    ensures error.Some? ==> ExplainsUnion(error.value, union)
    ensures error.None? ==> |lowered| == |union.literals|
    ensures error.None? ==> forall i | 0 <= i < |lowered| ::
              lowered[i].0 == union.literals[i] && Variant(union.literals[i]) == Some(lowered[i].1)
  {
    var variants: map<string, string> := map[];
    lowered := [];
    for i := 0 to |union.literals|
      invariant |lowered| == i
      invariant forall k | 0 <= k < i ::
                  lowered[k].0 == union.literals[k] && Variant(union.literals[k]) == Some(lowered[k].1)
      invariant forall j, k | 0 <= j < k < i :: lowered[j].1 != lowered[k].1
      invariant forall v <- variants :: exists k | 0 <= k < i :: lowered[k] == (variants[v], v)
      invariant forall k | 0 <= k < i :: lowered[k].1 in variants
    {
      var literal := union.literals[i];
      var variant := LiteralUnionVariant(literal);
      if variant.None? {
        return lowered, Some(InvalidLiteralUnionValue(union.name, literal));
      }
      if variant.value in variants {
        var k :| 0 <= k < i && lowered[k] == (variants[variant.value], variant.value);
        assert Variant(union.literals[k]) == Variant(union.literals[i]);
        return lowered, Some(DuplicateLiteralUnionVariant(union.name, variants[variant.value], literal, variant.value));
      }
      variants := variants[variant.value := literal];
      lowered := lowered + [(literal, variant.value)];
    }
    error := None;
  }
}
