/** The operand pair of an "a + b = ?" query and its canonical form
    (`Pair` and `Pair::canonical`). */
module Pairs {
  import opened Text

  datatype Pair = Pair(a: string, b: string)

  /** `Pair::canonical`: the greater operand first; a pair that is already in
      order, equal operands included, comes back as it is. */
  function Canonical(p: Pair): (r: Pair)
    ensures !Less(r.a, r.b)
    ensures r == p || r == Pair(p.b, p.a)
    ensures !Less(p.a, p.b) ==> r == p
  {
    if Less(p.a, p.b) then
      LessAsymmetric(p.a, p.b);
      Pair(p.b, p.a)
    else
      p
  }

  /** Addition is commutative: both orders of the operands give one key. */
  lemma CanonicalOrderIndependent(x: string, y: string)
    ensures Canonical(Pair(x, y)) == Canonical(Pair(y, x))
  {
    LessTotal(x, y);
    LessAsymmetric(x, y);
  }

  /** The canonical form of a canonical pair is itself. */
  lemma CanonicalIdempotent(p: Pair)
    ensures Canonical(Canonical(p)) == Canonical(p)
  {
  }

  /** Equal operands are left as they are. */
  lemma CanonicalSame(x: string)
    ensures Canonical(Pair(x, x)) == Pair(x, x)
  {
    LessIrreflexive(x);
  }

  /** The comparison is case-sensitive: "Woman" + "King" is already in
      order ('W' comes after 'K'), while "king" + "woman" is swapped, so the
      two requests use different keys. */
  lemma CanonicalIsCaseSensitive()
    ensures Canonical(Pair("Woman", "King")) == Pair("Woman", "King")
    ensures Canonical(Pair("king", "woman")) == Pair("woman", "king")
  {
    assert Less("king", "woman");
    assert !Less("Woman", "King");
  }
}
