/** Genders, crossover of genomes and what crossover conserves. */
module Genetics {
  import opened Base
  import opened Bytes

  datatype Gender = Male | Female

  function GenderOf(dna: Dna): Gender {
    if dna[0] % 2 == 0 then Male else Female
  }

  /** The value the crossover loop leaves in `new_dna`, for genomes of any length. */
  function Combine(dna1: seq<bv8>, dna2: seq<bv8>, selector: seq<bv8>): (child: seq<bv8>)
    requires |dna1| == |dna2| == |selector|
    ensures |child| == |dna1|
  {
    seq(|dna1|, i requires 0 <= i < |dna1| => CombineDna(dna1[i], dna2[i], selector[i]))
  }

  function Complement(selector: seq<bv8>): (flipped: seq<bv8>)
    ensures |flipped| == |selector|
  {
    seq(|selector|, i requires 0 <= i < |selector| => !selector[i])
  }

  /** Crossover conserves genes: what one child leaves behind its complementary sibling carries. */
  lemma CrossoverConserves(dna1: seq<bv8>, dna2: seq<bv8>, selector: seq<bv8>, i: nat)
    requires |dna1| == |dna2| == |selector| && i < |dna1|
    ensures Combine(dna1, dna2, selector)[i] as int + Combine(dna1, dna2, Complement(selector))[i] as int
         == dna1[i] as int + dna2[i] as int
    ensures forall k: nat | k < 8 ::
              BitCount(Combine(dna1, dna2, selector)[i], k) + BitCount(Combine(dna1, dna2, Complement(selector))[i], k)
              == BitCount(dna1[i], k) + BitCount(dna2[i], k)
  {
    var a, b, s := dna1[i], dna2[i], selector[i];
    assert Combine(dna1, dna2, selector)[i] == CombineDna(a, b, s);
    assert Combine(dna1, dna2, Complement(selector))[i] == CombineDna(a, b, !s);
    ByteCrossoverSum(a, b, s);
    forall k: nat | k < 8
      ensures BitCount(CombineDna(a, b, s), k) + BitCount(CombineDna(a, b, !s), k) == BitCount(a, k) + BitCount(b, k)
    {
      ByteCrossoverBits(a, b, s, k);
    }
  }

  /** Swapping the parents is the same as complementing the selector. */
  lemma SwapParentsIsComplement(dna1: seq<bv8>, dna2: seq<bv8>, selector: seq<bv8>)
    requires |dna1| == |dna2| == |selector|
    ensures Combine(dna2, dna1, selector) == Combine(dna1, dna2, Complement(selector))
  {
  }

  /** `child` takes each bit from the parent its selector bit names. */
  ghost predicate Inherits(child: seq<bv8>, dna1: seq<bv8>, dna2: seq<bv8>, selector: seq<bv8>)
    requires |child| == |dna1| == |dna2| == |selector|
  {
    forall i: nat, k: nat | i < |child| && k < 8 ::
      Bit(child[i], k) == if Bit(selector[i], k) then Bit(dna2[i], k) else Bit(dna1[i], k)
  }

  /** Bit-by-bit inheritance holds of the combined genome and of no other. */
  lemma CombineIffInherits(child: seq<bv8>, dna1: seq<bv8>, dna2: seq<bv8>, selector: seq<bv8>)
    requires |child| == |dna1| == |dna2| == |selector|
    ensures child == Combine(dna1, dna2, selector) <==> Inherits(child, dna1, dna2, selector)
  {
    var combined := Combine(dna1, dna2, selector);
    forall i: nat, k: nat | i < |child| && k < 8
      ensures Bit(combined[i], k) == if Bit(selector[i], k) then Bit(dna2[i], k) else Bit(dna1[i], k)
    {
      CombineDnaBit(dna1[i], dna2[i], selector[i], k);
    }
    if Inherits(child, dna1, dna2, selector) {
      forall i: nat | i < |child|
        ensures child[i] == combined[i]
      {
        BitsDetermineByte(child[i], combined[i]);
      }
    }
  }

  lemma GenderIsLowestBit(dna: Dna)
    ensures GenderOf(dna) == Female <==> Bit(dna[0], 0)
  {
  }

  /** The child's gender is the first parent's exactly when the lowest selector bit is 0. */
  lemma GenderFollowsSelector(dna1: Dna, dna2: Dna, selector: Bytes16)
    requires GenderOf(dna1) != GenderOf(dna2)
    ensures GenderOf(Combine(dna1, dna2, selector)) == GenderOf(dna1) <==> !Bit(selector[0], 0)
    ensures GenderOf(Combine(dna1, dna2, selector)) == GenderOf(dna2) <==> Bit(selector[0], 0)
  {
  }

  /** The crossover loop of `do_breed`: it fills a zeroed array in place. */
  method Crossover(dna1: Dna, dna2: Dna, selector: Bytes16) returns (child: Dna)
    ensures Inherits(child, dna1, dna2, selector)
    ensures child == Combine(dna1, dna2, selector)
  {
    var newDna := new bv8[16](_ => 0);
    for i := 0 to |dna1|
      invariant forall j | 0 <= j < i :: newDna[j] == CombineDna(dna1[j], dna2[j], selector[j])
    {
      newDna[i] := CombineDna(dna1[i], dna2[i], selector[i]);
    }
    child := newDna[..];
    CombineIffInherits(child, dna1, dna2, selector);
  }
}
