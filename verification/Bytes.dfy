/** Single bytes: their bits, and the crossover of two of them. */
module Bytes {
  function CombineDna(dna1: bv8, dna2: bv8, selector: bv8): bv8 {
    (!selector & dna1) | (selector & dna2)
  }

  function Mask(k: nat): bv8
    requires k < 8
  {
    match k
    case 0 => 1
    case 1 => 2
    case 2 => 4
    case 3 => 8
    case 4 => 16
    case 5 => 32
    case 6 => 64
    case _ => 128
  }

  /** Bit `k` of a byte, counted from the least significant one. */
  predicate Bit(x: bv8, k: nat)
    requires k < 8
  {
    x & Mask(k) != 0
  }

  function BitCount(x: bv8, k: nat): nat
    requires k < 8
  {
    if Bit(x, k) then 1 else 0
  }

  /** Every bit comes from one parent, and the selector bit says from which. */
  lemma CombineDnaBit(dna1: bv8, dna2: bv8, selector: bv8, k: nat)
    requires k < 8
    ensures Bit(CombineDna(dna1, dna2, selector), k) == if Bit(selector, k) then Bit(dna2, k) else Bit(dna1, k)
  {
    if Bit(selector, k) {
    } else {
    }
  }

  lemma ComplementBit(x: bv8, k: nat)
    requires k < 8
    ensures Bit(!x, k) == !Bit(x, k)
  {
  }

  /** A byte is the weighted sum of its bits. */
  lemma ByteIsSumOfBits(x: bv8)
    ensures x as int == BitCount(x, 0) + 2 * BitCount(x, 1) + 4 * BitCount(x, 2) + 8 * BitCount(x, 3)
                        + 16 * BitCount(x, 4) + 32 * BitCount(x, 5) + 64 * BitCount(x, 6) + 128 * BitCount(x, 7)
  {
  }

  lemma ByteCrossoverBits(dna1: bv8, dna2: bv8, selector: bv8, k: nat)
    requires k < 8
    ensures BitCount(CombineDna(dna1, dna2, selector), k) + BitCount(CombineDna(dna1, dna2, !selector), k)
         == BitCount(dna1, k) + BitCount(dna2, k)
  {
    CombineDnaBit(dna1, dna2, selector, k);
    CombineDnaBit(dna1, dna2, !selector, k);
    ComplementBit(selector, k);
  }

  lemma EqualBitSums(x: bv8, y: bv8, z: bv8, w: bv8)
    requires forall k: nat | k < 8 :: BitCount(x, k) + BitCount(y, k) == BitCount(z, k) + BitCount(w, k)
    ensures x as int + y as int == z as int + w as int
  {
    ByteIsSumOfBits(x);
    ByteIsSumOfBits(y);
    ByteIsSumOfBits(z);
    ByteIsSumOfBits(w);
  }

  lemma ByteCrossoverSum(dna1: bv8, dna2: bv8, selector: bv8)
    ensures CombineDna(dna1, dna2, selector) as int + CombineDna(dna1, dna2, !selector) as int
         == dna1 as int + dna2 as int
  {
    forall k: nat | k < 8
      ensures BitCount(CombineDna(dna1, dna2, selector), k) + BitCount(CombineDna(dna1, dna2, !selector), k)
           == BitCount(dna1, k) + BitCount(dna2, k)
    {
      ByteCrossoverBits(dna1, dna2, selector, k);
    }
    EqualBitSums(CombineDna(dna1, dna2, selector), CombineDna(dna1, dna2, !selector), dna1, dna2);
  }

  /** The bitwise description is complete: bytes with the same bits are the same byte. */
  lemma BitsDetermineByte(x: bv8, y: bv8)
    requires forall k: nat | k < 8 :: Bit(x, k) == Bit(y, k)
    ensures x == y
  {
    assert Bit(x, 0) == Bit(y, 0) && Bit(x, 1) == Bit(y, 1) && Bit(x, 2) == Bit(y, 2) && Bit(x, 3) == Bit(y, 3);
    assert Bit(x, 4) == Bit(y, 4) && Bit(x, 5) == Bit(y, 5) && Bit(x, 6) == Bit(y, 6) && Bit(x, 7) == Bit(y, 7);
  }
}
