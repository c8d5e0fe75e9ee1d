/** Proof-of-work arithmetic: hashes as little-endian integers, the acceptance bound, packing of candidates. */
module Difficulty {
  import opened Base

  /** `DefaultDifficulty`: a zero constant would make every validation divide by zero. */
  type Level = d: int | 1 <= d <= U32_MAX witness 1

  datatype Payload = Payload(id1: TokenId, id2: TokenId, nonce: U32, solution: U128)

  function Pow256(n: nat): nat {
    if n == 0 then 1 else 256 * Pow256(n - 1)
  }

  /** `from_le_bytes`, for byte strings of any length. */
  function FromLe(bytes: seq<bv8>): (v: nat)
    ensures v < Pow256(|bytes|)
  {
    if bytes == [] then 0 else bytes[0] as int + 256 * FromLe(bytes[1..])
  }

  function ToLe(v: nat, n: nat): (bytes: seq<bv8>)
    ensures |bytes| == n
  {
    if n == 0 then [] else [ByteOf(v % 256)] + ToLe(v / 256, n - 1)
  }

  function ByteOf(v: nat): (b: bv8)
    requires v < 256
    ensures b as int == v
  {
    if v == 0 then 0 else NextByte(ByteOf(v - 1)); ByteOf(v - 1) + 1
  }

  lemma NextByte(b: bv8)
    requires b as int < 255
    ensures (b + 1) as int == b as int + 1
  {
  }

  lemma ByteInjective(x: bv8, y: bv8)
    requires x as int == y as int
    ensures x == y
  {
  }

  function Bound(d: Level): nat {
    U128_MAX / d
  }

  predicate Accepts(d: Level, hash: Bytes16) {
    DecodeHash(hash) < Bound(d)
  }

  lemma LowDigit(digit: nat, rest: nat)
    requires digit < 256
    ensures (digit + 256 * rest) % 256 == digit
    ensures (digit + 256 * rest) / 256 == rest
  {
  }

  lemma {:induction false} FromLeToLe(v: nat, n: nat)
    requires v < Pow256(n)
    ensures FromLe(ToLe(v, n)) == v
  {
    if n != 0 {
      FromLeToLe(v / 256, n - 1);
      assert ToLe(v, n)[1..] == ToLe(v / 256, n - 1);
    }
  }

  lemma ToLeDigit(digit: nat, rest: nat, n: nat)
    requires digit < 256 && n > 0
    ensures ToLe(digit + 256 * rest, n) == [ByteOf(digit)] + ToLe(rest, n - 1)
  {
    LowDigit(digit, rest);
  }

  lemma {:induction false} ToLeFromLe(bytes: seq<bv8>)
    ensures ToLe(FromLe(bytes), |bytes|) == bytes
  {
    if bytes != [] {
      var head, tail := bytes[0], bytes[1..];
      ToLeFromLe(tail);
      ToLeDigit(head as int, FromLe(tail), |bytes|);
      ByteInjective(ByteOf(head as int), head);
      assert bytes == [head] + tail;
    }
  }

  /** Decoding is positional, least significant byte first. */
  lemma {:induction false} FromLeConcat(low: seq<bv8>, high: seq<bv8>)
    ensures FromLe(low + high) == FromLe(low) + Pow256(|low|) * FromLe(high)
  {
    if low == [] {
      assert low + high == high;
    } else {
      FromLeConcat(low[1..], high);
      assert (low + high)[1..] == low[1..] + high;
      Associates(256, Pow256(|low| - 1), FromLe(high));
    }
  }

  lemma SingleByte(b: bv8)
    ensures FromLe([b]) == b as int
  {
    assert [b][1..] == [];
  }

  lemma Associates(a: nat, b: nat, c: nat)
    ensures a * (b * c) == (a * b) * c
  {
  }

  lemma {:induction false} FullBytes(n: nat)
    ensures FromLe(seq(n, _ => 0xff)) == Pow256(n) - 1
  {
    if n != 0 {
      var full: seq<bv8> := seq(n, _ => 0xff);
      assert full[1..] == seq(n - 1, _ => 0xff);
      FullBytes(n - 1);
    }
  }

  lemma {:induction false} ZeroBytes(n: nat)
    ensures FromLe(seq(n, _ => 0)) == 0
  {
    if n != 0 {
      var zeros: seq<bv8> := seq(n, _ => 0);
      assert zeros[1..] == seq(n - 1, _ => 0);
      ZeroBytes(n - 1);
    }
  }

  lemma Sixteen()
    ensures Pow256(16) == U128_MAX + 1
  {
    assert Pow256(4) == 0x1_0000_0000;
    assert Pow256(8) == 0x1_0000_0000 * Pow256(4);
    assert Pow256(12) == 0x1_0000_0000 * Pow256(8);
    assert Pow256(16) == 0x1_0000_0000 * Pow256(12);
  }

  function DecodeHash(hash: Bytes16): (v: U128)
    ensures v == FromLe(hash)
  {
    Sixteen();
    FromLe(hash)
  }

  function EncodeHash(v: nat): Bytes16 {
    ToLe(v, 16)
  }

  /** Decoding is a bijection between 16-byte hashes and the values of `u128`. */
  lemma DecodingIsBijective(hash: Bytes16, v: U128)
    ensures DecodeHash(hash) == v <==> hash == EncodeHash(v)
  {
    Sixteen();
    ToLeFromLe(hash);
    FromLeToLe(v, 16);
  }

  /** The first `n` values of an enumeration. */
  ghost function Image(encode: nat -> Bytes16, n: nat): set<Bytes16> {
    if n == 0 then {} else Image(encode, n - 1) + {encode(n - 1)}
  }

  lemma {:induction false} ImageMembers(encode: nat -> Bytes16, n: nat, hash: Bytes16)
    ensures hash in Image(encode, n) <==> exists v: nat :: v < n && encode(v) == hash
  {
    if n != 0 {
      ImageMembers(encode, n - 1, hash);
    }
  }

  lemma {:induction false} ImageSize(encode: nat -> Bytes16, n: nat)
    requires forall v: nat, v': nat | v < v' < n :: encode(v) != encode(v')
    ensures |Image(encode, n)| == n
  {
    if n != 0 {
      ImageSize(encode, n - 1);
      ImageMembers(encode, n - 1, encode(n - 1));
    }
  }

  lemma HashesBelow(n: nat) returns (hashes: set<Bytes16>)
    requires n <= U128_MAX
    ensures |hashes| == n
    ensures forall hash: Bytes16 :: hash in hashes <==> DecodeHash(hash) < n
  {
    hashes := Image(EncodeHash, n);
    forall v: nat, v': nat | v < v' < n
      ensures EncodeHash(v) != EncodeHash(v')
    {
      DistinctCodes(v, v');
    }
    ImageSize(EncodeHash, n);
    forall hash: Bytes16
      ensures hash in hashes <==> DecodeHash(hash) < n
    {
      HashInImage(hash, n);
    }
  }

  lemma DistinctCodes(v: nat, v': nat)
    requires v < v' <= U128_MAX
    ensures EncodeHash(v) != EncodeHash(v')
  {
    Sixteen();
    FromLeToLe(v, 16);
    FromLeToLe(v', 16);
  }

  lemma HashInImage(hash: Bytes16, n: nat)
    requires n <= U128_MAX
    ensures hash in Image(EncodeHash, n) <==> DecodeHash(hash) < n
  {
    ImageMembers(EncodeHash, n, hash);
    if DecodeHash(hash) < n {
      DecodingIsBijective(hash, DecodeHash(hash));
      assert EncodeHash(DecodeHash(hash)) == hash;
    }
    if hash in Image(EncodeHash, n) {
      var v: nat :| v < n && EncodeHash(v) == hash;
      DecodingIsBijective(hash, v);
    }
  }

  /** Exactly `floor((2^128 - 1) / d)` of the 2^128 hashes are accepted at difficulty `d`. */
  lemma AcceptedHashes(d: Level) returns (accepted: set<Bytes16>)
    ensures forall hash: Bytes16 :: hash in accepted <==> Accepts(d, hash)
    ensures |accepted| == U128_MAX / d
    ensures d * |accepted| <= U128_MAX < d * (|accepted| + 1)
  {
    DivBounds(d);
    accepted := HashesBelow(Bound(d));
  }

  lemma DivBounds(d: Level)
    ensures 1 <= Bound(d) <= U128_MAX
    ensures d * Bound(d) <= U128_MAX < d * (Bound(d) + 1)
  {
  }

  /** What acceptance means for the number a hash decodes to, without any division. */
  lemma AcceptsMeans(d: Level, hash: Bytes16)
    ensures Accepts(d, hash) <==> d * (FromLe(hash) + 1) <= U128_MAX
  {
    DivBounds(d);
    var v := FromLe(hash);
    if v < Bound(d) {
      ProductGrows(d, d, v + 1, Bound(d));
    } else {
      ProductGrows(d, d, Bound(d) + 1, v + 1);
    }
  }

  /** Raising the difficulty never accepts a hash that was rejected before. */
  lemma HarderAcceptsLess(d: Level, harder: Level, hash: Bytes16)
    requires d <= harder && Accepts(harder, hash)
    ensures Accepts(d, hash)
  {
    DivBounds(d);
    DivBounds(harder);
    if Bound(d) < Bound(harder) {
      ProductGrows(d, harder, Bound(d) + 1, Bound(harder));
      assert false;
    }
  }

  lemma ProductGrows(a: nat, b: nat, x: nat, y: nat)
    requires a <= b && x <= y
    ensures a * x <= b * y
  {
  }

  // ----- Candidate solutions -----

  /** `(prefix << 32) + i` on `u128`: the shift drops what leaves the top, the sum may wrap. */
  function Candidate(prefix: U32, i: U128): U128 {
    (prefix * 0x1_0000_0000 % (U128_MAX + 1) + i) % (U128_MAX + 1)
  }

  /** For every trial index below 2^32 nothing is lost, and both parts can be read back. */
  lemma CandidateUnpacks(prefix: U32, i: U32)
    ensures Candidate(prefix, i) == prefix * 0x1_0000_0000 + i
    ensures Candidate(prefix, i) / 0x1_0000_0000 == prefix
    ensures Candidate(prefix, i) % 0x1_0000_0000 == i
  {
  }

  /** No candidate is tried twice. */
  lemma CandidatesDistinct(prefix: U32, prefix': U32, i: U32, i': U32)
    ensures Candidate(prefix, i) == Candidate(prefix', i') <==> prefix == prefix' && i == i'
  {
    CandidateUnpacks(prefix, i);
    CandidateUnpacks(prefix', i');
  }
}
