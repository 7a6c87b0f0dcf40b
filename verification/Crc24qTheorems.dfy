/**
 What the CRC-24Q of a byte sequence is: the remainder of polynomial division, linear in the
 message, zero on a message followed by its checksum, and different for any two messages
 that differ only in a burst of at most 24 bits. The register's upper byte never matters.
 */
module Crc24qTheorems {
  import opened Gf2
  import opened Octets
  import opened Crc24q

  /** The bits of a message, most significant bit of each byte first. */
  function Bits(bytes: seq<bv8>): (bits: seq<bool>)
    ensures |bits| == 8 * |bytes|
  {
    if bytes == [] then [] else Bits(bytes[..|bytes| - 1]) + ByteBits(bytes[|bytes| - 1])
  }

  /** The 24 bits of the register that count. */
  function Checksum(crc: Word): (p: Poly)
    ensures |p| == 24
  {
    crc[8..]
  }

  lemma {:induction false} UpdateFeeds(seed: Word, bytes: seq<bv8>)
    ensures Checksum(UpdateAll(seed, bytes)) == Feed(Checksum(seed), Bits(bytes))
  {
    if bytes != [] {
      var n := |bytes| - 1;
      UpdateFeeds(seed, bytes[..n]);
      ByteStep(UpdateAll(seed, bytes[..n]), bytes[n]);
      FeedConcat(Checksum(seed), Bits(bytes[..n]), ByteBits(bytes[n]));
    }
  }

  /** For every seed and message, the checksum is the remainder of dividing
      seed * x^n + message * x^24 by the generator, and no other polynomial is. */
  lemma ChecksumIsRemainder(seed: Word, bytes: seq<bv8>)
    ensures exists q :: Divides(Checksum(seed), Bits(bytes), q, Checksum(UpdateAll(seed, bytes)))
    ensures forall q, r :: Divides(Checksum(seed), Bits(bytes), q, r) ==> r == Checksum(UpdateAll(seed, bytes))
  {
    UpdateFeeds(seed, bytes);
    FeedDivides(Checksum(seed), Bits(bytes));
    forall q, r | Divides(Checksum(seed), Bits(bytes), q, r) ensures r == Checksum(UpdateAll(seed, bytes)) {
      RemainderUnique(Checksum(seed), Bits(bytes), q, r);
    }
  }

  /** The junk in the upper byte of the register never reaches the checksum. */
  lemma UpperByteIgnored(seed: Word, seed': Word, bytes: seq<bv8>)
    requires Checksum(seed) == Checksum(seed')
    ensures Checksum(UpdateAll(seed, bytes)) == Checksum(UpdateAll(seed', bytes))
  {
    UpdateFeeds(seed, bytes);
    UpdateFeeds(seed', bytes);
  }

  /** A sequence may be fed in pieces. */
  lemma {:induction false} UpdateConcat(seed: Word, a: seq<bv8>, b: seq<bv8>)
    ensures UpdateAll(seed, a + b) == UpdateAll(UpdateAll(seed, a), b)
  {
    if b == [] {
      assert a + b == a;
    } else {
      var n := |b| - 1;
      assert (a + b)[..|a + b| - 1] == a + b[..n];
      UpdateConcat(seed, a, b[..n]);
    }
  }

  /** The checksum of the sum of two messages of the same length is the sum of the checksums. */
  lemma ChecksumLinear(c: Word, d: Word, e: Word, l: seq<bv8>, m: seq<bv8>, n: seq<bv8>)
    requires |l| == |m| == |n|
    requires Checksum(e) == Xor(Checksum(c), Checksum(d)) && Bits(n) == Xor(Bits(l), Bits(m))
    ensures Checksum(UpdateAll(e, n)) == Xor(Checksum(UpdateAll(c, l)), Checksum(UpdateAll(d, m)))
  {
    UpdateFeeds(c, l);
    UpdateFeeds(d, m);
    UpdateFeeds(e, n);
    FeedLinear(Checksum(c), Checksum(d), Bits(l), Bits(m));
  }

  /** The three bytes of a checksum, high byte first. */
  function ChecksumBytes(crc: Word): seq<bv8> {
    [ByteOf(crc[8..16]), ByteOf(crc[16..24]), ByteOf(crc[24..32])]
  }

  lemma BitsOfThree(x: bv8, y: bv8, z: bv8)
    ensures Bits([x, y, z]) == ByteBits(x) + ByteBits(y) + ByteBits(z)
  {
    assert [x, y, z][..2] == [x, y] && [x, y][..1] == [x] && [x][..0] == [];
    assert Bits([x]) == ByteBits(x);
    assert Bits([x, y]) == ByteBits(x) + ByteBits(y);
  }

  lemma ChecksumBits(crc: Word)
    ensures Bits(ChecksumBytes(crc)) == Checksum(crc)
  {
    var x, y, z := crc[8..16], crc[16..24], crc[24..32];
    ByteOfBits(x);
    ByteOfBits(y);
    ByteOfBits(z);
    BitsOfThree(ByteOf(x), ByteOf(y), ByteOf(z));
    assert x + y + z == Checksum(crc);
  }

  /** A message followed by its own checksum has checksum zero, whatever the seed. */
  lemma ChecksumAnnihilates(seed: Word, bytes: seq<bv8>)
    ensures Checksum(UpdateAll(seed, bytes + ChecksumBytes(UpdateAll(seed, bytes)))) == Zeros(24)
  {
    var crc := UpdateAll(seed, bytes);
    UpdateConcat(seed, bytes, ChecksumBytes(crc));
    UpdateFeeds(crc, ChecksumBytes(crc));
    ChecksumBits(crc);
    SelfAnnihilates(Checksum(crc));
  }

  /** Two messages of the same length that differ, but only within a window of at most 24
      consecutive bits, never have the same checksum. */
  lemma BurstsDetected(seed: Word, m: seq<bv8>, n: seq<bv8>, from: nat, width: nat)
    requires |m| == |n| && m != n && width <= 24 && from + width <= 8 * |m|
    requires Bits(m)[..from] == Bits(n)[..from] && Bits(m)[from + width..] == Bits(n)[from + width..]
    ensures Checksum(UpdateAll(seed, m)) != Checksum(UpdateAll(seed, n))
  {
    UpdateFeeds(seed, m);
    UpdateFeeds(seed, n);
    BitsInjective(m, n);
    WindowDetected(Checksum(seed), Bits(m), Bits(n), from, width);
  }

  /** Two messages of the same length whose difference has an odd number of bits never have the
      same checksum. */
  lemma OddErrorsDetected(seed: Word, m: seq<bv8>, n: seq<bv8>)
    requires |m| == |n| && Parity(Xor(Bits(m), Bits(n)))
    ensures Checksum(UpdateAll(seed, m)) != Checksum(UpdateAll(seed, n))
  {
    UpdateFeeds(seed, m);
    UpdateFeeds(seed, n);
    OddDetected(Checksum(seed), Bits(m), Bits(n));
  }

  lemma WindowDetected(r: Poly, a: seq<bool>, b: seq<bool>, from: nat, width: nat)
    requires |r| == 24 && |a| == |b| && a != b && width <= 24 && from + width <= |a|
    requires a[..from] == b[..from] && a[from + width..] == b[from + width..]
    ensures Feed(r, a) != Feed(r, b)
  {
    var to := from + width;
    ThreeParts(a, from, to);
    ThreeParts(b, from, to);
    BurstDetected(r, a[..from], a[from..to], b[from..to], a[to..]);
  }

  lemma ThreeParts(a: seq<bool>, from: nat, to: nat)
    requires from <= to <= |a|
    ensures a == a[..from] + a[from..to] + a[to..]
  {
  }

  lemma ByteBitsInjective(x: bv8, y: bv8)
    requires ByteBits(x) == ByteBits(y)
    ensures x == y
  {
    assert forall i :: 0 <= i < 8 ==> Bit(x, i) == ByteBits(x)[i] && Bit(y, i) == ByteBits(y)[i];
    assert Bit(x, 0) == Bit(y, 0) && Bit(x, 1) == Bit(y, 1) && Bit(x, 2) == Bit(y, 2) && Bit(x, 3) == Bit(y, 3);
    assert Bit(x, 4) == Bit(y, 4) && Bit(x, 5) == Bit(y, 5) && Bit(x, 6) == Bit(y, 6) && Bit(x, 7) == Bit(y, 7);
  }

  lemma {:induction false} BitsInjective(m: seq<bv8>, n: seq<bv8>)
    requires |m| == |n|
    ensures Bits(m) == Bits(n) ==> m == n
  {
    if m != [] && Bits(m) == Bits(n) {
      var k := |m| - 1;
      assert Bits(m[..k]) == Bits(m)[..8 * k] && Bits(n[..k]) == Bits(n)[..8 * k];
      assert ByteBits(m[k]) == Bits(m)[8 * k..] && ByteBits(n[k]) == Bits(n)[8 * k..];
      BitsInjective(m[..k], n[..k]);
      ByteBitsInjective(m[k], n[k]);
      assert m == m[..k] + [m[k]] && n == n[..k] + [n[k]];
    }
  }
}
