/**
 CRC-24Q: the table-driven update of a 32-bit register whose upper eight bits are never
 masked, on 32-bit integers as the program has it and on the sequence of the 32 bits, most
 significant first.
 */
module Crc24q {
  import opened Gf2
  import opened Octets

  type Word = w: seq<bool> | |w| == 32 witness Zeros(32)

  /** The 256 entries of the look-up table, sixteen to a row. */
  const TABLE: seq<seq<bv32>> := [
      [0x000000, 0x864CFB, 0x8AD50D, 0x0C99F6, 0x93E6E1, 0x15AA1A, 0x1933EC, 0x9F7F17,
       0xA18139, 0x27CDC2, 0x2B5434, 0xAD18CF, 0x3267D8, 0xB42B23, 0xB8B2D5, 0x3EFE2E],
      [0xC54E89, 0x430272, 0x4F9B84, 0xC9D77F, 0x56A868, 0xD0E493, 0xDC7D65, 0x5A319E,
       0x64CFB0, 0xE2834B, 0xEE1ABD, 0x685646, 0xF72951, 0x7165AA, 0x7DFC5C, 0xFBB0A7],
      [0x0CD1E9, 0x8A9D12, 0x8604E4, 0x00481F, 0x9F3708, 0x197BF3, 0x15E205, 0x93AEFE,
       0xAD50D0, 0x2B1C2B, 0x2785DD, 0xA1C926, 0x3EB631, 0xB8FACA, 0xB4633C, 0x322FC7],
      [0xC99F60, 0x4FD39B, 0x434A6D, 0xC50696, 0x5A7981, 0xDC357A, 0xD0AC8C, 0x56E077,
       0x681E59, 0xEE52A2, 0xE2CB54, 0x6487AF, 0xFBF8B8, 0x7DB443, 0x712DB5, 0xF7614E],
      [0x19A3D2, 0x9FEF29, 0x9376DF, 0x153A24, 0x8A4533, 0x0C09C8, 0x00903E, 0x86DCC5,
       0xB822EB, 0x3E6E10, 0x32F7E6, 0xB4BB1D, 0x2BC40A, 0xAD88F1, 0xA11107, 0x275DFC],
      [0xDCED5B, 0x5AA1A0, 0x563856, 0xD074AD, 0x4F0BBA, 0xC94741, 0xC5DEB7, 0x43924C,
       0x7D6C62, 0xFB2099, 0xF7B96F, 0x71F594, 0xEE8A83, 0x68C678, 0x645F8E, 0xE21375],
      [0x15723B, 0x933EC0, 0x9FA736, 0x19EBCD, 0x8694DA, 0x00D821, 0x0C41D7, 0x8A0D2C,
       0xB4F302, 0x32BFF9, 0x3E260F, 0xB86AF4, 0x2715E3, 0xA15918, 0xADC0EE, 0x2B8C15],
      [0xD03CB2, 0x567049, 0x5AE9BF, 0xDCA544, 0x43DA53, 0xC596A8, 0xC90F5E, 0x4F43A5,
       0x71BD8B, 0xF7F170, 0xFB6886, 0x7D247D, 0xE25B6A, 0x641791, 0x688E67, 0xEEC29C],
      [0x3347A4, 0xB50B5F, 0xB992A9, 0x3FDE52, 0xA0A145, 0x26EDBE, 0x2A7448, 0xAC38B3,
       0x92C69D, 0x148A66, 0x181390, 0x9E5F6B, 0x01207C, 0x876C87, 0x8BF571, 0x0DB98A],
      [0xF6092D, 0x7045D6, 0x7CDC20, 0xFA90DB, 0x65EFCC, 0xE3A337, 0xEF3AC1, 0x69763A,
       0x578814, 0xD1C4EF, 0xDD5D19, 0x5B11E2, 0xC46EF5, 0x42220E, 0x4EBBF8, 0xC8F703],
      [0x3F964D, 0xB9DAB6, 0xB54340, 0x330FBB, 0xAC70AC, 0x2A3C57, 0x26A5A1, 0xA0E95A,
       0x9E1774, 0x185B8F, 0x14C279, 0x928E82, 0x0DF195, 0x8BBD6E, 0x872498, 0x016863],
      [0xFAD8C4, 0x7C943F, 0x700DC9, 0xF64132, 0x693E25, 0xEF72DE, 0xE3EB28, 0x65A7D3,
       0x5B59FD, 0xDD1506, 0xD18CF0, 0x57C00B, 0xC8BF1C, 0x4EF3E7, 0x426A11, 0xC426EA],
      [0x2AE476, 0xACA88D, 0xA0317B, 0x267D80, 0xB90297, 0x3F4E6C, 0x33D79A, 0xB59B61,
       0x8B654F, 0x0D29B4, 0x01B042, 0x87FCB9, 0x1883AE, 0x9ECF55, 0x9256A3, 0x141A58],
      [0xEFAAFF, 0x69E604, 0x657FF2, 0xE33309, 0x7C4C1E, 0xFA00E5, 0xF69913, 0x70D5E8,
       0x4E2BC6, 0xC8673D, 0xC4FECB, 0x42B230, 0xDDCD27, 0x5B81DC, 0x57182A, 0xD154D1],
      [0x26359F, 0xA07964, 0xACE092, 0x2AAC69, 0xB5D37E, 0x339F85, 0x3F0673, 0xB94A88,
       0x87B4A6, 0x01F85D, 0x0D61AB, 0x8B2D50, 0x145247, 0x921EBC, 0x9E874A, 0x18CBB1],
      [0xE37B16, 0x6537ED, 0x69AE1B, 0xEFE2E0, 0x709DF7, 0xF6D10C, 0xFA48FA, 0x7C0401,
       0x42FA2F, 0xC4B6D4, 0xC82F22, 0x4E63D9, 0xD11CCE, 0x575035, 0x5BC9C3, 0xDD8538]]

  function Table(i: bv8): bv32 {
    var row, column := (i >> 4) as int, (i & 0xF) as int;
    assert |TABLE| == 16 && |TABLE[row]| == 16;
    TABLE[row][column]
  }

  /** The bits of a byte, most significant first. */
  function ByteBits(b: bv8): (p: Poly)
    ensures |p| == 8
  {
    seq(8, i requires 0 <= i < 8 => Bit(b, i))
  }

  /** The byte with the given bits. */
  function ByteOf(p: Poly): bv8
    requires |p| == 8
  {
    (if p[0] then 0x80 else 0) | (if p[1] then 0x40 else 0) | (if p[2] then 0x20 else 0) | (if p[3] then 0x10 else 0)
    | (if p[4] then 0x08 else 0) | (if p[5] then 0x04 else 0) | (if p[6] then 0x02 else 0) | (if p[7] then 0x01 else 0)
  }

  function Top(n: bv32): bv8 { ((n >> 24) & 0xFF) as bv8 }
  function High(n: bv32): bv8 { ((n >> 16) & 0xFF) as bv8 }
  function Mid(n: bv32): bv8 { ((n >> 8) & 0xFF) as bv8 }
  function Low(n: bv32): bv8 { (n & 0xFF) as bv8 }

  /** The lower 24 bits; every table entry is below 2^24 (TableCorrect). */
  function EntryBits(n: bv32): (p: Poly)
    ensures |p| == 24
  {
    ByteBits(High(n)) + ByteBits(Mid(n)) + ByteBits(Low(n))
  }

  /** One byte into the register: shift by eight and add the entry selected by the sum of the
      byte and the bits 16 to 23 of the register. */
  function DoUpdate(crc: Word, byte: bv8): Word {
    Xor(crc[8..] + Zeros(8), Zeros(8) + EntryBits(Table(ByteOf(Xor(ByteBits(byte), crc[8..16])))))
  }

  function UpdateAll(crc: Word, bytes: seq<bv8>): Word {
    if bytes == [] then crc else DoUpdate(UpdateAll(crc, bytes[..|bytes| - 1]), bytes[|bytes| - 1])
  }

  // ---------------------------------------------------------------- the program's register

  /** The update as the program has it, on 32-bit integers. */
  function DoUpdate32(crc: bv32, byte: bv8): bv32 {
    (crc << 8) ^ Table(Sum(byte, High(crc)))
  }

  /** The bits of the register. */
  function WordOf(n: bv32): Word {
    ByteBits(Top(n)) + ByteBits(High(n)) + ByteBits(Mid(n)) + ByteBits(Low(n))
  }

  lemma SumBits(a: bv8, b: bv8)
    ensures ByteBits(Sum(a, b)) == Xor(ByteBits(a), ByteBits(b))
  {
    forall i | 0 <= i < 8 ensures ByteBits(Sum(a, b))[i] == Xor(ByteBits(a), ByteBits(b))[i] {
      SumBit(a, b, i);
    }
  }

  /** The bytes of a register shifted by one byte and added to a number below 2^24. */
  lemma ShiftedBytes(crc: bv32, e: bv32, n: bv32)
    requires n == (crc << 8) ^ e && e < 0x1000000
    ensures Top(n) == High(crc) && High(n) == Sum(Mid(crc), High(e))
    ensures Mid(n) == Sum(Low(crc), Mid(e)) && Low(n) == Low(e)
  {
  }

  lemma ByteOfByteBits(b: bv8)
    ensures ByteOf(ByteBits(b)) == b
  {
    var p := ByteBits(b);
    assert p[0] == Bit(b, 0) && p[1] == Bit(b, 1) && p[2] == Bit(b, 2) && p[3] == Bit(b, 3);
    assert p[4] == Bit(b, 4) && p[5] == Bit(b, 5) && p[6] == Bit(b, 6) && p[7] == Bit(b, 7);
  }

  lemma FourBytesXor(a: Poly, b: Poly, c: Poly, h: Poly, m: Poly, l: Poly)
    requires |a| == |b| == |c| == |h| == |m| == |l| == 8
    ensures Xor(a + b + c + Zeros(8), Zeros(8) + (h + m + l)) == a + Xor(b, h) + Xor(c, m) + l
  {
  }

  lemma FourBytes(t: Poly, a: Poly, b: Poly, c: Poly)
    requires |t| == |a| == |b| == |c| == 8
    ensures (t + a + b + c)[8..16] == a && (t + a + b + c)[8..] == a + b + c
  {
  }

  /** The index into the table. */
  lemma IndexIsOnBits(crc: bv32, byte: bv8)
    ensures ByteOf(Xor(ByteBits(byte), WordOf(crc)[8..16])) == Sum(byte, High(crc))
  {
    FourBytes(ByteBits(Top(crc)), ByteBits(High(crc)), ByteBits(Mid(crc)), ByteBits(Low(crc)));
    SumBits(byte, High(crc));
    ByteOfByteBits(Sum(byte, High(crc)));
  }

  lemma ShiftIsOnBits(crc: bv32, e: bv32)
    requires e < 0x1000000
    ensures WordOf((crc << 8) ^ e) == Xor(WordOf(crc)[8..] + Zeros(8), Zeros(8) + EntryBits(e))
  {
    var n := (crc << 8) ^ e;
    var a, b, c := ByteBits(High(crc)), ByteBits(Mid(crc)), ByteBits(Low(crc));
    FourBytes(ByteBits(Top(crc)), a, b, c);
    ShiftedBytes(crc, e, n);
    SumBits(Mid(crc), High(e));
    SumBits(Low(crc), Mid(e));
    FourBytesXor(a, b, c, ByteBits(High(e)), ByteBits(Mid(e)), ByteBits(Low(e)));
  }

  /** The program's update is the update on bits. */
  lemma UpdateIsOnBits(crc: bv32, byte: bv8)
    ensures WordOf(DoUpdate32(crc, byte)) == DoUpdate(WordOf(crc), byte)
  {
    var i := Sum(byte, High(crc));
    IndexIsOnBits(crc, byte);
    TableBelow(i);
    ShiftIsOnBits(crc, Table(i));
  }

  /** The sequence update of the program, byte by byte. */
  method SequenceUpdate(seed: bv32, bytes: array<bv8>) returns (crc: bv32)
    ensures WordOf(crc) == UpdateAll(WordOf(seed), bytes[..])
  {
    crc := seed;
    for i := 0 to bytes.Length
      invariant WordOf(crc) == UpdateAll(WordOf(seed), bytes[..i])
    {
      assert bytes[..i + 1][..i] == bytes[..i];
      UpdateIsOnBits(crc, bytes[i]);
      crc := DoUpdate32(crc, bytes[i]);
    }
    assert bytes[..bytes.Length] == bytes[..];
  }

  // ---------------------------------------------------------------- the table

  /** A byte shifted by one place, with a bit `c` shifted in and a constant subtracted. */
  function ShiftByte(x: bv8, c: bool, g: bv8): bv8 {
    ((x << 1) | (if c then 1 else 0)) ^ g
  }

  lemma ShiftBit(x: bv8, c: bool, g: bv8, y: bv8, i: nat)
    requires g == 0 || g == 0x86 || g == 0x4C || g == 0xFB
    requires y == ((x << 1) | (if c then 1 else 0)) ^ g && i < 8
    ensures Bit(y, i) == ((if i < 7 then Bit(x, i + 1) else c) != Bit(g, i))
  {
  }

  lemma ShiftByteBits(x: bv8, c: bool, g: bv8)
    requires g == 0 || g == 0x86 || g == 0x4C || g == 0xFB
    ensures ByteBits(ShiftByte(x, c, g)) == Xor(ByteBits(x)[1..] + [c], ByteBits(g))
  {
    forall i | 0 <= i < 8
      ensures Bit(ShiftByte(x, c, g), i) == ((if i < 7 then Bit(x, i + 1) else c) != Bit(g, i))
    {
      ShiftBit(x, c, g, ShiftByte(x, c, g), i);
    }
  }

  /** The entry of an index follows from the entry of its upper seven bits. */
  predicate EntryStepped(n: bv32, r: bv32, bit: bool) {
    var t := (High(r) & 0x80 != 0) != bit;
    && High(n) == ShiftByte(High(r), Mid(r) & 0x80 != 0, if t then 0x86 else 0)
    && Mid(n) == ShiftByte(Mid(r), Low(r) & 0x80 != 0, if t then 0x4C else 0)
    && Low(n) == ShiftByte(Low(r), false, if t then 0xFB else 0)
  }

  lemma TableQuarter0(i: bv8)
    requires i >> 6 == 0
    ensures EntryStepped(Table(i), Table(i >> 1), i & 1 == 1)
  {
  }

  lemma TableQuarter1(i: bv8)
    requires i >> 6 == 1
    ensures EntryStepped(Table(i), Table(i >> 1), i & 1 == 1)
  {
  }

  lemma TableQuarter2(i: bv8)
    requires i >> 6 == 2
    ensures EntryStepped(Table(i), Table(i >> 1), i & 1 == 1)
  {
  }

  lemma TableQuarter3(i: bv8)
    requires i >> 6 == 3
    ensures EntryStepped(Table(i), Table(i >> 1), i & 1 == 1)
  {
  }

  predicate Below(n: bv32) { n < 0x1000000 }

  lemma BelowQuarter0(i: bv8) requires i >> 6 == 0 ensures Below(Table(i)) {}
  lemma BelowQuarter1(i: bv8) requires i >> 6 == 1 ensures Below(Table(i)) {}
  lemma BelowQuarter2(i: bv8) requires i >> 6 == 2 ensures Below(Table(i)) {}
  lemma BelowQuarter3(i: bv8) requires i >> 6 == 3 ensures Below(Table(i)) {}

  lemma TableBelow(i: bv8)
    ensures Table(i) < 0x1000000
  {
    if i >> 6 == 0 {
      BelowQuarter0(i);
    } else if i >> 6 == 1 {
      BelowQuarter1(i);
    } else if i >> 6 == 2 {
      BelowQuarter2(i);
    } else {
      BelowQuarter3(i);
    }
  }

  lemma TableStep(i: bv8)
    ensures EntryStepped(Table(i), Table(i >> 1), i & 1 == 1)
  {
    if i >> 6 == 0 {
      TableQuarter0(i);
    } else if i >> 6 == 1 {
      TableQuarter1(i);
    } else if i >> 6 == 2 {
      TableQuarter2(i);
    } else {
      TableQuarter3(i);
    }
  }

  lemma XorConcat(a: Poly, b: Poly, c: Poly, d: Poly)
    requires |a| == |c| && |b| == |d|
    ensures Xor(a + b, c + d) == Xor(a, c) + Xor(b, d)
  {
  }

  lemma ShiftConcat(a: Poly, b: Poly, c: Poly)
    requires |a| == 8 && |b| == 8 && |c| == 8
    ensures (a + b + c)[1..] + [false] == (a[1..] + [b[0]]) + (b[1..] + [c[0]]) + (c[1..] + [false])
  {
  }

  lemma GeneratorBytes()
    ensures GENERATOR[1..] == ByteBits(0x86) + ByteBits(0x4C) + ByteBits(0xFB)
    ensures Zeros(24) == ByteBits(0) + ByteBits(0) + ByteBits(0)
  {
  }

  lemma EntryStep(n: bv32, r: bv32, bit: bool)
    requires EntryStepped(n, r, bit)
    ensures EntryBits(n) == Step(EntryBits(r), bit)
  {
    var t := (High(r) & 0x80 != 0) != bit;
    BytesStep(High(r), Mid(r), Low(r), bit, t);
  }

  lemma BytesStep(h: bv8, m: bv8, l: bv8, bit: bool, t: bool)
    requires t == ((h & 0x80 != 0) != bit)
    ensures ByteBits(ShiftByte(h, m & 0x80 != 0, if t then 0x86 else 0))
            + ByteBits(ShiftByte(m, l & 0x80 != 0, if t then 0x4C else 0))
            + ByteBits(ShiftByte(l, false, if t then 0xFB else 0))
            == Step(ByteBits(h) + ByteBits(m) + ByteBits(l), bit)
  {
    var a, b, c := ByteBits(h), ByteBits(m), ByteBits(l);
    var g: bv8, g': bv8, g'': bv8 := if t then 0x86 else 0, if t then 0x4C else 0, if t then 0xFB else 0;
    ShiftByteBits(h, m & 0x80 != 0, g);
    ShiftByteBits(m, l & 0x80 != 0, g');
    ShiftByteBits(l, false, g'');
    ShiftConcat(a, b, c);
    GeneratorBytes();
    XorConcat(a[1..] + [b[0]] + (b[1..] + [c[0]]), c[1..] + [false], ByteBits(g) + ByteBits(g'), ByteBits(g''));
    XorConcat(a[1..] + [b[0]], b[1..] + [c[0]], ByteBits(g), ByteBits(g'));
  }

  /** `bits` is the binary representation of `i`, with any number of leading zeros. */
  predicate Represents(bits: seq<bool>, i: bv8) {
    if bits == [] then i == 0
    else bits[|bits| - 1] == (i & 1 == 1) && Represents(bits[..|bits| - 1], i >> 1)
  }

  lemma {:induction false} TableFeeds(i: bv8, bits: seq<bool>)
    requires Represents(bits, i)
    ensures EntryBits(Table(i)) == Feed(Zeros(24), bits)
  {
    if bits == [] {
      assert EntryBits(Table(0)) == Zeros(24);
    } else {
      var n := |bits| - 1;
      TableFeeds(i >> 1, bits[..n]);
      TableStep(i);
      EntryStep(Table(i), Table(i >> 1), bits[n]);
    }
  }

  lemma PrefixStep(i: bv8, j: bv8, k: nat, p: Poly)
    requires |p| == 8 && k < 8 && j >> 1 == i && p[k] == (j & 1 == 1) && Represents(p[..k], i)
    ensures Represents(p[..k + 1], j)
  {
    assert p[..k + 1][..k] == p[..k];
  }

  lemma IndexBits(i: bv8)
    ensures (i >> 7) >> 1 == 0
    ensures ((i >> 7) & 1 == 1) == Bit(i, 0) && ((i >> 6) & 1 == 1) == Bit(i, 1)
    ensures ((i >> 5) & 1 == 1) == Bit(i, 2) && ((i >> 4) & 1 == 1) == Bit(i, 3)
    ensures ((i >> 3) & 1 == 1) == Bit(i, 4) && ((i >> 2) & 1 == 1) == Bit(i, 5)
    ensures ((i >> 1) & 1 == 1) == Bit(i, 6) && (i & 1 == 1) == Bit(i, 7)
    ensures i >> 7 == (i >> 6) >> 1 && i >> 6 == (i >> 5) >> 1 && i >> 5 == (i >> 4) >> 1
    ensures i >> 4 == (i >> 3) >> 1 && i >> 3 == (i >> 2) >> 1 && i >> 2 == (i >> 1) >> 1
  {
  }

  lemma UpperHalf(i: bv8)
    ensures Represents(ByteBits(i)[..4], i >> 4)
  {
    var p := ByteBits(i);
    IndexBits(i);
    assert Represents(p[..0], 0);
    PrefixStep(0, i >> 7, 0, p);
    PrefixStep(i >> 7, i >> 6, 1, p);
    PrefixStep(i >> 6, i >> 5, 2, p);
    PrefixStep(i >> 5, i >> 4, 3, p);
  }

  lemma ByteRepresents(i: bv8)
    ensures Represents(ByteBits(i), i)
  {
    var p := ByteBits(i);
    UpperHalf(i);
    IndexBits(i);
    PrefixStep(i >> 4, i >> 3, 4, p);
    PrefixStep(i >> 3, i >> 2, 5, p);
    PrefixStep(i >> 2, i >> 1, 6, p);
    PrefixStep(i >> 1, i, 7, p);
    assert p[..8] == p;
  }

  /** Every entry of the table has 24 bits and is the remainder of its index: what the shift
      register makes of the eight bits. */
  lemma TableCorrect(i: bv8)
    ensures Table(i) < 0x1000000
    ensures EntryBits(Table(i)) == Feed(Zeros(24), ByteBits(i))
  {
    TableBelow(i);
    ByteRepresents(i);
    TableFeeds(i, ByteBits(i));
  }

  lemma ByteOfBits(p: Poly)
    requires |p| == 8
    ensures ByteBits(ByteOf(p)) == p
  {
  }

  /** One byte through the table is eight bits through the shift register. */
  lemma ByteStep(crc: Word, byte: bv8)
    ensures DoUpdate(crc, byte)[8..] == Feed(crc[8..], ByteBits(byte))
  {
    var low := crc[8..];
    var x := Xor(ByteBits(byte), low[..8]);
    assert crc[8..16] == low[..8];
    Absorb(low, ByteBits(byte));
    ByteOfBits(x);
    TableCorrect(ByteOf(x));
    var f := Feed(Zeros(24), x);
    assert DoUpdate(crc, byte) == Xor(crc[8..] + Zeros(8), Zeros(8) + f);
    assert DoUpdate(crc, byte)[8..] == Xor(low[8..] + Zeros(8), f);
  }
}
