/**
 The bits of an octet.
 */
module Octets {

  /** Bit i, counted from the most significant one. */
  function Bit(b: bv8, i: nat): bool {
    if i == 0 then b & 0x80 != 0
    else if i == 1 then b & 0x40 != 0
    else if i == 2 then b & 0x20 != 0
    else if i == 3 then b & 0x10 != 0
    else if i == 4 then b & 0x08 != 0
    else if i == 5 then b & 0x04 != 0
    else if i == 6 then b & 0x02 != 0
    else b & 0x01 != 0
  }

  /** The sum without carry. */
  function Sum(a: bv8, b: bv8): bv8 { a ^ b }

  lemma SumBit0(a: bv8, b: bv8) ensures Bit(Sum(a, b), 0) == (Bit(a, 0) != Bit(b, 0)) {}
  lemma SumBit1(a: bv8, b: bv8) ensures Bit(Sum(a, b), 1) == (Bit(a, 1) != Bit(b, 1)) {}
  lemma SumBit2(a: bv8, b: bv8) ensures Bit(Sum(a, b), 2) == (Bit(a, 2) != Bit(b, 2)) {}
  lemma SumBit3(a: bv8, b: bv8) ensures Bit(Sum(a, b), 3) == (Bit(a, 3) != Bit(b, 3)) {}
  lemma SumBit4(a: bv8, b: bv8) ensures Bit(Sum(a, b), 4) == (Bit(a, 4) != Bit(b, 4)) {}
  lemma SumBit5(a: bv8, b: bv8) ensures Bit(Sum(a, b), 5) == (Bit(a, 5) != Bit(b, 5)) {}
  lemma SumBit6(a: bv8, b: bv8) ensures Bit(Sum(a, b), 6) == (Bit(a, 6) != Bit(b, 6)) {}
  lemma SumBit7(a: bv8, b: bv8) ensures Bit(Sum(a, b), 7) == (Bit(a, 7) != Bit(b, 7)) {}

  lemma SumBit(a: bv8, b: bv8, i: nat)
    requires i < 8
    ensures Bit(Sum(a, b), i) == (Bit(a, i) != Bit(b, i))
  {
    match i
    case 0 => SumBit0(a, b);
    case 1 => SumBit1(a, b);
    case 2 => SumBit2(a, b);
    case 3 => SumBit3(a, b);
    case 4 => SumBit4(a, b);
    case 5 => SumBit5(a, b);
    case 6 => SumBit6(a, b);
    case 7 => SumBit7(a, b);
  }
}
