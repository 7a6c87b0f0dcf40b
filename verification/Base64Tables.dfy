/**
 The characters of the two base64 alphabets (sections 4 and 5 of RFC 4648), written out, and
 what the encoder's text is made of.
 */
module Base64Tables {
  import opened Base64
  import opened Base64Decoding
  import opened Base64Encoding

  const UPPER := "ABCDEFGHIJKLMNOPQRSTUVWXYZ"
  const LOWER := "abcdefghijklmnopqrstuvwxyz"
  const DIGITS := "0123456789"

  /** The last two characters of an alphabet. */
  function Tail(alphabet: Alphabet): string {
    match alphabet
    case Standard => "+/"
    case Url => "-_"
  }

  /** The 64 characters of an alphabet in order. */
  function Table(alphabet: Alphabet): (t: string)
    ensures |t| == 64
  {
    UPPER + LOWER + DIGITS + Tail(alphabet)
  }

  /** Consecutive letters have consecutive codes. */
  lemma Consecutive(i: nat)
    ensures i < 26 ==> UPPER[i] as int == 65 + i && LOWER[i] as int == 97 + i
    ensures i < 10 ==> DIGITS[i] as int == 48 + i
  {
  }

  lemma TableAt(alphabet: Alphabet, i: nat)
    requires i < 64
    ensures Table(alphabet)[i] == if i < 26 then UPPER[i] else if i < 52 then LOWER[i - 26]
                                  else if i < 62 then DIGITS[i - 52] else Tail(alphabet)[i - 62]
  {
  }

  lemma EncodingCode(alphabet: Alphabet, s: bv8)
    requires s < 64
    ensures var i := s as nat;
            Encoding(alphabet, s) as nat == if i < 26 then 65 + i else if i < 52 then 71 + i else if i < 62 then i - 4
                                            else if alphabet.Standard? then (if i == 62 then 43 else 47)
                                            else if i == 62 then 45 else 95
  {
  }

  /** The encoder's character for a 6-bit value is the entry of the table. */
  lemma EncodingIsTable(alphabet: Alphabet, s: bv8)
    requires s < 64
    ensures s as nat < 64 && Encoding(alphabet, s) as nat == Table(alphabet)[s as nat] as nat
  {
    var i := s as nat;
    EncodingCode(alphabet, s);
    TableAt(alphabet, i);
    if i < 26 {
      Consecutive(i);
    } else if i < 52 {
      Consecutive(i - 26);
    } else if i < 62 {
      Consecutive(i - 52);
    }
  }

  // ---------------------------------------------------------------- the decoding table

  lemma SymbolChars(c: Byte, s: bv8)
    ensures Decoding(c) == Symbol(s) <==> s < 64 && (c == Encoding(Standard, s) || c == Encoding(Url, s))
  {
  }

  /** What the decoder takes each of the 256 characters for: those of both alphabets for their
      values, the six white-space characters and the equals sign for what they are, and every
      other one for an error. */
  lemma DecodingMeans(c: Byte)
    ensures Decoding(c).Symbol? <==> exists s :: s < 64 && (c == Encoding(Standard, s) || c == Encoding(Url, s))
    ensures Decoding(c).Pad? <==> c as nat == '=' as nat
    ensures Decoding(c).Space? <==> c == 32 || c == 9 || c == 10 || c == 11 || c == 12 || c == 13
  {
    if Decoding(c).Symbol? {
      SymbolChars(c, Decoding(c).value);
    }
    if s :| s < 64 && (c == Encoding(Standard, s) || c == Encoding(Url, s)) {
      SymbolChars(c, s);
    }
  }

  // ---------------------------------------------------------------- the encoder's text

  predicate AreSextets(vs: seq<bv8>) {
    forall i :: 0 <= i < |vs| ==> vs[i] < 64
  }

  function Symbols(alphabet: Alphabet, vs: seq<bv8>): seq<Byte>
    requires AreSextets(vs)
  {
    seq(|vs|, i requires 0 <= i < |vs| => Encoding(alphabet, vs[i]))
  }

  /** The equals signs that fill the last quantum. */
  function Pads(n: nat): seq<Byte> {
    if n % 3 == 1 then [61, 61] else if n % 3 == 2 then [61] else []
  }

  lemma {:induction false} ValuesAreSextets(src: seq<Byte>)
    ensures AreSextets(Values(src))
  {
    if |src| > 2 {
      ValuesAreSextets(src[3..]);
    }
  }

  lemma SymbolsConcat(alphabet: Alphabet, a: seq<bv8>, b: seq<bv8>)
    requires AreSextets(a) && AreSextets(b)
    ensures AreSextets(a + b) && Symbols(alphabet, a + b) == Symbols(alphabet, a) + Symbols(alphabet, b)
  {
  }

  lemma QuantumSymbols(alphabet: Alphabet, a: Byte, b: Byte, c: Byte)
    ensures AreSextets(QuantumValues(a, b, c)) && Quantum(alphabet, a, b, c) == Symbols(alphabet, QuantumValues(a, b, c))
  {
  }

  lemma OneRest(alphabet: Alphabet, s: bv8, t: bv8)
    requires s < 64 && t < 64
    ensures [Encoding(alphabet, s), Encoding(alphabet, t), EQUALS, EQUALS] == Symbols(alphabet, [s, t]) + [61, 61]
  {
  }

  lemma TwoRest(alphabet: Alphabet, s: bv8, t: bv8, u: bv8)
    requires s < 64 && t < 64 && u < 64
    ensures [Encoding(alphabet, s), Encoding(alphabet, t), Encoding(alphabet, u), EQUALS]
         == Symbols(alphabet, [s, t, u]) + [61]
  {
  }

  predicate IsFinal(alphabet: Alphabet, rest: seq<Byte>)
    requires |rest| < 3
  {
    AreSextets(Values(rest)) && Final(alphabet, rest) == Symbols(alphabet, Values(rest)) + Pads(|rest|)
  }

  lemma FinalOfNone(alphabet: Alphabet, rest: seq<Byte>)
    requires |rest| == 0
    ensures IsFinal(alphabet, rest)
  {
  }

  lemma FinalOfOne(alphabet: Alphabet, rest: seq<Byte>)
    requires |rest| == 1
    ensures IsFinal(alphabet, rest)
  {
    OneRest(alphabet, Value0(rest[0]), Value1(rest[0], 0));
  }

  lemma FinalOfTwo(alphabet: Alphabet, rest: seq<Byte>)
    requires |rest| == 2
    ensures IsFinal(alphabet, rest)
  {
    TwoRest(alphabet, Value0(rest[0]), Value1(rest[0], rest[1]), Value2(rest[1], 0));
  }

  lemma FinalSymbols(alphabet: Alphabet, rest: seq<Byte>)
    requires |rest| < 3
    ensures IsFinal(alphabet, rest)
  {
    if |rest| == 0 {
      FinalOfNone(alphabet, rest);
    } else if |rest| == 1 {
      FinalOfOne(alphabet, rest);
    } else {
      FinalOfTwo(alphabet, rest);
    }
  }

  lemma PadsSize(n: nat)
    ensures |Pads(n)| == if n % 3 == 1 then 2 else if n % 3 == 2 then 1 else 0
  {
  }

  lemma MultipleOfFour(q: nat, x: nat)
    requires x == 4 * q
    ensures x % 4 == 0
  {
  }

  lemma WholeQuanta(src: seq<Byte>)
    ensures (|Values(src)| + |Pads(|src|)|) % 4 == 0
  {
    ValuesSize(src);
    PadsSize(|src|);
    var n, q := |src|, |src| / 3;
    MultipleOfFour(if n % 3 == 0 then q else q + 1, |Values(src)| + |Pads(n)|);
  }

  lemma PlainShort(alphabet: Alphabet, src: seq<Byte>)
    requires |src| < 3
    ensures AreSextets(Values(src))
    ensures Flatten(Groups(alphabet, src)) + Last(alphabet, src) == Symbols(alphabet, Values(src)) + Pads(|src|)
  {
    assert src[3 * (|src| / 3)..] == src;
    FinalSymbols(alphabet, src);
    assert Flatten(Groups(alphabet, src)) == [];
  }

  predicate IsPlain(alphabet: Alphabet, src: seq<Byte>) {
    AreSextets(Values(src)) &&
    Flatten(Groups(alphabet, src)) + Last(alphabet, src) == Symbols(alphabet, Values(src)) + Pads(|src|)
  }

  lemma PadsPeriodic(n: nat)
    ensures Pads(n + 3) == Pads(n)
  {
  }

  lemma PlainStep(alphabet: Alphabet, src: seq<Byte>)
    requires |src| > 2 && IsPlain(alphabet, src[3..])
    ensures IsPlain(alphabet, src)
  {
    var rest := src[3..];
    var q := QuantumValues(src[0], src[1], src[2]);
    LastStep(alphabet, src);
    PadsPeriodic(|rest|);
    QuantumSymbols(alphabet, src[0], src[1], src[2]);
    GroupsStep(alphabet, src);
    SymbolsConcat(alphabet, q, Values(rest));
    Rejoin(Symbols(alphabet, q), Flatten(Groups(alphabet, rest)), Last(alphabet, rest),
           Symbols(alphabet, Values(rest)), Pads(|rest|));
  }

  /** The quanta and the rest, one after the other, are the characters of the input's 6-bit
      values in the chosen alphabet, filled up with equals signs to a multiple of four. */
  lemma {:induction false} PlainText(alphabet: Alphabet, src: seq<Byte>)
    ensures IsPlain(alphabet, src) && (|Values(src)| + |Pads(|src|)|) % 4 == 0
    decreases |src|
  {
    WholeQuanta(src);
    if |src| <= 2 {
      PlainShort(alphabet, src);
    } else {
      PlainText(alphabet, src[3..]);
      PlainStep(alphabet, src);
    }
  }

  lemma GroupsStep(alphabet: Alphabet, src: seq<Byte>)
    requires |src| > 2
    ensures Flatten(Groups(alphabet, src)) == Quantum(alphabet, src[0], src[1], src[2]) + Flatten(Groups(alphabet, src[3..]))
    ensures Values(src) == QuantumValues(src[0], src[1], src[2]) + Values(src[3..])
  {
    assert Groups(alphabet, src)[1..] == Groups(alphabet, src[3..]);
  }

  lemma Rejoin(q: seq<Byte>, groups: seq<Byte>, last: seq<Byte>, symbols: seq<Byte>, pads: seq<Byte>)
    requires groups + last == symbols + pads
    ensures (q + groups) + last == (q + symbols) + pads
  {
    assert (q + groups) + last == q + (groups + last);
  }

  lemma {:induction false} WithoutBreaks(groups: seq<seq<Byte>>, last: seq<Byte>, loops: nat, wordlen: int)
    ensures Layout(groups, last, loops, [], wordlen) == Flatten(groups) + last
    decreases |groups|
  {
    if groups != [] {
      var n := (loops + 1) % CInt.TWO32;
      WithoutBreaks(groups[1..], last, 0, wordlen);
      WithoutBreaks(groups[1..], last, n, wordlen);
      Sequences.Regroup(groups[0], Flatten(groups[1..]), last);
      assert [] + (Flatten(groups[1..]) + last) == Flatten(groups[1..]) + last;
    }
  }

  /** Without word breaks the output is exactly those characters. */
  lemma EncodedPlain(alphabet: Alphabet, src: seq<Byte>, wordlen: int)
    ensures AreSextets(Values(src))
    ensures Encoded(alphabet, src, [], wordlen) == Symbols(alphabet, Values(src)) + Pads(|src|)
  {
    PlainText(alphabet, src);
    WithoutBreaks(Groups(alphabet, src), Last(alphabet, src), 0, WordLength(wordlen));
  }

  lemma {:induction false} LayoutChars(groups: seq<seq<Byte>>, last: seq<Byte>, loops: nat, wordbreak: seq<Byte>, wordlen: int, c: Byte)
    requires c in Layout(groups, last, loops, wordbreak, wordlen)
    ensures c in wordbreak || c in Flatten(groups) + last
    decreases |groups|
  {
    if groups != [] && c !in wordbreak && c !in groups[0] {
      var n := (loops + 1) % CInt.TWO32;
      var full := (|groups| > 1 || last != []) && LineFull(n, wordlen);
      LayoutChars(groups[1..], last, if full then 0 else n, wordbreak, wordlen, c);
    }
  }

  predicate InTable(alphabet: Alphabet, c: Byte) {
    exists i :: 0 <= i < 64 && c as nat == Table(alphabet)[i] as nat
  }

  lemma SymbolInTable(alphabet: Alphabet, vs: seq<bv8>, c: Byte)
    requires AreSextets(vs) && c in Symbols(alphabet, vs)
    ensures InTable(alphabet, c)
  {
    var k :| 0 <= k < |vs| && Symbols(alphabet, vs)[k] == c;
    EncodingIsTable(alphabet, vs[k]);
  }

  lemma PadIsEquals(n: nat, c: Byte)
    requires c in Pads(n)
    ensures c == 61
  {
  }

  /** Every character of the output is one of the word break, an equals sign or an entry of the
      chosen alphabet's table. */
  lemma EncodedAlphabet(alphabet: Alphabet, src: seq<Byte>, wordbreak: seq<Byte>, wordlen: int, c: Byte)
    requires c in Encoded(alphabet, src, wordbreak, wordlen)
    ensures c in wordbreak || c == 61 || InTable(alphabet, c)
  {
    LayoutChars(Groups(alphabet, src), Last(alphabet, src), 0, wordbreak, WordLength(wordlen), c);
    if c !in wordbreak {
      var symbols, pads := (PlainText(alphabet, src); Symbols(alphabet, Values(src))), Pads(|src|);
      PlainText(alphabet, src);
      assert c in symbols + pads;
      if c in symbols {
        SymbolInTable(alphabet, Values(src), c);
      } else {
        PadIsEquals(|src|, c);
      }
    }
  }
}
