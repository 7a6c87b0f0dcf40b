/**
 The streaming base64 encoder and its inverse, the decoder: whatever the alphabet, the word
 length and the white space used as word break, decoding the output gives back the input.
 */
module Base64Encoding {
  import opened Base64
  import opened Base64Decoding
  import opened Sequences
  import opened CInt

  // The four 6-bit values of three octets.

  function Value0(a: Byte): (s: bv8) ensures s < 64 { (a >> 2) & 0x3F }
  function Value1(a: Byte, b: Byte): (s: bv8) ensures s < 64 { ((a << 4) & 0x30) | ((b >> 4) & 0x0F) }
  function Value2(b: Byte, c: Byte): (s: bv8) ensures s < 64 { ((b << 2) & 0x3C) | ((c >> 6) & 0x03) }
  function Value3(c: Byte): (s: bv8) ensures s < 64 { c & 0x3F }

  function Quantum(alphabet: Alphabet, a: Byte, b: Byte, c: Byte): seq<Byte> {
    [Encoding(alphabet, Value0(a)), Encoding(alphabet, Value1(a, b)),
     Encoding(alphabet, Value2(b, c)), Encoding(alphabet, Value3(c))]
  }

  /** What is left when fewer than three octets remain. */
  function Final(alphabet: Alphabet, rest: seq<Byte>): seq<Byte>
    requires |rest| < 3
  {
    if |rest| == 2 then
      [Encoding(alphabet, Value0(rest[0])), Encoding(alphabet, Value1(rest[0], rest[1])),
       Encoding(alphabet, Value2(rest[1], 0)), EQUALS]
    else if |rest| == 1 then
      [Encoding(alphabet, Value0(rest[0])), Encoding(alphabet, Value1(rest[0], 0)), EQUALS, EQUALS]
    else []
  }

  /** Another quantum would reach the word length. */
  predicate LineFull(loops: nat, wordlen: int) {
    ToInt(((loops + 1) * 4) % TWO32) >= wordlen
  }

  /** The quanta of the complete groups of three octets. */
  function Groups(alphabet: Alphabet, src: seq<Byte>): seq<seq<Byte>> {
    if |src| < 3 then [] else [Quantum(alphabet, src[0], src[1], src[2])] + Groups(alphabet, src[3..])
  }

  /** The padded rest of the text, if any octets remain. */
  function Last(alphabet: Alphabet, src: seq<Byte>): seq<Byte> {
    Final(alphabet, src[3 * (|src| / 3)..])
  }

  /** Groups put one after the other; `loops` of them are on the current line already. A word
      break comes when another group would reach the word length, but not at the very end. */
  function Layout(groups: seq<seq<Byte>>, last: seq<Byte>, loops: nat, wordbreak: seq<Byte>, wordlen: int): seq<Byte> {
    if groups == [] then last
    else
      var n := (loops + 1) % TWO32;
      if (|groups| > 1 || last != []) && LineFull(n, wordlen) then
        groups[0] + (wordbreak + Layout(groups[1..], last, 0, wordbreak, wordlen))
      else
        groups[0] + Layout(groups[1..], last, n, wordbreak, wordlen)
  }

  function WordLength(wordlen: int): int {
    if wordlen < 4 then 4 else wordlen
  }

  function Encoded(alphabet: Alphabet, src: seq<Byte>, wordbreak: seq<Byte>, wordlen: int): seq<Byte> {
    Layout(Groups(alphabet, src), Last(alphabet, src), 0, wordbreak, WordLength(wordlen))
  }

  method PutBreak(output: seq<Byte>, wordbreak: seq<Byte>) returns (output': seq<Byte>, count: nat)
    ensures output' == output + wordbreak && count == |wordbreak|
  {
    output', count := output, 0;
    while count < |wordbreak|
      invariant count <= |wordbreak| && output' == output + wordbreak[..count]
    {
      output', count := output' + [wordbreak[count]], count + 1;
    }
  }

  /** One round of the loop moves a group, and perhaps a word break, to the output. */
  lemma LayoutStep(output: seq<Byte>, groups: seq<seq<Byte>>, last: seq<Byte>, loops: nat, wordbreak: seq<Byte>, wordlen: int)
    requires groups != []
    ensures var n := (loops + 1) % TWO32;
            output + Layout(groups, last, loops, wordbreak, wordlen) ==
            if (|groups| > 1 || last != []) && LineFull(n, wordlen)
            then ((output + groups[0]) + wordbreak) + Layout(groups[1..], last, 0, wordbreak, wordlen)
            else (output + groups[0]) + Layout(groups[1..], last, n, wordbreak, wordlen)
  {
  }

  /** The output still to come when `rest` is left. */
  function ToCome(alphabet: Alphabet, rest: seq<Byte>, loops: nat, wordbreak: seq<Byte>, wordlen: int): seq<Byte> {
    Layout(Groups(alphabet, rest), Last(alphabet, rest), loops, wordbreak, wordlen)
  }

  lemma ToComeStep(output: seq<Byte>, alphabet: Alphabet, rest: seq<Byte>, loops: nat, wordbreak: seq<Byte>, wordlen: int)
    requires |rest| > 2
    ensures var q := Quantum(alphabet, rest[0], rest[1], rest[2]);
            var n := (loops + 1) % TWO32;
            output + ToCome(alphabet, rest, loops, wordbreak, wordlen) ==
            if |rest| > 3 && LineFull(n, wordlen)
            then ((output + q) + wordbreak) + ToCome(alphabet, rest[3..], 0, wordbreak, wordlen)
            else (output + q) + ToCome(alphabet, rest[3..], n, wordbreak, wordlen)
  {
    LastStep(alphabet, rest);
    LayoutStep(output, Groups(alphabet, rest), Last(alphabet, rest), loops, wordbreak, wordlen);
  }

  lemma LastStep(alphabet: Alphabet, src: seq<Byte>)
    requires |src| >= 3
    ensures Last(alphabet, src) == Last(alphabet, src[3..])
    ensures |Groups(alphabet, src)| > 1 || Last(alphabet, src) != [] <==> |src| > 3
  {
    assert src[3..][3 * (|src[3..]| / 3)..] == src[3 * (|src| / 3)..];
  }

  lemma ToComeEnd(alphabet: Alphabet, rest: seq<Byte>, loops: nat, wordbreak: seq<Byte>, wordlen: int)
    requires |rest| < 3
    ensures ToCome(alphabet, rest, loops, wordbreak, wordlen) == Final(alphabet, rest)
  {
    assert rest[3 * (|rest| / 3)..] == rest;
  }

  /** One round of the loop: a quantum, and perhaps a word break. */
  method EncodeRound(output: seq<Byte>, alphabet: Alphabet, rest: seq<Byte>, loops: nat, wordbreak: seq<Byte>, wordlen: int)
    returns (output': seq<Byte>, count: nat, loops': nat)
    requires |rest| > 2
    ensures output' + ToCome(alphabet, rest[3..], loops', wordbreak, wordlen)
         == output + ToCome(alphabet, rest, loops, wordbreak, wordlen)
    ensures |output'| == |output| + count
  {
    ToComeStep(output, alphabet, rest, loops, wordbreak, wordlen);
    output', count := output + Quantum(alphabet, rest[0], rest[1], rest[2]), 4;
    loops' := (loops + 1) % TWO32;
    if |rest| - 3 != 0 && LineFull(loops', wordlen) {
      var more;
      output', more := PutBreak(output', wordbreak);
      loops', count := 0, count + more;
    }
  }

  /** The encoder: characters go to the output in order, and their count is returned. */
  method Encode(alphabet: Alphabet, src: seq<Byte>, wordbreak: seq<Byte>, wordlen: int)
    returns (output: seq<Byte>, out: int)
    ensures output == Encoded(alphabet, src, wordbreak, wordlen)
    ensures out == |output|
  {
    var length := if wordlen < 4 then 4 else wordlen;
    var loops: nat, rest := 0, src;
    ghost var all := Encoded(alphabet, src, wordbreak, wordlen);
    output, out := [], 0;
    assert output + ToCome(alphabet, rest, loops, wordbreak, length) == all;
    while |rest| > 2
      invariant out == |output| && output + ToCome(alphabet, rest, loops, wordbreak, length) == all
      decreases |rest|
    {
      var count;
      output, count, loops := EncodeRound(output, alphabet, rest, loops, wordbreak, length);
      rest, out := rest[3..], out + count;
    }
    ToComeEnd(alphabet, rest, loops, wordbreak, length);
    output, out := output + Final(alphabet, rest), out + |Final(alphabet, rest)|;
  }

  // ---------------------------------------------------------------- where the breaks fall

  /** Quanta on a line: one less than would reach the word length, but at least one. */
  function QuantaPerLine(wordlen: int): nat
    requires wordlen >= 4
  {
    if wordlen <= 8 then 1 else (wordlen + 3) / 4 - 1
  }

  function Flatten<T>(groups: seq<seq<T>>): seq<T> {
    if groups == [] then [] else groups[0] + Flatten(groups[1..])
  }

  lemma LineFullAt(loops: nat, wordlen: int)
    requires 4 <= wordlen <= LONGEST_WORD && 0 < loops <= QuantaPerLine(wordlen)
    ensures loops < TWO32 && (LineFull(loops, wordlen) <==> loops == QuantaPerLine(wordlen))
  {
  }

  lemma LayoutGoesOn(groups: seq<seq<Byte>>, last: seq<Byte>, loops: nat, wordbreak: seq<Byte>, wordlen: int)
    requires groups != [] && loops + 1 < TWO32 && !LineFull(loops + 1, wordlen)
    ensures Layout(groups, last, loops, wordbreak, wordlen) == groups[0] + Layout(groups[1..], last, loops + 1, wordbreak, wordlen)
  {
    assert (loops + 1) % TWO32 == loops + 1;
  }

  /** A line that goes on: the group is followed directly by the next one. */
  lemma LineGoesOn(groups: seq<seq<Byte>>, last: seq<Byte>, loops: nat, wordbreak: seq<Byte>, wordlen: int)
    requires 4 <= wordlen <= LONGEST_WORD && loops + 1 < QuantaPerLine(wordlen) && groups != []
    ensures Layout(groups, last, loops, wordbreak, wordlen) == groups[0] + Layout(groups[1..], last, loops + 1, wordbreak, wordlen)
  {
    assert loops + 1 < TWO32 && !LineFull(loops + 1, wordlen) by { LineFullAt(loops + 1, wordlen); }
    LayoutGoesOn(groups, last, loops, wordbreak, wordlen);
  }

  lemma LineEnds(groups: seq<seq<Byte>>, last: seq<Byte>, wordbreak: seq<Byte>, wordlen: int)
    requires 4 <= wordlen <= LONGEST_WORD && groups != [] && (|groups| > 1 || last != [])
    ensures Layout(groups, last, QuantaPerLine(wordlen) - 1, wordbreak, wordlen)
         == groups[0] + (wordbreak + Layout(groups[1..], last, 0, wordbreak, wordlen))
  {
    LineFullAt(QuantaPerLine(wordlen), wordlen);
  }

  lemma FlattenHead(groups: seq<seq<Byte>>, n: nat)
    requires 0 < n <= |groups|
    ensures Flatten(groups[..n]) == groups[0] + Flatten(groups[1..][..n - 1])
    ensures groups[1..][n - 1..] == groups[n..]
  {
    assert groups[..n][1..] == groups[1..][..n - 1];
  }

  lemma {:induction false} LineFrom(groups: seq<seq<Byte>>, last: seq<Byte>, n: nat, wordbreak: seq<Byte>, wordlen: int)
    requires 4 <= wordlen <= LONGEST_WORD && 0 < n <= QuantaPerLine(wordlen)
    requires |groups| >= n && (|groups| > n || last != [])
    ensures Layout(groups, last, QuantaPerLine(wordlen) - n, wordbreak, wordlen)
            == Flatten(groups[..n]) + (wordbreak + Layout(groups[n..], last, 0, wordbreak, wordlen))
    decreases n
  {
    FlattenHead(groups, n);
    var tail := wordbreak + Layout(groups[n..], last, 0, wordbreak, wordlen);
    if n == 1 {
      LineEnds(groups, last, wordbreak, wordlen);
      assert groups[0] + Flatten(groups[1..][..0]) == groups[0];
    } else {
      LineGoesOn(groups, last, QuantaPerLine(wordlen) - n, wordbreak, wordlen);
      LineFrom(groups[1..], last, n - 1, wordbreak, wordlen);
      Regroup(groups[0], Flatten(groups[1..][..n - 1]), tail);
    }
  }

  const LONGEST_WORD: int := 0x7FFF_FFFC

  /** Beyond the longest word length that an int multiple of four can reach, no line is full. */
  lemma NeverFull(loops: nat, wordlen: int)
    requires wordlen > LONGEST_WORD
    ensures !LineFull(loops, wordlen)
  {
    var m := ((loops + 1) * 4) % TWO32;
    assert m % 4 == 0;
    Converted(m);
  }

  lemma {:induction false} NoBreaks(groups: seq<seq<Byte>>, last: seq<Byte>, loops: nat, wordbreak: seq<Byte>, wordlen: int)
    requires wordlen > LONGEST_WORD
    ensures Layout(groups, last, loops, wordbreak, wordlen) == Flatten(groups) + last
    decreases |groups|
  {
    if groups != [] {
      var n := (loops + 1) % TWO32;
      NeverFull(n, wordlen);
      NoBreaks(groups[1..], last, n, wordbreak, wordlen);
      Regroup(groups[0], Flatten(groups[1..]), last);
    }
  }

  /** A text that ends on the line it is on. */
  lemma {:induction false} LastLineFrom(groups: seq<seq<Byte>>, last: seq<Byte>, n: nat, wordbreak: seq<Byte>, wordlen: int)
    requires 4 <= wordlen <= LONGEST_WORD && n <= QuantaPerLine(wordlen)
    requires |groups| < n || (|groups| == n && last == [])
    ensures Layout(groups, last, QuantaPerLine(wordlen) - n, wordbreak, wordlen) == Flatten(groups) + last
    decreases |groups|
  {
    if groups != [] {
      var loops := QuantaPerLine(wordlen) - n;
      if n > 1 {
        LineGoesOn(groups, last, loops, wordbreak, wordlen);
        LastLineFrom(groups[1..], last, n - 1, wordbreak, wordlen);
        Regroup(groups[0], Flatten(groups[1..]), last);
      } else {
        assert groups[1..] == [] && Flatten(groups) == groups[0];
      }
    }
  }

  /** Where the word breaks fall, for every word length. A line that is followed by more text
      has QuantaPerLine quanta of four characters, then comes the word break; that is the word
      length itself only for the shortest one, otherwise the break comes up to four characters
      early. A text that does not go beyond a line, or any text when the word length is beyond
      LONGEST_WORD, has no break. */
  lemma FirstLine(groups: seq<seq<Byte>>, last: seq<Byte>, wordbreak: seq<Byte>, wordlen: int)
    requires 4 <= wordlen
    ensures var n := QuantaPerLine(wordlen);
            Layout(groups, last, 0, wordbreak, wordlen) ==
            if wordlen <= LONGEST_WORD && (|groups| > n || (|groups| == n && last != []))
            then Flatten(groups[..n]) + (wordbreak + Layout(groups[n..], last, 0, wordbreak, wordlen))
            else Flatten(groups) + last
    ensures 4 * QuantaPerLine(wordlen) == wordlen <==> wordlen == 4
    ensures wordlen - 4 <= 4 * QuantaPerLine(wordlen) <= wordlen
  {
    var n := QuantaPerLine(wordlen);
    if wordlen > LONGEST_WORD {
      NoBreaks(groups, last, 0, wordbreak, wordlen);
    } else if |groups| > n || (|groups| == n && last != []) {
      LineFrom(groups, last, n, wordbreak, wordlen);
    } else {
      LastLineFrom(groups, last, n, wordbreak, wordlen);
    }
  }

  // ---------------------------------------------------------------- the text it produces

  /** The 6-bit values of the input, the last one filled up with zero bits. */
  function Values(src: seq<Byte>): seq<bv8> {
    if |src| == 0 then []
    else if |src| == 1 then [Value0(src[0]), Value1(src[0], 0)]
    else if |src| == 2 then [Value0(src[0]), Value1(src[0], src[1]), Value2(src[1], 0)]
    else [Value0(src[0]), Value1(src[0], src[1]), Value2(src[1], src[2]), Value3(src[2])] + Values(src[3..])
  }

  predicate IsSpace(text: Text) {
    forall i :: 0 <= i < |text| ==> text[i].Space?
  }

  /** Text that may be followed by more text: no padding yet. */
  predicate IsBody(text: Text) {
    forall i :: 0 <= i < |text| ==> text[i].Symbol? || text[i].Space?
  }

  lemma {:induction false} SextetsConcat(a: Text, b: Text)
    ensures Sextets(a + b) == Sextets(a) + Sextets(b)
  {
    if b == [] {
      assert a + b == a;
    } else {
      var n := |b| - 1;
      assert (a + b)[..|a + b| - 1] == a + b[..n];
      SextetsConcat(a, b[..n]);
    }
  }

  lemma {:induction false} SpaceHasNoSextets(text: Text)
    requires IsSpace(text)
    ensures Sextets(text) == []
  {
    if text != [] {
      SpaceHasNoSextets(text[..|text| - 1]);
    }
  }

  lemma BodyThenText(a: Text, b: Text)
    requires IsBody(a) && IsText(b)
    ensures IsText(a + b)
  {
    forall i | 0 <= i < |a + b|
      ensures !(a + b)[i].Invalid? && ((a + b)[i].Symbol? ==> !Padded((a + b)[..i]))
    {
      var p := (a + b)[..i];
      if i >= |a| && (a + b)[i].Symbol? {
        var r := b[..i - |a|];
        assert !Padded(r);
        forall k | 0 <= k < i ensures !p[k].Pad? {
          assert k >= |a| ==> p[k] == r[k - |a|];
        }
      }
    }
  }

  /** Well-formed text whose symbols carry the values `v`. */
  predicate Carries(chars: seq<Byte>, v: seq<bv8>) {
    IsText(Classes(chars)) && Sextets(Classes(chars)) == v
  }

  predicate CarriesInside(chars: seq<Byte>, v: seq<bv8>) {
    IsBody(Classes(chars)) && Sextets(Classes(chars)) == v
  }

  lemma CarriesConcat(a: seq<Byte>, v: seq<bv8>, b: seq<Byte>, w: seq<bv8>)
    requires CarriesInside(a, v) && Carries(b, w)
    ensures Carries(a + b, v + w)
  {
    assert Classes(a + b) == Classes(a) + Classes(b);
    BodyThenText(Classes(a), Classes(b));
    SextetsConcat(Classes(a), Classes(b));
  }

  lemma SextetsOfFour(a: Class, b: Class, c: Class, d: Class)
    ensures Sextets([a, b, c, d]) == Sextets([a]) + Sextets([b]) + Sextets([c]) + Sextets([d])
  {
    assert [a, b, c, d] == [a] + [b] + [c] + [d];
    SextetsConcat([a], [b]);
    SextetsConcat([a] + [b], [c]);
    SextetsConcat([a] + [b] + [c], [d]);
  }

  lemma FourSymbols(alphabet: Alphabet, s: bv8, t: bv8, u: bv8, v: bv8)
    requires s < 64 && t < 64 && u < 64 && v < 64
    ensures CarriesInside([Encoding(alphabet, s), Encoding(alphabet, t), Encoding(alphabet, u), Encoding(alphabet, v)],
                          [s, t, u, v])
  {
    DecodingInverts(alphabet, s);
    DecodingInverts(alphabet, t);
    DecodingInverts(alphabet, u);
    DecodingInverts(alphabet, v);
    SextetsOfFour(Symbol(s), Symbol(t), Symbol(u), Symbol(v));
    assert Classes([Encoding(alphabet, s), Encoding(alphabet, t), Encoding(alphabet, u), Encoding(alphabet, v)])
        == [Symbol(s), Symbol(t), Symbol(u), Symbol(v)];
  }

  lemma ThreeSymbols(alphabet: Alphabet, s: bv8, t: bv8, u: bv8)
    requires s < 64 && t < 64 && u < 64
    ensures Carries([Encoding(alphabet, s), Encoding(alphabet, t), Encoding(alphabet, u), EQUALS], [s, t, u])
  {
    DecodingInverts(alphabet, s);
    DecodingInverts(alphabet, t);
    DecodingInverts(alphabet, u);
    SextetsOfFour(Symbol(s), Symbol(t), Symbol(u), Pad);
    assert Classes([Encoding(alphabet, s), Encoding(alphabet, t), Encoding(alphabet, u), EQUALS])
        == [Symbol(s), Symbol(t), Symbol(u), Pad];
  }

  lemma TwoSymbols(alphabet: Alphabet, s: bv8, t: bv8)
    requires s < 64 && t < 64
    ensures Carries([Encoding(alphabet, s), Encoding(alphabet, t), EQUALS, EQUALS], [s, t])
  {
    DecodingInverts(alphabet, s);
    DecodingInverts(alphabet, t);
    SextetsOfFour(Symbol(s), Symbol(t), Pad, Pad);
    assert Classes([Encoding(alphabet, s), Encoding(alphabet, t), EQUALS, EQUALS])
        == [Symbol(s), Symbol(t), Pad, Pad];
  }

  function QuantumValues(a: Byte, b: Byte, c: Byte): seq<bv8> {
    [Value0(a), Value1(a, b), Value2(b, c), Value3(c)]
  }

  lemma QuantumText(alphabet: Alphabet, a: Byte, b: Byte, c: Byte)
    ensures CarriesInside(Quantum(alphabet, a, b, c), QuantumValues(a, b, c))
  {
    FourSymbols(alphabet, Value0(a), Value1(a, b), Value2(b, c), Value3(c));
  }

  lemma FinalText(alphabet: Alphabet, rest: seq<Byte>)
    requires |rest| < 3
    ensures Carries(Final(alphabet, rest), Values(rest))
  {
    match |rest|
    case 0 =>
    case 1 => TwoSymbols(alphabet, Value0(rest[0]), Value1(rest[0], 0));
    case 2 => ThreeSymbols(alphabet, Value0(rest[0]), Value1(rest[0], rest[1]), Value2(rest[1], 0));
  }

  /** A list of groups carries a list of value lists. */
  predicate AllCarry(groups: seq<seq<Byte>>, vs: seq<seq<bv8>>) {
    |groups| == |vs| && forall i :: 0 <= i < |groups| ==> CarriesInside(groups[i], vs[i])
  }

  /** Word breaks of white space change neither well-formedness nor the values, wherever
      they fall. */
  lemma {:induction false} LayoutText(groups: seq<seq<Byte>>, vs: seq<seq<bv8>>, last: seq<Byte>, w: seq<bv8>,
                                      loops: nat, wordbreak: seq<Byte>, wordlen: int)
    requires IsSpace(Classes(wordbreak)) && Carries(last, w) && AllCarry(groups, vs)
    ensures Carries(Layout(groups, last, loops, wordbreak, wordlen), Flatten(vs) + w)
    decreases |groups|
  {
    if groups == [] {
      assert Flatten(vs) + w == w;
    } else {
      var n := (loops + 1) % TWO32;
      var full := (|groups| > 1 || last != []) && LineFull(n, wordlen);
      var rest := Layout(groups[1..], last, if full then 0 else n, wordbreak, wordlen);
      var v := Flatten(vs[1..]) + w;
      LayoutText(groups[1..], vs[1..], last, w, if full then 0 else n, wordbreak, wordlen);
      assert Flatten(vs) + w == vs[0] + v;
      if full {
        SpaceHasNoSextets(Classes(wordbreak));
        CarriesConcat(wordbreak, [], rest, v);
        assert [] + v == v;
        CarriesConcat(groups[0], vs[0], wordbreak + rest, v);
      } else {
        CarriesConcat(groups[0], vs[0], rest, v);
      }
    }
  }

  function GroupValues(src: seq<Byte>): seq<seq<bv8>> {
    if |src| < 3 then [] else [QuantumValues(src[0], src[1], src[2])] + GroupValues(src[3..])
  }

  function LastValues(src: seq<Byte>): seq<bv8> {
    if |src| < 3 then Values(src) else LastValues(src[3..])
  }

  lemma {:induction false} GroupsText(alphabet: Alphabet, src: seq<Byte>)
    ensures AllCarry(Groups(alphabet, src), GroupValues(src))
    decreases |src|
  {
    if |src| > 2 {
      QuantumText(alphabet, src[0], src[1], src[2]);
      GroupsText(alphabet, src[3..]);
    }
  }

  lemma {:induction false} LastText(alphabet: Alphabet, src: seq<Byte>)
    ensures Carries(Last(alphabet, src), LastValues(src))
    decreases |src|
  {
    if |src| <= 2 {
      assert src[3 * (|src| / 3)..] == src;
      FinalText(alphabet, src);
    } else {
      LastText(alphabet, src[3..]);
      LastStep(alphabet, src);
    }
  }

  lemma {:induction false} ValuesInGroups(src: seq<Byte>)
    ensures Flatten(GroupValues(src)) + LastValues(src) == Values(src)
  {
    if |src| <= 2 {
    } else {
      var g, h := GroupValues(src), GroupValues(src[3..]);
      assert g[0] == QuantumValues(src[0], src[1], src[2]) && g[1..] == h;
      ValuesInGroups(src[3..]);
      assert Flatten(g) + LastValues(src) == g[0] + (Flatten(h) + LastValues(src));
    }
  }

  /** With white space as word break the text is well formed and carries exactly the values
      of the input. */
  lemma EncodedText(alphabet: Alphabet, src: seq<Byte>, wordbreak: seq<Byte>, wordlen: int)
    requires IsSpace(Classes(wordbreak))
    ensures Carries(Encoded(alphabet, src, wordbreak, wordlen), Values(src))
  {
    GroupsText(alphabet, src);
    LastText(alphabet, src);
    ValuesInGroups(src);
    LayoutText(Groups(alphabet, src), GroupValues(src), Last(alphabet, src), LastValues(src),
               0, wordbreak, WordLength(wordlen));
  }

  // ---------------------------------------------------------------- the way back

  lemma OctetsBack(a: Byte, b: Byte, c: Byte)
    ensures Join(Upper6(Value0(a)), Lower2(Value1(a, b))) == a
    ensures Join(Upper4(Value1(a, b)), Lower4(Value2(b, c))) == b
    ensures Join(Upper2(Value2(b, c)), Value3(c)) == c
    ensures Upper4(Value1(a, 0)) == 0 && Upper2(Value2(b, 0)) == 0
  {
  }

  lemma {:induction false} ValuesSize(src: seq<Byte>)
    ensures |Values(src)| == 4 * (|src| / 3) + (if |src| % 3 == 0 then 0 else |src| % 3 + 1)
  {
    if |src| > 2 {
      ValuesSize(src[3..]);
    }
  }

  lemma OctetShift(x: seq<bv8>, v: seq<bv8>, j: nat)
    requires |x| == 4 && j >= 3 && 8 * (j - 2) <= 6 * |v|
    ensures Octet(x + v, j) == Octet(v, j - 3)
  {
  }

  lemma {:induction false} ValuesBack(src: seq<Byte>, j: nat)
    requires j < |src|
    ensures 8 * (j + 1) <= 6 * |Values(src)| && Octet(Values(src), j) == src[j]
    decreases |src|
  {
    ValuesSize(src);
    if |src| <= 2 || j < 3 {
      OctetsBack(src[0], if |src| > 1 then src[1] else 0, if |src| > 2 then src[2] else 0);
    } else {
      ValuesBack(src[3..], j - 3);
      OctetShift(Values(src)[..4], Values(src[3..]), j);
      assert Values(src) == Values(src)[..4] + Values(src[3..]);
    }
  }

  lemma RestShift(x: seq<bv8>, v: seq<bv8>)
    requires |x| == 4 && v != []
    ensures Rest(x + v) == Rest(v)
  {
  }

  /** The bits filled in after the last octet are zero. */
  lemma {:induction false} ValuesRest(src: seq<Byte>)
    requires src != []
    ensures Values(src) != [] && Rest(Values(src)) == 0
    decreases |src|
  {
    if |src| <= 2 {
      OctetsBack(src[0], src[|src| - 1], 0);
    } else if |src| == 3 {
      assert Values(src) == QuantumValues(src[0], src[1], src[2]);
    } else {
      ValuesRest(src[3..]);
      RestShift(QuantumValues(src[0], src[1], src[2]), Values(src[3..]));
      assert Values(src) == QuantumValues(src[0], src[1], src[2]) + Values(src[3..]);
    }
  }

  lemma ValuesFit(src: seq<Byte>)
    ensures Fits(Values(src), |src|)
  {
    ValuesSize(src);
    if src != [] {
      ValuesRest(src);
    }
  }

  /** The round trip: for every input, alphabet, word length and white-space word break, the
      decoder accepts every character of the encoder's output with a buffer of exactly the
      input's size, and leaves the input in it. */
  lemma RoundTrip(alphabet: Alphabet, src: seq<Byte>, wordbreak: seq<Byte>, wordlen: int, area: seq<Byte>)
    requires IsSpace(Classes(wordbreak)) && |area| == |src|
    ensures var text := Classes(Encoded(alphabet, src, wordbreak, wordlen));
            var start := Control(0, 0, |area|, area);
            && Accepted(start, text)
            && After(start, text).target == |src|
            && After(start, text).buffer == src
  {
    var text := Classes(Encoded(alphabet, src, wordbreak, wordlen));
    EncodedText(alphabet, src, wordbreak, wordlen);
    ValuesFit(src);
    ValuesSize(src);
    DecoderMeaning(area, text);
    forall j | 0 <= j < |src| ensures Octet(Values(src), j) == src[j] {
      ValuesBack(src, j);
    }
  }

  /** The two objects together: what the encoder emits, fed to a decoder with an area of exactly
      the input's size, is accepted and puts the input into the area. */
  method EncodeThenDecode(alphabet: Alphabet, src: seq<Byte>, wordbreak: seq<Byte>, wordlen: int, area: array<Byte>)
    returns (ok: bool)
    requires IsSpace(Classes(wordbreak)) && |src| == area.Length
    modifies area
    ensures ok && area[..] == src
  {
    RoundTrip(alphabet, src, wordbreak, wordlen, area[..]);
    var text, count := Encode(alphabet, src, wordbreak, wordlen);
    var decoder := new Decoder(area);
    ok := DecodeAll(decoder, text);
  }
}
