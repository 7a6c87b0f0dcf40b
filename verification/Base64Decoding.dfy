/**
 What the base64 decoder does with a whole text, character after character: where it may
 write, which texts it accepts for which buffer, and what it leaves in the buffer. A text is
 the sequence of the classes the decoding table puts its characters into.
 */
module Base64Decoding {
  import opened Base64
  import opened Octets

  type Text = seq<Class>

  function Classes(chars: seq<Byte>): (text: Text)
    ensures |text| == |chars|
  {
    seq(|chars|, i requires 0 <= i < |chars| => Decoding(chars[i]))
  }

  /** The control after a text, whatever the results of the single characters. */
  function After(c: Control, text: Text): (c': Control)
    requires Wellformed(c)
    ensures Wellformed(c') && |c'.buffer| == |c.buffer|
    ensures c.target <= c'.target && c'.end <= c.end
  {
    if text == [] then c else DecodeClass(After(c, text[..|text| - 1]), text[|text| - 1]).control
  }

  /** Every single character was a success. */
  predicate Accepted(c: Control, text: Text)
    requires Wellformed(c)
  {
    text == [] ||
    (var n := |text| - 1;
     Accepted(c, text[..n]) && DecodeClass(After(c, text[..n]), text[n]).status == Success)
  }

  lemma ClassesSnoc(chars: seq<Byte>, i: nat)
    requires i < |chars|
    ensures Classes(chars[..i + 1])[..i] == Classes(chars[..i]) && Classes(chars[..i + 1])[i] == Decoding(chars[i])
  {
  }

  /** A whole text through the decoder, character by character. */
  method DecodeAll(decoder: Decoder, chars: seq<Byte>) returns (ok: bool)
    requires decoder.Valid()
    modifies decoder, decoder.area
    ensures decoder.Valid() && decoder.Snapshot() == After(old(decoder.Snapshot()), Classes(chars))
    ensures ok <==> Accepted(old(decoder.Snapshot()), Classes(chars))
  {
    ok := true;
    for i := 0 to |chars|
      invariant decoder.Valid() && decoder.Snapshot() == After(old(decoder.Snapshot()), Classes(chars[..i]))
      invariant ok <==> Accepted(old(decoder.Snapshot()), Classes(chars[..i]))
    {
      ClassesSnoc(chars, i);
      var status := decoder.Decode(chars[i]);
      ok := ok && status == Success;
    }
    assert chars[..|chars|] == chars;
  }

  /** The bits of a symbol that go into the next byte. */
  function Carried(state: nat, s: bv8): bv8 {
    if state == 1 then Upper4(s) else if state == 2 then Upper2(s) else 0
  }

  /** Which status a character gets: an error exactly for a foreign character, an overflow
      exactly when there is no room for the symbol, or none for the bits it carries over. */
  lemma StatusMeans(c: Control, k: Class)
    requires Wellformed(c)
    ensures DecodeClass(c, k).status == InvalidInput <==> k.Invalid?
    ensures DecodeClass(c, k).status == Overflow <==>
            k.Symbol? && (c.target == c.end || (c.target + 1 == c.end && Carried(c.state, k.value) != 0))
  {
  }

  // ---------------------------------------------------------------- safety

  lemma CharWritesInside(c: Control, k: Class, j: nat)
    requires Wellformed(c) && j < |c.buffer| && (j < c.target || c.end <= j)
    ensures DecodeClass(c, k).control.buffer[j] == c.buffer[j]
  {
  }

  /** Bytes below the start and from the end of the target area on are never touched. */
  lemma {:induction false} WritesInside(c: Control, text: Text, j: nat)
    requires Wellformed(c) && j < |c.buffer| && (j < c.target || c.end <= j)
    ensures After(c, text).buffer[j] == c.buffer[j]
  {
    if text != [] {
      var n := |text| - 1;
      WritesInside(c, text[..n], j);
      CharWritesInside(After(c, text[..n]), text[n], j);
    }
  }

  /** After a padding character the decoder is frozen, whatever follows. */
  lemma {:induction false} FrozenAfterPad(c: Control, text: Text)
    requires Wellformed(c)
    ensures var padded := DecodeClass(c, Pad);
            && padded.status == Success
            && After(padded.control, text) == padded.control == c.(end := c.target)
  {
    if text != [] {
      FrozenAfterPad(c, text[..|text| - 1]);
    }
  }

  // ---------------------------------------------------------------- meaning

  /** The 6-bit values of the symbols of a text. */
  function Sextets(text: Text): seq<bv8> {
    if text == [] then []
    else
      var n := |text| - 1;
      Sextets(text[..n]) + if text[n].Symbol? then [text[n].value] else []
  }

  predicate Padded(text: Text) {
    exists i :: 0 <= i < |text| && text[i].Pad?
  }

  /** Only symbols, white space and padding, and no symbol after padding. */
  predicate IsText(text: Text) {
    forall i :: 0 <= i < |text| ==> !text[i].Invalid? && (text[i].Symbol? ==> !Padded(text[..i]))
  }

  /** Octet j of the concatenation of the 6-bit values. */
  function Octet(v: seq<bv8>, j: nat): bv8
    requires 8 * (j + 1) <= 6 * |v|
  {
    var q := 4 * (j / 3);
    match j % 3
    case 0 => Join(Upper6(v[q]), Lower2(v[q + 1]))
    case 1 => Join(Upper4(v[q + 1]), Lower4(v[q + 2]))
    case _ => Join(Upper2(v[q + 2]), v[q + 3])
  }

  /** The bits of the last value that do not fill an octet, at the top of the next one. */
  function Rest(v: seq<bv8>): bv8
    requires v != []
  {
    var s := v[|v| - 1];
    match |v| % 4
    case 1 => Upper6(s)
    case 2 => Upper4(s)
    case 3 => Upper2(s)
    case _ => 0
  }

  /** The buffer can take the octets, and what does not fill an octet either has room too
      or is zero. */
  predicate Fits(v: seq<bv8>, size: nat) {
    v == [] || (6 * (|v| - 1) / 8 < size && (6 * |v| / 8 < size || Rest(v) == 0))
  }

  /** The control is where the values `v` have brought it. */
  predicate Holds(c: Control, v: seq<bv8>, size: nat, padded: bool) {
    && Wellformed(c) && |c.buffer| == size
    && c.state == |v| % 4 && c.target == 6 * |v| / 8 && c.target <= size
    && c.end == (if padded then c.target else size)
    && (forall j :: 0 <= j < c.target ==> c.buffer[j] == Octet(v, j))
    && (|v| % 4 != 0 && c.target < size ==> c.buffer[c.target] == Rest(v))
  }

  /** Appending a value does not change the octets that were complete. */
  lemma OctetStable(v: seq<bv8>, s: bv8, j: nat)
    requires 8 * (j + 1) <= 6 * |v|
    ensures Octet(v + [s], j) == Octet(v, j)
  {
  }

  lemma OctetsStable(v: seq<bv8>, s: bv8)
    ensures forall j :: 0 <= j < 6 * |v| / 8 ==> Octet(v + [s], j) == Octet(v, j)
  {
    forall j | 0 <= j < 6 * |v| / 8 ensures Octet(v + [s], j) == Octet(v, j) {
      OctetStable(v, s, j);
    }
  }

  lemma Counting(n: nat)
    ensures n % 4 == 0 ==> 6 * n / 8 == 3 * (n / 4) && 6 * (n + 1) / 8 == 6 * n / 8
    ensures n % 4 == 1 ==> 6 * n / 8 == 3 * (n / 4) && 6 * (n + 1) / 8 == 6 * n / 8 + 1
    ensures n % 4 == 2 ==> 6 * n / 8 == 3 * (n / 4) + 1 && 6 * (n + 1) / 8 == 6 * n / 8 + 1
    ensures n % 4 == 3 ==> 6 * n / 8 == 3 * (n / 4) + 2 && 6 * (n + 1) / 8 == 6 * n / 8 + 1
  {
  }

  predicate StepOk(v: seq<bv8>, size: nat, s: bv8, o: Outcome) {
    && (o.status == Success <==> Fits(v + [s], size))
    && (o.status == Success ==> Holds(o.control, v + [s], size, false))
  }

  lemma Step0(c: Control, v: seq<bv8>, size: nat, s: bv8)
    requires Holds(c, v, size, false) && |v| % 4 == 0
    ensures StepOk(v, size, s, DecodeSymbol(c, s))
  {
    Counting(|v|);
    OctetsStable(v, s);
    assert Rest(v + [s]) == Upper6(s);
  }

  /** A step that completes octet `c.target` and begins the next one. */
  lemma FinishStep(c: Control, w: seq<bv8>, high: bv8, carry: bv8)
    requires Wellformed(c) && c.target < c.end == |c.buffer| && w != []
    requires c.target == 6 * (|w| - 1) / 8 && c.target + 1 == 6 * |w| / 8 && c.state + 1 == |w| % 4
    requires forall j :: 0 <= j < c.target ==> c.buffer[j] == Octet(w, j)
    requires Octet(w, c.target) == Join(c.buffer[c.target], high) && Rest(w) == carry
    ensures var o := Finish(c, high, carry);
            && (o.status == Success <==> Fits(w, |c.buffer|))
            && (o.status == Success ==> Holds(o.control, w, |c.buffer|, false))
  {
  }

  lemma Step1(c: Control, v: seq<bv8>, size: nat, s: bv8)
    requires Holds(c, v, size, false) && |v| % 4 == 1
    ensures StepOk(v, size, s, DecodeSymbol(c, s))
  {
    Counting(|v|);
    if c.target < size {
      OctetsStable(v, s);
      assert Octet(v + [s], c.target) == Join(Upper6(v[|v| - 1]), Lower2(s));
      assert Rest(v + [s]) == Upper4(s);
      FinishStep(c, v + [s], Lower2(s), Upper4(s));
    }
  }

  lemma Step2(c: Control, v: seq<bv8>, size: nat, s: bv8)
    requires Holds(c, v, size, false) && |v| % 4 == 2
    ensures StepOk(v, size, s, DecodeSymbol(c, s))
  {
    Counting(|v|);
    if c.target < size {
      OctetsStable(v, s);
      assert Octet(v + [s], c.target) == Join(Upper4(v[|v| - 1]), Lower4(s));
      assert Rest(v + [s]) == Upper2(s);
      FinishStep(c, v + [s], Lower4(s), Upper2(s));
    }
  }

  /** A step that completes octet `c.target` and leaves nothing over. */
  lemma CloseStep(c: Control, w: seq<bv8>, low: bv8)
    requires Wellformed(c) && c.target < c.end == |c.buffer| && w != [] && c.state == 3
    requires c.target == 6 * (|w| - 1) / 8 && c.target + 1 == 6 * |w| / 8 && |w| % 4 == 0
    requires forall j :: 0 <= j < c.target ==> c.buffer[j] == Octet(w, j)
    requires Octet(w, c.target) == Join(c.buffer[c.target], low)
    ensures var o := DecodeSymbol(c, low);
            o.status == Success && Fits(w, |c.buffer|) && Holds(o.control, w, |c.buffer|, false)
  {
  }

  lemma LastOctet(v: seq<bv8>, s: bv8)
    requires |v| % 4 == 3
    ensures 8 * (6 * |v| / 8 + 1) <= 6 * (|v| + 1) && Octet(v + [s], 6 * |v| / 8) == Join(Upper2(v[|v| - 1]), s)
  {
    Counting(|v|);
  }

  /** A full buffer takes no further symbol. */
  lemma FullStep(c: Control, v: seq<bv8>, size: nat, s: bv8)
    requires Holds(c, v, size, false) && c.target == size
    ensures StepOk(v, size, s, DecodeSymbol(c, s))
  {
  }

  lemma Step3(c: Control, v: seq<bv8>, size: nat, s: bv8)
    requires Holds(c, v, size, false) && |v| % 4 == 3
    ensures StepOk(v, size, s, DecodeSymbol(c, s))
  {
    if c.target < size {
      Counting(|v|);
      OctetsStable(v, s);
      LastOctet(v, s);
      CloseStep(c, v + [s], s);
    } else {
      FullStep(c, v, size, s);
    }
  }

  lemma SymbolStep(c: Control, v: seq<bv8>, size: nat, s: bv8)
    requires Holds(c, v, size, false)
    ensures StepOk(v, size, s, DecodeSymbol(c, s))
  {
    match |v| % 4
    case 0 => Step0(c, v, size, s);
    case 1 => Step1(c, v, size, s);
    case 2 => Step2(c, v, size, s);
    case _ => Step3(c, v, size, s);
  }

  lemma FitsPrefix(v: seq<bv8>, s: bv8, size: nat)
    requires Fits(v + [s], size)
    ensures Fits(v, size)
  {
    Counting(|v|);
  }

  lemma TextSnoc(text: Text)
    requires text != []
    ensures var n := |text| - 1;
            && (IsText(text) <==> IsText(text[..n]) && !text[n].Invalid? && (text[n].Symbol? ==> !Padded(text[..n])))
            && (Padded(text) <==> Padded(text[..n]) || text[n].Pad?)
  {
    var n := |text| - 1;
    var p := text[..n];
    assert forall i :: 0 <= i < n ==> p[..i] == text[..i];
    if Padded(p) {
      var i :| 0 <= i < n && p[i].Pad?;
      assert text[i].Pad?;
    }
    if Padded(text) {
      var i :| 0 <= i < |text| && text[i].Pad?;
      assert i < n ==> p[i].Pad?;
    }
  }

  predicate Decoded(area: seq<Byte>, text: Text) {
    var start := Control(0, 0, |area|, area);
    && (Accepted(start, text) <==> IsText(text) && Fits(Sextets(text), |area|))
    && (Accepted(start, text) ==> Holds(After(start, text), Sextets(text), |area|, Padded(text)))
  }

  lemma SnocSymbol(area: seq<Byte>, p: Text, s: bv8)
    requires Decoded(area, p)
    ensures var start := Control(0, 0, |area|, area);
            var o := DecodeSymbol(After(start, p), s);
            && (Accepted(start, p) && o.status == Success <==>
                IsText(p) && !Padded(p) && Fits(Sextets(p) + [s], |area|))
            && (Accepted(start, p) && o.status == Success ==>
                Holds(o.control, Sextets(p) + [s], |area|, false))
  {
    var start := Control(0, 0, |area|, area);
    var v := Sextets(p);
    if Fits(v + [s], |area|) {
      FitsPrefix(v, s, |area|);
    }
    if Accepted(start, p) && !Padded(p) {
      SymbolStep(After(start, p), v, |area|, s);
    }
  }

  lemma SnocOther(area: seq<Byte>, p: Text, k: Class)
    requires Decoded(area, p) && !k.Symbol?
    ensures var start := Control(0, 0, |area|, area);
            var o := DecodeClass(After(start, p), k);
            && (o.status == Success <==> !k.Invalid?)
            && (Accepted(start, p) && o.status == Success ==>
                Holds(o.control, Sextets(p), |area|, Padded(p) || k.Pad?))
  {
  }

  lemma Unfolded(start: Control, text: Text)
    requires Wellformed(start) && text != []
    ensures var n := |text| - 1;
            var o := DecodeClass(After(start, text[..n]), text[n]);
            && After(start, text) == o.control
            && (Accepted(start, text) <==> Accepted(start, text[..n]) && o.status == Success)
  {
  }

  lemma DecodedSnoc(area: seq<Byte>, text: Text)
    requires text != [] && Decoded(area, text[..|text| - 1])
    ensures Decoded(area, text)
  {
    var start := Control(0, 0, |area|, area);
    var n := |text| - 1;
    var p, k := text[..n], text[n];
    Unfolded(start, text);
    assert IsText(text) == (IsText(p) && !k.Invalid? && (k.Symbol? ==> !Padded(p)))
        && Padded(text) == (Padded(p) || k.Pad?) by {
      TextSnoc(text);
    }
    if k.Symbol? {
      SnocSymbol(area, p, k.value);
      assert Sextets(text) == Sextets(p) + [k.value];
    } else {
      SnocOther(area, p, k);
      assert Sextets(text) == Sextets(p);
    }
  }

  /** For every text and every buffer: all characters are accepted exactly when the text has no
      foreign character, no symbol after padding, and fits; the bytes completed by then are
      the octets of the concatenated 6-bit values, and there are 6 |v| / 8 of them. */
  lemma {:induction false} DecoderMeaning(area: seq<Byte>, text: Text)
    ensures Decoded(area, text)
  {
    if text == [] {
    } else {
      DecoderMeaning(area, text[..|text| - 1]);
      DecodedSnoc(area, text);
    }
  }

  // ---------------------------------------------------------------- octets as bits

  lemma BitsOfFirst(s: bv8, t: bv8, k: nat)
    requires s < 64 && t < 64 && k < 8
    ensures Bit(Join(Upper6(s), Lower2(t)), k) == if k < 6 then Bit(s, k + 2) else Bit(t, k - 4)
  {
  }

  lemma BitsOfSecond(s: bv8, t: bv8, k: nat)
    requires s < 64 && t < 64 && k < 8
    ensures Bit(Join(Upper4(s), Lower4(t)), k) == if k < 4 then Bit(s, k + 4) else Bit(t, k - 2)
  {
  }

  lemma BitsOfThird(s: bv8, t: bv8, k: nat)
    requires s < 64 && t < 64 && k < 8
    ensures Bit(Join(Upper2(s), t), k) == if k < 2 then Bit(s, k + 6) else Bit(t, k)
  {
  }

  /** Bit k of octet j is bit 8 j + k of the 6-bit values written one after the other. */
  lemma OctetIsBits(v: seq<bv8>, j: nat, k: nat)
    requires 8 * (j + 1) <= 6 * |v| && k < 8 && forall i :: 0 <= i < |v| ==> v[i] < 64
    ensures Bit(Octet(v, j), k) == Bit(v[(8 * j + k) / 6], 2 + (8 * j + k) % 6)
  {
    var q := j / 3;
    match j % 3
    case 0 =>
      assert 8 * j + k == 6 * (4 * q) + k;
      BitsOfFirst(v[4 * q], v[4 * q + 1], k);
    case 1 =>
      assert 8 * j + k == 6 * (4 * q + 1) + (k + 2);
      BitsOfSecond(v[4 * q + 1], v[4 * q + 2], k);
    case _ =>
      assert 8 * j + k == 6 * (4 * q + 2) + (k + 4);
      BitsOfThird(v[4 * q + 2], v[4 * q + 3], k);
  }
}
