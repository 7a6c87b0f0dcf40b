/**
 Polynomials over GF(2), most significant coefficient first, and the remainder modulo the
 CRC-24 generator of degree 24 (0x1864CFB; also section 6.1 of RFC 4880), computed by a
 24-bit shift register one message bit at a time.
 */
module Gf2 {

  type Poly = seq<bool>

  function Zeros(n: nat): Poly {
    seq(n, _ => false)
  }

  function Xor(a: Poly, b: Poly): Poly
    requires |a| == |b|
  {
    seq(|a|, i requires 0 <= i < |a| => a[i] != b[i])
  }

  /** x^24 + x^23 + x^18 + x^17 + x^14 + x^11 + x^10 + x^7 + x^6 + x^5 + x^4 + x^3 + x + 1 */
  const GENERATOR: Poly := [
    true, true, false, false, false, false, true, true, false, false, true, false, false,
    true, true, false, false, true, true, true, true, true, false, true, true]

  /** One message bit into the register: the generator is subtracted when the coefficient
      shifted out differs from the bit. */
  function Step(r: Poly, bit: bool): (r': Poly)
    requires |r| == 24
    ensures |r'| == 24
  {
    Xor(r[1..] + [false], if r[0] != bit then GENERATOR[1..] else Zeros(24))
  }

  function Feed(r: Poly, bits: seq<bool>): (r': Poly)
    requires |r| == 24
    ensures |r'| == 24
  {
    if bits == [] then r else Step(Feed(r, bits[..|bits| - 1]), bits[|bits| - 1])
  }

  lemma {:induction false} FeedConcat(r: Poly, a: seq<bool>, b: seq<bool>)
    requires |r| == 24
    ensures Feed(r, a + b) == Feed(Feed(r, a), b)
  {
    if b == [] {
      assert a + b == a;
    } else {
      var n := |b| - 1;
      assert (a + b)[..|a + b| - 1] == a + b[..n];
      FeedConcat(r, a, b[..n]);
    }
  }

  // ---------------------------------------------------------------- linearity

  lemma StepLinear(a: Poly, b: Poly, x: bool, y: bool)
    requires |a| == 24 && |b| == 24
    ensures Step(Xor(a, b), x != y) == Xor(Step(a, x), Step(b, y))
  {
  }

  lemma {:induction false} FeedLinear(a: Poly, b: Poly, m: seq<bool>, n: seq<bool>)
    requires |a| == 24 && |b| == 24 && |m| == |n|
    ensures Feed(Xor(a, b), Xor(m, n)) == Xor(Feed(a, m), Feed(b, n))
  {
    if m != [] {
      var k := |m| - 1;
      assert Xor(m, n)[..k] == Xor(m[..k], n[..k]);
      FeedLinear(a, b, m[..k], n[..k]);
      StepLinear(Feed(a, m[..k]), Feed(b, n[..k]), m[k], n[k]);
    }
  }

  lemma ShiftOut(v: Poly)
    requires |v| == 24
    ensures Step(v, v[0]) == v[1..] + [false]
  {
  }

  lemma ZerosSnoc(k: nat)
    ensures Zeros(k) + [false] == Zeros(k + 1)
  {
  }

  lemma FeedSnoc(r: Poly, bits: seq<bool>, b: bool)
    requires |r| == 24
    ensures Feed(r, bits + [b]) == Step(Feed(r, bits), b)
  {
    assert (bits + [b])[..|bits|] == bits;
  }

  lemma XorSnoc(p: seq<bool>, b: bool, w: Poly)
    requires |p| < |w|
    ensures Xor(p + [b], w[..|p| + 1]) == Xor(p, w[..|p|]) + [b != w[|p|]]
  {
  }

  lemma ShiftRest(w: Poly, k: nat)
    requires |w| == 24 && k < 24
    ensures var v := w[k..] + Zeros(k); |v| == 24 && Step(v, v[0]) == w[k + 1..] + Zeros(k + 1) && v[0] == w[k]
  {
    var v := w[k..] + Zeros(k);
    ShiftOut(v);
    ZerosSnoc(k);
    assert v[1..] == w[k + 1..] + Zeros(k);
  }

  /** Up to 24 bits, what is in the register acts as if it had been added to the message. */
  lemma {:induction false} Absorb(w: Poly, bits: seq<bool>)
    requires |w| == 24 && |bits| <= 24
    ensures var k := |bits|;
            Feed(w, bits) == Xor(Feed(Zeros(24), Xor(bits, w[..k])), w[k..] + Zeros(k))
  {
    if bits == [] {
      assert Xor(Zeros(24), w[0..] + Zeros(0)) == w;
    } else {
      var k := |bits| - 1;
      var p, b := bits[..k], bits[k];
      assert bits == p + [b];
      var f := Feed(Zeros(24), Xor(p, w[..k]));
      var v := w[k..] + Zeros(k);
      Absorb(w, p);
      FeedSnoc(w, p, b);
      ShiftRest(w, k);
      StepLinear(f, v, b != v[0], v[0]);
      XorSnoc(p, b, w);
      FeedSnoc(Zeros(24), Xor(p, w[..k]), b != w[k]);
    }
  }

  // ---------------------------------------------------------------- error detection

  /** The generator has a constant term, so shifting loses nothing. */
  lemma ZeroStepInjective(r: Poly)
    requires |r| == 24 && Step(r, false) == Zeros(24)
    ensures r == Zeros(24)
  {
    assert Step(r, false)[23] == r[0];
    assert forall i :: 1 <= i < 24 ==> r[i] == Step(r, false)[i - 1];
  }

  lemma {:induction false} ZeroFeedInjective(r: Poly, n: nat)
    requires |r| == 24 && Feed(r, Zeros(n)) == Zeros(24)
    ensures r == Zeros(24)
  {
    if n > 0 {
      assert Zeros(n)[..n - 1] == Zeros(n - 1);
      ZeroStepInjective(Feed(r, Zeros(n - 1)));
      ZeroFeedInjective(r, n - 1);
    }
  }

  lemma XorZero(a: Poly, b: Poly)
    requires |a| == |b|
    ensures Xor(a, b) == Zeros(|a|) <==> a == b
  {
    if a == b {
      assert Xor(a, b) == Zeros(|a|);
    } else if Xor(a, b) == Zeros(|a|) {
      forall i | 0 <= i < |a| ensures a[i] == b[i] {
        assert !Xor(a, b)[i];
      }
    }
  }

  lemma XorUnit(a: Poly)
    ensures Xor(Zeros(|a|), a) == a && Xor(a, Zeros(|a|)) == a
  {
  }

  lemma ShortFeedShifts(w: Poly, k: nat)
    requires |w| == 24 && k <= 24 && w[k..] == Zeros(24 - k)
    ensures Feed(Zeros(24), w[..k]) == Feed(w, Zeros(k))
  {
    var zeros := Zeros(k);
    Absorb(w, zeros);
    XorUnit(w[..k]);
    var rest := w[k..] + zeros;
    assert rest == Zeros(24);
    XorUnit(Feed(Zeros(24), w[..k]));
  }

  /** A nonzero message of at most 24 bits leaves a nonzero remainder. */
  lemma ShortFeedNonzero(e: seq<bool>)
    requires |e| <= 24 && e != Zeros(|e|)
    ensures Feed(Zeros(24), e) != Zeros(24)
  {
    var k := |e|;
    var w := e + Zeros(24 - k);
    assert w[..k] == e && w[k..] == Zeros(24 - k);
    ShortFeedShifts(w, k);
    if Feed(w, Zeros(k)) == Zeros(24) {
      ZeroFeedInjective(w, k);
      assert false;
    }
  }

  lemma FeedDiffers(a: Poly, b: Poly, tail: seq<bool>)
    requires |a| == 24 && |b| == 24 && a != b
    ensures Feed(a, tail) != Feed(b, tail)
  {
    FeedLinear(a, b, tail, tail);
    XorZero(tail, tail);
    XorZero(a, b);
    XorZero(Feed(a, tail), Feed(b, tail));
    if Feed(a, tail) == Feed(b, tail) {
      ZeroFeedInjective(Xor(a, b), |tail|);
    }
  }

  /** Two messages that differ only inside a window of at most 24 bits never agree. */
  lemma BurstDetected(r: Poly, head: seq<bool>, x: seq<bool>, y: seq<bool>, tail: seq<bool>)
    requires |r| == 24 && |x| == |y| <= 24 && x != y
    ensures Feed(r, head + x + tail) != Feed(r, head + y + tail)
  {
    var s := Feed(r, head);
    FeedConcat(r, head, x);
    FeedConcat(r, head, y);
    FeedConcat(r, head + x, tail);
    FeedConcat(r, head + y, tail);
    FeedLinear(s, s, x, y);
    XorZero(s, s);
    XorZero(x, y);
    ShortFeedNonzero(Xor(x, y));
    XorZero(Feed(s, x), Feed(s, y));
    FeedDiffers(Feed(s, x), Feed(s, y), tail);
  }

  /** A message followed by its own remainder leaves nothing. */
  lemma SelfAnnihilates(r: Poly)
    requires |r| == 24
    ensures Feed(r, r) == Zeros(24)
  {
    Absorb(r, r);
    assert Xor(r, r[..24]) == Zeros(24) by {
      assert r[..24] == r;
      XorZero(r, r);
    }
    ZeroStays(24);
    assert r[24..] + Zeros(24) == Zeros(24);
    XorUnit(Zeros(24));
  }

  lemma {:induction false} ZeroStays(n: nat)
    ensures Feed(Zeros(24), Zeros(n)) == Zeros(24)
  {
    if n > 0 {
      assert Zeros(n)[..n - 1] == Zeros(n - 1);
      ZeroStays(n - 1);
      assert Step(Zeros(24), false) == Zeros(24);
    }
  }

  // ---------------------------------------------------------------- parity

  /** Whether the number of ones is odd. */
  function Parity(p: Poly): bool {
    if p == [] then false else Parity(p[..|p| - 1]) != p[|p| - 1]
  }

  lemma ParitySnoc(p: Poly, b: bool)
    ensures Parity(p + [b]) == (Parity(p) != b)
  {
    assert (p + [b])[..|p|] == p;
  }

  lemma {:induction false} ParityCons(b: bool, p: Poly)
    ensures Parity([b] + p) == (b != Parity(p))
  {
    if p == [] {
      ParitySnoc([], b);
      assert [b] + p == [] + [b];
    } else {
      var n := |p| - 1;
      ParityCons(b, p[..n]);
      ParitySnoc([b] + p[..n], p[n]);
      assert ([b] + p[..n]) + [p[n]] == [b] + p;
    }
  }

  lemma {:induction false} ParityXor(p: Poly, q: Poly)
    requires |p| == |q|
    ensures Parity(Xor(p, q)) == (Parity(p) != Parity(q))
  {
    if p != [] {
      var n := |p| - 1;
      ParityXor(p[..n], q[..n]);
      assert Xor(p, q)[..n] == Xor(p[..n], q[..n]);
    }
  }

  lemma {:induction false} ParityZeros(n: nat)
    ensures !Parity(Zeros(n))
  {
    if n > 0 {
      ParityZeros(n - 1);
      assert Zeros(n)[..n - 1] == Zeros(n - 1);
    }
  }

  lemma {:induction false} ParityConcat(p: Poly, q: Poly)
    ensures Parity(p + q) == (Parity(p) != Parity(q))
  {
    if q == [] {
      assert p + q == p;
    } else {
      var n := |q| - 1;
      ParityConcat(p, q[..n]);
      ParitySnoc(p + q[..n], q[n]);
      assert (p + q[..n]) + [q[n]] == p + q;
    }
  }

  lemma ParityOfFour(p: Poly)
    requires |p| == 4
    ensures Parity(p) == (p[0] != (p[1] != (p[2] != p[3])))
  {
    var a, b, c := p[..3], p[..2], p[..1];
    assert a[..2] == b && b[..1] == c && c[..0] == [];
    assert Parity(c) == p[0];
    assert Parity(b) == (Parity(c) != p[1]);
    assert Parity(a) == (Parity(b) != p[2]);
  }

  lemma ParityOfEight(p: Poly)
    requires |p| == 8
    ensures Parity(p) == ((p[0] != (p[1] != (p[2] != p[3]))) != (p[4] != (p[5] != (p[6] != p[7]))))
  {
    ParityOfFour(p[..4]);
    ParityOfFour(p[4..]);
    ParityConcat(p[..4], p[4..]);
    assert p[..4] + p[4..] == p;
  }

  lemma UpperTerms()
    ensures GENERATOR[1] && !GENERATOR[2] && !GENERATOR[3] && !GENERATOR[4] && !GENERATOR[5] && GENERATOR[6] && GENERATOR[7] && !GENERATOR[8]
  {
  }

  lemma MiddleTerms()
    ensures !GENERATOR[9] && GENERATOR[10] && !GENERATOR[11] && !GENERATOR[12] && GENERATOR[13] && GENERATOR[14] && !GENERATOR[15] && !GENERATOR[16]
  {
  }

  lemma LowerTerms()
    ensures GENERATOR[17] && GENERATOR[18] && GENERATOR[19] && GENERATOR[20] && GENERATOR[21] && !GENERATOR[22] && GENERATOR[23] && GENERATOR[24]
  {
  }

  lemma ParityOfThree(g: Poly, a: Poly, b: Poly, c: Poly)
    requires g == (a + b) + c
    ensures Parity(g) == ((Parity(a) != Parity(b)) != Parity(c))
  {
    ParityConcat(a, b);
    ParityConcat(a + b, c);
  }

  lemma Slice(g: Poly, k: nat)
    requires k + 8 <= |g|
    ensures Parity(g[k..k + 8]) == ((g[k] != (g[k + 1] != (g[k + 2] != g[k + 3])))
                                    != (g[k + 4] != (g[k + 5] != (g[k + 6] != g[k + 7]))))
  {
    ParityOfEight(g[k..k + 8]);
  }

  /** The generator has an even number of terms, so its lower ones are odd in number. */
  lemma GeneratorParity()
    ensures Parity(GENERATOR[1..])
  {
    assert Parity(GENERATOR[1..9]) by { UpperTerms(); Slice(GENERATOR, 1); }
    assert Parity(GENERATOR[9..17]) by { MiddleTerms(); Slice(GENERATOR, 9); }
    assert Parity(GENERATOR[17..25]) by { LowerTerms(); Slice(GENERATOR, 17); }
    assert GENERATOR[1..] == (GENERATOR[1..9] + GENERATOR[9..17]) + GENERATOR[17..25];
    ParityOfThree(GENERATOR[1..], GENERATOR[1..9], GENERATOR[9..17], GENERATOR[17..25]);
  }

  lemma ShiftParity(r: Poly)
    requires |r| == 24
    ensures Parity(r[1..] + [false]) == (Parity(r) != r[0])
  {
    ParitySnoc(r[1..], false);
    ParityCons(r[0], r[1..]);
    assert [r[0]] + r[1..] == r;
  }

  lemma StepParity(r: Poly, bit: bool)
    requires |r| == 24
    ensures Parity(Step(r, bit)) == (Parity(r) != bit)
  {
    GeneratorParity();
    ParityZeros(24);
    ShiftParity(r);
    ParityXor(r[1..] + [false], if r[0] != bit then GENERATOR[1..] else Zeros(24));
  }

  /** The parity of the register is that of everything fed into it. */
  lemma {:induction false} FeedParity(r: Poly, bits: seq<bool>)
    requires |r| == 24
    ensures Parity(Feed(r, bits)) == (Parity(r) != Parity(bits))
  {
    if bits != [] {
      var n := |bits| - 1;
      FeedParity(r, bits[..n]);
      StepParity(Feed(r, bits[..n]), bits[n]);
    }
  }

  /** Two messages that differ in an odd number of bits never agree. */
  lemma OddDetected(r: Poly, x: seq<bool>, y: seq<bool>)
    requires |r| == 24 && |x| == |y| && Parity(Xor(x, y))
    ensures Feed(r, x) != Feed(r, y)
  {
    ParityXor(x, y);
    FeedParity(r, x);
    FeedParity(r, y);
  }

  // ---------------------------------------------------------------- division

  /** The product of a polynomial with the generator. */
  function Times(q: Poly): (p: Poly)
    ensures |p| == |q| + 24
  {
    if q == [] then Zeros(24)
    else
      var n := |q| - 1;
      Xor(Times(q[..n]) + [false], Zeros(n) + if q[n] then GENERATOR else Zeros(25))
  }

  /** seed * x^n + message * x^24, where n is the length of the message. */
  function Dividend(seed: Poly, message: seq<bool>): Poly
    requires |seed| == 24
  {
    Xor(seed + Zeros(|message|), message + Zeros(24))
  }

  /** Dividing by the generator gives quotient `q` and remainder `r`. */
  predicate Divides(seed: Poly, message: seq<bool>, q: Poly, r: Poly) {
    && |seed| == 24 && |q| == |message| && |r| == 24
    && Dividend(seed, message) == Xor(Times(q), Zeros(|message|) + r)
  }

  function Quotient(seed: Poly, message: seq<bool>): (q: Poly)
    requires |seed| == 24
    ensures |q| == |message|
  {
    if message == [] then []
    else
      var n := |message| - 1;
      Quotient(seed, message[..n]) + [Feed(seed, message[..n])[0] != message[n]]
  }

  /** What the shift register holds is the remainder of polynomial division. */
  lemma {:induction false} FeedDivides(seed: Poly, message: seq<bool>)
    requires |seed| == 24
    ensures Divides(seed, message, Quotient(seed, message), Feed(seed, message))
  {
    if message == [] {
      assert Xor(seed + Zeros(0), [] + Zeros(24)) == Xor(Zeros(24), Zeros(0) + seed);
    } else {
      var n := |message| - 1;
      FeedDivides(seed, message[..n]);
      DivisionStep(seed, message[..n], message[n], Quotient(seed, message[..n]), Feed(seed, message[..n]));
      assert message[..n] + [message[n]] == message;
    }
  }

  lemma DivisionStep(seed: Poly, m: seq<bool>, b: bool, q: Poly, r: Poly)
    requires Divides(seed, m, q, r)
    ensures Divides(seed, m + [b], q + [r[0] != b], Step(r, b))
  {
    var d' := Dividend(seed, m + [b]);
    var p' := Xor(Times(q + [r[0] != b]), Zeros(|m| + 1) + Step(r, b));
    forall i | 0 <= i < |m| + 25 ensures d'[i] == p'[i] {
      DivisionStepAt(seed, m, b, q, r, i);
    }
  }

  lemma DivisionStepAt(seed: Poly, m: seq<bool>, b: bool, q: Poly, r: Poly, i: nat)
    requires Divides(seed, m, q, r) && i < |m| + 25
    ensures Dividend(seed, m + [b])[i] == Xor(Times(q + [r[0] != b]), Zeros(|m| + 1) + Step(r, b))[i]
  {
    var n, t := |m|, r[0] != b;
    var d := Dividend(seed, m);
    assert d == Xor(Times(q), Zeros(n) + r);
    assert (q + [t])[..n] == q;
    var g := if t then GENERATOR else Zeros(25);
    assert Times(q + [t]) == Xor(Times(q) + [false], Zeros(n) + g);
    if i < n {
      assert d[i] == Times(q)[i];
    } else if i == n {
      assert d[n] == (Times(q)[n] != r[0]);
      assert g[0] == t;
    } else {
      assert Step(r, b)[i - n - 1] == ((i < n + 24 && r[i - n]) != g[i - n]);
      if i < n + 24 {
        assert d[i] == (Times(q)[i] != r[i - n]);
      }
    }
  }

  /** Quotient and remainder are unique. */
  lemma {:induction false} TimesInjective(p: Poly, q: Poly)
    requires |p| == |q| && Times(p)[..|p|] == Times(q)[..|q|]
    ensures p == q
  {
    if p != [] {
      var n := |p| - 1;
      assert forall i :: 0 <= i < n ==> Times(p[..n])[i] == Times(p)[..n + 1][i];
      assert forall i :: 0 <= i < n ==> Times(q[..n])[i] == Times(q)[..n + 1][i];
      assert Times(p[..n])[..n] == Times(q[..n])[..n];
      TimesInjective(p[..n], q[..n]);
      assert Times(p)[..n + 1][n] == (Times(p[..n])[n] != p[n]);
      assert Times(q)[..n + 1][n] == (Times(q[..n])[n] != q[n]);
      assert p == p[..n] + [p[n]] && q == q[..n] + [q[n]];
    }
  }

  lemma RemainderUnique(seed: Poly, message: seq<bool>, q: Poly, r: Poly)
    requires Divides(seed, message, q, r)
    ensures q == Quotient(seed, message) && r == Feed(seed, message)
  {
    var n := |message|;
    var q', r' := Quotient(seed, message), Feed(seed, message);
    FeedDivides(seed, message);
    var d, d' := Xor(Times(q), Zeros(n) + r), Xor(Times(q'), Zeros(n) + r');
    assert d == d';
    forall i | 0 <= i < n ensures Times(q)[i] == Times(q')[i] {
      assert d[i] == Times(q)[i] && d'[i] == Times(q')[i];
    }
    TimesInjective(q, q');
    forall i | 0 <= i < 24 ensures r[i] == r'[i] {
      assert d[n + i] == d'[n + i];
    }
  }
}
