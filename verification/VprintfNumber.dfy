/**
 Number output of the kernel printf: the digits of a number are put into a small buffer in
 reverse order, then sign, base prefix, zeros, digits and padding are emitted.
 */
module VprintfNumber {

  /** howmany(64, 3) + 1 */
  const MAXNBUF: nat := 23

  const TWO64: nat := 0x1_0000_0000_0000_0000

  const NUL: char := '\0'

  predicate IsBase(base: nat) { base == 8 || base == 10 || base == 16 }

  // ---------------------------------------------------------------- digits

  function Quot(n: nat, base: nat): nat requires IsBase(base) { n / base }
  function Rem(n: nat, base: nat): nat requires IsBase(base) { n % base }
  function Shift(a: nat, base: nat, d: nat): nat { a * base + d }

  lemma DivMod(n: nat, base: nat)
    requires IsBase(base)
    ensures Shift(Quot(n, base), base, Rem(n, base)) == n && Rem(n, base) < base
    ensures n >= base ==> 0 < Quot(n, base) < n
    ensures n < base ==> Quot(n, base) == 0 && Rem(n, base) == n
  {
    match base
    case 8 =>
    case 10 =>
    case 16 =>
  }

  /** The digits of a number, most significant first. */
  function Digits(n: nat, base: nat): (r: seq<nat>)
    requires IsBase(base)
    ensures r != [] && forall i :: 0 <= i < |r| ==> r[i] < base
  {
    if n < base then [n] else Digits(Quot(n, base), base) + [Rem(n, base)]
  }

  /** The value of a digit sequence read from the left. */
  function Fold(acc: nat, ds: seq<nat>, base: nat): nat {
    if ds == [] then acc else Shift(Fold(acc, ds[..|ds| - 1], base), base, ds[|ds| - 1])
  }

  lemma FoldSnoc(acc: nat, ds: seq<nat>, d: nat, base: nat)
    ensures Fold(acc, ds + [d], base) == Shift(Fold(acc, ds, base), base, d)
  {
    assert (ds + [d])[..|ds|] == ds;
  }

  /** Reading the digits gives the number back, and there is no leading zero. */
  lemma {:induction false} DigitsReadBack(n: nat, base: nat)
    requires IsBase(base)
    ensures Fold(0, Digits(n, base), base) == n
    ensures n != 0 ==> Digits(n, base)[0] != 0
    ensures n == 0 ==> Digits(n, base) == [0]
    decreases n
  {
    DivMod(n, base);
    if n < base {
      FoldSnoc(0, [], n, base);
      assert [] + [n] == [n];
    } else {
      DigitsReadBack(Quot(n, base), base);
      FoldSnoc(0, Digits(Quot(n, base), base), Rem(n, base), base);
    }
  }

  function Pow8(k: nat): nat {
    if k == 0 then 1 else 8 * Pow8(k - 1)
  }

  lemma {:induction false} DigitCount(n: nat, base: nat, k: nat)
    requires IsBase(base) && k > 0 && n < Pow8(k)
    ensures |Digits(n, base)| <= k
    decreases k
  {
    if n >= base {
      assert Quot(n, base) <= n / 8 < Pow8(k - 1) by {
        match base
        case 8 =>
        case 10 =>
        case 16 =>
      }
      DigitCount(Quot(n, base), base, k - 1);
    }
  }

  /** A 64-bit number has at most 22 digits, which leaves room for the NUL. */
  lemma DigitsFit(n: nat, base: nat)
    requires IsBase(base) && n < TWO64
    ensures |Digits(n, base)| + 1 <= MAXNBUF
  {
    assert Pow8(22) > TWO64 by {
      assert Pow8(4) == 4096;
      assert Pow8(8) == 4096 * 4096;
      assert Pow8(12) == 4096 * 4096 * 4096;
      assert Pow8(16) == 4096 * 4096 * 4096 * 4096;
      assert Pow8(20) == 4096 * 4096 * 4096 * 4096 * 4096;
    }
    DigitCount(n, base, 22);
  }

  // ---------------------------------------------------------------- characters

  function DigitChar(d: nat, upper: bool): (c: char)
    requires d < 16
  {
    (if upper then "0123456789ABCDEF" else "0123456789abcdef")[d]
  }

  function CharValue(c: char): nat {
    if '0' <= c <= '9' then c as nat - '0' as nat
    else if 'a' <= c <= 'f' then c as nat - 'a' as nat + 10
    else if 'A' <= c <= 'F' then c as nat - 'A' as nat + 10
    else 16
  }

  lemma CharRoundTrip(d: nat, upper: bool)
    requires d < 16
    ensures CharValue(DigitChar(d, upper)) == d && DigitChar(d, upper) !in {NUL, ' ', '+', '-', 'x'}
    ensures DigitChar(d, upper) == '0' <==> d == 0
  {
  }

  function Text(ds: seq<nat>, upper: bool): string
    requires forall i :: 0 <= i < |ds| ==> ds[i] < 16
  {
    seq(|ds|, i requires 0 <= i < |ds| => DigitChar(ds[i], upper))
  }

  function NumberText(n: nat, base: nat, upper: bool): (s: string)
    requires IsBase(base)
    ensures |s| == |Digits(n, base)|
  {
    Text(Digits(n, base), upper)
  }

  /** The buffer read downwards from p to the NUL at its start. */
  predicate Holds(nbuf: seq<char>, p: nat, s: string) {
    && p < |nbuf| && |s| == p && nbuf[0] == NUL
    && forall i :: 0 < i <= p ==> nbuf[i] == s[p - i]
  }

  /** The digits of what is left of the number, none when nothing is left. */
  ghost function Left(rest: nat, first: bool, base: nat): seq<nat>
    requires IsBase(base)
  {
    if rest == 0 && !first then [] else Digits(rest, base)
  }

  lemma LeftStep(rest: nat, first: bool, base: nat)
    requires IsBase(base) && (rest != 0 || first)
    ensures Left(rest, first, base) == Left(Quot(rest, base), false, base) + [Rem(rest, base)]
    ensures Rem(rest, base) < 16
  {
    DivMod(rest, base);
  }

  lemma HoldsPush(nbuf: seq<char>, p: nat, s: string, c: char)
    requires Holds(nbuf, p, s) && p + 1 < |nbuf|
    ensures Holds(nbuf[p + 1 := c], p + 1, [c] + s)
  {
  }

  /** The buffer holds the low p digits of the number, `rest` has the others. */
  ghost predicate Converting(nbuf: seq<char>, p: nat, rest: nat, first: bool, num: nat, base: nat, upper: bool)
    requires IsBase(base)
  {
    var ds := Digits(num, base);
    && p <= |ds| && Left(rest, first, base) == ds[..|ds| - p]
    && Holds(nbuf, p, NumberText(num, base, upper)[|ds| - p..])
  }

  lemma LeftShorter(ds: seq<nat>, p: nat, rest: nat, first: bool, base: nat)
    requires IsBase(base) && (rest != 0 || first) && p <= |ds| && Left(rest, first, base) == ds[..|ds| - p]
    ensures p < |ds| && Left(Quot(rest, base), false, base) == ds[..|ds| - p - 1] && ds[|ds| - p - 1] == Rem(rest, base) < 16
  {
    LeftStep(rest, first, base);
    var l, m := Left(rest, first, base), Left(Quot(rest, base), false, base);
    assert l == m + [Rem(rest, base)];
    assert m == l[..|l| - 1] && l[|l| - 1] == Rem(rest, base);
  }

  lemma ConvertStep(nbuf: seq<char>, p: nat, rest: nat, first: bool, num: nat, base: nat, upper: bool)
    requires IsBase(base) && Converting(nbuf, p, rest, first, num, base, upper) && (rest != 0 || first)
    requires num < TWO64 && |nbuf| >= MAXNBUF
    ensures Rem(rest, base) < 16 && p + 1 < |nbuf|
    ensures Converting(nbuf[p + 1 := DigitChar(Rem(rest, base), upper)], p + 1, Quot(rest, base), false, num, base, upper)
  {
    var ds, s := Digits(num, base), NumberText(num, base, upper);
    DigitsFit(num, base);
    LeftShorter(ds, p, rest, first, base);
    var c := DigitChar(Rem(rest, base), upper);
    HoldsPush(nbuf, p, s[|ds| - p..], c);
    assert s[|ds| - p - 1] == c;
    assert s[|ds| - p - 1..] == [c] + s[|ds| - p..];
  }

  lemma ConvertStart(nbuf: seq<char>, num: nat, base: nat, upper: bool)
    requires IsBase(base) && nbuf != [] && nbuf[0] == NUL
    ensures Converting(nbuf, 0, num, true, num, base, upper)
  {
    var ds := Digits(num, base);
    assert ds[..|ds|] == ds;
  }

  lemma ConvertEnd(nbuf: seq<char>, p: nat, num: nat, base: nat, upper: bool)
    requires IsBase(base) && Converting(nbuf, p, 0, false, num, base, upper)
    ensures Holds(nbuf, p, NumberText(num, base, upper))
  {
    var ds, s := Digits(num, base), NumberText(num, base, upper);
    assert |ds[..|ds| - p]| == 0;
    assert s[0..] == s;
  }

  /** Puts the digits into the buffer in reverse order, behind a NUL. */
  method Ksprintn(nbuf: array<char>, num: nat, base: nat, upper: bool) returns (p: nat)
    requires nbuf.Length >= MAXNBUF && num < TWO64 && IsBase(base)
    modifies nbuf
    ensures Holds(nbuf[..], p, NumberText(num, base, upper))
  {
    var rest: nat, first := num, true;
    p := 0;
    nbuf[0] := NUL;
    ConvertStart(nbuf[..], num, base, upper);
    while first || rest != 0
      invariant Converting(nbuf[..], p, rest, first, num, base, upper)
      decreases first, rest
    {
      ghost var before := nbuf[..];
      ConvertStep(before, p, rest, first, num, base, upper);
      assert Quot(rest, base) == 0 || Quot(rest, base) < rest by { DivMod(rest, base); }
      p := p + 1;
      nbuf[p] := DigitChar(Rem(rest, base), upper);
      assert nbuf[..] == before[p := DigitChar(Rem(rest, base), upper)];
      rest, first := Quot(rest, base), false;
    }
    ConvertEnd(nbuf[..], p, num, base, upper);
  }
}
