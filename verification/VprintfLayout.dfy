/**
 How the kernel printf lays out a number: padding, sign, base prefix, zeros, digits, padding,
 with the counts computed in place from width and precision.
 */
module VprintfLayout {
  import opened VprintfNumber

  /** What the parsing of a numeric directive leaves: no sign is NUL, `dwidth` is the
      precision (0 if there is none; it may be negative when taken from an argument). */
  datatype Directive = Directive(base: nat, upper: bool, sign: char, sharp: bool, ladjust: bool, zeroPad: bool,
                                 width: nat, dwidth: int)

  function Max(a: int, b: int): (m: int) ensures m >= a && m >= b { if a > b then a else b }

  function Repeat(c: char, n: nat): string {
    seq(n, _ => c)
  }

  function BasePrefix(d: Directive, num: nat): string {
    if !d.sharp || num == 0 then "" else if d.base == 8 then "0" else if d.base == 16 then "0x" else ""
  }

  function SignText(d: Directive): string {
    if d.sign == NUL then "" else [d.sign]
  }

  function PrefixLength(d: Directive, num: nat): nat {
    |SignText(d)| + |BasePrefix(d, num)|
  }

  predicate ZeroPadded(d: Directive) { d.zeroPad && !d.ladjust }

  /** The zeros fill the field if zero padding is asked for, else the precision. */
  function Zeros(d: Directive, num: nat, n: nat): nat {
    Max(0, (if ZeroPadded(d) then d.width - PrefixLength(d, num) else d.dwidth) - n)
  }

  /** The padding fills what the rest leaves of the field. */
  function Padding(d: Directive, num: nat, n: nat): nat {
    Max(0, d.width - PrefixLength(d, num) - Zeros(d, num, n) - n)
  }

  /** The text of a number that has the digits `digits`. */
  function Core(d: Directive, num: nat, digits: string): string {
    BasePrefix(d, num) + Repeat('0', Zeros(d, num, |digits|)) + digits
  }

  function Layout(d: Directive, num: nat): string
    requires IsBase(d.base)
  {
    var digits := NumberText(num, d.base, d.upper);
    var pad := Repeat(' ', Padding(d, num, |digits|));
    (if d.ladjust then "" else pad) + SignText(d) + Core(d, num, digits) + (if d.ladjust then pad else "")
  }

  // ---------------------------------------------------------------- emission

  /** Emits a character a number of times, counting every call. */
  method PutRepeated(out: string, retval: int, c: char, count: int) returns (out': string, retval': int)
    ensures out' == out + Repeat(c, Max(0, count)) && retval' == retval + Max(0, count)
  {
    out', retval' := out, retval;
    var left := count;
    while left > 0
      invariant left <= Max(0, count) && (count > 0 ==> left >= 0) && (count <= 0 ==> left == count)
      invariant out' == out + Repeat(c, if count > 0 then count - left else 0)
      invariant retval' == retval + if count > 0 then count - left else 0
    {
      assert Repeat(c, count - left + 1) == Repeat(c, count - left) + [c];
      out', retval', left := out' + [c], retval' + 1, left - 1;
    }
  }

  /** Emits the buffer downwards until the NUL. */
  method PutDigits(out: string, retval: int, nbuf: array<char>, top: nat, ghost s: string) returns (out': string, retval': int)
    requires VprintfNumber.Holds(nbuf[..], top, s) && NUL !in s
    ensures out' == out + s && retval' == retval + |s|
  {
    var p := top;
    out', retval' := out, retval;
    while nbuf[p] != NUL
      invariant 0 <= p <= top && out' == out + s[..top - p] && retval' == retval + (top - p)
      decreases p
    {
      assert nbuf[..][p] == s[top - p];
      assert s[..top - p + 1] == s[..top - p] + [nbuf[p]];
      out', retval', p := out' + [nbuf[p]], retval' + 1, p - 1;
    }
  }

  lemma NoNul(n: nat, base: nat, upper: bool)
    requires IsBase(base)
    ensures NUL !in NumberText(n, base, upper)
  {
    var ds := Digits(n, base);
    forall i | 0 <= i < |ds| ensures NumberText(n, base, upper)[i] != NUL {
      CharRoundTrip(ds[i], upper);
    }
  }

  method PutPrefix(out: string, retval: int, d: Directive, num: nat) returns (out': string, retval': int)
    ensures out' == out + SignText(d) + BasePrefix(d, num) && retval' == retval + PrefixLength(d, num)
  {
    out', retval' := out, retval;
    if d.sign != NUL {
      out', retval' := out' + [d.sign], retval' + 1;
    }
    if d.sharp && num != 0 {
      if d.base == 8 {
        out', retval' := out' + ['0'], retval' + 1;
      } else if d.base == 16 {
        out', retval' := out' + ['0'], retval' + 1;
        out', retval' := out' + ['x'], retval' + 1;
      }
    }
  }

  /** The in-place arithmetic on width and precision: what is left of them are the numbers
      of padding characters and zeros, if positive. */
  method Widths(d: Directive, num: nat, n: nat) returns (width: int, dwidth: int)
    ensures Max(0, width) == Padding(d, num, n) && Max(0, dwidth) == Zeros(d, num, n)
  {
    var tmp := 0;
    if d.sharp && num != 0 {
      if d.base == 8 {
        tmp := tmp + 1;
      } else if d.base == 16 {
        tmp := tmp + 2;
      }
    }
    if d.sign != NUL {
      tmp := tmp + 1;
    }
    assert tmp == PrefixLength(d, num);
    width, dwidth := d.width, d.dwidth;
    if !d.ladjust && d.zeroPad {
      dwidth := width - tmp;
    }
    width := width - (tmp + Max(dwidth, n));
    dwidth := dwidth - n;
  }

  /** The pieces one after the other. */
  function Assembled(d: Directive, num: nat, digits: string): string {
    var pad := Repeat(' ', Padding(d, num, |digits|));
    ((((if d.ladjust then "" else pad) + SignText(d) + BasePrefix(d, num))
      + Repeat('0', Zeros(d, num, |digits|))) + digits) + (if d.ladjust then pad else "")
  }

  method Emit(d: Directive, num: nat, nbuf: array<char>, n: nat, ghost digits: string) returns (out: string, retval: int)
    requires VprintfNumber.Holds(nbuf[..], n, digits) && NUL !in digits
    ensures out == Assembled(d, num, digits) && retval == |out|
  {
    var width, dwidth := Widths(d, num, n);
    out, retval := "", 0;
    if !d.ladjust {
      out, retval := PutRepeated(out, retval, ' ', width);
    }
    out, retval := PutPrefix(out, retval, d, num);
    out, retval := PutRepeated(out, retval, '0', dwidth);
    out, retval := PutDigits(out, retval, nbuf, n, digits);
    if d.ladjust {
      out, retval := PutRepeated(out, retval, ' ', width);
    }
  }

  lemma AssembledIsLayout(d: Directive, num: nat)
    requires IsBase(d.base)
    ensures Assembled(d, num, NumberText(num, d.base, d.upper)) == Layout(d, num)
  {
  }

  /** The number case. Every emitted character is counted in the return value. */
  method Number(d: Directive, num: nat) returns (out: string, retval: int)
    requires IsBase(d.base) && num < TWO64
    ensures out == Layout(d, num) && retval == |out|
  {
    var nbuf := new char[MAXNBUF];
    var n := Ksprintn(nbuf, num, d.base, d.upper);
    NoNul(num, d.base, d.upper);
    AssembledIsLayout(d, num);
    out, retval := Emit(d, num, nbuf, n, NumberText(num, d.base, d.upper));
  }

  // ---------------------------------------------------------------- the length

  /** The length the layout should have: the field, or what does not fit into it. */
  function Promised(d: Directive, num: nat): int
    requires IsBase(d.base)
  {
    Max(d.width, PrefixLength(d, num) + Max(d.dwidth, |Digits(num, d.base)|))
  }

  /** Zero padding takes the place of the precision, so the length is as promised exactly
      when there is no zero padding or the precision asks for nothing beyond the field and
      the digits. */
  lemma LayoutLength(d: Directive, num: nat)
    requires IsBase(d.base)
    ensures ZeroPadded(d) ==> |Layout(d, num)| == Max(d.width, PrefixLength(d, num) + |Digits(num, d.base)|)
    ensures |Layout(d, num)| == Promised(d, num) <==>
            ZeroPadded(d) ==> d.dwidth + PrefixLength(d, num) <= Max(d.width, PrefixLength(d, num) + |Digits(num, d.base)|)
  {
    var n := |Digits(num, d.base)|;
    assert |Layout(d, num)| == Padding(d, num, n) + PrefixLength(d, num) + Zeros(d, num, n) + n;
  }

  /** `%0.8d` of 5 comes out as a single digit. */
  lemma PrecisionLost()
    ensures var d := Directive(10, false, NUL, false, false, true, 0, 8);
            Layout(d, 5) == "5" && Promised(d, 5) == 8
  {
    assert Digits(5, 10) == [5];
  }

  // ---------------------------------------------------------------- reading back

  function SkipSpaces(s: string): string {
    if s != "" && s[0] == ' ' then SkipSpaces(s[1..]) else s
  }

  /** The value of the longest digit sequence at the start of the text. */
  function ReadNat(s: string, base: nat, acc: nat): nat {
    if s == "" || CharValue(s[0]) >= base then acc
    else ReadNat(s[1..], base, Shift(acc, base, CharValue(s[0])))
  }

  function ReadBody(s: string, base: nat): nat {
    if base == 16 && |s| >= 2 && s[0] == '0' && s[1] == 'x' then ReadNat(s[2..], base, 0) else ReadNat(s, base, 0)
  }

  /** Reading a number as the C library's strtol does: white space, a sign, a base prefix,
      digits, anything. */
  function Read(s: string, base: nat): int {
    var t := SkipSpaces(s);
    if t != "" && t[0] == '-' then 0 - ReadBody(t[1..], base)
    else if t != "" && t[0] == '+' then ReadBody(t[1..], base)
    else ReadBody(t, base)
  }

  lemma {:induction false} FoldCons(acc: nat, d: nat, ds: seq<nat>, base: nat)
    ensures Fold(acc, [d] + ds, base) == Fold(Shift(acc, base, d), ds, base)
  {
    if ds == [] {
      FoldSnoc(acc, [], d, base);
      assert [] + [d] == [d] + [];
    } else {
      var n := |ds| - 1;
      FoldCons(acc, d, ds[..n], base);
      FoldSnoc(acc, [d] + ds[..n], ds[n], base);
      assert ([d] + ds[..n]) + [ds[n]] == [d] + ds;
    }
  }

  /** No digits of the base at the start. */
  predicate Stops(s: string, base: nat) {
    s == "" || CharValue(s[0]) >= base
  }

  predicate AreDigits(ds: seq<nat>, base: nat) {
    forall i :: 0 <= i < |ds| ==> ds[i] < base
  }

  lemma {:induction false} ReadText(ds: seq<nat>, upper: bool, tail: string, base: nat, acc: nat)
    requires IsBase(base) && AreDigits(ds, base) && Stops(tail, base)
    ensures ReadNat(Text(ds, upper) + tail, base, acc) == Fold(acc, ds, base)
    decreases |ds|
  {
    var s := Text(ds, upper) + tail;
    if ds == [] {
      assert s == tail;
    } else {
      CharRoundTrip(ds[0], upper);
      assert s[1..] == Text(ds[1..], upper) + tail;
      ReadText(ds[1..], upper, tail, base, Shift(acc, base, ds[0]));
      FoldCons(acc, ds[0], ds[1..], base);
      assert [ds[0]] + ds[1..] == ds;
    }
  }

  function ZeroDigits(k: nat): seq<nat> {
    seq(k, _ => 0)
  }

  lemma {:induction false} FoldZeros(k: nat, ds: seq<nat>, base: nat)
    ensures Fold(0, ZeroDigits(k) + ds, base) == Fold(0, ds, base)
  {
    if k == 0 {
      assert ZeroDigits(0) + ds == ds;
    } else {
      FoldCons(0, 0, ZeroDigits(k - 1) + ds, base);
      assert [0] + (ZeroDigits(k - 1) + ds) == ZeroDigits(k) + ds;
      FoldZeros(k - 1, ds, base);
    }
  }

  lemma {:induction false} SkipPadding(k: nat, s: string)
    requires s == "" || s[0] != ' '
    ensures SkipSpaces(Repeat(' ', k) + s) == s
  {
    if k == 0 {
      assert Repeat(' ', 0) + s == s;
    } else {
      assert (Repeat(' ', k) + s)[1..] == Repeat(' ', k - 1) + s;
      SkipPadding(k - 1, s);
    }
  }

  /** Zeros and digits of the number as one digit sequence. */
  lemma ZerosAreDigits(k: nat, ds: seq<nat>, upper: bool, base: nat)
    requires IsBase(base) && AreDigits(ds, base)
    ensures AreDigits(ZeroDigits(k) + ds, base)
    ensures Text(ZeroDigits(k) + ds, upper) == Repeat('0', k) + Text(ds, upper)
  {
  }

  lemma ReadZeros(k: nat, ds: seq<nat>, upper: bool, tail: string, base: nat)
    requires IsBase(base) && ds != [] && AreDigits(ds, base) && (tail == "" || tail[0] == ' ')
    ensures ReadNat((Repeat('0', k) + Text(ds, upper)) + tail, base, 0) == Fold(0, ds, base)
  {
    ZerosAreDigits(k, ds, upper, base);
    ReadText(ZeroDigits(k) + ds, upper, tail, base, 0);
    FoldZeros(k, ds, base);
  }

  /** The body of digits is not mistaken for a base prefix. */
  lemma NoPrefixSeen(k: nat, ds: seq<nat>, upper: bool, tail: string, base: nat)
    requires IsBase(base) && ds != [] && AreDigits(ds, base) && (tail == "" || tail[0] == ' ')
    ensures var s := (Repeat('0', k) + Text(ds, upper)) + tail; |s| >= 2 ==> s[1] != 'x'
  {
    var s := (Repeat('0', k) + Text(ds, upper)) + tail;
    CharRoundTrip(ds[0], upper);
    if |ds| >= 2 {
      CharRoundTrip(ds[1], upper);
    }
    if |s| >= 2 && k < 2 && k + |ds| >= 2 {
      assert s[1] == DigitChar(ds[1 - k], upper);
    }
  }

  lemma ReadPlain(k: nat, ds: seq<nat>, upper: bool, tail: string, base: nat)
    requires IsBase(base) && ds != [] && AreDigits(ds, base) && (tail == "" || tail[0] == ' ')
    ensures ReadBody((Repeat('0', k) + Text(ds, upper)) + tail, base) == Fold(0, ds, base)
  {
    ReadZeros(k, ds, upper, tail, base);
    NoPrefixSeen(k, ds, upper, tail, base);
  }

  lemma ReadHex(s: string)
    ensures ReadBody("0x" + s, 16) == ReadNat(s, 16, 0)
  {
    assert ("0x" + s)[2..] == s;
  }

  /** The text of the number: with a hexadecimal prefix, or zeros and digits only. */
  lemma CoreShape(d: Directive, num: nat, digits: string, tail: string)
    ensures var z := Zeros(d, num, |digits|);
            Core(d, num, digits) + tail ==
            if |BasePrefix(d, num)| == 2 then "0x" + ((Repeat('0', z) + digits) + tail)
            else (Repeat('0', z + |BasePrefix(d, num)|) + digits) + tail
  {
    var z := Zeros(d, num, |digits|);
    assert Repeat('0', z + 1) == "0" + Repeat('0', z);
  }

  lemma ReadCore(d: Directive, num: nat, tail: string)
    requires IsBase(d.base) && (tail == "" || tail[0] == ' ')
    ensures ReadBody(Core(d, num, NumberText(num, d.base, d.upper)) + tail, d.base) == num
  {
    var ds := Digits(num, d.base);
    var digits := NumberText(num, d.base, d.upper);
    var z := Zeros(d, num, |ds|);
    CoreShape(d, num, digits, tail);
    assert Fold(0, ds, d.base) == num by { DigitsReadBack(num, d.base); }
    var b := |BasePrefix(d, num)|;
    if b == 2 {
      ReadZeros(z, ds, d.upper, tail, d.base);
      ReadHex((Repeat('0', z) + digits) + tail);
    } else {
      ReadPlain(z + b, ds, d.upper, tail, d.base);
    }
  }

  lemma CoreStart(d: Directive, num: nat)
    requires IsBase(d.base)
    ensures var core := Core(d, num, NumberText(num, d.base, d.upper));
            core != "" && core[0] !in {' ', '+', '-'}
  {
    CharRoundTrip(Digits(num, d.base)[0], d.upper);
  }

  lemma ReadSigned(k: nat, sign: char, body: string, base: nat)
    requires sign in {NUL, '+', '-'} && body != "" && body[0] !in {' ', '+', '-'}
    ensures var s := (if sign == NUL then "" else [sign]) + body;
            Read(Repeat(' ', k) + s, base) == if sign == '-' then 0 - ReadBody(body, base) else ReadBody(body, base)
  {
    var s := (if sign == NUL then "" else [sign]) + body;
    if sign == NUL {
      assert s == body;
    } else {
      assert s[0] == sign && s[1..] == body;
    }
    SkipPadding(k, s);
  }

  lemma LayoutShape(d: Directive, num: nat)
    requires IsBase(d.base)
    ensures var digits := NumberText(num, d.base, d.upper);
            var k := Padding(d, num, |digits|);
            Layout(d, num) == Repeat(' ', if d.ladjust then 0 else k) +
              (SignText(d) + (Core(d, num, digits) + Repeat(' ', if d.ladjust then k else 0)))
  {
    assert Repeat(' ', 0) == "";
  }

  /** Whatever the flags, width and precision, the text reads back as the number with its
      sign. */
  lemma LayoutReadBack(d: Directive, num: nat)
    requires IsBase(d.base) && d.sign in {NUL, '+', '-'}
    ensures Read(Layout(d, num), d.base) == if d.sign == '-' then 0 - num else num
  {
    var digits := NumberText(num, d.base, d.upper);
    var k := Padding(d, num, |digits|);
    var tail := Repeat(' ', if d.ladjust then k else 0);
    LayoutShape(d, num);
    CoreStart(d, num);
    ReadCore(d, num, tail);
    ReadSigned(if d.ladjust then 0 else k, d.sign, Core(d, num, digits) + tail, d.base);
  }

  const INTMAX_MAX: int := 0x7FFF_FFFF_FFFF_FFFF

  /** The signed conversions: a negative argument sets the sign and is negated. The least
      argument, whose negation does not exist, is excluded. */
  method SignedNumber(d: Directive, arg: int) returns (out: string, retval: int)
    requires IsBase(d.base) && d.sign in {NUL, '+'} && -INTMAX_MAX <= arg <= INTMAX_MAX
    ensures Read(out, d.base) == arg && retval == |out| && |out| >= d.width
  {
    var d', num := d, arg;
    if num < 0 {
      d', num := d.(sign := '-'), -num;
    }
    LayoutReadBack(d', num);
    LayoutLength(d', num);
    out, retval := Number(d', num);
  }
}
