/**
 What each conversion of the kernel printf emits, said without the functions that compute it:
 which base, which digits, which sign and prefix, how many zeros, and on which side the padding
 is; and which sizes of arguments the written modifiers stand for.
 */
module VprintfMeaning {
  import opened VprintfNumber
  import opened VprintfLayout
  import opened VprintfText
  import opened VprintfFormat
  import opened CInt

  // ---------------------------------------------------------------- numerals

  predicate IsDigitOf(c: char, base: nat, upper: bool) {
    || '0' <= c <= '7'
    || (base >= 10 && '8' <= c <= '9')
    || (base == 16 && if upper then 'A' <= c <= 'F' else 'a' <= c <= 'f')
  }

  /** The digits of a number without leading zeros, in one case of letters. */
  predicate IsNumeral(digits: string, n: nat, base: nat, upper: bool) {
    && (forall i :: 0 <= i < |digits| ==> IsDigitOf(digits[i], base, upper))
    && ReadNat(digits, base, 0) == n
    && if n == 0 then digits == "0" else digits != "" && digits[0] != '0'
  }

  lemma DigitCharIsDigit(d: nat, base: nat, upper: bool)
    requires IsBase(base) && d < base
    ensures IsDigitOf(DigitChar(d, upper), base, upper)
  {
  }

  lemma NumberTextReads(n: nat, base: nat, upper: bool)
    requires IsBase(base)
    ensures ReadNat(NumberText(n, base, upper), base, 0) == n
  {
    ReadText(Digits(n, base), upper, "", base, 0);
    assert NumberText(n, base, upper) + "" == NumberText(n, base, upper);
    DigitsReadBack(n, base);
  }

  lemma NumberTextDigits(n: nat, base: nat, upper: bool)
    requires IsBase(base)
    ensures var s := NumberText(n, base, upper); forall i :: 0 <= i < |s| ==> IsDigitOf(s[i], base, upper)
  {
    var ds, s := Digits(n, base), NumberText(n, base, upper);
    forall i | 0 <= i < |s| ensures IsDigitOf(s[i], base, upper) {
      DigitCharIsDigit(ds[i], base, upper);
    }
  }

  lemma FirstChar(n: nat, base: nat, upper: bool)
    requires IsBase(base)
    ensures var s, ds := NumberText(n, base, upper), Digits(n, base);
            |s| == |ds| > 0 && (s[0] == '0' <==> ds[0] == 0)
  {
    CharRoundTrip(Digits(n, base)[0], upper);
  }

  lemma NumberTextStart(n: nat, base: nat, upper: bool)
    requires IsBase(base)
    ensures var s := NumberText(n, base, upper); if n == 0 then s == "0" else s != "" && s[0] != '0'
  {
    var s, ds := NumberText(n, base, upper), Digits(n, base);
    FirstChar(n, base, upper);
    assert n != 0 ==> ds[0] != 0 by { DigitsReadBack(n, base); }
    assert n == 0 ==> ds[0] == 0 && |ds| == 1 by { DigitsReadBack(n, base); }
  }

  lemma NumberTextIsNumeral(n: nat, base: nat, upper: bool)
    requires IsBase(base)
    ensures IsNumeral(NumberText(n, base, upper), n, base, upper)
  {
    NumberTextReads(n, base, upper);
    NumberTextDigits(n, base, upper);
    NumberTextStart(n, base, upper);
  }

  // ---------------------------------------------------------------- fields

  /** Sign, prefix, zeros and digits in a field of spaces. The zeros fill the field if zero
      padding is asked for without left adjustment, else the precision. */
  predicate Fills(text: string, spec: Spec, sign: string, prefix: string, digits: string) {
    var given := |sign| + |prefix| + |digits|;
    var zeros := if spec.look.zeroPad && !spec.look.ladjust then spec.width - given else spec.dwidth - |digits|;
    var body := sign + (prefix + (Repeat('0', Max(0, zeros)) + digits));
    var spaces := Repeat(' ', Max(0, spec.width - |body|));
    text == if spec.look.ladjust then body + spaces else spaces + body
  }

  lemma PiecesInField(left: string, sign: string, prefix: string, zeros: string, digits: string, right: string)
    ensures left + sign + (prefix + zeros + digits) + right == left + (sign + (prefix + (zeros + digits))) + right
  {
  }

  lemma CountsAgree(d: Directive, spec: Spec, num: nat, n: nat)
    requires d.ladjust == spec.look.ladjust && d.zeroPad == spec.look.zeroPad
    requires d.width == spec.width && d.dwidth == spec.dwidth
    ensures var given := |SignText(d)| + |BasePrefix(d, num)| + n;
            var zeros := if spec.look.zeroPad && !spec.look.ladjust then spec.width - given else spec.dwidth - n;
            Zeros(d, num, n) == Max(0, zeros) && Padding(d, num, n) == Max(0, spec.width - (given + Max(0, zeros)))
  {
  }

  lemma NoPadding(s: string, pad: string)
    ensures "" + s + pad == s + pad && pad + s + "" == pad + s
  {
  }

  lemma LayoutFills(d: Directive, spec: Spec, num: nat)
    requires IsBase(d.base) && d.ladjust == spec.look.ladjust && d.zeroPad == spec.look.zeroPad
    requires d.width == spec.width && d.dwidth == spec.dwidth
    ensures Fills(Layout(d, num), spec, SignText(d), BasePrefix(d, num), NumberText(num, d.base, d.upper))
  {
    var digits := NumberText(num, d.base, d.upper);
    var zeros := Repeat('0', Zeros(d, num, |digits|));
    var body := SignText(d) + (BasePrefix(d, num) + (zeros + digits));
    var pad := Repeat(' ', Padding(d, num, |digits|));
    CountsAgree(d, spec, num, |digits|);
    PiecesInField(if d.ladjust then "" else pad, SignText(d), BasePrefix(d, num), zeros, digits, if d.ladjust then pad else "");
    NoPadding(body, pad);
  }

  /** What a numeric conversion emits for a value. */
  ghost predicate Emits(text: string, spec: Spec, sign: string, prefix: string, n: nat, base: nat, upper: bool) {
    exists digits :: IsNumeral(digits, n, base, upper) && Fills(text, spec, sign, prefix, digits)
  }

  lemma LayoutEmits(d: Directive, spec: Spec, num: nat)
    requires IsBase(d.base) && d.ladjust == spec.look.ladjust && d.zeroPad == spec.look.zeroPad
    requires d.width == spec.width && d.dwidth == spec.dwidth
    ensures Emits(Layout(d, num), spec, SignText(d), BasePrefix(d, num), num, d.base, d.upper)
  {
    LayoutFills(d, spec, num);
    NumberTextIsNumeral(num, d.base, d.upper);
  }

  /** The sign of a signed conversion. */
  function SignShown(spec: Spec, v: int): string {
    if v < 0 then "-" else if spec.look.plus then "+" else ""
  }

  function PrefixShown(spec: Spec, n: int, prefix: string): string {
    if spec.look.sharp && n != 0 then prefix else ""
  }

  predicate FitsSigned(arg: int, spec: Spec) { 0 - Modulus(spec) <= 2 * arg < Modulus(spec) }
  predicate FitsUnsigned(arg: int, spec: Spec) { 0 <= arg < Modulus(spec) }

  function Magnitude(v: int): nat { if v < 0 then -v else v }

  lemma SignedText(conv: char, spec: Spec, arg: int)
    requires IsSigned(conv) && FitsSigned(arg, spec)
    ensures NumberOutput(conv, spec, arg)
         == Layout(DirectiveOf(conv, spec, if arg < 0 then '-' else SignOf(spec)), Magnitude(arg))
  {
    FitsSize(arg, spec, true);
  }

  lemma SignedEmits(conv: char, spec: Spec, arg: int)
    requires IsSigned(conv) && FitsSigned(arg, spec)
    ensures var sign := if arg < 0 then '-' else SignOf(spec);
            var d := DirectiveOf(conv, spec, sign);
            Emits(NumberOutput(conv, spec, arg), spec, SignText(d), BasePrefix(d, Magnitude(arg)), Magnitude(arg), d.base, d.upper)
  {
    SignedText(conv, spec, arg);
    LayoutEmits(DirectiveOf(conv, spec, if arg < 0 then '-' else SignOf(spec)), spec, Magnitude(arg));
  }

  lemma UnsignedEmits(conv: char, spec: Spec, arg: int)
    requires IsNumeric(conv) && !IsSigned(conv) && FitsUnsigned(arg, spec)
    ensures var d := DirectiveOf(conv, spec, SignOf(spec));
            Emits(NumberOutput(conv, spec, arg), spec, SignText(d), BasePrefix(d, arg), arg, d.base, d.upper)
  {
    FitsSize(arg, spec, false);
    LayoutEmits(DirectiveOf(conv, spec, SignOf(spec)), spec, arg);
  }

  /** `d` and `i` print a signed decimal number, without prefix. */
  lemma SignedDecimal(conv: char, spec: Spec, arg: int)
    requires (conv == 'd' || conv == 'i') && FitsSigned(arg, spec)
    ensures Emits(NumberOutput(conv, spec, arg), spec, SignShown(spec, arg), "", Magnitude(arg), 10, false)
    ensures Read(NumberOutput(conv, spec, arg), 10) == arg
  {
    SignedEmits(conv, spec, arg);
    OutputReadBack(conv, spec, arg);
  }

  /** `y` prints a signed hexadecimal number in small letters. */
  lemma SignedHex(spec: Spec, arg: int)
    requires FitsSigned(arg, spec)
    ensures Emits(NumberOutput('y', spec, arg), spec, SignShown(spec, arg), PrefixShown(spec, arg, "0x"), Magnitude(arg), 16, false)
    ensures Read(NumberOutput('y', spec, arg), 16) == arg
  {
    SignedEmits('y', spec, arg);
    OutputReadBack('y', spec, arg);
  }

  /** `u` prints an unsigned decimal number, without prefix. */
  lemma UnsignedDecimal(spec: Spec, arg: int)
    requires FitsUnsigned(arg, spec)
    ensures Emits(NumberOutput('u', spec, arg), spec, SignShown(spec, arg), "", arg, 10, false)
    ensures Read(NumberOutput('u', spec, arg), 10) == arg
  {
    UnsignedEmits('u', spec, arg);
    OutputReadBack('u', spec, arg);
  }

  /** `o` prints an octal number. */
  lemma Octal(spec: Spec, arg: int)
    requires FitsUnsigned(arg, spec)
    ensures Emits(NumberOutput('o', spec, arg), spec, SignShown(spec, arg), PrefixShown(spec, arg, "0"), arg, 8, false)
    ensures Read(NumberOutput('o', spec, arg), 8) == arg
  {
    UnsignedEmits('o', spec, arg);
    OutputReadBack('o', spec, arg);
  }

  /** `x` prints a hexadecimal number in small letters, `X` in capital letters. */
  lemma Hex(conv: char, spec: Spec, arg: int)
    requires (conv == 'x' || conv == 'X') && FitsUnsigned(arg, spec)
    ensures Emits(NumberOutput(conv, spec, arg), spec, SignShown(spec, arg), PrefixShown(spec, arg, "0x"), arg, 16, conv == 'X')
    ensures Read(NumberOutput(conv, spec, arg), 16) == arg
  {
    UnsignedEmits(conv, spec, arg);
    OutputReadBack(conv, spec, arg);
  }

  /** `p` prints the pointer in hexadecimal, with prefix exactly when no width is given. */
  lemma PointerShown(spec: Spec, args: seq<Value>)
    requires 0 <= Arg(args) < TWO64
    ensures Emits(TextOutput('p', spec, args), spec, "",
                  if spec.width == 0 && Arg(args) != 0 then "0x" else "", Arg(args), 16, false)
  {
    var d, n: nat := PointerDirective(spec), Arg(args);
    PointerText(spec, args);
    LayoutEmits(d, spec, n);
  }

  lemma PointerText(spec: Spec, args: seq<Value>)
    requires 0 <= Arg(args) < TWO64
    ensures TextOutput('p', spec, args) == Layout(PointerDirective(spec), Arg(args))
  {
    assert Arg(args) % TWO64 == Arg(args);
  }

  // ---------------------------------------------------------------- sizes

  /** The arguments the written size modifiers stand for: one, two, four or eight bytes. */
  lemma SizesMean(spec: Spec)
    ensures spec.size == Sizes(PLAIN_SIZE, "") ==> Modulus(spec) == 0x1_0000_0000
    ensures spec.size == Sizes(PLAIN_SIZE, "hh") ==> Modulus(spec) == 0x100
    ensures spec.size == Sizes(PLAIN_SIZE, "h") ==> Modulus(spec) == 0x1_0000
    ensures spec.size == Sizes(PLAIN_SIZE, "l") || spec.size == Sizes(PLAIN_SIZE, "ll") ==> Modulus(spec) == 0x1_0000_0000_0000_0000
    ensures spec.size == Sizes(PLAIN_SIZE, "j") || spec.size == Sizes(PLAIN_SIZE, "t") || spec.size == Sizes(PLAIN_SIZE, "z")
            ==> Modulus(spec) == 0x1_0000_0000_0000_0000
  {
    assert "hh"[1..] == "h" && "ll"[1..] == "l" && "h"[1..] == "" && "l"[1..] == "";
    assert "j"[1..] == "" && "t"[1..] == "" && "z"[1..] == "";
    assert Sizes(PLAIN_SIZE, "hh") == Sizes(SizeFlag(PLAIN_SIZE, 'h'), "h");
    assert Sizes(PLAIN_SIZE, "ll") == Sizes(SizeFlag(PLAIN_SIZE, 'l'), "l");
  }

  /** An argument that does not fit is taken modulo the size. */
  lemma SizeWraps(arg: int, spec: Spec)
    ensures FitsUnsigned(Unsigned(arg, spec), spec) && (arg - Unsigned(arg, spec)) % Modulus(spec) == 0
    ensures FitsSigned(Signed(arg, spec), spec) && (arg - Signed(arg, spec)) % Modulus(spec) == 0
  {
    var m, u := Modulus(spec), Unsigned(arg, spec);
    assert arg == m * (arg / m) + u;
    Multiple(arg / m, m);
    Multiple(arg / m + 1, m);
    assert arg - (u - m) == m * (arg / m + 1);
  }

  lemma Multiple(q: int, m: int)
    requires m == TWO8 || m == TWO16 || m == TWO32 || m == TWO64
    ensures (m * q) % m == 0
  {
    if m == TWO8 {
    } else if m == TWO16 {
    } else if m == TWO32 {
    } else {
    }
  }

  // ---------------------------------------------------------------- text

  /** Padding is behind a left-adjusted text and before any other. */
  lemma PaddedSides(text: string, width: int, ladjust: bool, padc: char, i: nat)
    ensures var s := Padded(text, width, ladjust, padc);
            && |s| >= |text| && (if ladjust then s[..|text|] else s[|s| - |text|..]) == text
            && (i < |s| - |text| ==> (if ladjust then s[|text| + i] else s[i]) == padc)
  {
  }

  /** `c` prints the character with the argument's code, padded with zeros only if asked for. */
  lemma CharacterShown(spec: Spec, args: seq<Value>, c: char)
    requires Arg(args) == c as int < 0x100
    ensures TextOutput('c', spec, args) == Padded([c], spec.width, spec.look.ladjust, if spec.look.zeroPad then '0' else ' ')
  {
  }

  /** `s` prints the string, or as much of it as the precision says, and "(null)" for a null
      pointer. */
  lemma StringShown(spec: Spec, args: seq<Value>, s: string)
    requires args != [] && (args[0] == Str(s) || (args[0] == Null && s == "(null)"))
    ensures exists n :: 0 <= n <= |s| && (n == |s| || (spec.dot && n == Max(0, spec.dwidth)))
              && (spec.dot ==> n <= Max(0, spec.dwidth))
              && TextOutput('s', spec, args) == Padded(s[..n], spec.width, spec.look.ladjust, if spec.look.zeroPad then '0' else ' ')
  {
    var n := |Cut(s, spec.dot, spec.dwidth)|;
    assert s[..n] == Cut(s, spec.dot, spec.dwidth);
  }

  lemma {:induction false} DumpLength(bytes: seq<bv8>, delimiter: string)
    requires bytes != []
    ensures |Dump(bytes, delimiter)| == 2 * |bytes| + Gaps(|bytes| - 1, |delimiter|)
  {
    if |bytes| > 1 {
      DumpLength(bytes[1..], delimiter);
    }
  }

  function Gaps(n: nat, size: nat): nat { if n == 0 then 0 else size + Gaps(n - 1, size) }

  /** `D` dumps as many octets as the width says, sixteen without a width. */
  lemma DumpShown(spec: Spec, octets: seq<bv8>, delimiter: string, args: seq<Value>)
    requires |args| >= 2 && args[0] == Pointer(octets) && args[1] == Str(delimiter)
    requires (if spec.width == 0 then 16 else spec.width) <= |octets|
    ensures TextOutput('D', spec, args) == Dump(octets[..if spec.width == 0 then 16 else spec.width], delimiter)
  {
  }

  // ---------------------------------------------------------------- arguments and letters

  /** The dump takes two arguments, every other conversion one. */
  lemma ArgumentsTaken(conv: char, args: seq<Value>)
    ensures |args| >= 2 ==> Rest(conv, args) == if conv == 'D' then args[2..] else args[1..]
    ensures |args| == 1 ==> Rest(conv, args) == []
  {
  }

  /** The conversions there are. */
  lemma Letters(conv: char)
    ensures IsUnknown(conv) <==> conv !in {'%', 'd', 'i', 'u', 'o', 'x', 'X', 'y', 'c', 's', 'p', 'D'}
  {
  }
}
