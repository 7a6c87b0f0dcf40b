/**
 The format of the kernel printf: literal text, `%%`, directives with their flags, width,
 precision and size modifiers, and what happens to an unknown directive.
 */
module VprintfFormat {
  import opened VprintfNumber
  import opened VprintfLayout
  import opened VprintfText
  import opened CInt
  import opened Sequences
  import opened Decimals

  datatype Look = Look(zeroPad: bool, ladjust: bool, sharp: bool, plus: bool)

  /** `l` stands for the modifiers l, t and z, which mean the same size on a 64-bit machine. */
  datatype Size = Size(h: bool, c: bool, l: bool, j: bool)

  /** What the scan of a directive has seen so far. */
  datatype Spec = Spec(look: Look, width: nat, dot: bool, dwidth: int, size: Size)

  const PLAIN_LOOK := Look(false, false, false, false)
  const PLAIN_SIZE := Size(false, false, false, false)
  const START := Spec(PLAIN_LOOK, 0, false, 0, PLAIN_SIZE)

  /** An argument: a number, a string, a null pointer or a pointer to octets. */
  datatype Value = Int(n: int) | Str(chars: string) | Null | Pointer(octets: seq<bv8>)

  /** A directive scanned up to its conversion character, or cut off by the end. */
  datatype Parsed = Parsed(conv: char, spec: Spec, rest: string, args: seq<Value>) | CutOff

  predicate IsAttribute(ch: char, dot: bool) {
    ch == '#' || ch == '+' || ch == '-' || (ch == '0' && !dot)
  }

  predicate IsSize(ch: char) {
    ch == 'h' || ch == 'j' || ch == 'l' || ch == 't' || ch == 'z'
  }

  predicate IsFlag(ch: char, dot: bool) {
    ch == '.' || IsAttribute(ch, dot) || IsSize(ch)
  }

  function LookFlag(look: Look, ch: char): Look {
    if ch == '#' then look.(sharp := true)
    else if ch == '+' then look.(plus := true)
    else if ch == '-' then look.(ladjust := true)
    else look.(zeroPad := true)
  }

  function SizeFlag(size: Size, ch: char): Size {
    if ch == 'h' then (if size.h then size.(h := false, c := true) else size.(h := true))
    else if ch == 'j' then size.(j := true)
    else if ch == 'l' && size.l then size.(j := true)
    else size.(l := true)
  }

  function Flag(spec: Spec, ch: char): Spec {
    if ch == '.' then spec.(dot := true)
    else if IsSize(ch) then spec.(size := SizeFlag(spec.size, ch))
    else spec.(look := LookFlag(spec.look, ch))
  }

  function Counted(spec: Spec, n: nat): Spec {
    if spec.dot then spec.(dwidth := n) else spec.(width := n)
  }

  function Star(spec: Spec, arg: int): Spec {
    if spec.dot then spec.(dwidth := arg)
    else if arg < 0 then spec.(look := spec.look.(ladjust := !spec.look.ladjust), width := -arg)
    else spec.(width := arg)
  }

  // What the program takes an argument for; one of another kind is the caller's error.

  function Arg(args: seq<Value>): int { if args != [] && args[0].Int? then args[0].n else 0 }
  function StringArg(args: seq<Value>): string { if args != [] && args[0].Str? then args[0].chars else "(null)" }
  function OctetsArg(args: seq<Value>): seq<bv8> { if args != [] && args[0].Pointer? then args[0].octets else [] }
  function Drop(args: seq<Value>): seq<Value> { if args == [] then [] else args[1..] }

  predicate IsDigit(ch: char) { '0' <= ch <= '9' }

  function Parse(fmt: string, spec: Spec, args: seq<Value>): Parsed
    decreases |fmt|
  {
    if fmt == "" then CutOff
    else if IsFlag(fmt[0], spec.dot) then Parse(fmt[1..], Flag(spec, fmt[0]), args)
    else if fmt[0] == '*' then Parse(fmt[1..], Star(spec, Arg(args)), Drop(args))
    else if IsDigit(fmt[0]) then Parse(SkipDigits(fmt), Counted(spec, Atoi(fmt)), args)
    else Parsed(fmt[0], spec, fmt[1..], args)
  }

  // ---------------------------------------------------------------- conversions

  predicate IsSigned(conv: char) { conv == 'd' || conv == 'i' || conv == 'y' }
  predicate IsNumeric(conv: char) { IsSigned(conv) || conv == 'u' || conv == 'o' || conv == 'x' || conv == 'X' }

  function BaseOf(conv: char): (base: nat)
    ensures IsBase(base)
  {
    if conv == 'o' then 8 else if conv == 'x' || conv == 'X' || conv == 'y' then 16 else 10
  }

  const TWO8: int := 0x100
  const TWO16: int := 0x1_0000

  function Modulus(spec: Spec): (m: int)
    ensures m == TWO8 || m == TWO16 || m == TWO32 || m == TWO64
  {
    if spec.size.j || spec.size.l then TWO64 else if spec.size.h then TWO16 else if spec.size.c then TWO8 else TWO32
  }

  /** The argument in the unsigned type of the directive. */
  function Unsigned(arg: int, spec: Spec): (n: nat)
    ensures n < TWO64
  {
    arg % Modulus(spec)
  }

  /** The argument in the signed type of the directive. */
  function Signed(arg: int, spec: Spec): (n: int)
    ensures 0 - TWO64 < n < TWO64
  {
    var n: int := Unsigned(arg, spec);
    if n < Modulus(spec) / 2 then n else n - Modulus(spec)
  }

  function DirectiveOf(conv: char, spec: Spec, sign: char): Directive {
    Directive(BaseOf(conv), conv == 'X', sign, spec.look.sharp, spec.look.ladjust, spec.look.zeroPad, spec.width, spec.dwidth)
  }

  function SignOf(spec: Spec): char { if spec.look.plus then '+' else NUL }

  function NumberOutput(conv: char, spec: Spec, arg: int): string {
    if IsSigned(conv) then
      var v := Signed(arg, spec);
      if v < 0 then Layout(DirectiveOf(conv, spec, '-'), -v) else Layout(DirectiveOf(conv, spec, SignOf(spec)), v)
    else Layout(DirectiveOf(conv, spec, SignOf(spec)), Unsigned(arg, spec))
  }

  function PadOf(spec: Spec): char { if spec.look.zeroPad then '0' else ' ' }

  function CharOf(n: int): char { (n % 0x100) as char }

  /** A pointer is a hexadecimal number, with prefix unless a width is given. */
  function PointerDirective(spec: Spec): Directive {
    Directive(16, false, NUL, spec.width == 0, spec.look.ladjust, spec.look.zeroPad, spec.width, spec.dwidth)
  }

  /** The octets a dump is asked for, as far as there are any. */
  function Dumped(octets: seq<bv8>, width: nat): seq<bv8> {
    if DumpSize(width) <= |octets| then octets[..DumpSize(width)] else octets
  }

  predicate IsText(conv: char) { conv == 'c' || conv == 's' || conv == 'p' || conv == 'D' }

  function TextOutput(conv: char, spec: Spec, args: seq<Value>): string {
    if conv == 'c' then Padded([CharOf(Arg(args))], spec.width, spec.look.ladjust, PadOf(spec))
    else if conv == 's' then
      Padded(Cut(StringArg(args), spec.dot, spec.dwidth), spec.width, spec.look.ladjust, PadOf(spec))
    else if conv == 'p' then Layout(PointerDirective(spec), Arg(args) % TWO64)
    else Dump(Dumped(OctetsArg(args), spec.width), StringArg(Drop(args)))
  }

  predicate IsKnown(conv: char) { IsNumeric(conv) || IsText(conv) }

  /** What a known conversion emits. */
  function OutputOf(conv: char, spec: Spec, args: seq<Value>): string {
    if IsNumeric(conv) then NumberOutput(conv, spec, Arg(args)) else TextOutput(conv, spec, args)
  }

  /** The arguments behind those of a known conversion. */
  function Rest(conv: char, args: seq<Value>): seq<Value> {
    if conv == 'D' then Drop(Drop(args)) else Drop(args)
  }

  // ---------------------------------------------------------------- the whole format

  /** No directive runs into the end of the format. The program reads on behind the end
      otherwise. */
  predicate WellEnded(fmt: string, args: seq<Value>, stop: bool)
    decreases |fmt|
  {
    if fmt == "" then true
    else if fmt[0] != '%' || stop then WellEnded(fmt[1..], args, stop)
    else
      var p := Parse(fmt[1..], START, args);
      ParseShortens(fmt[1..], START, args);
      p.Parsed? && WellEnded(p.rest, Remaining(p), stop || IsUnknown(p.conv))
  }

  /** What is emitted for a format. After an unknown directive the rest is literal text. */
  function Run(fmt: string, args: seq<Value>, stop: bool): string
    requires WellEnded(fmt, args, stop)
    decreases |fmt|
  {
    if fmt == "" then ""
    else if fmt[0] != '%' || stop then [fmt[0]] + Run(fmt[1..], args, stop)
    else
      var p := Parse(fmt[1..], START, args);
      ParseShortens(fmt[1..], START, args);
      Conversion(fmt, p) + Run(p.rest, Remaining(p), stop || IsUnknown(p.conv))
  }

  predicate IsUnknown(conv: char) {
    conv != '%' && !IsKnown(conv)
  }

  function Conversion(fmt: string, p: Parsed): string
    requires p.Parsed? && |p.rest| < |fmt|
  {
    if p.conv == '%' then "%"
    else if IsKnown(p.conv) then OutputOf(p.conv, p.spec, p.args)
    else fmt[..|fmt| - |p.rest|]
  }

  function Remaining(p: Parsed): seq<Value>
    requires p.Parsed?
  {
    if IsKnown(p.conv) then Rest(p.conv, p.args) else p.args
  }

  lemma {:induction false} ParseShortens(fmt: string, spec: Spec, args: seq<Value>)
    ensures var p := Parse(fmt, spec, args); p.Parsed? ==> |p.rest| < |fmt|
    decreases |fmt|
  {
    if fmt == "" {
    } else if IsFlag(fmt[0], spec.dot) {
      ParseShortens(fmt[1..], Flag(spec, fmt[0]), args);
    } else if fmt[0] == '*' {
      ParseShortens(fmt[1..], Star(spec, Arg(args)), Drop(args));
    } else if IsDigit(fmt[0]) {
      ParseShortens(SkipDigits(fmt), Counted(spec, Atoi(fmt)), args);
    }
  }

  // ---------------------------------------------------------------- the loops

  /** The number loop of the scan. */
  method ScanNumber(fmt: string) returns (n: nat, rest: string)
    ensures n == Atoi(fmt) && rest == SkipDigits(fmt)
  {
    n, rest := 0, fmt;
    while rest != "" && IsDigit(rest[0])
      invariant ReadNat(rest, 10, n) == Atoi(fmt) && SkipDigits(rest) == SkipDigits(fmt)
      decreases |rest|
    {
      n, rest := Shift(n, 10, CharValue(rest[0])), rest[1..];
    }
  }

  /** The switch that is entered again and again until a conversion character comes. */
  method Scan(fmt: string, args: seq<Value>) returns (p: Parsed)
    requires Parse(fmt, START, args).Parsed?
    ensures p == Parse(fmt, START, args)
  {
    var rest, spec, left := fmt, START, args;
    while IsFlag(rest[0], spec.dot) || rest[0] == '*' || IsDigit(rest[0])
      invariant Parse(rest, spec, left) == Parse(fmt, START, args) && rest != ""
      decreases |rest|
    {
      var ch := rest[0];
      if IsFlag(ch, spec.dot) {
        spec, rest := Flag(spec, ch), rest[1..];
      } else if ch == '*' {
        spec, left, rest := Star(spec, Arg(left)), Drop(left), rest[1..];
      } else {
        var n;
        n, rest := ScanNumber(rest);
        spec := Counted(spec, n);
      }
    }
    return Parsed(rest[0], spec, rest[1..], left);
  }

  /** A numeric conversion: the sign of a negative argument is taken off first. */
  method ConvertNumber(conv: char, spec: Spec, arg: int) returns (text: string, count: int)
    requires IsNumeric(conv)
    ensures text == NumberOutput(conv, spec, arg) && count == |text|
  {
    var sign, num := SignOf(spec), 0;
    if IsSigned(conv) {
      num := Signed(arg, spec);
      if num < 0 {
        sign, num := '-', -num;
      }
    } else {
      num := Unsigned(arg, spec);
    }
    text, count := VprintfLayout.Number(DirectiveOf(conv, spec, sign), num);
  }

  method ConvertText(conv: char, spec: Spec, args: seq<Value>) returns (text: string, count: int)
    requires IsText(conv)
    ensures text == TextOutput(conv, spec, args) && count == |text|
  {
    if conv == 'c' {
      text, count := PutText([CharOf(Arg(args))], spec.width, spec.look.ladjust, PadOf(spec));
    } else if conv == 's' {
      text, count := PutString(StringArg(args), spec.dot, spec.dwidth, spec.width, spec.look.ladjust, PadOf(spec));
    } else if conv == 'p' {
      text, count := VprintfLayout.Number(PointerDirective(spec), Arg(args) % TWO64);
    } else {
      text, count := PutDump(Dumped(OctetsArg(args), spec.width), StringArg(Drop(args)));
    }
  }

  /** One conversion, with its count of emitted characters. */
  method Convert(fmt: string, p: Parsed) returns (text: string, count: int)
    requires p.Parsed? && |p.rest| < |fmt|
    ensures text == Conversion(fmt, p) && count == |text|
  {
    if p.conv == '%' {
      text, count := "%", 1;
    } else if IsNumeric(p.conv) {
      text, count := ConvertNumber(p.conv, p.spec, Arg(p.args));
    } else if IsText(p.conv) {
      text, count := ConvertText(p.conv, p.spec, p.args);
    } else {
      text := fmt[..|fmt| - |p.rest|];
      count := |text|;
    }
  }

  lemma LiteralStep(out: string, fmt: string, args: seq<Value>, stop: bool)
    requires fmt != "" && (fmt[0] != '%' || stop) && WellEnded(fmt, args, stop)
    ensures WellEnded(fmt[1..], args, stop)
    ensures out + Run(fmt, args, stop) == (out + [fmt[0]]) + Run(fmt[1..], args, stop)
  {
  }

  lemma ConversionStep(out: string, fmt: string, args: seq<Value>, p: Parsed)
    requires fmt != "" && fmt[0] == '%' && WellEnded(fmt, args, false) && p == Parse(fmt[1..], START, args)
    ensures p.Parsed? && |p.rest| < |fmt| && WellEnded(p.rest, Remaining(p), IsUnknown(p.conv))
    ensures out + Run(fmt, args, false)
         == (out + Conversion(fmt, p)) + Run(p.rest, Remaining(p), IsUnknown(p.conv))
  {
    ParseShortens(fmt[1..], START, args);
  }

  /** The whole function: it emits what the format says, and returns how many characters that
      were. */
  method Vprintf(fmt: string, args: seq<Value>) returns (out: string, retval: int)
    requires WellEnded(fmt, args, false)
    ensures out == Run(fmt, args, false) && retval == |out|
  {
    var rest, left, stop := fmt, args, false;
    out, retval := "", 0;
    ghost var all := Run(fmt, args, false);
    while rest != ""
      invariant WellEnded(rest, left, stop)
      invariant retval == |out| && out + Run(rest, left, stop) == all
      decreases |rest|
    {
      if rest[0] != '%' || stop {
        LiteralStep(out, rest, left, stop);
        out, retval, rest := out + [rest[0]], retval + 1, rest[1..];
      } else {
        ConversionStep(out, rest, left, Parse(rest[1..], START, left));
        var p := Scan(rest[1..], left);
        var text, count := Convert(rest, p);
        out, retval := out + text, retval + count;
        rest, left, stop := p.rest, Remaining(p), IsUnknown(p.conv);
      }
    }
  }

  // ---------------------------------------------------------------- writing formats

  /** A width of 0 is not written; a width or a precision may be taken from the arguments. */
  datatype Width = Width(n: nat) | WidthArg
  datatype Precision = NoPrecision | Precision(digits: nat) | PrecisionArg

  /** A piece of a format: a literal character, a percent sign, or a directive with its
      flags and size modifiers in any order and number. */
  datatype Item =
    | Literal(ch: char)
    | Percent
    | Directed(flags: string, width: Width, precision: Precision, sizes: string, conv: char)

  predicate AreFlags(flags: string) { forall i :: 0 <= i < |flags| ==> IsAttribute(flags[i], false) }
  predicate AreSizes(sizes: string) { forall i :: 0 <= i < |sizes| ==> IsSize(sizes[i]) }

  predicate IsItem(item: Item) {
    match item
    case Literal(ch) => ch != '%'
    case Percent => true
    case Directed(flags, _, _, sizes, conv) => AreFlags(flags) && AreSizes(sizes) && IsKnown(conv)
  }

  function WidthText(width: Width): string {
    match width
    case Width(n) => if n == 0 then "" else Decimal(n)
    case WidthArg => "*"
  }

  function PrecisionText(p: Precision): string {
    match p
    case NoPrecision => ""
    case Precision(n) => "." + Decimal(n)
    case PrecisionArg => ".*"
  }

  /** The text of an item in a format. */
  function Written(item: Item): string {
    match item
    case Literal(ch) => [ch]
    case Percent => "%%"
    case Directed(flags, width, precision, sizes, conv) =>
      "%" + (flags + (WidthText(width) + (PrecisionText(precision) + (sizes + [conv]))))
  }

  function Format(items: seq<Item>): string {
    if items == [] then "" else Written(items[0]) + Format(items[1..])
  }

  function Looks(look: Look, flags: string): Look
    decreases |flags|
  {
    if flags == "" then look else Looks(LookFlag(look, flags[0]), flags[1..])
  }

  function Sizes(size: Size, sizes: string): Size
    decreases |sizes|
  {
    if sizes == "" then size else Sizes(SizeFlag(size, sizes[0]), sizes[1..])
  }

  /** A negative width argument turns the adjustment round. */
  function LookOf(item: Item, args: seq<Value>): Look
    requires item.Directed?
  {
    var left := '-' in item.flags;
    Look('0' in item.flags, if item.width.WidthArg? && Arg(args) < 0 then !left else left,
         '#' in item.flags, '+' in item.flags)
  }

  function WidthOf(width: Width, args: seq<Value>): nat {
    match width
    case Width(n) => n
    case WidthArg => if Arg(args) < 0 then -Arg(args) else Arg(args)
  }

  function AfterWidth(width: Width, args: seq<Value>): seq<Value> {
    if width.WidthArg? then Drop(args) else args
  }

  function PrecisionOf(precision: Precision, args: seq<Value>): int {
    match precision
    case NoPrecision => 0
    case Precision(n) => n
    case PrecisionArg => Arg(args)
  }

  function AfterPrecision(precision: Precision, args: seq<Value>): seq<Value> {
    if precision.PrecisionArg? then Drop(args) else args
  }

  /** What a directive asks for. */
  function Asked(item: Item, args: seq<Value>): Spec
    requires item.Directed?
  {
    Spec(LookOf(item, args), WidthOf(item.width, args), !item.precision.NoPrecision?,
         PrecisionOf(item.precision, AfterWidth(item.width, args)), Sizes(PLAIN_SIZE, item.sizes))
  }

  /** The arguments from the number to print on. */
  function Left(item: Item, args: seq<Value>): seq<Value>
    requires item.Directed?
  {
    AfterPrecision(item.precision, AfterWidth(item.width, args))
  }

  function Output(items: seq<Item>, args: seq<Value>): string {
    if items == [] then ""
    else
      match items[0]
      case Literal(ch) => [ch] + Output(items[1..], args)
      case Percent => "%" + Output(items[1..], args)
      case Directed(_, _, _, _, conv) =>
        OutputOf(conv, Asked(items[0], args), Left(items[0], args)) + Output(items[1..], Rest(conv, Left(items[0], args)))
  }

  lemma {:induction false} ParseLooks(flags: string, rest: string, spec: Spec, args: seq<Value>)
    requires AreFlags(flags) && !spec.dot
    ensures Parse(flags + rest, spec, args) == Parse(rest, spec.(look := Looks(spec.look, flags)), args)
    decreases |flags|
  {
    if flags == "" {
      assert flags + rest == rest;
    } else {
      assert (flags + rest)[0] == flags[0] && (flags + rest)[1..] == flags[1..] + rest;
      ParseLooks(flags[1..], rest, spec.(look := LookFlag(spec.look, flags[0])), args);
    }
  }

  lemma {:induction false} ParseSizes(sizes: string, rest: string, spec: Spec, args: seq<Value>)
    requires AreSizes(sizes)
    ensures Parse(sizes + rest, spec, args) == Parse(rest, spec.(size := Sizes(spec.size, sizes)), args)
    decreases |sizes|
  {
    if sizes == "" {
      assert sizes + rest == rest;
    } else {
      assert (sizes + rest)[0] == sizes[0] && (sizes + rest)[1..] == sizes[1..] + rest;
      ParseSizes(sizes[1..], rest, spec.(size := SizeFlag(spec.size, sizes[0])), args);
    }
  }

  lemma DigitIsDigit(d: nat)
    requires d < 10
    ensures IsDigit(DigitChar(d, false)) && (DigitChar(d, false) == '0' <==> d == 0)
  {
  }

  lemma FirstDigit(n: nat, rest: string)
    ensures var s := Decimal(n) + rest; s != "" && IsDigit(s[0]) && (n > 0 ==> s[0] != '0')
  {
    var ds := Digits(n, 10);
    DigitsReadBack(n, 10);
    DigitIsDigit(ds[0]);
    assert (Decimal(n) + rest)[0] == DigitChar(ds[0], false);
  }

  lemma ParseDigits(fmt: string, spec: Spec, args: seq<Value>)
    requires fmt != "" && IsDigit(fmt[0]) && (fmt[0] == '0' ==> spec.dot)
    ensures Parse(fmt, spec, args) == Parse(SkipDigits(fmt), Counted(spec, Atoi(fmt)), args)
  {
  }

  lemma ParseNumber(n: nat, rest: string, spec: Spec, args: seq<Value>)
    requires Stops(rest, 10) && (n > 0 || spec.dot)
    ensures Parse(Decimal(n) + rest, spec, args) == Parse(rest, Counted(spec, n), args)
  {
    FirstDigit(n, rest);
    ParseDigits(Decimal(n) + rest, spec, args);
    ReadDecimal(n, rest);
  }

  lemma InCons(ch: char, s: string)
    requires s != ""
    ensures ch in s <==> ch == s[0] || ch in s[1..]
  {
    assert s == [s[0]] + s[1..];
  }

  /** Flags set what they name, in any order and however often. */
  lemma {:induction false} LooksMean(look: Look, flags: string)
    requires AreFlags(flags)
    ensures Looks(look, flags) == Look(look.zeroPad || '0' in flags, look.ladjust || '-' in flags,
                                       look.sharp || '#' in flags, look.plus || '+' in flags)
    decreases |flags|
  {
    if flags != "" {
      InCons('0', flags);
      InCons('-', flags);
      InCons('#', flags);
      InCons('+', flags);
      assert IsAttribute(flags[0], false);
      LooksMean(LookFlag(look, flags[0]), flags[1..]);
    }
  }

  lemma StarStep(rest: string, spec: Spec, args: seq<Value>)
    ensures Parse("*" + rest, spec, args) == Parse(rest, Star(spec, Arg(args)), Drop(args))
  {
    assert ("*" + rest)[1..] == rest;
  }

  lemma ParseWidth(item: Item, rest: string, spec: Spec, args: seq<Value>)
    requires item.Directed? && Stops(rest, 10) && !spec.dot && spec.width == 0
    requires spec.look == Look('0' in item.flags, '-' in item.flags, '#' in item.flags, '+' in item.flags)
    ensures Parse(WidthText(item.width) + rest, spec, args)
         == Parse(rest, spec.(look := LookOf(item, args), width := WidthOf(item.width, args)), AfterWidth(item.width, args))
  {
    match item.width
    case WidthArg => StarStep(rest, spec, args);
    case Width(n) =>
      if n == 0 {
        assert WidthText(item.width) + rest == rest;
      } else {
        ParseNumber(n, rest, spec, args);
      }
  }

  lemma DotStep(rest: string, spec: Spec, args: seq<Value>)
    ensures Parse("." + rest, spec, args) == Parse(rest, spec.(dot := true), args)
  {
    assert ("." + rest)[1..] == rest;
  }

  lemma ParseGivenPrecision(n: nat, rest: string, spec: Spec, args: seq<Value>)
    requires Stops(rest, 10)
    ensures Parse(("." + Decimal(n)) + rest, spec, args) == Parse(rest, spec.(dot := true, dwidth := n), args)
  {
    Regroup(".", Decimal(n), rest);
    DotStep(Decimal(n) + rest, spec, args);
    ParseNumber(n, rest, spec.(dot := true), args);
  }

  lemma ParsePrecisionArg(rest: string, spec: Spec, args: seq<Value>)
    ensures Parse(".*" + rest, spec, args) == Parse(rest, spec.(dot := true, dwidth := Arg(args)), Drop(args))
  {
    assert ".*" + rest == "." + ("*" + rest);
    DotStep("*" + rest, spec, args);
    StarStep(rest, spec.(dot := true), args);
  }

  lemma ParsePrecision(precision: Precision, rest: string, spec: Spec, args: seq<Value>)
    requires Stops(rest, 10) && !spec.dot && spec.dwidth == 0
    ensures Parse(PrecisionText(precision) + rest, spec, args)
         == Parse(rest, spec.(dot := !precision.NoPrecision?, dwidth := PrecisionOf(precision, args)),
                  AfterPrecision(precision, args))
  {
    match precision
    case NoPrecision => assert PrecisionText(precision) + rest == rest;
    case Precision(n) => ParseGivenPrecision(n, rest, spec, args);
    case PrecisionArg => ParsePrecisionArg(rest, spec, args);
  }

  lemma WrittenParts(f: string, w: string, p: string, z: string, c: string, rest: string)
    ensures ("%" + (f + (w + (p + (z + c)))))[1..] + rest == f + (w + (p + (z + (c + rest))))
  {
    var all := f + (w + (p + (z + c)));
    assert ("%" + all)[1..] == all;
    assert all + rest == f + (w + (p + (z + (c + rest))));
  }

  /** Scanning a directive finds what it asks for and stops behind it. */
  lemma ParseDirective(item: Item, rest: string, args: seq<Value>)
    requires item.Directed? && IsItem(item)
    ensures Written(item) != "" && Written(item)[0] == '%'
    ensures Parse(Written(item)[1..] + rest, START, args) == Parsed(item.conv, Asked(item, args), rest, Left(item, args))
  {
    var end := [item.conv] + rest;
    var sized := item.sizes + end;
    var precise := PrecisionText(item.precision) + sized;
    var wide := WidthText(item.width) + precise;
    WrittenParts(item.flags, WidthText(item.width), PrecisionText(item.precision), item.sizes, [item.conv], rest);
    SizesStop(item.sizes, end);
    PrecisionStops(item.precision, sized);
    ParseLooks(item.flags, wide, START, args);
    LooksMean(PLAIN_LOOK, item.flags);
    var s1 := START.(look := Looks(PLAIN_LOOK, item.flags));
    ParseWidth(item, precise, s1, args);
    var asked, args' := Asked(item, args), AfterWidth(item.width, args);
    var s2 := s1.(look := asked.look, width := asked.width);
    ParsePrecision(item.precision, sized, s2, args');
    var s3 := s2.(dot := asked.dot, dwidth := asked.dwidth);
    ParseSizes(item.sizes, end, s3, Left(item, args));
    ConversionEnds(item.conv, rest, asked, Left(item, args));
  }

  lemma SizesStop(sizes: string, end: string)
    requires AreSizes(sizes) && end != "" && IsKnown(end[0])
    ensures Stops(sizes + end, 10)
  {
    assert (sizes + end)[0] == if sizes == "" then end[0] else sizes[0];
  }

  lemma PrecisionStops(precision: Precision, end: string)
    requires Stops(end, 10)
    ensures Stops(PrecisionText(precision) + end, 10)
  {
    assert precision.NoPrecision? ==> PrecisionText(precision) + end == end;
  }

  lemma ConversionEnds(conv: char, rest: string, spec: Spec, args: seq<Value>)
    requires IsKnown(conv)
    ensures Parse([conv] + rest, spec, args) == Parsed(conv, spec, rest, args)
  {
    assert ([conv] + rest)[1..] == rest;
  }

  lemma RunConversion(fmt: string, args: seq<Value>, p: Parsed)
    requires fmt != "" && fmt[0] == '%' && p == Parse(fmt[1..], START, args) && p.Parsed? && IsKnown(p.conv)
    requires WellEnded(p.rest, Rest(p.conv, p.args), false)
    ensures WellEnded(fmt, args, false)
    ensures Run(fmt, args, false)
         == OutputOf(p.conv, p.spec, p.args) + Run(p.rest, Rest(p.conv, p.args), false)
  {
    ParseShortens(fmt[1..], START, args);
    assert Conversion(fmt, p) == OutputOf(p.conv, p.spec, p.args);
  }

  lemma RunWritten(w: string, rest: string, args: seq<Value>, p: Parsed)
    requires w != "" && w[0] == '%' && Parse(w[1..] + rest, START, args) == p && p.Parsed? && IsKnown(p.conv)
    requires WellEnded(p.rest, Rest(p.conv, p.args), false)
    ensures WellEnded(w + rest, args, false)
    ensures Run(w + rest, args, false)
         == OutputOf(p.conv, p.spec, p.args) + Run(p.rest, Rest(p.conv, p.args), false)
  {
    assert (w + rest)[0] == '%' && (w + rest)[1..] == w[1..] + rest;
    RunConversion(w + rest, args, p);
  }

  lemma RunDirective(item: Item, rest: string, args: seq<Value>)
    requires item.Directed? && IsItem(item) && WellEnded(rest, Rest(item.conv, Left(item, args)), false)
    ensures WellEnded(Written(item) + rest, args, false)
    ensures Run(Written(item) + rest, args, false)
         == OutputOf(item.conv, Asked(item, args), Left(item, args))
            + Run(rest, Rest(item.conv, Left(item, args)), false)
  {
    RunWritten(Written(item), rest, args, Parsed(item.conv, Asked(item, args), rest, Left(item, args))) by {
      ParseDirective(item, rest, args);
    }
  }

  lemma RunPlain(item: Item, rest: string, args: seq<Value>)
    requires !item.Directed? && IsItem(item) && WellEnded(rest, args, false)
    ensures WellEnded(Written(item) + rest, args, false)
    ensures Run(Written(item) + rest, args, false)
         == (if item.Percent? then "%" else [item.ch]) + Run(rest, args, false)
  {
    var fmt := Written(item) + rest;
    if item.Percent? {
      assert fmt[1..][0] == '%' && fmt[1..][1..] == rest;
      assert Parse(fmt[1..], START, args) == Parsed('%', START, rest, args);
    } else {
      assert fmt[1..] == rest;
    }
  }

  /** For every format made of literal text, percent signs and directives with any
      flags, width, precision and size modifiers, also with widths and precisions taken from the
      arguments, exactly the texts asked for are emitted, each for its own arguments. */
  lemma {:induction false} FormatMeaning(items: seq<Item>, args: seq<Value>)
    requires forall i :: 0 <= i < |items| ==> IsItem(items[i])
    ensures WellEnded(Format(items), args, false)
    ensures Run(Format(items), args, false) == Output(items, args)
    decreases |items|
  {
    if items != [] {
      var item, rest := items[0], items[1..];
      if item.Directed? {
        FormatMeaning(rest, Rest(item.conv, Left(item, args)));
        RunDirective(item, Format(rest), args);
      } else {
        FormatMeaning(rest, args);
        RunPlain(item, Format(rest), args);
      }
    }
  }

  /** A number that fits the size of its directive reads back from what is emitted. */
  lemma OutputReadBack(conv: char, spec: Spec, arg: int)
    requires var m := Modulus(spec); if IsSigned(conv) then 0 - m <= 2 * arg < m else 0 <= arg < m
    ensures Read(NumberOutput(conv, spec, arg), BaseOf(conv)) == arg
  {
    var sign := if IsSigned(conv) && arg < 0 then '-' else SignOf(spec);
    FitsSize(arg, spec, IsSigned(conv));
    LayoutReadBack(DirectiveOf(conv, spec, sign), if arg < 0 then -arg else arg);
  }

  lemma FitsSize(arg: int, spec: Spec, signed: bool)
    requires var m := Modulus(spec); if signed then 0 - m <= 2 * arg < m else 0 <= arg < m
    ensures if signed then Signed(arg, spec) == arg else Unsigned(arg, spec) == arg
  {
    var m := Modulus(spec);
    if arg >= 0 {
      assert arg % m == arg;
    } else {
      assert arg % m == arg + m;
    }
  }
}
