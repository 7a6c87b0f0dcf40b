/**
 The conversions of the kernel printf that emit text: `c`, `s` and the hexadecimal dump `D`.
 */
module VprintfText {
  import opened VprintfNumber
  import opened VprintfLayout

  /** The text in its field: padded on the left or on the right, never cut. */
  function Padded(text: string, width: int, ladjust: bool, padc: char): string {
    var pad := Repeat(padc, Max(0, width - |text|));
    if ladjust then text + pad else pad + text
  }

  /** A field is as long as its text, and at least as long as the width. */
  lemma PaddedLength(text: string, width: int, ladjust: bool, padc: char)
    ensures |Padded(text, width, ladjust, padc)| == Max(width, |text|)
  {
  }

  /** How much of a string is emitted: all of it, or as much as the precision allows. */
  function Cut(s: string, dot: bool, dwidth: int): string {
    if dot && dwidth < |s| then s[..Max(0, dwidth)] else s
  }

  method PutText(text: string, width: int, ladjust: bool, padc: char) returns (out: string, retval: int)
    ensures out == Padded(text, width, ladjust, padc) && retval == |out|
  {
    var left := width - |text|;
    out, retval := "", 0;
    if !ladjust && left > 0 {
      out, retval := PutRepeated(out, retval, padc, left);
    }
    var n := 0;
    ghost var before := out;
    while n < |text|
      invariant 0 <= n <= |text| && out == before + text[..n] && retval == |out|
    {
      out, retval, n := out + [text[n]], retval + 1, n + 1;
    }
    if ladjust && left > 0 {
      out, retval := PutRepeated(out, retval, padc, left);
    }
  }

  /** The loop that measures how much of a string the precision allows. */
  method Measure(s: string, dot: bool, dwidth: int) returns (n: nat)
    ensures n == |Cut(s, dot, dwidth)|
  {
    if !dot {
      return |s|;
    }
    n := 0;
    while n < dwidth && n < |s|
      invariant n <= |s| && (n > 0 ==> n <= dwidth)
    {
      n := n + 1;
    }
  }

  method PutString(s: string, dot: bool, dwidth: int, width: int, ladjust: bool, padc: char) returns (out: string, retval: int)
    ensures out == Padded(Cut(s, dot, dwidth), width, ladjust, padc) && retval == |out|
  {
    var n := Measure(s, dot, dwidth);
    assert s[..n] == Cut(s, dot, dwidth);
    out, retval := PutText(s[..n], width, ladjust, padc);
  }

  // ---------------------------------------------------------------- the dump

  function HexDigits(b: bv8): string {
    [DigitChar((b >> 4) as nat, false), DigitChar((b & 0x0F) as nat, false)]
  }

  /** Octets in hexadecimal with a delimiter between them. */
  function Dump(bytes: seq<bv8>, delimiter: string): string {
    if bytes == [] then ""
    else HexDigits(bytes[0]) + if |bytes| == 1 then "" else delimiter + Dump(bytes[1..], delimiter)
  }

  /** A dump without a width has sixteen octets. */
  function DumpSize(width: nat): nat { if width == 0 then 16 else width }

  lemma DumpStep(out: string, bytes: seq<bv8>, delimiter: string)
    requires bytes != []
    ensures out + Dump(bytes, delimiter) ==
            ((out + HexDigits(bytes[0])) + (if |bytes| == 1 then "" else delimiter)) + Dump(bytes[1..], delimiter)
  {
  }

  method PutDump(bytes: seq<bv8>, delimiter: string) returns (out: string, retval: int)
    ensures out == Dump(bytes, delimiter) && retval == |out|
  {
    var up := bytes;
    out, retval := "", 0;
    while up != []
      invariant out + Dump(up, delimiter) == Dump(bytes, delimiter) && retval == |out|
      decreases |up|
    {
      DumpStep(out, up, delimiter);
      out, retval := out + HexDigits(up[0]), retval + 2;
      up := up[1..];
      if up != [] {
        out, retval := out + delimiter, retval + |delimiter|;
      }
    }
  }

  /** The value of two hexadecimal digits is the octet. */
  lemma HexDigitsReadBack(b: bv8)
    ensures Shift(CharValue(HexDigits(b)[0]), 16, CharValue(HexDigits(b)[1])) == b as nat
  {
    CharRoundTrip((b >> 4) as nat, false);
    CharRoundTrip((b & 0x0F) as nat, false);
    Nibbles(b);
  }

  lemma Nibbles(b: bv8)
    ensures 16 * ((b >> 4) as nat) + (b & 0x0F) as nat == b as nat
  {
  }
}
