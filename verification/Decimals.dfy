/**
 Decimal numbers inside a text: printing one, reading one with `atoi`, skipping one.
 */
module Decimals {
  import opened VprintfNumber
  import opened VprintfLayout

  /** What "%d" prints for a number that is not negative. */
  function Decimal(n: nat): string {
    NumberText(n, 10, false)
  }

  /** `atoi` of a text that starts with a digit. */
  function Atoi(s: string): nat {
    ReadNat(s, 10, 0)
  }

  function SkipDigits(s: string): (t: string)
    ensures |t| <= |s| && (s != "" && CharValue(s[0]) < 10 ==> |t| < |s|) && Stops(t, 10)
  {
    if s != "" && CharValue(s[0]) < 10 then SkipDigits(s[1..]) else s
  }

  lemma {:induction false} SkipText(ds: seq<nat>, tail: string)
    requires AreDigits(ds, 10) && Stops(tail, 10)
    ensures SkipDigits(Text(ds, false) + tail) == tail
    decreases |ds|
  {
    var s := Text(ds, false) + tail;
    if ds == [] {
      assert s == tail;
    } else {
      CharRoundTrip(ds[0], false);
      assert s[1..] == Text(ds[1..], false) + tail;
      SkipText(ds[1..], tail);
    }
  }

  lemma ReadDecimal(n: nat, tail: string)
    requires Stops(tail, 10)
    ensures Atoi(Decimal(n) + tail) == n && SkipDigits(Decimal(n) + tail) == tail
  {
    ReadText(Digits(n, 10), false, tail, 10, 0);
    DigitsReadBack(n, 10);
    SkipText(Digits(n, 10), tail);
  }
}
