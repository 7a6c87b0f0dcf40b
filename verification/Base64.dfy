/**
 Base64 and base64url (sections 4 and 5 of RFC 4648): the streaming encoder with word breaks
 and the decoder that takes one character at a time and writes into a bounded buffer.
 */
module Base64 {

  type Byte = bv8

  datatype Alphabet = Standard | Url

  /** The character for a 6-bit value. */
  function Encoding(alphabet: Alphabet, s: bv8): (c: Byte)
    requires s < 64
  {
    if s < 26 then 65 + s          // 'A'..'Z'
    else if s < 52 then 71 + s     // 'a'..'z'
    else if s < 62 then s - 4      // '0'..'9'
    else if s == 62 then (if alphabet.Standard? then 43 else 45)  // '+' or '-'
    else (if alphabet.Standard? then 47 else 95)                  // '/' or '_'
  }

  datatype Class = Symbol(value: bv8) | Space | Pad | Invalid

  /** What the decoding table says about a character; it accepts both alphabets. */
  function Decoding(c: Byte): Class {
    if 65 <= c <= 90 then Symbol(c - 65)
    else if 97 <= c <= 122 then Symbol(c - 71)
    else if 48 <= c <= 57 then Symbol(c + 4)
    else if c == 43 || c == 45 then Symbol(62)
    else if c == 47 || c == 95 then Symbol(63)
    else if c == 61 then Pad
    else if c == 32 || (9 <= c <= 13) then Space
    else Invalid
  }

  const EQUALS: Byte := 61

  lemma DecodingInverts(alphabet: Alphabet, s: bv8)
    requires s < 64
    ensures Decoding(Encoding(alphabet, s)) == Symbol(s)
  {
  }

  // ---------------------------------------------------------------- the decoder

  datatype Status = Success | Overflow | InvalidInput

  /** The decoder control and the buffer it writes into. */
  datatype Control = Control(state: nat, target: nat, end: nat, buffer: seq<Byte>)

  datatype Outcome = Outcome(control: Control, status: Status)

  predicate Wellformed(c: Control) {
    c.state < 4 && c.target <= c.end <= |c.buffer|
  }

  function Put(c: Control, b: Byte): Control
    requires c.target < |c.buffer|
  {
    c.(buffer := c.buffer[c.target := b])
  }

  // The pieces of a 6-bit value that go into two neighbouring octets.

  function Join(a: bv8, b: bv8): bv8 { a | b }

  function Upper6(s: bv8): bv8 { s << 2 }
  function Lower2(s: bv8): bv8 { s >> 4 }
  function Upper4(s: bv8): bv8 { (s & 0xF) << 4 }
  function Lower4(s: bv8): bv8 { s >> 2 }
  function Upper2(s: bv8): bv8 { (s & 0x3) << 6 }

  /** States 1 and 2: complete the byte, carry the remaining bits into the next one. */
  function Finish(c: Control, high: bv8, carry: bv8): Outcome
    requires Wellformed(c) && c.target < c.end
  {
    var c' := Put(c, Join(c.buffer[c.target], high));
    if c.target + 1 != c.end then
      Outcome(Put(c'.(target := c.target + 1), carry).(state := c.state + 1), Success)
    else if carry != 0 then Outcome(c', Overflow)
    else Outcome(c'.(target := c.target + 1, state := c.state + 1), Success)
  }

  /** One 6-bit value. */
  function DecodeSymbol(c: Control, s: bv8): Outcome
    requires Wellformed(c)
  {
    if c.target == c.end then Outcome(c, Overflow)
    else
      match c.state
      case 0 => Outcome(Put(c, Upper6(s)).(state := 1), Success)
      case 1 => Finish(c, Lower2(s), Upper4(s))
      case 2 => Finish(c, Lower4(s), Upper2(s))
      case _ => Outcome(Put(c, Join(c.buffer[c.target], s)).(target := c.target + 1, state := 0), Success)
  }

  /** One character of the given class. */
  function DecodeClass(c: Control, k: Class): Outcome
    requires Wellformed(c)
  {
    match k
    case Invalid => Outcome(c, InvalidInput)
    case Space => Outcome(c, Success)
    case Pad => Outcome(c.(end := c.target), Success)
    case Symbol(s) => DecodeSymbol(c, s)
  }

  class Decoder {
    var state: nat
    var target: nat
    var targetEnd: nat
    const area: array<Byte>

    ghost predicate Valid()
      reads this
    {
      state < 4 && target <= targetEnd <= area.Length
    }

    ghost function Snapshot(): Control
      reads this, area
    {
      Control(state, target, targetEnd, area[..])
    }

    constructor (area: array<Byte>)
      ensures Valid() && this.area == area
      ensures Snapshot() == Control(0, 0, area.Length, area[..])
    {
      this.area := area;
      state, target, targetEnd := 0, 0, area.Length;
    }

    method Decode(ch: Byte) returns (status: Status)
      requires Valid()
      modifies this, area
      ensures Valid()
      ensures Outcome(Snapshot(), status) == DecodeClass(old(Snapshot()), Decoding(ch))
    {
      if ch >= 128 {
        return InvalidInput;
      }
      var decoded := Decoding(ch);
      match decoded {
        case Invalid => return InvalidInput;
        case Space => return Success;
        case Pad => targetEnd := target; return Success;
        case Symbol(s) =>
          if target == targetEnd {
            return Overflow;
          }
          if state == 0 {
            area[target] := Upper6(s);
            state := 1;
          } else if state == 3 {
            area[target] := Join(area[target], s);
            target := target + 1;
            state := 0;
          } else {
            var high, next := if state == 1 then Lower2(s) else Lower4(s), if state == 1 then Upper4(s) else Upper2(s);
            area[target] := Join(area[target], high);
            if target + 1 != targetEnd {
              area[target + 1] := next;
            } else if next != 0 {
              return Overflow;
            }
            target, state := target + 1, state + 1;
          }
          return Success;
      }
    }
  }
}
