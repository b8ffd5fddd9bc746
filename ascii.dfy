/** Bytes and the US-ASCII encoding of strings (`String.getBytes(US_ASCII)`). */
module Ascii {

  type Byte = b: int | 0 <= b < 256

  /** The field delimiter SOH, byte value 1. */
  const SOH: Byte := 1
  /** The byte of '='. */
  const EQUALS: Byte := 61
  /** The byte of '?', which US-ASCII encoding writes for any character it cannot map. */
  const REPLACEMENT: Byte := 63

  /** The US-ASCII byte of one character. */
  function CharByte(c: char): (b: Byte)
    ensures b < 128
    ensures c as int < 128 ==> b == c as int
    ensures 128 <= c as int ==> b == REPLACEMENT
  {
    if c as int < 128 then c as int else REPLACEMENT
  }

  /** One byte per character. */
  function AsciiBytes(s: string): seq<Byte> {
    seq(|s|, i requires 0 <= i < |s| => CharByte(s[i]))
  }

  /** Bytes a signed Java `byte` reads as the same non-negative value. */
  predicate SevenBit(bs: seq<Byte>) {
    forall i :: 0 <= i < |bs| ==> bs[i] < 128
  }

  /** US-ASCII encoding writes only seven-bit bytes, whatever the text. */
  lemma AsciiBytesSevenBit(s: string)
    ensures SevenBit(AsciiBytes(s))
  {
  }

  lemma SevenBitConcat(a: seq<Byte>, b: seq<Byte>)
    requires SevenBit(a) && SevenBit(b)
    ensures SevenBit(a + b)
  {
    forall i | 0 <= i < |a + b|
      ensures (a + b)[i] < 128
    {
      if i >= |a| {
        assert (a + b)[i] == b[i - |a|];
      }
    }
  }
}
