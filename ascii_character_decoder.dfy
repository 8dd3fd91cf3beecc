/** The trivial ASCII decoder: every byte becomes exactly one token, the byte
    itself for 0x00..0x7F and U+FFFD for every byte from 0x80 up. It keeps no
    state. */
module Ascii {
  import opened Tokens
  import opened Decoding
  import Utf8

  /** The one token the ASCII decoder appends for `b`. */
  function DecodeByte(b: Byte): (t: Token)
    ensures b <= 0x7F ==> t == b
    ensures 0x80 <= b ==> t == CodepointReplacement
    ensures Utf8.IsScalarValue(t)
  {
    if b <= 0x7F then b else CodepointReplacement
  }

  /** Bytes 0x00..0x7F decode the same under ASCII and under UTF-8 from an
      empty decoder; every other byte is a replacement under ASCII. */
  lemma AsciiAgreesWithUtf8(b: Byte)
    ensures b <= 0x7F <==> Utf8.Step(Utf8.Initial, b).tokens == [DecodeByte(b)] && DecodeByte(b) != CodepointReplacement
    ensures b <= 0x7F ==> Utf8.IsEmpty(Utf8.Step(Utf8.Initial, b).state)
  {
  }

  /** Only a C0 byte decodes to a C0-range codepoint, and no byte decodes to
      a C1-range codepoint (128..159). */
  lemma AsciiOutputRanges(b: Byte)
    ensures 0 <= DecodeByte(b) <= 31 <==> IsC0ControlCode(b)
    ensures !(128 <= DecodeByte(b) <= 159)
  {
  }

  /** The decoder object. It has no fields. */
  class AsciiCharacterDecoder {
    constructor ()
    {
    }

    /** The encoding leaves bytes 128..159 free for 8-bit C1 control codes. */
    function Supports8bitC1(): (r: bool)
      ensures r
    {
      true
    }

    /** Appends exactly one token: the byte for 0x00..0x7F, U+FFFD otherwise. */
    method ProcessByte(b: Byte, output: seq<Token>) returns (result: seq<Token>)
      ensures |result| == |output| + 1 && result[..|output|] == output
      ensures result[|output|] == DecodeByte(b)
    {
      if b <= 0x7F {
        result := output + [b];
      } else {
        result := output + [CodepointReplacement];
      }
    }

    /** Nothing is buffered, so nothing is appended. */
    method Flush(output: seq<Token>) returns (result: seq<Token>)
      ensures result == output
    {
      result := output;
    }
  }
}
