/** The character-decoder capability shared by every decoder: the byte type,
    the control-code ranges, the encodings a tokenizer can be asked for, and
    the abstract shape of one decoding step. */
module Decoding {
  import opened Tokens

  /** An input byte (`uint8_t`), as its value 0..255. */
  type Byte = x: int | 0 <= x < 256

  /** U+FFFD REPLACEMENT CHARACTER, emitted for bytes that cannot be decoded. */
  const CodepointReplacement: Token := 0xFFFD

  /** Bytes 0..31: the codes the C0 table names. */
  predicate IsC0ControlCode(b: Byte): (r: bool)
    ensures r <==> b < |C0Names|
    ensures r ==> ControlToken(b) == C0Names[b]
  {
    b <= 31
  }

  /** Bytes 128..159 (8-bit C1 control codes): the codes the C1 table names,
      none of them a C0 code. */
  predicate IsC1ControlCode(b: Byte): (r: bool)
    ensures r <==> 128 <= b < 128 + |C1Names|
    ensures r ==> !IsC0ControlCode(b) && ControlToken(b) == C1Names[b - 128]
  {
    b >= 128 && b <= 159
  }

  /** A C0 or a C1 code: exactly the bytes that have a control token. */
  predicate IsControlCode(b: Byte): (r: bool)
    ensures r <==> b <= 31 || 128 <= b <= 159
  {
    IsC0ControlCode(b) || IsC1ControlCode(b)
  }

  /** The two ranges are disjoint, their union is the control codes, and on
      them the control-token encoding applies. */
  lemma ControlCodeRanges(b: Byte)
    ensures IsC0ControlCode(b) <==> 0 <= b <= 31
    ensures IsC1ControlCode(b) <==> 128 <= b <= 159
    ensures !(IsC0ControlCode(b) && IsC1ControlCode(b))
    ensures IsControlCode(b) <==> b <= 31 || 128 <= b <= 159
    ensures !IsControlCode(b) <==> 32 <= b <= 127 || 160 <= b <= 255
  {
  }

  /** The character encodings a tokenizer can be configured for. */
  datatype CharacterEncoding = ASCII | UTF8

  /** What one call of a decoder's byte-processing operation produces: the
      decoder's new state, whether it accepted the byte (a declined byte is
      left to the caller's control-code handling) and the tokens it appended,
      in order. */
  datatype DecodeResult<D> = DecodeResult(state: D, accepted: bool, tokens: seq<Token>)

  /** A character decoder as a value: its current state and its step. */
  datatype Decoder<!D> = Decoder(state: D, process: (D, Byte) -> DecodeResult<D>)
}
