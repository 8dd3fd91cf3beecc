/** The tokenizer: bytes in, tokens out. Each byte goes to the character
    decoder unless it completes a 7-bit C1 escape "ESC c"; a byte the decoder
    declines is read as a control code. */
module Tokenization {
  import opened Tokens
  import opened Decoding
  import Utf8
  import Ascii

  /** What one byte does to a tokenizer: the decoder afterwards, whether an
      ESC is pending, and the tokens appended. */
  datatype TokenizeResult<!D> = TokenizeResult(decoder: Decoder<D>, gotEsc: bool, tokens: seq<Token>)

  /** A byte processed with no ESC pending: the decoder runs first (it may
      append tokens even when it declines the byte); a declined ESC becomes
      pending, a declined C0 code and, when 8-bit C1 codes are accepted, a
      declined C1 code become control tokens, and anything else declined is
      dropped. */
  function ProcessPlain<D>(dec: Decoder<D>, accept8bitC1: bool, b: Byte): (r: TokenizeResult<D>)
    ensures r.decoder == dec.(state := dec.process(dec.state, b).state)
    ensures r.gotEsc ==> b == 27
    ensures |dec.process(dec.state, b).tokens| <= |r.tokens| <= |dec.process(dec.state, b).tokens| + 1
    ensures r.tokens[..|dec.process(dec.state, b).tokens|] == dec.process(dec.state, b).tokens
  {
    var d := dec.process(dec.state, b);
    var next := dec.(state := d.state);
    if d.accepted then
      TokenizeResult(next, false, d.tokens)
    else if IsControlCode(b) && b == 27 then
      TokenizeResult(next, true, d.tokens)
    else if IsControlCode(b) && (IsC0ControlCode(b) || (accept8bitC1 && IsC1ControlCode(b))) then
      TokenizeResult(next, false, d.tokens + [ControlToken(b)])
    else
      TokenizeResult(next, false, d.tokens)
  }

  /** One byte, with `gotEsc` telling whether the previous byte was a pending
      ESC: "ESC c" with c in 64..95 is the C1 code c + 64 and bypasses the
      decoder; after any other byte the ESC is emitted on its own and the
      byte is processed as usual. */
  function TokenizeByte<D>(dec: Decoder<D>, accept8bitC1: bool, gotEsc: bool, b: Byte): (r: TokenizeResult<D>)
    ensures gotEsc && 64 <= b <= 95 ==> r.decoder == dec && !r.gotEsc
    ensures gotEsc && !(64 <= b <= 95) ==> |r.tokens| >= 1 && r.tokens[0] == ESC
    ensures |r.tokens| <= (if gotEsc then 1 else 0) + |dec.process(dec.state, b).tokens| + 1
  {
    if gotEsc && 64 <= b <= 95 then
      TokenizeResult(dec, false, [EscapedC1Token(b)])
    else
      var p := ProcessPlain(dec, accept8bitC1, b);
      if gotEsc then p.(tokens := [ESC] + p.tokens) else p
  }

  /** The tokenizer's fields, updated in place. */
  class Tokenizer<!D> {
    /** Are 8-bit C1 control codes (bytes 128..159) turned into tokens? */
    var accept8bitC1: bool
    var characterDecoder: Decoder<D>
    /** Was the last byte an ESC still waiting for its successor? */
    var gotEsc: bool

    /** A fresh tokenizer has no ESC pending. */
    constructor (accept8bitC1: bool, characterDecoder: Decoder<D>)
      ensures this.accept8bitC1 == accept8bitC1
      ensures this.characterDecoder == characterDecoder
      ensures !gotEsc
    {
      this.accept8bitC1 := accept8bitC1;
      this.characterDecoder := characterDecoder;
      gotEsc := false;
    }

    /** Appends the tokens for one byte. */
    method ProcessByte(b: Byte, output: seq<Token>) returns (result: seq<Token>)
      modifies this
      ensures var r := TokenizeByte(old(characterDecoder), old(accept8bitC1), old(gotEsc), b);
              result == output + r.tokens && characterDecoder == r.decoder && gotEsc == r.gotEsc
      ensures accept8bitC1 == old(accept8bitC1)
    {
      result := output;
      if gotEsc {
        gotEsc := false;
        if 64 <= b <= 95 {
          result := result + [EscapedC1Token(b)];
          return;
        }
        result := result + [ESC];
      }

      var d := characterDecoder.process(characterDecoder.state, b);
      characterDecoder := characterDecoder.(state := d.state);
      result := result + d.tokens;
      if d.accepted {
        return;
      }

      if IsControlCode(b) {
        if b == 27 {
          gotEsc := true;
          return;
        }
        if IsC0ControlCode(b) || (accept8bitC1 && IsC1ControlCode(b)) {
          result := result + [ControlToken(b)];
          return;
        }
      }
      // Anything else the decoder declined is dropped.
    }

    function Accept8bitC1(): (a: bool)
      reads this
      ensures a == accept8bitC1
    {
      accept8bitC1
    }

    /** Changes the flag and nothing else. */
    method SetAccept8bitC1(accept8bitC1: bool)
      modifies this
      ensures this.accept8bitC1 == accept8bitC1
      ensures characterDecoder == old(characterDecoder) && gotEsc == old(gotEsc)
    {
      this.accept8bitC1 := accept8bitC1;
    }

    function CharacterDecoder(): (d: Decoder<D>)
      reads this
      ensures d == characterDecoder
    {
      characterDecoder
    }

    /** Installs a new decoder and hands back the previous one; the flag and
        a pending ESC are kept. */
    method SetCharacterDecoder(characterDecoder: Decoder<D>) returns (previous: Decoder<D>)
      modifies this
      ensures previous == old(this.characterDecoder)
      ensures this.characterDecoder == characterDecoder
      ensures accept8bitC1 == old(accept8bitC1) && gotEsc == old(gotEsc)
    {
      previous := this.characterDecoder;
      this.characterDecoder := characterDecoder;
    }
  }

  // ---------------------------------------------------------------------
  // The standard decoders as tokenizer decoders.

  type Utf8DecoderState = s: Utf8.State | Utf8.ValidState(s) witness Utf8.Initial

  /** The state of one of the two decoders an encoding selects. */
  datatype StandardState = AsciiDecoding | Utf8Decoding(utf8: Utf8DecoderState)

  /** The decoders' byte step. Both append their tokens and take every byte,
      so `accepted` is always true. */
  function StandardProcess(st: StandardState, b: Byte): (r: DecodeResult<StandardState>)
    ensures r.accepted
    ensures st.AsciiDecoding? <==> r.state.AsciiDecoding?
    ensures 1 <= |r.tokens| || st.Utf8Decoding?
    ensures |r.tokens| <= 4
  {
    match st
    case AsciiDecoding => DecodeResult(AsciiDecoding, true, [Ascii.DecodeByte(b)])
    case Utf8Decoding(s) =>
      var o := Utf8.Step(s, b);
      DecodeResult(Utf8Decoding(o.state), true, o.tokens)
  }

  /** The decoder for an encoding, freshly constructed. */
  function Create(e: CharacterEncoding): (d: Decoder<StandardState>)
    ensures d.process == StandardProcess
    ensures e == ASCII <==> d.state == AsciiDecoding
    ensures e == UTF8 <==> d.state == Utf8Decoding(Utf8.Initial)
  {
    match e
    case ASCII => Decoder(AsciiDecoding, StandardProcess)
    case UTF8 => Decoder(Utf8Decoding(Utf8.Initial), StandardProcess)
  }

  /** A tokenizer for an encoding. */
  method NewTokenizerForEncoding(accept8bitC1: bool, e: CharacterEncoding) returns (t: Tokenizer<StandardState>)
    ensures fresh(t)
    ensures t.accept8bitC1 == accept8bitC1 && t.characterDecoder == Create(e) && !t.gotEsc
  {
    t := new Tokenizer(accept8bitC1, Create(e));
  }

  /** Replaces the decoder with a fresh one for `e`. The old decoder is
      dropped as it is: nothing it had buffered is flushed. */
  method SetCharacterEncoding(t: Tokenizer<StandardState>, e: CharacterEncoding)
    modifies t
    ensures t.characterDecoder == Create(e)
    ensures t.accept8bitC1 == old(t.accept8bitC1) && t.gotEsc == old(t.gotEsc)
  {
    var _ := t.SetCharacterDecoder(Create(e));
  }
}
