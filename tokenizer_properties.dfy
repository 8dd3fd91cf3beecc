/** Properties of the tokenizer's byte step: the ESC machine, the control-code
    fallback, the output bound, and the tokenizer test scenarios run against a
    decoder that takes exactly the printable ASCII bytes. */
module TokenizerProperties {
  import opened Tokens
  import opened Decoding
  import opened Tokenization
  import Utf8
  import Ascii

  // ---------------------------------------------------------------------
  // The ESC machine, for every decoder.

  /** "ESC c" with c in 64..95 emits exactly the C1 token -c-64, leaves the
      decoder untouched and clears the pending ESC. */
  lemma EscapedC1<D>(dec: Decoder<D>, accept8bitC1: bool, c: Byte)
    requires 64 <= c <= 95
    ensures TokenizeByte(dec, accept8bitC1, true, c) == TokenizeResult(dec, false, [EscapedC1Token(c)])
    ensures TokenizeByte(dec, accept8bitC1, true, c).tokens == [ControlToken(c + 64)]
  {
  }

  /** After a pending ESC, any byte outside 64..95 emits ESC and then exactly
      what the byte does with no ESC pending. */
  lemma EscapeThenOther<D>(dec: Decoder<D>, accept8bitC1: bool, b: Byte)
    requires !(64 <= b <= 95)
    ensures var p := TokenizeByte(dec, accept8bitC1, false, b);
            TokenizeByte(dec, accept8bitC1, true, b) == p.(tokens := [ESC] + p.tokens)
  {
  }

  /** After any byte, an ESC is pending exactly when the byte was an ESC that
      the decoder declined (and no ESC was pending before it, since a pending
      ESC followed by ESC emits the first and keeps the second). */
  lemma PendingEscape<D>(dec: Decoder<D>, accept8bitC1: bool, gotEsc: bool, b: Byte)
    ensures TokenizeByte(dec, accept8bitC1, gotEsc, b).gotEsc <==>
              b == 27 && !dec.process(dec.state, b).accepted
  {
  }

  /** A declined ESC emits whatever the decoder appended, and nothing else. */
  lemma DeclinedEscape<D>(dec: Decoder<D>, accept8bitC1: bool, gotEsc: bool)
    requires !dec.process(dec.state, 27).accepted
    ensures var d := dec.process(dec.state, 27);
            TokenizeByte(dec, accept8bitC1, gotEsc, 27).tokens ==
              (if gotEsc then [ESC] else []) + d.tokens
  {
  }

  // ---------------------------------------------------------------------
  // The control-code fallback, for every decoder.

  /** A byte the decoder accepts yields exactly the decoder's tokens, with no
      control token added. */
  lemma AcceptedByte<D>(dec: Decoder<D>, accept8bitC1: bool, b: Byte)
    requires dec.process(dec.state, b).accepted
    ensures var d := dec.process(dec.state, b);
            TokenizeByte(dec, accept8bitC1, false, b) == TokenizeResult(dec.(state := d.state), false, d.tokens)
  {
  }

  /** A declined C0 byte other than ESC is followed by its control token,
      whatever the 8-bit C1 setting. */
  lemma DeclinedC0<D>(dec: Decoder<D>, accept8bitC1: bool, b: Byte)
    requires !dec.process(dec.state, b).accepted && IsC0ControlCode(b) && b != 27
    ensures var d := dec.process(dec.state, b);
            TokenizeByte(dec, accept8bitC1, false, b) ==
              TokenizeResult(dec.(state := d.state), false, d.tokens + [ControlToken(b)])
  {
  }

  /** A declined 8-bit C1 byte is followed by its control token exactly when
      8-bit C1 codes are accepted. */
  lemma DeclinedC1<D>(dec: Decoder<D>, accept8bitC1: bool, b: Byte)
    requires !dec.process(dec.state, b).accepted && IsC1ControlCode(b)
    ensures var d := dec.process(dec.state, b);
            TokenizeByte(dec, accept8bitC1, false, b) ==
              TokenizeResult(dec.(state := d.state), false, d.tokens + (if accept8bitC1 then [ControlToken(b)] else []))
  {
  }

  /** A declined byte that is no control code adds nothing to what the
      decoder appended. */
  lemma DeclinedNonControl<D>(dec: Decoder<D>, accept8bitC1: bool, b: Byte)
    requires !dec.process(dec.state, b).accepted && !IsControlCode(b)
    ensures var d := dec.process(dec.state, b);
            TokenizeByte(dec, accept8bitC1, false, b) == TokenizeResult(dec.(state := d.state), false, d.tokens)
  {
  }

  /** A control token is added only for a declined byte, and then it is the
      byte's own token. */
  lemma ControlTokenOnlyWhenDeclined<D>(dec: Decoder<D>, accept8bitC1: bool, b: Byte)
    ensures var d := dec.process(dec.state, b);
            var r := TokenizeByte(dec, accept8bitC1, false, b);
            |r.tokens| > |d.tokens| ==>
              !d.accepted && IsControlCode(b) && b != 27 && r.tokens == d.tokens + [ControlToken(b)]
  {
  }

  // ---------------------------------------------------------------------
  // The output bound.

  /** With the standard decoders and no ESC pending, one byte yields at most
      four tokens and never leaves an ESC pending, however the tokenizer is
      configured. */
  lemma StandardOutputBound(st: StandardState, accept8bitC1: bool, b: Byte)
    ensures |TokenizeByte(Decoder(st, StandardProcess), accept8bitC1, false, b).tokens| <= 4
    ensures !TokenizeByte(Decoder(st, StandardProcess), accept8bitC1, false, b).gotEsc
  {
  }

  /** A pending ESC adds one token to that bound: with ESC pending and a
      UTF-8 decoder holding three bytes of F4 82 8D, the byte F8 yields five
      tokens. */
  lemma PendingEscapeExceedsFour(accept8bitC1: bool)
    ensures var dec := Decoder(Utf8Decoding(Utf8.State(4, 3, 0x102340)), StandardProcess);
            TokenizeByte(dec, accept8bitC1, true, 0xF8).tokens ==
              [ESC, CodepointReplacement, CodepointReplacement, CodepointReplacement, CodepointReplacement]
  {
    assert Utf8.Step(Utf8.State(4, 3, 0x102340), 0xF8).tokens == [CodepointReplacement, CodepointReplacement, CodepointReplacement, CodepointReplacement];
  }

  // ---------------------------------------------------------------------
  // The standard ASCII decoder as written takes every byte.

  /** With the ASCII decoder every byte is taken and yields its one ASCII
      token, so no control token is ever produced and no ESC becomes
      pending: 27 comes out as the codepoint 27. */
  lemma StandardAsciiTakesEveryByte(accept8bitC1: bool, gotEsc: bool, b: Byte)
    requires !(gotEsc && 64 <= b <= 95)
    ensures var r := TokenizeByte(Create(ASCII), accept8bitC1, gotEsc, b);
            r.tokens == (if gotEsc then [ESC] else []) + [Ascii.DecodeByte(b)] &&
            !r.gotEsc && r.decoder == Create(ASCII)
  {
  }

  /** The same holds for both standard decoders: every byte is taken, so the
      tokenizer adds no control token and no ESC becomes pending; the output
      is a pending ESC's `TOKEN_ESC` followed by the decoder's own tokens. */
  lemma StandardDecodersTakeEveryByte(st: StandardState, accept8bitC1: bool, gotEsc: bool, b: Byte)
    requires !(gotEsc && 64 <= b <= 95)
    ensures var d := StandardProcess(st, b);
            TokenizeByte(Decoder(st, StandardProcess), accept8bitC1, gotEsc, b) ==
              TokenizeResult(Decoder(d.state, StandardProcess), false, (if gotEsc then [ESC] else []) + d.tokens)
  {
  }

  /** With a fresh UTF-8 decoder, ESC comes out as the codepoint 27 rather
      than becoming pending. */
  lemma Utf8EscapeIsCodepoint(accept8bitC1: bool)
    ensures TokenizeByte(Create(UTF8), accept8bitC1, false, 27) == TokenizeResult(Create(UTF8), false, [27])
  {
    assert Utf8.Step(Utf8.Initial, 27) == Utf8.Output(Utf8.Initial, [27]);
  }

  /** With the standard decoders every token lies in -159..0x10FFFF: a
      `TOKEN_ESC`, a C1 token from "ESC c", or a scalar value. */
  lemma StandardTokenRange(st: StandardState, accept8bitC1: bool, gotEsc: bool, b: Byte)
    ensures var r := TokenizeByte(Decoder(st, StandardProcess), accept8bitC1, gotEsc, b);
            forall i :: 0 <= i < |r.tokens| ==> -159 <= r.tokens[i] <= 0x10FFFF
  {
    if !(gotEsc && 64 <= b <= 95) {
      StandardDecodersTakeEveryByte(st, accept8bitC1, gotEsc, b);
    }
  }

  // ---------------------------------------------------------------------
  // The tokenizer test scenarios. They use a decoder that takes exactly the
  // printable ASCII bytes 32..127, each as its own codepoint, and declines
  // every other byte without output.

  datatype Stateless = Stateless

  function PrintableProcess(st: Stateless, b: Byte): (r: DecodeResult<Stateless>)
    ensures r.accepted <==> 32 <= b <= 127
  {
    if 32 <= b <= 127 then DecodeResult(st, true, [b]) else DecodeResult(st, false, [])
  }

  const Printable: Decoder<Stateless> := Decoder(Stateless, PrintableProcess)

  /** 32..127 come out as themselves, whatever the 8-bit C1 setting. */
  lemma ScenarioNonControl(accept8bitC1: bool, c: Byte)
    requires 32 <= c <= 127
    ensures TokenizeByte(Printable, accept8bitC1, false, c) == TokenizeResult(Printable, false, [c])
  {
  }

  /** C0 bytes other than ESC come out as their control tokens. */
  lemma ScenarioC0NonEscape(accept8bitC1: bool, c: Byte)
    requires c <= 31 && c != 27
    ensures TokenizeByte(Printable, accept8bitC1, false, c) == TokenizeResult(Printable, false, [ControlToken(c)])
  {
  }

  /** 160..255 are dropped. */
  lemma ScenarioInvalidNonC1(accept8bitC1: bool, c: Byte)
    requires 160 <= c
    ensures TokenizeByte(Printable, accept8bitC1, false, c) == TokenizeResult(Printable, false, [])
  {
  }

  /** 128..159 come out as C1 tokens only when they are accepted. */
  lemma Scenario8bitC1(accept8bitC1: bool, c: Byte)
    requires 128 <= c <= 159
    ensures TokenizeByte(Printable, accept8bitC1, false, c).tokens == (if accept8bitC1 then [ControlToken(c)] else [])
  {
  }

  /** ESC emits nothing and becomes pending. */
  lemma ScenarioEscape(accept8bitC1: bool)
    ensures TokenizeByte(Printable, accept8bitC1, false, 27) == TokenizeResult(Printable, true, [])
  {
  }

  /** ESC c, c in 64..95: nothing, then the C1 token -c-64. */
  lemma ScenarioEscapeSequence(accept8bitC1: bool, c: Byte)
    requires 64 <= c <= 95
    ensures TokenizeByte(Printable, accept8bitC1, true, c) == TokenizeResult(Printable, false, [EscapedC1Token(c)])
  {
  }

  /** ESC c, c in 96..127: nothing, then ESC and c. */
  lemma ScenarioEscapeNonC0(accept8bitC1: bool, c: Byte)
    requires 96 <= c <= 127
    ensures TokenizeByte(Printable, accept8bitC1, true, c) == TokenizeResult(Printable, false, [ESC, c])
  {
  }

  /** ESC c, c in 160..255: nothing, then ESC alone. */
  lemma ScenarioEscapeNonC1(accept8bitC1: bool, c: Byte)
    requires 160 <= c
    ensures TokenizeByte(Printable, accept8bitC1, true, c) == TokenizeResult(Printable, false, [ESC])
  {
  }

  /** ESC c, c in 128..159: nothing, then ESC, followed by the C1 token only
      when 8-bit C1 codes are accepted. */
  lemma ScenarioEscapeC1(accept8bitC1: bool, c: Byte)
    requires 128 <= c <= 159
    ensures TokenizeByte(Printable, accept8bitC1, true, c).tokens ==
              [ESC] + (if accept8bitC1 then [ControlToken(c)] else [])
  {
  }

  /** ESC ESC: the second ESC emits the first and stays pending itself. */
  lemma ScenarioEscapeEscape(accept8bitC1: bool)
    ensures TokenizeByte(Printable, accept8bitC1, true, 27) == TokenizeResult(Printable, true, [ESC])
  {
  }

  /** ESC ESC c, c in 64..95, through a tokenizer object: nothing, ESC, then
      the C1 token -c-64. */
  method ScenarioEscapeEscapeSequence(accept8bitC1: bool, c: Byte)
      returns (first: seq<Token>, second: seq<Token>, third: seq<Token>)
    requires 64 <= c <= 95
    ensures first == [] && second == [ESC] && third == [EscapedC1Token(c)]
  {
    var t := new Tokenizer(accept8bitC1, Printable);
    first := t.ProcessByte(27, []);
    ScenarioEscape(accept8bitC1);
    second := t.ProcessByte(27, []);
    ScenarioEscapeEscape(accept8bitC1);
    third := t.ProcessByte(c, []);
    ScenarioEscapeSequence(accept8bitC1, c);
  }
}
