# vtlib byte-to-token input pipeline, in Dafny

This project models the first input stage of vtlib, a terminal library. Bytes
read from a host become *tokens*. A token is either a Unicode codepoint (a
non-negative value) or a C0/C1 control code, encoded as minus its byte value.
Three parts are modelled:

- **The UTF-8 character decoder** (`Utf8`, `utf8_character_decoder.dfy`). The
  decoder is a byte-at-a-time state machine over the fields `num_needed_`,
  `num_have_` and `current_value_`:
  - it resynchronises on every leading byte;
  - it emits one replacement token per buffered byte when a sequence is
    interrupted;
  - the second byte of a sequence that must be overlong, a surrogate, or above
    U+10FFFF is rejected at once, with two replacements.

  One step is given as functions over a `State` value (`Step`, `LeadingStep`,
  `ContinuationStep`, `Fold`, `FlushStep`). The class `Utf8CharacterDecoder`
  keeps the same three fields. Its methods follow the C++ bodies branch for
  branch, and each is proved to move the fields exactly as `Step` says.
  `ValidState` is the invariant the methods keep between calls. The
  properties in `Utf8Properties` compare the step with an independent
  reference, the RFC 3629 encoder `Encode`:
  - the round trip for every scalar value;
  - resynchronisation;
  - the rejection rules against the legal-sequence table of RFC 3629
    section 4;
  - `Flush`;
  - the per-byte output bound;
  - the worked examples of the header and the tests, byte by byte.
- **The tokenizer** (`Tokenization`, `tokenizer.dfy`). The class `Tokenizer`
  has the fields `accept_8bit_C1_`, `character_decoder_` and `got_ESC_`. Its
  `ProcessByte` mirrors `tokenizer.cc` statement by statement. It is proved
  equal to the function `TokenizeByte`, about which `TokenizerProperties`
  proves the rules:
  - the ESC→C1 machine ("ESC c" with c in 64..95 is the 7-bit form of the C1
    code c + 64, section 5.3 of ECMA-48);
  - the control-code fallback for bytes the decoder declines;
  - the output bound;
  - every scenario of the tokenizer's unit tests.

  The decoder is abstract: a state and a step `(state, byte) -> (state',
  accepted, tokens)`.
- **The supporting pieces**:
  - the ASCII decoder (`Ascii`);
  - the control-code predicates and the decoder interface (`Decoding`);
  - the token encoding and its named constants (`Tokens`).

Two calling conventions for decoders appear in the source:
- "void + append", used by the decoder bodies;
- "bool accepted + append", used by `tokenizer.cc`.

The decoders are modelled as their bodies are written. The tokenizer is
modelled over the abstract step. `StandardProcess` adapts the two decoders to
that step: both take every byte, so `accepted` is always true. As a
consequence, a tokenizer built by `NewTokenizerForEncoding` never produces a
control token and never leaves an ESC pending, for either encoding
(`StandardDecodersTakeEveryByte`). With ASCII every byte yields its ASCII
token (`StandardAsciiTakesEveryByte`), and with UTF-8 an ESC comes out as the
codepoint 27 (`Utf8EscapeIsCodepoint`). The tokenizer's unit tests
assume an ASCII decoder that accepts exactly 32..127 and declines everything
else without output. The scenarios are therefore proved against that decoder
(`TokenizerProperties.Printable`).

The decoder interface comment promises that decoders never output codepoints
in 0..31 or 128..159 (include/vtlib/character_decoder.h:39-40). The bodies as
written do not keep that promise:
- bytes 0..0x7F come out as themselves from both decoders
  (`Ascii.AsciiAgreesWithUtf8`);
- UTF-8 C2 80..C2 9F decode to U+0080..U+009F
  (`Utf8Properties.C1RangeCodepoints`).

So the promise is documented here, not claimed as a contract.

Where a comment and the code disagree, the model follows the code:
- The second bytes that complete a 7-bit C1 code after ESC are 64..95
  (src/tokenizer.cc:27-28). The prose at include/vtlib/tokenizer.h:37-39 says
  128..159. Both agree that after any other byte `TOKEN_ESC` is emitted and the
  byte is processed anew (src/tokenizer.cc:31-32). The older prose that drops
  the ESC instead is at include/vtlib/internal/input.h:42-46.
- The ASCII decoder replaces every byte from 0x80 up
  (src/ascii_character_decoder.cc:17-19). The comment at
  src/ascii_character_decoder.h:8-10 says only bytes from 160 up.

## Model

| member | source | states |
|---|---|---|
| Tokens.ControlToken | include/vtlib/token.h:8-48 | The token of a C0 byte b (0..31) is the named constant `C0Names[b]`, and the token of a C1 byte b (128..159) is `C1Names[b-128]`. Every control token is at most 0, and only NUL's is 0. |
| Tokens.EscapedC1Token | src/tokenizer.cc:27-28 | For c in 64..95 the token -c-64 lies in -159..-128, and it is the token of the 8-bit C1 code c+64 and the named constant `C1Names[c-64]`. |
| Tokens.ConstantsAreNegatedBytes | include/vtlib/token.h:16-81 | Both constant tables have 32 entries. Entry b of the C0 table is -b, and entry k of the C1 table is -(128+k). |
| Tokens.ControlTokensAreNonPositive | include/vtlib/token.h:8-11 | Control tokens are at most 0, and the only one that can equal a codepoint is NUL. |
| Tokens.ControlTokenInjective | include/vtlib/token.h:8-11 | Two control bytes have the same token exactly when they are the same byte. |
| Tokens.EscBracketIsCsi | include/vtlib/token.h:77 | ESC [ is the 7-bit form of `TOKEN_CSI` (-155). |
| Decoding.IsC0ControlCode | include/vtlib/character_decoder.h:51 | A byte is a C0 code exactly when the C0 table has an entry for it, and its control token is that entry. |
| Decoding.IsC1ControlCode | include/vtlib/character_decoder.h:52 | A byte is a C1 code exactly when it is 128 plus an index of the C1 table. It is then no C0 code, and its control token is that entry. |
| Decoding.IsControlCode | include/vtlib/character_decoder.h:53-55 | A byte is a control code exactly when it is in 0..31 or 128..159. |
| Decoding.ControlCodeRanges | include/vtlib/character_decoder.h:51-55 | C0 is exactly 0..31 and C1 exactly 128..159. The two are disjoint, a control code is one of them, and a non-control byte lies in 32..127 or 160..255. |
| Utf8.IsLeadingByte | src/utf8_character_decoder.cc:39-54 | The byte classes partition 0..255: 80..BF give 0, 00..7F give 1, C0..DF give 2, E0..EF give 3, F0..F7 give 4, and F8..FF give -1. Each is an if-and-only-if. |
| Utf8.MasksAreRanges | src/utf8_character_decoder.cc:43-52 | Each mask test the byte classification uses holds exactly on a byte range. |
| Utf8.MasksAreRemainders | src/utf8_character_decoder.cc:88-104 | Each payload extraction (`& 0x3f`, `& 0x1f`, `& 0x0f`, `& 0x07`) is the byte's remainder by the next power of two. |
| Utf8.DisjointOrIsSum | src/utf8_character_decoder.cc:159-160 | On 32-bit patterns with no bit in common, OR is addition. |
| Utf8.PayloadBitsAreClear | src/utf8_character_decoder.cc:159-160 | A six-bit payload shifted by 0, 6, 12 or 18 meets no set bit of a value whose bits below the shift plus 6 are clear. |
| Utf8.ShiftIsProduct | src/utf8_character_decoder.cc:159-160 | Shifting a six-bit payload by 6, 12 or 18 multiplies it by 64, 64^2 or 64^3. |
| Utf8.ValidState | src/utf8_character_decoder.h:74-85 | The invariant the decoder keeps between calls. It includes the documented shape of `num_needed_` and `num_have_`, and it fixes which bits of `current_value_` are still clear. Its consequences are stated by `ValidStateShape` and kept by `FoldKeepsValid` and `Step`. |
| Utf8.ValidStateShape | src/utf8_character_decoder.h:74-81 | In every valid state `num_needed_` is in {0,2,3,4}, and it is 0 exactly when `num_have_` is 0. Otherwise 1 <= `num_have_` < `num_needed_`, and the gathered value lies in 0..0x10FFFF. |
| Utf8.SecondByteRejected | src/utf8_character_decoder.cc:130-151 | The two second-byte conditions of the switch, on the state and the payload. Their meaning is stated by `SecondByteRejectedExactly`. |
| Utf8.SecondByteRejectedExactly | src/utf8_character_decoder.cc:130-151 | After one byte of a three-byte sequence, a payload is rejected exactly when the value would be below U+0800 (overlong) or a surrogate. After one byte of a four-byte sequence, it is rejected exactly when the value would be below U+10000 (overlong) or at least 0x110000. Nothing is rejected at any other position. |
| Utf8.Replacements | src/utf8_character_decoder.cc:69-70 | Holds exactly n tokens, each U+FFFD. |
| Utf8.FlushStep | src/utf8_character_decoder.cc:67-74 | Flushing gives one replacement per buffered byte and an empty decoder. The gathered bits are kept. |
| Utf8.LeadingStep | src/utf8_character_decoder.cc:76-118 | A leading or invalid byte emits the flush's `num_have_` replacements first, then at most one more token. All tokens are scalar values, and the new state is valid. |
| Utf8.Fold | src/utf8_character_decoder.cc:157-168 | Folding in a continuation byte keeps the state valid and emits at most one token, a scalar value (no surrogate, at most U+10FFFF). |
| Utf8.ContinuationStep | src/utf8_character_decoder.cc:120-169 | A continuation byte emits at most two tokens, all scalar values, and the new state is valid. |
| Utf8.SecondOfThree | src/utf8_character_decoder.cc:130-140 | After a three-byte lead, a second byte that passes the overlong and surrogate check leaves a value in 0x800..0xFFC0, outside the surrogates, with its low six bits clear. |
| Utf8.SecondOfFour | src/utf8_character_decoder.cc:141-151 | After a four-byte lead, a second byte that passes the overlong and above-U+10FFFF check leaves a value in 0x10000..0x10F000 with its low twelve bits clear. |
| Utf8.ThirdOfFour | src/utf8_character_decoder.cc:157-160 | The third byte of a four-byte sequence keeps the value in 0x10000..0x10FFC0 with its low six bits clear. |
| Utf8.FoldKeepsValid | src/utf8_character_decoder.cc:157-168 | Adding the six bits at their weight keeps `ValidState`. On the last byte the value is a scalar value, which discharges the asserts at lines 163-164. |
| Utf8.Step | src/utf8_character_decoder.cc:58-65 | One byte keeps the state valid, emits at most 4 tokens, and every token is a scalar value. |
| Utf8.Utf8CharacterDecoder.constructor | src/utf8_character_decoder.h:48-50 | A fresh decoder is empty and valid. The replacement token is stored and defaults to U+FFFD. |
| Utf8.Utf8CharacterDecoder.ReplacementToken | src/utf8_character_decoder.h:60 | Returns the replacement token the decoder was constructed with. |
| Utf8.Utf8CharacterDecoder.Flush | src/utf8_character_decoder.cc:67-74 | The loop appends `num_have_` replacements to the output. The fields become `FlushStep`'s state. |
| Utf8.Utf8CharacterDecoder.ProcessByte | src/utf8_character_decoder.cc:58-65 | Keeps `Valid()`. The new fields are `Step(old fields, b).state`, and the output is the old output followed by `Step`'s tokens. |
| Utf8.Utf8CharacterDecoder.ProcessLeadingByte | src/utf8_character_decoder.cc:76-118 | Flushes, then takes each branch of the switch. The fields and output follow `LeadingStep`. |
| Utf8.Utf8CharacterDecoder.ProcessContinuationByte | src/utf8_character_decoder.cc:120-155 | Covers the unexpected continuation and the early second-byte rejections. The fields and output follow `ContinuationStep`. The `default: assert(false)` branch is unreachable under `Valid()`. |
| Utf8.Utf8CharacterDecoder.FoldIn | src/utf8_character_decoder.cc:157-168 | The fields and output follow `Fold`, and `Valid()` is kept. `assert(num_have_ < num_needed_)` is proved. |
| Utf8Properties.Cont | src/utf8_character_decoder.cc:43-44 | Builds a continuation byte carrying the given six bits. |
| Utf8Properties.EncodedLength | src/utf8_character_decoder.h:74-76 | A scalar value's encoding has 1 to 4 bytes. |
| Utf8Properties.Lead | src/utf8_character_decoder.cc:45-52 | The leading byte of v's encoding is classified with v's encoded length. |
| Utf8Properties.Encode | src/utf8_character_decoder_unittest.cc:15-91 | The reference RFC 3629 encoder. It produces `EncodedLength(v)` bytes: a lead of that class, then continuation bytes. |
| Utf8Properties.RoundTrip1 | src/utf8_character_decoder_unittest.cc:15-26 | An empty decoder fed the one-byte encoding of v emits exactly [v] and stays empty. |
| Utf8Properties.RoundTrip2 | src/utf8_character_decoder_unittest.cc:28-44 | An empty decoder fed the two-byte encoding of v emits [] and then exactly [v], and ends empty. |
| Utf8Properties.RoundTrip3 | src/utf8_character_decoder_unittest.cc:46-68 | An empty decoder fed the three-byte encoding of v emits [], [] and then exactly [v], and ends empty. |
| Utf8Properties.RoundTrip4 | src/utf8_character_decoder_unittest.cc:70-91 | An empty decoder fed the four-byte encoding of v emits [], [], [] and then exactly [v], and ends empty. |
| Utf8Properties.Decode2 | src/utf8_character_decoder.cc:87-95 | The two states and outputs of a non-overlong two-byte sequence, written out. |
| Utf8Properties.Decode3 | src/utf8_character_decoder.cc:98-102 | The three states and outputs of a three-byte sequence that passes the second-byte check, written out. |
| Utf8Properties.Decode4 | src/utf8_character_decoder.cc:103-112 | The four states and outputs of a four-byte sequence that passes the lead and second-byte checks, written out. |
| Utf8Properties.Decode4Head | src/utf8_character_decoder.cc:103-112 | The first two bytes of such a sequence emit nothing and buffer the first twelve bits in a valid state. |
| Utf8Properties.Decode4Tail | src/utf8_character_decoder.cc:157-168 | With two bytes buffered, the third emits nothing and the fourth emits exactly the completed value and empties the decoder. |
| Utf8Properties.Digits | src/utf8_character_decoder.cc:159-160 | A value below 0x110000 is the sum of its base-64 digits at their weights. |
| Utf8Properties.StartSequence | src/utf8_character_decoder.cc:87-112 | On an empty decoder, an accepted lead of length 2, 3 or 4 starts buffering with its payload bits in place and emits nothing. |
| Utf8Properties.ContinueSequence | src/utf8_character_decoder.cc:157-168 | A continuation byte that passes the checks adds its six bits at weight 64^(`num_needed_`-`num_have_`-1). It either emits the completed value and empties the decoder, or buffers silently. |
| Utf8Properties.StepRespectsEquivalence | src/utf8_character_decoder.h:83-85 | `current_value_` is meaningless while `num_needed_` is 0. Any two empty states, whatever their gathered bits, emit the same tokens and stay alike. |
| Utf8Properties.Resynchronise | src/utf8_character_decoder.cc:60-62 | A leading or invalid byte emits exactly `num_have_` replacements, then exactly what it emits on a fresh decoder. The resulting states are alike. |
| Utf8Properties.RejectedLeads | src/utf8_character_decoder.cc:88-90 | Among leading and invalid bytes, the overlong leads C0/C1, the leads F5..F7 and the bytes F8..FF are exactly those that emit a single replacement after the flush (lines 104-106 and 114-116), and they leave the decoder empty. |
| Utf8Properties.SecondOfThreeBytes | src/utf8_character_decoder.cc:130-140 | After a lead E0..EF, a continuation byte outside the legal second-byte range emits [R, R] and empties the decoder. A legal one emits nothing and buffers a second byte. |
| Utf8Properties.SecondOfFourBytes | src/utf8_character_decoder.cc:141-151 | The same for a lead F0..F4. |
| Utf8Properties.SecondByteCheck | src/utf8_character_decoder.cc:130-151 | After a lead E0..F4, a continuation byte emits [R, R] and empties the decoder exactly when it is outside RFC 3629 section 4's legal second-byte range. Otherwise it emits nothing and two bytes are buffered. |
| Utf8Properties.UnexpectedContinuation | src/utf8_character_decoder.cc:125-127 | A continuation byte with nothing buffered emits one replacement and leaves the state unchanged. |
| Utf8Properties.FlushIdempotent | src/utf8_character_decoder.cc:67-74 | `Flush` emits `num_have_` tokens. A second `Flush` emits nothing and changes nothing. |
| Utf8Properties.CompletionIsCanonical | src/utf8_character_decoder.cc:162-165 | The completing byte emits one scalar value v. v's canonical encoding has exactly `num_needed_` bytes, so no overlong form gets through, and it ends in that byte. |
| Utf8Properties.NoC0Output | src/utf8_character_decoder.cc:84-86 | Only a C0 byte can make the decoder emit a codepoint in 0..31. |
| Utf8Properties.C1RangeCodepoints | src/utf8_character_decoder.cc:87-95 | C2 followed by 80..9F emits codepoints 0x80..0x9F. These lie in the range the interface comment excludes. |
| Utf8Properties.ExampleSurrogate | src/utf8_character_decoder.h:22-31 | ED A0 80 gives [], [R, R], [R]: three replacements in all. |
| Utf8Properties.ExampleSurrogateThenAscii | src/utf8_character_decoder.h:38-41 | ED A0 'X' gives [], [R, R], ['X']. |
| Utf8Properties.ExampleInterruptedFourByte | src/utf8_character_decoder_unittest.cc:357-454 | F4 82 8D buffers three bytes. After them, 'A' gives [R, R, R, 'A'], F8 gives four replacements (the per-byte maximum) and 85 completes U+102345. |
| Ascii.DecodeByte | src/ascii_character_decoder.cc:15-20 | Bytes 00..7F decode to themselves and 80..FF to U+FFFD. The result is always a scalar value. |
| Ascii.AsciiAgreesWithUtf8 | src/ascii_character_decoder.cc:17-19 | A byte is 00..7F exactly when ASCII and UTF-8 (from empty) decode it to the same token and that token is not a replacement. |
| Ascii.AsciiOutputRanges | src/ascii_character_decoder.cc:17-19 | The ASCII output lies in 0..31 exactly for C0 bytes, and never in 128..159. |
| Ascii.AsciiCharacterDecoder.Supports8bitC1 | src/ascii_character_decoder.cc:11-13 | Always true. |
| Ascii.AsciiCharacterDecoder.ProcessByte | src/ascii_character_decoder.cc:15-20 | Appends exactly one token, `DecodeByte(b)`, and keeps what was already in the output. |
| Ascii.AsciiCharacterDecoder.Flush | src/ascii_character_decoder.cc:22-24 | Appends nothing. |
| Tokenization.ProcessPlain | src/tokenizer.cc:35-54 | With no ESC pending, the decoder runs first and its tokens come first. At most one control token follows. The decoder's state is updated, and an ESC can become pending only for byte 27. |
| Tokenization.TokenizeByte | src/tokenizer.cc:23-55 | With ESC pending, c in 64..95 leaves the decoder untouched and clears the flag, and any other byte emits ESC first. The output is bounded by the decoder's tokens plus two. |
| Tokenization.Tokenizer.constructor | src/tokenizer.cc:9-15 | Stores the flag and the decoder. No ESC is pending. |
| Tokenization.Tokenizer.ProcessByte | src/tokenizer.cc:23-55 | The output is the old output followed by `TokenizeByte`'s tokens. The decoder and the ESC flag become `TokenizeByte`'s, and `accept_8bit_C1_` is unchanged. |
| Tokenization.Tokenizer.Accept8bitC1 | include/vtlib/tokenizer.h:73 | Returns the flag. |
| Tokenization.Tokenizer.SetAccept8bitC1 | include/vtlib/tokenizer.h:74-76 | Sets the flag. The decoder and the ESC flag are unchanged. |
| Tokenization.Tokenizer.CharacterDecoder | include/vtlib/tokenizer.h:78-80 | Returns the installed decoder. |
| Tokenization.Tokenizer.SetCharacterDecoder | src/tokenizer.cc:57-62 | Installs the new decoder and returns the previous one. `accept_8bit_C1_` and a pending ESC survive the swap. |
| Tokenization.StandardProcess | include/vtlib/character_decoder.h:29-42 | The standard decoders take every byte and keep their kind. ASCII emits at least one token, and no decoder emits more than four. |
| Tokenization.Create | include/vtlib/character_decoder.h:18-21 | ASCII selects a fresh ASCII decoder and UTF8 a fresh, empty UTF-8 decoder. |
| Tokenization.NewTokenizerForEncoding | src/tokenizer.cc:17-19 | A fresh tokenizer holding the flag and the decoder `Create(e)`, with no ESC pending. |
| Tokenization.SetCharacterEncoding | src/tokenizer.cc:64-66 | Replaces the decoder with `Create(e)`. The old one is dropped without being flushed. The flag and a pending ESC are kept. |
| TokenizerProperties.EscapedC1 | src/tokenizer.cc:24-30 | With ESC pending, c in 64..95 yields exactly [-c-64] (`ControlToken(c+64)`). The decoder is not run and the flag is cleared. |
| TokenizerProperties.EscapeThenOther | src/tokenizer.cc:31-33 | With ESC pending, any other byte yields `TOKEN_ESC`, then exactly what the byte yields with no ESC pending, with the same decoder and flag. |
| TokenizerProperties.PendingEscape | src/tokenizer.cc:41-43 | After any byte, an ESC is pending exactly when the byte was 27 and the decoder declined it. |
| TokenizerProperties.DeclinedEscape | src/tokenizer.cc:41-43 | A declined ESC adds nothing beyond the decoder's tokens (and the `TOKEN_ESC` of an earlier pending ESC). |
| TokenizerProperties.AcceptedByte | src/tokenizer.cc:35-36 | An accepted byte yields exactly the decoder's tokens and no control token. |
| TokenizerProperties.DeclinedC0 | src/tokenizer.cc:46-49 | A declined C0 byte other than ESC yields the decoder's tokens followed by -b, whatever the 8-bit C1 setting. |
| TokenizerProperties.DeclinedC1 | src/tokenizer.cc:46-49 | A declined C1 byte is followed by -b exactly when 8-bit C1 codes are accepted. |
| TokenizerProperties.DeclinedNonControl | src/tokenizer.cc:53-54 | A declined byte that is no control code adds nothing beyond the decoder's tokens. |
| TokenizerProperties.ControlTokenOnlyWhenDeclined | src/tokenizer.cc:35-50 | The output grows beyond the decoder's tokens only for a declined control byte other than ESC, and then by exactly its own control token. |
| TokenizerProperties.StandardOutputBound | include/vtlib/tokenizer.h:19-23 | With a standard decoder and no ESC pending, one byte yields at most four tokens and leaves no ESC pending. |
| TokenizerProperties.PendingEscapeExceedsFour | include/vtlib/tokenizer.h:65-67 | With ESC pending and a UTF-8 decoder holding F4 82 8D, byte F8 yields five tokens: ESC and four replacements. |
| TokenizerProperties.StandardAsciiTakesEveryByte | src/tokenizer.cc:35-36 | With the ASCII decoder as written, every byte yields `DecodeByte(b)` (after a pending ESC's `TOKEN_ESC`). No control token is produced and no ESC becomes pending. |
| TokenizerProperties.StandardDecodersTakeEveryByte | src/tokenizer.cc:35-36 | With either standard decoder, in any state, every byte other than the end of "ESC c" yields exactly the decoder's tokens, after a pending ESC's `TOKEN_ESC`. No ESC is left pending. |
| TokenizerProperties.Utf8EscapeIsCodepoint | src/tokenizer.cc:35-36 | A fresh UTF-8 decoder takes ESC and emits the codepoint 27. Nothing becomes pending, and the decoder stays fresh. |
| TokenizerProperties.StandardTokenRange | include/vtlib/token.h:8-11 | With the standard decoders, every token one byte yields lies in -159..0x10FFFF. |
| TokenizerProperties.PrintableProcess | src/tokenizer_unittest.cc:9-25 | The test decoder accepts a byte exactly when it is in 32..127. |
| TokenizerProperties.ScenarioNonControl | src/tokenizer_unittest.cc:9-25 | 32..127 yield themselves under either setting. |
| TokenizerProperties.ScenarioC0NonEscape | src/tokenizer_unittest.cc:27-46 | C0 bytes other than ESC yield [-c]. |
| TokenizerProperties.ScenarioInvalidNonC1 | src/tokenizer_unittest.cc:48-62 | 160..255 yield nothing. |
| TokenizerProperties.Scenario8bitC1 | src/tokenizer_unittest.cc:64-79 | 128..159 yield [-c] when accepted, nothing otherwise. |
| TokenizerProperties.ScenarioEscape | src/tokenizer_unittest.cc:81-92 | ESC yields nothing and becomes pending. |
| TokenizerProperties.ScenarioEscapeSequence | src/tokenizer_unittest.cc:81-105 | ESC c with c in 64..95 then yields [-c-64] and clears the flag. |
| TokenizerProperties.ScenarioEscapeNonC0 | src/tokenizer_unittest.cc:107-133 | ESC c with c in 96..127 then yields [ESC, c]. |
| TokenizerProperties.ScenarioEscapeNonC1 | src/tokenizer_unittest.cc:135-159 | ESC c with c in 160..255 then yields [ESC]. |
| TokenizerProperties.ScenarioEscapeC1 | src/tokenizer_unittest.cc:161-186 | ESC c with c in 128..159 then yields [ESC, -c] when accepted, [ESC] otherwise. |
| TokenizerProperties.ScenarioEscapeEscape | src/tokenizer_unittest.cc:188-222 | A second ESC emits the first and stays pending. |
| TokenizerProperties.ScenarioEscapeEscapeSequence | src/tokenizer_unittest.cc:188-222 | Through a `Tokenizer` object, ESC ESC c with c in 64..95 yields [], [ESC], [-c-64]. |

## Left out

- Calling convention: the decoder bodies are void and append. The tokenizer calls a bool-returning `ProcessByte`; the UTF-8 header declares one (src/utf8_character_decoder.h:56-58), but its body is not shown. The model adapts the shown bodies with `accepted` = true (`StandardProcess`).
- Output buffers: the fixed array with a count (include/vtlib/tokenizer.h:65-71) and the output vectors are modelled as a sequence that is appended to.
- The replacement token field (`replacement_token_`) is stored and returned, but the decoding bodies push `CODEPOINT_REPLACEMENT`, taken as U+FFFD. The header defining it is not part of this model.
- The UTF-8 decoder's `Supports8bitC1` override is not shown, so it is not modelled.
- Ownership: `unique_ptr` and the deleted copy operations are left out. The tokenizer holds its decoder as a value (state plus step), so aliasing of a decoder object is not modelled.
- C++ `assert`s: the `default:` branch and the `num_have_` and value checks of the UTF-8 decoder are proved facts. The non-null decoder asserts in the constructor and in `set_character_decoder` have no counterpart: a decoder here is a value and cannot be null.
- Tokenization.Create: src/character_decoder.cc returns a null pointer for UTF-8, and it names `UTF_8`, which the enum at include/vtlib/character_encoding.h:10 spells `UTF8`. The model selects the UTF-8 decoder for UTF8, as a plain datatype choice.
- Integer widths: tokens are `int32_t` and `size_t`. Every value here stays far inside those ranges, so both are unbounded integers. `current_value_ |= data << k` is written as an addition of `data * 64^j`, for k = 6j. The bridge is stated on 32-bit patterns. `ValidState` makes the value a multiple of 2^(k+6), so its bits below k + 6 are clear. `Utf8.PayloadBitsAreClear` shows that the shifted payload then meets none of the value's bits. `Utf8.DisjointOrIsSum` turns the OR into a sum, and `Utf8.ShiftIsProduct` turns the shift into a product. All values stay below 2^21, so the 32-bit sum equals the integer sum. The masks are written as ranges and remainders, justified by `Utf8.MasksAreRanges` and `Utf8.MasksAreRemainders`.
- Utf8Properties.RoundTrip1: the round trip is one lemma per encoding length, each stating the output of every byte. It is not a fold over byte sequences.
- Tokenization.StandardProcess: the interface comment's promise that decoders never output 0..31 or 128..159 (include/vtlib/character_decoder.h:39-40) is not stated, because the bodies do not keep it (`Ascii.AsciiAgreesWithUtf8`, `Utf8Properties.C1RangeCodepoints`).
- Tokenization.SetCharacterEncoding: whether switching the encoding should flush the old decoder is an open question in the source. The code does not flush, and neither does the model.
- Per-byte output bound: the bound of four holds with no ESC pending (`StandardOutputBound`). With the standard decoders alone an ESC never becomes pending. The five-token case of `PendingEscapeExceedsFour` therefore needs two steps: a decoder that declines ESC leaves one pending, and `SetCharacterDecoder` then installs a UTF-8 decoder holding F4 82 8D. The constant `kMaxOutputTokensPerInputByte` is not part of this model.
- src/input.cc and include/vtlib/internal/input.h: an older stub revision of the tokenizer, which drops ESC, contrary to src/tokenizer.cc.
- The terminal, display-cell, colour, coordinate and state-change files: they hold no behaviour of the byte-to-token stage.
