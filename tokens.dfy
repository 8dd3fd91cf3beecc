/** Tokens: Unicode codepoints (non-negative) or control codes (non-positive),
    a control code being encoded as minus its C0 or 8-bit C1 byte value.
    NUL (0) is the one value shared by both classes. */
module Tokens {

  /** `Token` is a 32-bit signed integer in the library. With the standard
      decoders every token the tokenizer produces lies in -159..0x10FFFF
      (`TokenizerProperties.StandardTokenRange`), so the width never matters
      there. */
  type Token = int

  // C0 control codes (bytes 0..31).
  const NUL: Token := 0
  const SOH: Token := -1
  const STX: Token := -2
  const ETX: Token := -3
  const EOT: Token := -4
  const ENQ: Token := -5
  const ACK: Token := -6
  const BEL: Token := -7
  const BS: Token := -8
  const HT: Token := -9
  const LF: Token := -10
  const VT: Token := -11
  const FF: Token := -12
  const CR: Token := -13
  const SO: Token := -14
  const SI: Token := -15
  const DLE: Token := -16
  const DC1: Token := -17
  const DC2: Token := -18
  const DC3: Token := -19
  const DC4: Token := -20
  const NAK: Token := -21
  const SYN: Token := -22
  const ETB: Token := -23
  const CAN: Token := -24
  const EM: Token := -25
  const SUB: Token := -26
  const ESC: Token := -27
  const FS: Token := -28
  const GS: Token := -29
  const RS: Token := -30
  const US: Token := -31

  // C1 control codes (bytes 128..159).
  const PAD: Token := -128
  const HOP: Token := -129
  const BPH: Token := -130
  const NBH: Token := -131
  const IND: Token := -132
  const NEL: Token := -133
  const SSA: Token := -134
  const ESA: Token := -135
  const HTS: Token := -136
  const HTJ: Token := -137
  const VTS: Token := -138
  const PLD: Token := -139
  const PLU: Token := -140
  const RI: Token := -141
  const SS2: Token := -142
  const SS3: Token := -143
  const DCS: Token := -144
  const PU1: Token := -145
  const PU2: Token := -146
  const STS: Token := -147
  const CCH: Token := -148
  const MW: Token := -149
  const SPA: Token := -150
  const EPA: Token := -151
  const SOS: Token := -152
  const SGCI: Token := -153
  const SCI: Token := -154
  const CSI: Token := -155
  const ST: Token := -156
  const OSC: Token := -157
  const PM: Token := -158
  const APC: Token := -159

  /** The named C0 constants in byte order: entry b names the C0 code b. */
  const C0Names: seq<Token> :=
    [NUL, SOH, STX, ETX, EOT, ENQ, ACK, BEL, BS, HT, LF, VT, FF, CR, SO, SI,
     DLE, DC1, DC2, DC3, DC4, NAK, SYN, ETB, CAN, EM, SUB, ESC, FS, GS, RS, US]

  /** The named C1 constants in byte order: entry k names the C1 code 128 + k. */
  const C1Names: seq<Token> :=
    [PAD, HOP, BPH, NBH, IND, NEL, SSA, ESA, HTS, HTJ, VTS, PLD, PLU, RI, SS2, SS3,
     DCS, PU1, PU2, STS, CCH, MW, SPA, EPA, SOS, SGCI, SCI, CSI, ST, OSC, PM, APC]

  /** The token for the control byte `b`: minus its value. */
  function ControlToken(b: nat): (t: Token)
    requires b <= 31 || 128 <= b <= 159
    ensures t <= 0
    ensures t == 0 <==> b == 0
    ensures b <= 31 ==> t == C0Names[b]
    ensures 128 <= b ==> t == C1Names[b - 128]
  {
    ConstantsAreNegatedBytes();
    -(b as int)
  }

  /** The token for the 7-bit C1 form "ESC c" (c in 64..95), which ECMA-48
      (section 5.3) makes equivalent to the 8-bit C1 code c + 64. */
  function EscapedC1Token(c: nat): (t: Token)
    requires 64 <= c <= 95
    ensures -159 <= t <= -128
    ensures t == ControlToken(c + 64)
    ensures t == C1Names[c - 64]
  {
    ConstantsAreNegatedBytes();
    -(c as int) - 64
  }

  /** Each named constant equals minus the byte of the code it names. */
  lemma ConstantsAreNegatedBytes()
    ensures |C0Names| == 32 && |C1Names| == 32
    ensures forall b :: 0 <= b < 32 ==> C0Names[b] == -b
    ensures forall k :: 0 <= k < 32 ==> C1Names[k] == -(128 + k)
  {
  }

  /** Control tokens never overlap codepoints except for NUL (0). */
  lemma ControlTokensAreNonPositive(b: nat)
    requires b <= 31 || 128 <= b <= 159
    ensures ControlToken(b) <= 0
    ensures ControlToken(b) >= 0 ==> ControlToken(b) == NUL
  {
  }

  /** Distinct control bytes get distinct tokens. */
  lemma ControlTokenInjective(b: nat, c: nat)
    requires b <= 31 || 128 <= b <= 159
    requires c <= 31 || 128 <= c <= 159
    ensures ControlToken(b) == ControlToken(c) <==> b == c
  {
  }

  /** ESC [ is the 7-bit form of CSI. */
  lemma EscBracketIsCsi()
    ensures EscapedC1Token(0x5B) == CSI
  {
  }
}
