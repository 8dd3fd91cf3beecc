/** Properties of the UTF-8 decoding step: agreement with the RFC 3629
    encoding, resynchronisation, the early rejections, `Flush`, the per-byte
    output bound and the exhaustive test sequences written out. */
module Utf8Properties {
  import opened Tokens
  import opened Decoding
  import opened Utf8

  /** The replacement token, in short. */
  const R := CodepointReplacement

  /** The continuation byte 10xxxxxx carrying the six bits `x`. */
  function Cont(x: int): (b: Byte)
    requires 0 <= x < 64
    ensures IsLeadingByte(b) == 0
    ensures b % 64 == x
  {
    0x80 + x
  }

  /** The number of bytes RFC 3629 (section 3) uses for a scalar value. */
  function EncodedLength(v: int): (n: nat)
    requires IsScalarValue(v)
    ensures 1 <= n <= 4
  {
    if v < 0x80 then 1 else if v < 0x800 then 2 else if v < 0x10000 then 3 else 4
  }

  /** The leading byte of the encoding of `v`. */
  function Lead(v: int): (b: Byte)
    requires IsScalarValue(v)
    ensures IsLeadingByte(b) == EncodedLength(v)
  {
    if v < 0x80 then v
    else if v < 0x800 then 0xC0 + v / 64
    else if v < 0x10000 then 0xE0 + v / 0x1000
    else 0xF0 + v / 0x40000
  }

  /** The UTF-8 encoding of a scalar value, as RFC 3629 (section 3) lays the
      bits out. This is the reference the decoder is compared with. */
  function Encode(v: int): (e: seq<Byte>)
    requires IsScalarValue(v)
    ensures |e| == EncodedLength(v)
    ensures IsLeadingByte(e[0]) == |e|
    ensures forall i :: 1 <= i < |e| ==> IsLeadingByte(e[i]) == 0
  {
    if v < 0x80 then
      [Lead(v)]
    else if v < 0x800 then
      [Lead(v), Cont(v % 64)]
    else if v < 0x10000 then
      [Lead(v), Cont(v / 64 % 64), Cont(v % 64)]
    else
      [Lead(v), Cont(v / 0x1000 % 64), Cont(v / 64 % 64), Cont(v % 64)]
  }

  // ---------------------------------------------------------------------
  // Round trip: every scalar value decodes from its canonical encoding, one
  // lemma per encoding length. Each states the output of every byte fed to
  // an empty decoder: nothing until the last byte, then exactly `[v]`, and
  // the decoder is empty again.

  lemma RoundTrip1(s: State, v: int)
    requires ValidState(s) && IsEmpty(s) && IsScalarValue(v) && v < 0x80
    ensures var e := Encode(v);
            |e| == 1 && Step(s, e[0]).tokens == [v] && IsEmpty(Step(s, e[0]).state)
  {
  }

  lemma RoundTrip2(s: State, v: int)
    requires ValidState(s) && IsEmpty(s) && IsScalarValue(v) && 0x80 <= v < 0x800
    ensures var e := Encode(v);
            var o1 := Step(s, e[0]);
            var o2 := Step(o1.state, e[1]);
            |e| == 2 && o1.tokens == [] && o2.tokens == [v] && IsEmpty(o2.state)
  {
    var d1, d0 := v / 64, v % 64;
    assert v == d1 * 64 + d0 && 2 <= d1 < 32 by { Digits(v); }
    var e := Encode(v);
    assert e == [0xC0 + d1, 0x80 + d0];
    var s1 := State(2, 1, d1 * 64);
    Decode2(s, d1, d0);
    assert Step(s, e[0]) == Output(s1, []);
    assert Step(s1, e[1]) == Output(State(0, 0, v), [v]);
  }

  lemma RoundTrip3(s: State, v: int)
    requires ValidState(s) && IsEmpty(s) && IsScalarValue(v) && 0x800 <= v < 0x10000
    ensures var e := Encode(v);
            var o1 := Step(s, e[0]);
            var o2 := Step(o1.state, e[1]);
            var o3 := Step(o2.state, e[2]);
            |e| == 3 && o1.tokens == [] && o2.tokens == [] && o3.tokens == [v] && IsEmpty(o3.state)
  {
    var d2, d1, d0 := v / 0x1000, v / 64 % 64, v % 64;
    assert v == d2 * 0x1000 + d1 * 64 + d0 && d2 < 16 && (d2 == 0 ==> d1 >= 0x20) && (d2 == 0xD ==> d1 < 0x20)
      by { Digits(v); }
    var e := Encode(v);
    assert e == [0xE0 + d2, 0x80 + d1, 0x80 + d0];
    Decode3(s, e, d2, d1, d0);
  }

  lemma RoundTrip4(s: State, v: int)
    requires ValidState(s) && IsEmpty(s) && IsScalarValue(v) && 0x10000 <= v
    ensures var e := Encode(v);
            var o1 := Step(s, e[0]);
            var o2 := Step(o1.state, e[1]);
            var o3 := Step(o2.state, e[2]);
            var o4 := Step(o3.state, e[3]);
            |e| == 4 && o1.tokens == [] && o2.tokens == [] && o3.tokens == [] &&
            o4.tokens == [v] && IsEmpty(o4.state)
  {
    var d3, d2, d1, d0 := v / 0x40000, v / 0x1000 % 64, v / 64 % 64, v % 64;
    assert v == d3 * 0x40000 + d2 * 0x1000 + d1 * 64 + d0 && d3 <= 4 && (d3 == 0 ==> d2 >= 0x10) && (d3 == 4 ==> d2 < 0x10)
      by { Digits(v); }
    var e := Encode(v);
    assert e == [0xF0 + d3, 0x80 + d2, 0x80 + d1, 0x80 + d0];
    var s1 := State(4, 1, d3 * 0x40000);
    var s2 := State(4, 2, d3 * 0x40000 + d2 * 0x1000);
    var s3 := State(4, 3, d3 * 0x40000 + d2 * 0x1000 + d1 * 64);
    Decode4(s, d3, d2, d1, d0);
    assert Step(s, e[0]) == Output(s1, []);
    assert Step(s1, e[1]) == Output(s2, []);
    assert Step(s2, e[2]) == Output(s3, []);
    assert Step(s3, e[3]) == Output(State(0, 0, v), [v]);
  }

  /** The steps of a two-byte sequence whose lead is not overlong. */
  lemma Decode2(s: State, d1: int, d0: int)
    requires ValidState(s) && IsEmpty(s)
    requires 2 <= d1 < 32 && 0 <= d0 < 64
    ensures var v := d1 * 64 + d0;
            Step(s, 0xC0 + d1) == Output(State(2, 1, d1 * 64), []) &&
            Step(State(2, 1, d1 * 64), 0x80 + d0) == Output(State(0, 0, v), [v])
  {
    var s1 := State(2, 1, d1 * 64);
    var v := d1 * 64 + d0;
    assert Step(s, 0xC0 + d1) == Output(s1, []) by { StartSequence(s, 0xC0 + d1); }
    assert Step(s1, 0x80 + d0) == Output(State(0, 0, v), [v]) by { ContinueSequence(s1, 0x80 + d0); }
  }

  /** The steps of a three-byte sequence that passes the second-byte checks. */
  lemma Decode3(s: State, e: seq<Byte>, d2: int, d1: int, d0: int)
    requires ValidState(s) && IsEmpty(s)
    requires 0 <= d2 < 16 && 0 <= d1 < 64 && 0 <= d0 < 64
    requires d2 == 0 ==> d1 >= 0x20
    requires d2 == 0xD ==> d1 < 0x20
    requires e == [0xE0 + d2, 0x80 + d1, 0x80 + d0]
    ensures var s1 := State(3, 1, d2 * 0x1000);
            var s2 := State(3, 2, d2 * 0x1000 + d1 * 64);
            var v := d2 * 0x1000 + d1 * 64 + d0;
            Step(s, e[0]) == Output(s1, []) &&
            Step(s1, e[1]) == Output(s2, []) &&
            Step(s2, e[2]) == Output(State(0, 0, v), [v])
  {
    var s1 := State(3, 1, d2 * 0x1000);
    var s2 := State(3, 2, d2 * 0x1000 + d1 * 64);
    var v := d2 * 0x1000 + d1 * 64 + d0;
    assert Step(s, e[0]) == Output(s1, []) by { StartSequence(s, e[0]); }
    assert Step(s1, e[1]) == Output(s2, []) by { ContinueSequence(s1, e[1]); }
    assert Step(s2, e[2]) == Output(State(0, 0, v), [v]) by { ContinueSequence(s2, e[2]); }
  }

  /** The steps of a four-byte sequence that passes the second-byte checks. */
  lemma Decode4(s: State, d3: int, d2: int, d1: int, d0: int)
    requires ValidState(s) && IsEmpty(s)
    requires 0 <= d3 <= 4 && 0 <= d2 < 64 && 0 <= d1 < 64 && 0 <= d0 < 64
    requires d3 == 0 ==> d2 >= 0x10
    requires d3 == 4 ==> d2 < 0x10
    ensures Step(s, 0xF0 + d3) == Output(State(4, 1, d3 * 0x40000), [])
    ensures Step(State(4, 1, d3 * 0x40000), 0x80 + d2) == Output(State(4, 2, d3 * 0x40000 + d2 * 0x1000), [])
    ensures Step(State(4, 2, d3 * 0x40000 + d2 * 0x1000), 0x80 + d1) ==
              Output(State(4, 3, d3 * 0x40000 + d2 * 0x1000 + d1 * 64), [])
    ensures var v := d3 * 0x40000 + d2 * 0x1000 + d1 * 64 + d0;
            Step(State(4, 3, d3 * 0x40000 + d2 * 0x1000 + d1 * 64), 0x80 + d0) == Output(State(0, 0, v), [v])
  {
    Decode4Head(s, d3, d2);
    Decode4Tail(d3 * 0x40000 + d2 * 0x1000, d1, d0);
  }

  /** The first two steps of a four-byte sequence that passes the second-byte
      checks: nothing, and the first twelve bits are buffered. */
  lemma Decode4Head(s: State, d3: int, d2: int)
    requires ValidState(s) && IsEmpty(s)
    requires 0 <= d3 <= 4 && 0 <= d2 < 64
    requires d3 == 0 ==> d2 >= 0x10
    requires d3 == 4 ==> d2 < 0x10
    ensures Step(s, 0xF0 + d3) == Output(State(4, 1, d3 * 0x40000), [])
    ensures ValidState(State(4, 2, d3 * 0x40000 + d2 * 0x1000))
    ensures Step(State(4, 1, d3 * 0x40000), 0x80 + d2) == Output(State(4, 2, d3 * 0x40000 + d2 * 0x1000), [])
  {
    var s1 := State(4, 1, d3 * 0x40000);
    assert Step(s, 0xF0 + d3) == Output(s1, []) by { StartSequence(s, 0xF0 + d3); }
    assert Step(s1, 0x80 + d2) == Output(State(4, 2, d3 * 0x40000 + d2 * 0x1000), [])
      by { ContinueSequence(s1, 0x80 + d2); }
  }

  /** The last two steps of a four-byte sequence whose first two bytes have
      been buffered: nothing, then the completed value. */
  lemma Decode4Tail(w: int, d1: int, d0: int)
    requires ValidState(State(4, 2, w)) && 0 <= d1 < 64 && 0 <= d0 < 64
    ensures var s2 := State(4, 2, w);
            var s3 := State(4, 3, w + d1 * 64);
            var v := w + d1 * 64 + d0;
            Step(s2, 0x80 + d1) == Output(s3, []) &&
            Step(s3, 0x80 + d0) == Output(State(0, 0, v), [v])
  {
    var s2 := State(4, 2, w);
    var s3 := State(4, 3, w + d1 * 64);
    ThirdOfFour(w, d1);
    assert Step(s2, 0x80 + d1) == Output(s3, []) by { ContinueSequence(s2, 0x80 + d1); }
    assert Step(s3, 0x80 + d0) == Output(State(0, 0, w + d1 * 64 + d0), [w + d1 * 64 + d0])
      by { ContinueSequence(s3, 0x80 + d0); }
  }

  /** The base-64 digits of a scalar value. */
  lemma Digits(v: int)
    requires 0 <= v < 0x110000
    ensures v == v / 0x40000 * 0x40000 + v / 0x1000 % 64 * 0x1000 + v / 64 % 64 * 64 + v % 64
    ensures v < 0x40000 ==> v / 0x1000 % 64 == v / 0x1000
    ensures v < 0x1000 ==> v / 64 % 64 == v / 64
  {
    var q1 := v / 64;
    var q2 := q1 / 64;
    assert v == q1 * 64 + v % 64;
    assert q1 == q2 * 64 + q1 % 64;
    assert q2 == q2 / 64 * 64 + q2 % 64;
    assert q2 == v / 0x1000;
    assert q2 / 64 == v / 0x40000;
  }

  /** A leading byte of a multibyte sequence, read on an empty decoder: the
      state the sequence starts in, and nothing emitted yet. */
  lemma StartSequence(s: State, b: Byte)
    requires ValidState(s) && IsEmpty(s)
    ensures IsLeadingByte(b) == 2 && b >= 0xC2 ==>
              Step(s, b) == Output(State(2, 1, (b - 0xC0) * 64), [])
    ensures IsLeadingByte(b) == 3 ==>
              Step(s, b) == Output(State(3, 1, (b - 0xE0) * 0x1000), [])
    ensures IsLeadingByte(b) == 4 && b <= 0xF4 ==>
              Step(s, b) == Output(State(4, 1, (b - 0xF0) * 0x40000), [])
  {
    assert FlushStep(s) == Output(s, []);
    var n := IsLeadingByte(b);
    if n == 2 {
      assert b % 0x20 == b - 0xC0;
    } else if n == 3 {
      assert b % 0x10 == b - 0xE0;
    } else if n == 4 {
      assert b % 0x08 == b - 0xF0;
    }
  }

  /** A continuation byte that passes the second-byte checks adds its six
      bits at the weight of its position and completes the sequence on its
      last byte. */
  lemma ContinueSequence(s: State, b: Byte)
    requires ValidState(s) && s.numNeeded != 0 && IsLeadingByte(b) == 0
    requires !SecondByteRejected(s, b - 0x80)
    ensures var value := s.currentValue + (b - 0x80) * Pow64(s.numNeeded - s.numHave - 1);
            Step(s, b) ==
              if s.numHave + 1 == s.numNeeded then Output(State(0, 0, value), [value])
              else Output(State(s.numNeeded, s.numHave + 1, value), [])
    ensures s.numNeeded - s.numHave - 1 == 0 ==> Pow64(s.numNeeded - s.numHave - 1) == 1
    ensures s.numNeeded - s.numHave - 1 == 1 ==> Pow64(s.numNeeded - s.numHave - 1) == 64
    ensures s.numNeeded - s.numHave - 1 == 2 ==> Pow64(s.numNeeded - s.numHave - 1) == 0x1000
  {
    Pow64Small();
  }

  // ---------------------------------------------------------------------
  // Resynchronisation and the replacement rules.

  /** Two decoder states behave alike: equal, or both empty (the gathered
      bits mean nothing once no sequence is buffered). */
  predicate Equivalent(a: State, b: State) {
    a == b || (IsEmpty(a) && IsEmpty(b))
  }

  /** Equivalent states emit the same tokens for every byte and stay
      equivalent. */
  lemma StepRespectsEquivalence(a: State, c: State, b: Byte)
    requires ValidState(a) && ValidState(c) && Equivalent(a, c)
    ensures Step(a, b).tokens == Step(c, b).tokens
    ensures Equivalent(Step(a, b).state, Step(c, b).state)
  {
  }

  /** A leading or invalid byte first emits one replacement per buffered
      byte, then does exactly what it does on an empty decoder. */
  lemma Resynchronise(s: State, b: Byte)
    requires ValidState(s) && IsLeadingByte(b) != 0
    ensures Step(s, b).tokens == Replacements(s.numHave) + Step(Initial, b).tokens
    ensures Equivalent(Step(s, b).state, Step(Initial, b).state)
  {
    var f := FlushStep(s);
    assert Step(s, b) == Output(Step(f.state, b).state, f.tokens + Step(f.state, b).tokens);
    StepRespectsEquivalence(f.state, Initial, b);
  }

  /** The leading bytes that can start no sequence: the overlong leads C0 and
      C1, the leads F5..F7 of values above U+10FFFF, and the bytes F8..FF. */
  predicate IsRejectedLead(b: Byte) {
    b == 0xC0 || b == 0xC1 || 0xF5 <= b
  }

  /** Among leading and invalid bytes, exactly the rejected leads emit a
      single replacement of their own (after the resynchronising flush), and
      they leave the decoder empty. */
  lemma RejectedLeads(s: State, b: Byte)
    requires ValidState(s) && IsLeadingByte(b) != 0
    ensures IsRejectedLead(b) <==> Step(s, b).tokens == Replacements(s.numHave) + [CodepointReplacement]
    ensures IsRejectedLead(b) ==> IsEmpty(Step(s, b).state)
  {
    Resynchronise(s, b);
    var t := Step(s, b).tokens;
    if Step(s, b).tokens == Replacements(s.numHave) + [CodepointReplacement] {
      assert Step(Initial, b).tokens == [CodepointReplacement] by {
        assert t[s.numHave..] == Step(Initial, b).tokens;
        assert t[s.numHave..] == [CodepointReplacement];
      }
    }
  }

  /** The legal second bytes of RFC 3629 (section 4) after a three- or four-
      byte lead: narrower ranges after E0, ED, F0 and F4, 80..BF otherwise. */
  predicate LegalSecondByte(lead: Byte, c: Byte) {
    if lead == 0xE0 then 0xA0 <= c <= 0xBF
    else if lead == 0xED then 0x80 <= c <= 0x9F
    else if lead == 0xF0 then 0x90 <= c <= 0xBF
    else if lead == 0xF4 then 0x80 <= c <= 0x8F
    else 0x80 <= c <= 0xBF
  }

  /** After a three- or four-byte lead, a continuation byte outside the legal
      second-byte range is rejected at once: two replacements (one for each
      byte) and an empty decoder. A legal one is buffered silently. */
  lemma SecondByteCheck(s: State, lead: Byte, c: Byte)
    requires ValidState(s) && 0xE0 <= lead <= 0xF4 && IsLeadingByte(c) == 0
    ensures var o := Step(Step(s, lead).state, c);
            !LegalSecondByte(lead, c) <==> o.tokens == [CodepointReplacement, CodepointReplacement]
    ensures var o := Step(Step(s, lead).state, c);
            !LegalSecondByte(lead, c) ==> IsEmpty(o.state)
    ensures var o := Step(Step(s, lead).state, c);
            LegalSecondByte(lead, c) ==> o.tokens == [] && o.state.numHave == 2
  {
    if lead <= 0xEF {
      assert Step(s, lead).state == State(3, 1, (lead - 0xE0) * 0x1000);
      SecondOfThreeBytes(lead, c);
    } else {
      assert Step(s, lead).state == State(4, 1, (lead - 0xF0) * 0x40000);
      SecondOfFourBytes(lead, c);
    }
  }

  /** The second byte after a three-byte lead. */
  lemma SecondOfThreeBytes(lead: Byte, c: Byte)
    requires 0xE0 <= lead <= 0xEF && IsLeadingByte(c) == 0
    ensures var s1 := State(3, 1, (lead - 0xE0) * 0x1000);
            ValidState(s1) &&
            (!LegalSecondByte(lead, c) ==> Step(s1, c) == Output(State(0, 0, s1.currentValue), [R, R])) &&
            (LegalSecondByte(lead, c) ==> Step(s1, c).tokens == [] && Step(s1, c).state.numHave == 2)
  {
    var s1 := State(3, 1, (lead - 0xE0) * 0x1000);
    assert LegalSecondByte(lead, c) <==> !SecondByteRejected(s1, c % 64);
    if LegalSecondByte(lead, c) {
      ContinueSequence(s1, c);
    }
  }

  /** The second byte after a four-byte lead that is not above U+10FFFF. */
  lemma SecondOfFourBytes(lead: Byte, c: Byte)
    requires 0xF0 <= lead <= 0xF4 && IsLeadingByte(c) == 0
    ensures var s1 := State(4, 1, (lead - 0xF0) * 0x40000);
            ValidState(s1) &&
            (!LegalSecondByte(lead, c) ==> Step(s1, c) == Output(State(0, 0, s1.currentValue), [R, R])) &&
            (LegalSecondByte(lead, c) ==> Step(s1, c).tokens == [] && Step(s1, c).state.numHave == 2)
  {
    var s1 := State(4, 1, (lead - 0xF0) * 0x40000);
    assert LegalSecondByte(lead, c) <==> !SecondByteRejected(s1, c % 64);
    if LegalSecondByte(lead, c) {
      ContinueSequence(s1, c);
    }
  }

  /** A continuation byte with nothing buffered emits one replacement and
      leaves the decoder as it was. */
  lemma UnexpectedContinuation(s: State, b: Byte)
    requires ValidState(s) && IsEmpty(s) && IsLeadingByte(b) == 0
    ensures Step(s, b) == Output(s, [CodepointReplacement])
  {
  }

  /** `Flush` emits one replacement per buffered byte and empties the
      decoder, so a second `Flush` emits nothing and changes nothing. */
  lemma FlushIdempotent(s: State)
    requires ValidState(s)
    ensures |FlushStep(s).tokens| == s.numHave
    ensures FlushStep(FlushStep(s).state) == Output(FlushStep(s).state, [])
  {
  }

  /** The byte that completes a multibyte sequence emits one scalar value
      whose canonical encoding has exactly the sequence's length (no
      overlong form), and whose encoding ends in that byte. */
  lemma CompletionIsCanonical(s: State, b: Byte)
    requires ValidState(s) && s.numNeeded != 0 && s.numHave + 1 == s.numNeeded
    requires IsLeadingByte(b) == 0
    ensures var v := s.currentValue + b % 64;
            Step(s, b) == Output(State(0, 0, v), [v]) &&
            IsScalarValue(v) && EncodedLength(v) == s.numNeeded &&
            Encode(v)[s.numNeeded - 1] == b
  {
    ContinueSequence(s, b);
    var v := s.currentValue + b % 64;
    assert v % 64 == b % 64;
  }

  /** No byte outside C0 leads to a C0-range codepoint (0..31): multibyte
      sequences complete at U+0080 or above. */
  lemma NoC0Output(s: State, b: Byte)
    requires ValidState(s) && !IsC0ControlCode(b)
    ensures forall i :: 0 <= i < |Step(s, b).tokens| ==> Step(s, b).tokens[i] > 31
  {
    if IsLeadingByte(b) == 0 && s.numNeeded != 0 && s.numHave + 1 == s.numNeeded {
      CompletionIsCanonical(s, b);
    }
  }

  /** C2 80..C2 9F decode to U+0080..U+009F, the C1 range: the decoder does
      emit codepoints in 128..159. */
  lemma C1RangeCodepoints(k: int)
    requires 0 <= k < 32
    ensures Step(Initial, 0xC2) == Output(State(2, 1, 0x80), [])
    ensures Step(State(2, 1, 0x80), 0x80 + k) == Output(State(0, 0, 0x80 + k), [0x80 + k])
  {
    Decode2(Initial, 2, k);
  }

  // ---------------------------------------------------------------------
  // Worked examples, each byte's output written out.

  /** ED A0 80 (U+D800 attempted): nothing, two replacements, then one more
      for the unexpected continuation byte. */
  lemma ExampleSurrogate()
    ensures Step(Initial, 0xED) == Output(State(3, 1, 0xD000), [])
    ensures Step(State(3, 1, 0xD000), 0xA0) == Output(State(0, 0, 0xD000), [R, R])
    ensures Step(State(0, 0, 0xD000), 0x80) == Output(State(0, 0, 0xD000), [R])
  {
  }

  /** ED A0 'X': nothing, two replacements, then 'X'. */
  lemma ExampleSurrogateThenAscii()
    ensures Step(Initial, 0xED) == Output(State(3, 1, 0xD000), [])
    ensures Step(State(3, 1, 0xD000), 0xA0) == Output(State(0, 0, 0xD000), [R, R])
    ensures Step(State(0, 0, 0xD000), 'X' as int) == Output(State(0, 0, 0xD000), ['X' as int])
  {
  }

  /** F4 82 8D buffers three bytes; 'A' then emits three replacements and
      'A', while F8 emits four replacements, the most a byte can emit. */
  lemma ExampleInterruptedFourByte()
    ensures Step(Initial, 0xF4) == Output(State(4, 1, 0x100000), [])
    ensures Step(State(4, 1, 0x100000), 0x82) == Output(State(4, 2, 0x102000), [])
    ensures Step(State(4, 2, 0x102000), 0x8D) == Output(State(4, 3, 0x102340), [])
    ensures Step(State(4, 3, 0x102340), 'A' as int) == Output(State(0, 0, 0x102340), [R, R, R, 'A' as int])
    ensures Step(State(4, 3, 0x102340), 0xF8) == Output(State(0, 0, 0x102340), [R, R, R, R])
    ensures Step(State(4, 3, 0x102340), 0x85) == Output(State(0, 0, 0x102345), [0x102345])
  {
    Pow64Small();
  }
}
