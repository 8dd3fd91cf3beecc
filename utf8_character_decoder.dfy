/** The UTF-8 decoder (RFC 3629): a byte-at-a-time state machine that
    resynchronises on every leading byte and reports invalid input with
    replacement tokens as early as the input makes it certain.

    The decoding step is given first as functions over a `State` value; the
    class `Utf8CharacterDecoder` then keeps that state in fields and its
    methods are proved to move it exactly as the functions say. */
module Utf8 {
  import opened Tokens
  import opened Decoding

  /** A Unicode scalar value: at most U+10FFFF and not a surrogate. */
  predicate IsScalarValue(v: int) {
    0 <= v <= 0x10FFFF && !(0xD800 <= v <= 0xDFFF)
  }

  /** Classifies a byte by its high bits: 0 for a continuation byte
      (10xxxxxx), the length 1..4 of the encoding a leading byte starts, or
      -1 for a byte that occurs in no encoding (11111xxx). */
  function IsLeadingByte(b: Byte): (n: int)
    ensures n == 0 <==> 0x80 <= b <= 0xBF
    ensures n == 1 <==> b <= 0x7F
    ensures n == 2 <==> 0xC0 <= b <= 0xDF
    ensures n == 3 <==> 0xE0 <= b <= 0xEF
    ensures n == 4 <==> 0xF0 <= b <= 0xF7
    ensures n == -1 <==> 0xF8 <= b
  {
    // The source's mask tests `b & m == p`, in the source's order, each
    // written as the range of bytes it accepts (`MasksAreRanges`).
    if 0x80 <= b <= 0xBF then 0       // 10xxxxxx
    else if b <= 0x7F then 1          // 0xxxxxxx
    else if b <= 0xDF then 2          // 110xxxxx
    else if b <= 0xEF then 3          // 1110xxxx
    else if b <= 0xF7 then 4          // 11110xxx
    else -1
  }

  /** The source tests a byte's high bits with masks. On the byte's value
      each test holds exactly on a range. */
  lemma MasksAreRanges(x: bv8)
    ensures (x & 0xC0 == 0x80) <==> 0x80 <= x as int <= 0xBF
    ensures (x & 0x80 == 0x00) <==> x as int <= 0x7F
    ensures (x & 0xE0 == 0xC0) <==> 0xC0 <= x as int <= 0xDF
    ensures (x & 0xF0 == 0xE0) <==> 0xE0 <= x as int <= 0xEF
    ensures (x & 0xF8 == 0xF0) <==> 0xF0 <= x as int <= 0xF7
  {
  }

  /** The source extracts a byte's payload bits with masks. Each extraction
      is the byte's (unsigned) remainder by the next power of two. */
  lemma MasksAreRemainders(x: bv8)
    ensures x & 0x3F == x % 0x40
    ensures x & 0x1F == x % 0x20
    ensures x & 0x0F == x % 0x10
    ensures x & 0x07 == x % 0x08
  {
  }

  // The source folds a payload into the value with `current_value_ |= data
  // << k` on a 32-bit codepoint, k being 0, 6, 12 or 18; the model adds
  // `data * Pow64(k / 6)` instead. The next three lemmas bridge the two:
  // `ValidState` keeps every bit of the value below k + 6 clear (the value is
  // a multiple of 2^(k+6)), so the payload's bits are clear in the value, an
  // OR of disjoint bits is their sum, and the shift is the multiplication.

  /** An OR of bit patterns with no bit in common is their sum. */
  lemma DisjointOrIsSum(x: bv32, y: bv32)
    requires x & y == 0
    ensures x | y == x + y
  {
  }

  /** A six-bit payload shifted to position k falls on bits that are clear in
      a value whose bits below k + 6 are all clear. */
  lemma PayloadBitsAreClear(v: bv32, data: bv32)
    requires data < 64
    ensures v & 0x3F == 0 ==> v & data == 0
    ensures v & 0xFFF == 0 ==> v & (data << 6) == 0
    ensures v & 0x3FFFF == 0 ==> v & (data << 12) == 0
    ensures v & 0xFFFFFF == 0 ==> v & (data << 18) == 0
  {
  }

  /** A payload shift is a multiplication by the group's weight 64^j. */
  lemma ShiftIsProduct(data: bv32)
    requires data < 64
    ensures data << 6 == data * 0x40
    ensures data << 12 == data * 0x1000
    ensures data << 18 == data * 0x40000
  {
  }

  /** 64^k: the weight of the k-th 6-bit group from the right. */
  function Pow64(k: nat): (p: nat)
    ensures p >= 1
  {
    if k == 0 then 1 else 64 * Pow64(k - 1)
  }

  /** The decoder's fields: the length of the sequence being decoded (0 when
      none is), how many of its bytes have been seen, and the bits gathered
      so far (meaningful only while `numNeeded` is nonzero). */
  datatype State = State(numNeeded: nat, numHave: nat, currentValue: int)

  predicate IsEmpty(s: State) {
    s.numNeeded == 0 && s.numHave == 0
  }

  /** The states the decoder can be in between calls. Beyond the documented
      `numNeeded` in {0, 2, 3, 4} and `numHave < numNeeded`, it pins the
      gathered bits: the low 6 * (numNeeded - numHave) bits are zero (so that
      or-ing in a continuation byte is an addition), and every completion is
      already known to avoid overlong forms, surrogates and values above
      U+10FFFF, except for the one second-byte check still to come. */
  predicate ValidState(s: State) {
    var v := s.currentValue;
    match s.numNeeded
    case 0 => s.numHave == 0
    case 2 => s.numHave == 1 && v % 64 == 0 && 0x80 <= v <= 0x7C0
    case 3 =>
      if s.numHave == 1 then v % 0x1000 == 0 && 0 <= v <= 0xF000
      else s.numHave == 2 && v % 64 == 0 && 0x800 <= v <= 0xFFC0 && !(0xD800 <= v <= 0xDFFF)
    case 4 =>
      if s.numHave == 1 then v % 0x40000 == 0 && 0 <= v <= 0x100000
      else if s.numHave == 2 then v % 0x1000 == 0 && 0x10000 <= v <= 0x10F000
      else s.numHave == 3 && v % 64 == 0 && 0x10000 <= v <= 0x10FFC0
    case _ => false
  }

  /** A valid state has the documented shape, and the bits gathered so far
      never exceed the largest scalar value. */
  lemma ValidStateShape(s: State)
    requires ValidState(s)
    ensures s.numNeeded in {0, 2, 3, 4}
    ensures s.numNeeded == 0 <==> s.numHave == 0
    ensures s.numNeeded != 0 ==> 1 <= s.numHave < s.numNeeded && 0 <= s.currentValue <= 0x10FFFF
  {
  }

  /** The state of a freshly constructed decoder. */
  const Initial: State := State(0, 0, 0)

  /** The new state of a step and the tokens it appends. */
  datatype Output = Output(state: State, tokens: seq<Token>)

  /** n replacement tokens. */
  function Replacements(n: nat): (r: seq<Token>)
    ensures |r| == n
    ensures forall i :: 0 <= i < n ==> r[i] == CodepointReplacement
  {
    if n == 0 then [] else Replacements(n - 1) + [CodepointReplacement]
  }

  /** Abandons any buffered bytes, one replacement token for each. The
      gathered bits are left as they are, as the source leaves them. */
  function FlushStep(s: State): (r: Output)
    ensures IsEmpty(r.state) && r.state.currentValue == s.currentValue
    ensures r.tokens == Replacements(s.numHave)
  {
    Output(s.(numNeeded := 0, numHave := 0), Replacements(s.numHave))
  }

  /** A leading byte of length `n` (or an invalid byte, n = -1): flush, then
      either emit at once or start buffering. */
  function LeadingStep(s: State, n: int, b: Byte): (r: Output)
    requires ValidState(s) && n == IsLeadingByte(b) && n != 0
    ensures ValidState(r.state)
    ensures s.numHave <= |r.tokens| <= s.numHave + 1
    ensures r.tokens[..s.numHave] == Replacements(s.numHave)
    ensures forall i :: 0 <= i < |r.tokens| ==> IsScalarValue(r.tokens[i])
  {
    var f := FlushStep(s);
    var empty := f.state;
    if n == 1 then
      Output(empty, f.tokens + [b])
    else if n == 2 then
      var data := b % 0x20;  // b & 0x1F
      if data < 0x02 then  // overlong: 1100000x
        Output(empty, f.tokens + [CodepointReplacement])
      else
        Output(State(2, 1, data * 64), f.tokens)
    else if n == 3 then
      Output(State(3, 1, b % 0x10 * 0x1000), f.tokens)  // (b & 0x0F) << 12
    else if n == 4 then
      var data := b % 0x08;  // b & 0x07
      if data >= 0x05 then  // above U+10FFFF: 11110101..11110111
        Output(empty, f.tokens + [CodepointReplacement])
      else
        Output(State(4, 1, data * 0x40000), f.tokens)
    else  // 11111xxx
      Output(empty, f.tokens + [CodepointReplacement])
  }

  /** The second-byte checks: after a 3-byte lead, E0 followed by 80..9F
      (overlong) or ED followed by A0..BF (a surrogate); after a 4-byte lead,
      F0 followed by 80..8F (overlong) or F4 followed by 90..BF (above
      U+10FFFF). `data` is the continuation byte's six payload bits. */
  predicate SecondByteRejected(s: State, data: int)
  {
    var v := s.currentValue;
    (s.numNeeded == 3 && s.numHave == 1 && ((v == 0 && data < 0x20) || (v == 0xD000 && data >= 0x20))) ||
    (s.numNeeded == 4 && s.numHave == 1 && ((v == 0 && data < 0x10) || (v >= 0x100000 && data >= 0x10)))
  }

  /** The second-byte checks reject exactly the payloads that would make the
      value overlong, a surrogate or larger than U+10FFFF, and only at the
      second byte. */
  lemma SecondByteRejectedExactly(s: State, data: int)
    requires ValidState(s) && 0 <= data < 64
    ensures s.numNeeded == 3 && s.numHave == 1 ==>
              var w := s.currentValue + data * 64;
              (SecondByteRejected(s, data) <==> w < 0x800 || 0xD800 <= w <= 0xDFFF)
    ensures s.numNeeded == 4 && s.numHave == 1 ==>
              var w := s.currentValue + data * 0x1000;
              (SecondByteRejected(s, data) <==> w < 0x10000 || w >= 0x110000)
    ensures s.numHave != 1 ==> !SecondByteRejected(s, data)
  {
  }

  /** Folds six payload bits into a buffered sequence and emits the codepoint
      once the sequence is complete. The source `|=`s the bits in; they are
      disjoint from those already gathered (`ValidState`), so this is an
      addition. */
  function Fold(s: State, data: int): (r: Output)
    requires ValidState(s) && s.numNeeded != 0 && 0 <= data < 64 && !SecondByteRejected(s, data)
    ensures ValidState(r.state)
    ensures |r.tokens| <= 1
    ensures forall i :: 0 <= i < |r.tokens| ==> IsScalarValue(r.tokens[i])
  {
    var have := s.numHave + 1;
    var value := s.currentValue + data * Pow64(s.numNeeded - have);
    FoldKeepsValid(s, data);
    if have == s.numNeeded then
      Output(State(0, 0, value), [value])
    else
      Output(State(s.numNeeded, have, value), [])
  }

  /** A continuation byte: unexpected when nothing is buffered; rejects an
      overlong or out-of-range sequence at its second byte (two replacement
      tokens, one per byte seen); otherwise folds it in. */
  function ContinuationStep(s: State, b: Byte): (r: Output)
    requires ValidState(s) && IsLeadingByte(b) == 0
    ensures ValidState(r.state)
    ensures |r.tokens| <= 2
    ensures forall i :: 0 <= i < |r.tokens| ==> IsScalarValue(r.tokens[i])
  {
    var data := b % 0x40;  // b & 0x3F
    if s.numNeeded == 0 then  // unexpected continuation
      Output(s, [CodepointReplacement])
    else if SecondByteRejected(s, data) then
      Output(s.(numNeeded := 0, numHave := 0), [CodepointReplacement, CodepointReplacement])
    else
      Fold(s, data)
  }

  lemma Pow64Small()
    ensures Pow64(0) == 1 && Pow64(1) == 64 && Pow64(2) == 0x1000
  {
    assert Pow64(1) == 64 * Pow64(0);
    assert Pow64(2) == 64 * Pow64(1);
  }

  /** Folding a continuation byte's six bits into a buffered sequence that
      passed the second-byte checks keeps the state valid, and a completed
      value is a scalar value. */
  lemma FoldKeepsValid(s: State, data: int)
    requires ValidState(s) && s.numNeeded != 0 && 0 <= data < 64 && !SecondByteRejected(s, data)
    ensures var have := s.numHave + 1;
            var value := s.currentValue + data * Pow64(s.numNeeded - have);
            if have == s.numNeeded then IsScalarValue(value)
            else ValidState(State(s.numNeeded, have, value))
  {
    Pow64Small();
    var v := s.currentValue;
    if s.numNeeded == 3 && s.numHave == 1 {
      SecondOfThree(v, data);
    } else if s.numNeeded == 4 && s.numHave == 1 {
      SecondOfFour(v, data);
    } else if s.numNeeded == 4 && s.numHave == 2 {
      ThirdOfFour(v, data);
    }
  }

  /** The second byte of a three-byte sequence: bits 6..11 are filled in,
      and the checks on E0 and ED keep the value canonical and off the
      surrogates. */
  lemma SecondOfThree(v: int, data: int)
    requires v % 0x1000 == 0 && 0 <= v <= 0xF000 && 0 <= data < 64
    requires !((v == 0 && data < 0x20) || (v == 0xD000 && data >= 0x20))
    ensures var value := v + data * 64;
            value % 64 == 0 && 0x800 <= value <= 0xFFC0 && !(0xD800 <= value <= 0xDFFF)
  {
    var p := v / 0x1000;
    assert v == p * 0x1000;
    assert v + data * 64 == (p * 64 + data) * 64;
  }

  /** The second byte of a four-byte sequence: bits 12..17 are filled in,
      and the checks on F0 and F4 keep the value in U+10000..U+10FFFF. */
  lemma SecondOfFour(v: int, data: int)
    requires v % 0x40000 == 0 && 0 <= v <= 0x100000 && 0 <= data < 64
    requires !((v == 0 && data < 0x10) || (v >= 0x100000 && data >= 0x10))
    ensures var value := v + data * 0x1000;
            value % 0x1000 == 0 && 0x10000 <= value <= 0x10F000
  {
    var p := v / 0x40000;
    assert v == p * 0x40000;
    assert v + data * 0x1000 == (p * 64 + data) * 0x1000;
  }

  /** The third byte of a four-byte sequence fills in bits 6..11. */
  lemma ThirdOfFour(v: int, data: int)
    requires v % 0x1000 == 0 && 0x10000 <= v <= 0x10F000 && 0 <= data < 64
    ensures var value := v + data * 64;
            value % 64 == 0 && 0x10000 <= value <= 0x10FFC0
  {
    var p := v / 0x1000;
    assert v == p * 0x1000;
    assert v + data * 64 == (p * 64 + data) * 64;
  }

  /** One byte. At most four tokens: up to three flushed replacements and
      one for the byte itself; every token is a Unicode scalar value. */
  function Step(s: State, b: Byte): (r: Output)
    requires ValidState(s)
    ensures ValidState(r.state)
    ensures |r.tokens| <= 4
    ensures forall i :: 0 <= i < |r.tokens| ==> IsScalarValue(r.tokens[i])
  {
    var n := IsLeadingByte(b);
    if n != 0 then LeadingStep(s, n, b) else ContinuationStep(s, b)
  }

  /** The decoder's fields, updated in place. */
  class Utf8CharacterDecoder {
    /** Stored and reported, but the decoding methods emit
        `CodepointReplacement`, as the source's method bodies do. */
    const replacementToken: Token
    var numNeeded: nat
    var numHave: nat
    var currentValue: int

    function Current(): State
      reads this
    {
      State(numNeeded, numHave, currentValue)
    }

    ghost predicate Valid()
      reads this
    {
      ValidState(Current())
    }

    /** A fresh decoder is empty; the replacement token defaults to U+FFFD. */
    constructor (replacementToken: Token := CodepointReplacement)
      ensures Valid() && IsEmpty(Current())
      ensures this.replacementToken == replacementToken
    {
      this.replacementToken := replacementToken;
      numNeeded, numHave, currentValue := 0, 0, 0;
    }

    /** The token this decoder was configured to emit for undecodable
        input. */
    function ReplacementToken(): (r: Token)
      ensures r == replacementToken
    {
      replacementToken
    }

    /** Appends one replacement per buffered byte and empties the decoder. */
    method Flush(output: seq<Token>) returns (result: seq<Token>)
      modifies this
      ensures Current() == FlushStep(old(Current())).state
      ensures result == output + FlushStep(old(Current())).tokens
      ensures Valid()
    {
      result := output;
      var i := 0;
      while i < numHave
        invariant 0 <= i <= numHave
        invariant result == output + Replacements(i)
      {
        result := result + [CodepointReplacement];
        i := i + 1;
      }
      numNeeded := 0;
      numHave := 0;
    }

    /** Appends the tokens for one byte. */
    method ProcessByte(b: Byte, output: seq<Token>) returns (result: seq<Token>)
      requires Valid()
      modifies this
      ensures Current() == Step(old(Current()), b).state
      ensures result == output + Step(old(Current()), b).tokens
      ensures Valid()
    {
      var n := IsLeadingByte(b);
      if n != 0 {
        result := ProcessLeadingByte(n, b, output);
      } else {
        result := ProcessContinuationByte(b, output);
      }
    }

    method ProcessLeadingByte(n: int, b: Byte, output: seq<Token>) returns (result: seq<Token>)
      requires Valid() && n == IsLeadingByte(b) && n != 0
      modifies this
      ensures Current() == LeadingStep(old(Current()), n, b).state
      ensures result == output + LeadingStep(old(Current()), n, b).tokens
      ensures Valid()
    {
      ghost var f := FlushStep(Current());
      ghost var r := LeadingStep(Current(), n, b);
      result := Flush(output);
      if n == 1 {
        result := result + [b];
        assert r == Output(f.state, f.tokens + [b]);
      } else if n == 2 {
        var data := b % 0x20;
        if data < 0x02 {
          result := result + [CodepointReplacement];
          assert r == Output(f.state, f.tokens + [CodepointReplacement]);
        } else {
          numNeeded, numHave := 2, 1;
          currentValue := data * 64;
          assert r == Output(Current(), f.tokens);
        }
      } else if n == 3 {
        numNeeded, numHave := 3, 1;
        currentValue := b % 0x10 * 0x1000;
        assert r == Output(Current(), f.tokens);
      } else if n == 4 {
        var data := b % 0x08;
        if data >= 0x05 {
          result := result + [CodepointReplacement];
          assert r == Output(f.state, f.tokens + [CodepointReplacement]);
        } else {
          numNeeded, numHave := 4, 1;
          currentValue := data * 0x40000;
          assert r == Output(Current(), f.tokens);
        }
      } else {
        result := result + [CodepointReplacement];
        assert r == Output(f.state, f.tokens + [CodepointReplacement]);
      }
    }

    method ProcessContinuationByte(b: Byte, output: seq<Token>) returns (result: seq<Token>)
      requires Valid() && IsLeadingByte(b) == 0
      modifies this
      ensures Current() == ContinuationStep(old(Current()), b).state
      ensures result == output + ContinuationStep(old(Current()), b).tokens
      ensures Valid()
    {
      ghost var s0 := Current();
      var data := b % 0x40;
      var rejected := false;
      if numNeeded == 0 {  // unexpected continuation
        result := output + [CodepointReplacement];
        return;
      } else if numNeeded == 3 {
        rejected := numHave == 1 && ((currentValue == 0 && data < 0x20) || (currentValue == 0xD000 && data >= 0x20));
      } else if numNeeded == 4 {
        rejected := numHave == 1 && ((currentValue == 0 && data < 0x10) || (currentValue >= 0x100000 && data >= 0x10));
      }
      assert rejected == SecondByteRejected(s0, data);
      if rejected {
        result := output + [CodepointReplacement, CodepointReplacement];
        numNeeded, numHave := 0, 0;
        return;
      }
      result := FoldIn(data, output);
    }

    /** The tail of `ProcessContinuationByte`, once the byte is known to
        continue the buffered sequence. */
    method FoldIn(data: int, output: seq<Token>) returns (result: seq<Token>)
      requires Valid() && numNeeded != 0 && 0 <= data < 64 && !SecondByteRejected(Current(), data)
      modifies this
      ensures Current() == Fold(old(Current()), data).state
      ensures result == output + Fold(old(Current()), data).tokens
      ensures Valid()
    {
      ghost var folded := Fold(Current(), data);
      assert numHave < numNeeded;
      numHave := numHave + 1;
      currentValue := currentValue + data * Pow64(numNeeded - numHave);
      if numHave == numNeeded {
        result := output + [currentValue];
        numNeeded, numHave := 0, 0;
      } else {
        result := output;
      }
      assert Current() == folded.state;
    }
  }
}
