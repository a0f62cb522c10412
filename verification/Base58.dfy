/** ipfs/evidence.ts and api/src/stellar/bytes32.ts: base58btc encoding and decoding, written
    separately in the two files, undo each other (sections 3 and 4 of draft-msporny-base58). */
module Base58 {
  import opened Host
  import opened Radix

  const DIGITS: string := "123456789"
  const UPPER: string := "ABCDEFGH" + "JKLMN" + "PQRSTUVWXYZ"
  const LOWER: string := "abcdefghijk" + "mnopqrstuvwxyz"
  const ALPHABET: string := DIGITS + UPPER + LOWER

  // ----- the alphabet -----

  /** The regular-expression class [1-9A-HJ-NP-Za-km-z]. */
  predicate InClass(c: char) {
    '1' <= c <= '9' || 'A' <= c <= 'H' || 'J' <= c <= 'N' || 'P' <= c <= 'Z' || 'a' <= c <= 'k' || 'm' <= c <= 'z'
  }

  /** JavaScript's `indexOf`: the first position of `c`, or -1. */
  function IndexIn(s: string, c: char): (r: int)
    ensures -1 <= r < |s|
    ensures r >= 0 ==> s[r] == c
    ensures r == -1 <==> c !in s
  {
    if s == [] then -1
    else if s[0] == c then 0
    else
      var i := IndexIn(s[1..], c);
      if i < 0 then -1 else i + 1
  }

  function CodePoint(d: nat): nat {
    d + if d < 9 then 49 else if d < 17 then 56 else if d < 22 then 57 else if d < 33 then 58 else if d < 44 then 64 else 65
  }

  lemma GlyphCode(d: nat)
    requires d < 58
    ensures |ALPHABET| == 58 && ALPHABET[d] as int == CodePoint(d)
  {
    if d < 9 {
      assert DIGITS[d] as int == CodePoint(d);
    } else if d < 33 {
      assert UPPER[d - 9] as int == CodePoint(d);
    } else {
      assert LOWER[d - 33] as int == CodePoint(d);
    }
  }

  lemma AlphabetSize()
    ensures |ALPHABET| == 58
  {
    GlyphCode(0);
  }

  /** The digit a character of the class stands for. */
  function DigitOf(c: char): nat
    requires InClass(c)
  {
    var n := c as int;
    if n <= 57 then n - 49
    else if n <= 72 then n - 56
    else if n <= 78 then n - 57
    else if n <= 90 then n - 58
    else if n <= 107 then n - 64
    else n - 65
  }

  /** The class and the alphabet are the same characters, and each has one digit. */
  lemma AlphabetIsClass(c: char)
    ensures c in ALPHABET <==> InClass(c)
    ensures InClass(c) ==> IndexIn(ALPHABET, c) == DigitOf(c) < 58
  {
    hide ALPHABET;
    AlphabetSize();
    if InClass(c) {
      GlyphCode(DigitOf(c));
      GlyphCode(IndexIn(ALPHABET, c));
    } else if c in ALPHABET {
      var d :| 0 <= d < |ALPHABET| && ALPHABET[d] == c;
      GlyphCode(d);
    }
  }

  lemma GlyphIndex(d: nat)
    requires d < 58
    ensures |ALPHABET| == 58 && IndexIn(ALPHABET, ALPHABET[d]) == d && InClass(ALPHABET[d])
  {
    hide ALPHABET;
    AlphabetSize();
    GlyphCode(d);
    GlyphCode(IndexIn(ALPHABET, ALPHABET[d]));
    AlphabetIsClass(ALPHABET[d]);
  }

  // ----- digits and text -----

  predicate IsText(s: string) {
    forall i :: 0 <= i < |s| ==> InClass(s[i])
  }

  function Spell(ds: seq<nat>): (s: string)
    requires InBase(ds, 58)
    ensures |s| == |ds|
  {
    AlphabetSize();
    seq(|ds|, i requires 0 <= i < |ds| => ALPHABET[ds[i]])
  }

  function Unspell(s: string): (ds: seq<nat>)
    requires IsText(s)
    ensures |ds| == |s|
  {
    seq(|s|, i requires 0 <= i < |s| => DigitOf(s[i]))
  }

  lemma SpellInBase(s: string)
    requires IsText(s)
    ensures InBase(Unspell(s), 58)
    ensures Spell(Unspell(s)) == s
  {
    hide ALPHABET;
    forall i | 0 <= i < |s|
      ensures Unspell(s)[i] < 58
      ensures |ALPHABET| == 58 && ALPHABET[Unspell(s)[i]] == s[i]
    {
      AlphabetIsClass(s[i]);
      AlphabetSize();
    }
  }

  lemma UnspellSpelled(ds: seq<nat>)
    requires InBase(ds, 58)
    ensures IsText(Spell(ds)) && Unspell(Spell(ds)) == ds
  {
    hide ALPHABET;
    AlphabetSize();
    forall i | 0 <= i < |ds|
      ensures InClass(Spell(ds)[i]) && DigitOf(Spell(ds)[i]) == ds[i]
    {
      GlyphIndex(ds[i]);
      AlphabetIsClass(Spell(ds)[i]);
    }
  }

  // ----- the two codecs -----

  /** What `encodeBase58btc` returns. */
  function Encode(bytes: seq<nat>): string
    requires InBase(bytes, 256)
  {
    RebaseInBase(bytes, 256, 58);
    Spell(Rebase(bytes, 256, 58))
  }

  /** What `decodeBase58btc` returns, when every character is in the alphabet. */
  function Decode(s: string): (bytes: seq<nat>)
    requires IsText(s)
    ensures InBase(bytes, 256)
  {
    RebaseInBase(Unspell(s), 58, 256);
    Rebase(Unspell(s), 58, 256)
  }

  /** Both codecs keep the number: the text, read in base 58, is the bytes, read in base 256. */
  lemma CodecsKeepTheNumber(bytes: seq<nat>, s: string)
    requires InBase(bytes, 256) && IsText(s)
    ensures IsText(Encode(bytes)) && Value(Unspell(Encode(bytes)), 58) == Value(bytes, 256)
    ensures Value(Decode(s), 256) == Value(Unspell(s), 58)
  {
    hide Rebase, Spell, Unspell, Value;
    RebaseInBase(bytes, 256, 58);
    UnspellSpelled(Rebase(bytes, 256, 58));
    RebaseValue(bytes, 256, 58);
    RebaseValue(Unspell(s), 58, 256);
  }

  /** Decoding undoes encoding exactly on byte strings with a non-zero byte. */
  lemma DecodeEncode(bytes: seq<nat>)
    requires InBase(bytes, 256)
    ensures IsText(Encode(bytes))
    ensures Decode(Encode(bytes)) == bytes <==> exists i :: 0 <= i < |bytes| && bytes[i] != 0
  {
    hide Rebase, Spell, Unspell;
    RebaseInBase(bytes, 256, 58);
    UnspellSpelled(Rebase(bytes, 256, 58));
    RebaseBackIff(bytes, 256, 58);
  }

  lemma NonZeroText(s: string)
    requires IsText(s)
    ensures HasNonZero(Unspell(s)) <==> exists i :: 0 <= i < |s| && s[i] != '1'
  {
    forall i | 0 <= i < |s|
      ensures Unspell(s)[i] != 0 <==> s[i] != '1'
    {
    }
    if i :| 0 <= i < |s| && s[i] != '1' {
      assert Unspell(s)[i] != 0;
    }
  }

  /** Encoding undoes decoding exactly on alphabet strings with a character other than `1`. */
  lemma EncodeDecode(s: string)
    requires IsText(s)
    ensures Encode(Decode(s)) == s <==> exists i :: 0 <= i < |s| && s[i] != '1'
  {
    hide Rebase, Spell, Unspell;
    var ds := Unspell(s);
    SpellInBase(s);
    NonZeroText(s);
    RebaseBackIff(ds, 58, 256);
    RebaseInBase(Decode(s), 256, 58);
    UnspellSpelled(Rebase(Decode(s), 256, 58));
  }

  // ----- the loops -----

  /** `x << 8` on a value that stays inside a 32-bit integer. */
  function ShiftLeft8(x: nat): nat
    requires x * 256 <= 0x7FFF_FFFF
  {
    x * 256
  }

  /** `x & 0xff` on a non-negative 32-bit value. */
  function LowByte(x: nat): nat
    requires x <= 0x7FFF_FFFF
  {
    x % 256
  }

  lemma MulAddStep(done: seq<nat>, ds: seq<nat>, p: nat, carry: nat, q: nat)
    requires q >= 2 && ds != []
    ensures var c := carry + ds[0] * p;
            done + MulAdd(ds, p, carry, q) == done + [c % q] + MulAdd(ds[1..], p, c / q, q)
  {
  }

  lemma PushStep(done: seq<nat>, carry: nat, q: nat)
    requires q >= 2 && carry > 0
    ensures done + FromNat(carry, q) == done + [carry % q] + FromNat(carry / q, q)
  {
  }

  /** One byte of input: digits := digits * 256 + byte, in base 58. */
  method PushByte(digits0: seq<nat>, byte: nat) returns (digits: seq<nat>)
    requires byte < 256 && InBase(digits0, 58)
    ensures digits == MulAdd(digits0, 256, byte, 58)
  {
    hide MulAdd, FromNat;
    digits := digits0;
    var carry: nat := byte;
    var i := 0;
    while i < |digits|
      invariant 0 <= i <= |digits| == |digits0| && carry < 256
      invariant digits[i..] == digits0[i..]
      invariant digits[..i] + MulAdd(digits[i..], 256, carry, 58) == MulAdd(digits0, 256, byte, 58)
    {
      assert digits[i] == digits[i..][0] == digits0[i..][0] == digits0[i];
      MulAddStep(digits[..i], digits[i..], 256, carry, 58);
      assert digits[i..][1..] == digits[i + 1..];
      ghost var before := digits;
      carry := carry + ShiftLeft8(digits[i]);
      digits := digits[i := carry % 58];
      assert digits[..i + 1] == before[..i] + [carry % 58];
      assert digits[i + 1..] == before[i + 1..] == digits0[i + 1..];
      carry := carry / 58;
      i := i + 1;
    }
    EmptyMulAdd(256, carry, 58);
    assert digits[i..] == [] && digits[..i] == digits;
    while carry > 0
      invariant digits + FromNat(carry, 58) == MulAdd(digits0, 256, byte, 58)
    {
      PushStep(digits, carry, 58);
      digits := digits + [carry % 58];
      carry := carry / 58;
    }
    NoDigits(58);
  }

  lemma EmptyMulAdd(p: nat, carry: nat, q: nat)
    requires q >= 2
    ensures MulAdd([], p, carry, q) == FromNat(carry, q)
  {
  }

  lemma NoDigits(q: nat)
    requires q >= 2
    ensures FromNat(0, q) == []
  {
  }

  /** One character of input: bytes := bytes * 58 + value, in base 256. */
  method PushGlyph(bytes0: seq<nat>, value: nat) returns (bytes: seq<nat>)
    requires value < 58 && InBase(bytes0, 256)
    ensures bytes == MulAdd(bytes0, 58, value, 256)
  {
    hide MulAdd, FromNat;
    bytes := bytes0;
    var carry: nat := value;
    var i := 0;
    while i < |bytes|
      invariant 0 <= i <= |bytes| == |bytes0| && carry < 58
      invariant bytes[i..] == bytes0[i..]
      invariant bytes[..i] + MulAdd(bytes[i..], 58, carry, 256) == MulAdd(bytes0, 58, value, 256)
    {
      assert bytes[i] == bytes[i..][0] == bytes0[i..][0] == bytes0[i];
      MulAddStep(bytes[..i], bytes[i..], 58, carry, 256);
      assert bytes[i..][1..] == bytes[i + 1..];
      ghost var before := bytes;
      carry := carry + bytes[i] * 58;
      bytes := bytes[i := LowByte(carry)];
      assert bytes[..i + 1] == before[..i] + [carry % 256];
      assert bytes[i + 1..] == before[i + 1..] == bytes0[i + 1..];
      carry := carry / 256;
      i := i + 1;
    }
    EmptyMulAdd(58, carry, 256);
    assert bytes[i..] == [] && bytes[..i] == bytes;
    while carry > 0
      invariant carry < 58
      invariant bytes + FromNat(carry, 256) == MulAdd(bytes0, 58, value, 256)
    {
      PushStep(bytes, carry, 256);
      bytes := bytes + [LowByte(carry)];
      carry := carry / 256;
    }
    NoDigits(256);
  }

  lemma ValueStep(ds: seq<nat>, n: nat, p: nat)
    requires n < |ds|
    ensures Value(ds[..n + 1], p) == p * Value(ds[..n], p) + ds[n]
  {
    assert ds[..n + 1][..n] == ds[..n];
  }

  method EncodeBase58btc(input: seq<nat>) returns (out: string)
    requires InBase(input, 256)
    ensures out == Encode(input)
  {
    hide Value, Reverse, LeadingZeros, ALPHABET, MulAdd, FromNat, Digits;
    var digits := [0];
    StartDigits(input, 256, 58);
    var n := 0;
    while n < |input|
      invariant 0 <= n <= |input|
      invariant digits == Radix.Digits(Value(input[..n], 256), 58)
    {
      ghost var v := Value(input[..n], 256);
      DigitsCanonical(v, 58);
      digits := PushByte(digits, input[n]);
      StepIsArithmetic(v, 256, input[n], 58);
      ValueStep(input, n, 256);
      n := n + 1;
    }
    assert input[..n] == input;
    DigitsCanonical(Value(input, 256), 58);
    var leadingZeros := 0;
    while leadingZeros < |input| && input[leadingZeros] == 0
      invariant 0 <= leadingZeros <= |input|
      invariant forall i :: 0 <= i < leadingZeros ==> input[i] == 0
    {
      leadingZeros := leadingZeros + 1;
    }
    LeadingZerosIs(input, leadingZeros);
    out := SpellOut(leadingZeros, digits);
  }

  /** The accumulator starts as the single digit 0. */
  lemma StartDigits(input: seq<nat>, p: nat, q: nat)
    requires q >= 2
    ensures Radix.Digits(Value(input[..0], p), q) == [0]
  {
  }

  lemma LeadingZerosIs(ds: seq<nat>, k: nat)
    requires k <= |ds| && (forall i :: 0 <= i < k ==> ds[i] == 0) && (k < |ds| ==> ds[k] != 0)
    ensures LeadingZeros(ds) == k
  {
  }

  method SpellOut(zeros: nat, digits: seq<nat>) returns (out: string)
    requires InBase(digits, 58)
    ensures InBase(Zeros(zeros) + Reverse(digits), 58)
    ensures out == Spell(Zeros(zeros) + Reverse(digits))
  {
    hide ALPHABET;
    AlphabetSize();
    ghost var all := Zeros(zeros) + Reverse(digits);
    out := seq(zeros, _ => ALPHABET[0]);
    var i := |digits|;
    while i > 0
      invariant 0 <= i <= |digits|
      invariant |out| == zeros + |digits| - i
      invariant forall j :: 0 <= j < |out| ==> out[j] == ALPHABET[all[j]]
    {
      i := i - 1;
      assert all[|out|] == digits[i];
      out := out + [ALPHABET[digits[i]]];
    }
    assert out == Spell(all);
  }

  lemma UnspellStep(s: string, n: nat)
    requires n < |s| && IsText(s[..n]) && InClass(s[n])
    ensures IsText(s[..n + 1])
    ensures Unspell(s[..n + 1]) == Unspell(s[..n]) + [DigitOf(s[n])]
    ensures Value(Unspell(s[..n + 1]), 58) == 58 * Value(Unspell(s[..n]), 58) + DigitOf(s[n])
  {
    hide DigitOf, InClass;
    var ds := Unspell(s[..n + 1]);
    assert s[..n + 1] == s[..n] + [s[n]];
    assert ds[..n] == Unspell(s[..n]);
    ValueStep(ds, n, 58);
    assert ds[..n + 1] == ds;
  }

  /** The little-endian byte accumulator over all characters, or None at one outside the alphabet. */
  method Accumulate(input: string) returns (r: Option<seq<nat>>)
    ensures r == if IsText(input) then Some(Radix.Digits(Value(Unspell(input), 58), 256)) else None
  {
    hide Value, ALPHABET, MulAdd, Digits, IndexIn, DigitOf, InClass, Unspell;
    var bytes := [0];
    var n := 0;
    StartAccumulator(input);
    while n < |input|
      invariant 0 <= n <= |input| && IsText(input[..n])
      invariant bytes == Radix.Digits(Value(Unspell(input[..n]), 58), 256)
    {
      var value := IndexIn(ALPHABET, input[n]);
      AlphabetIsClass(input[n]);
      if value < 0 {
        return None;
      }
      ghost var v := Value(Unspell(input[..n]), 58);
      DigitsCanonical(v, 256);
      bytes := PushGlyph(bytes, value);
      StepIsArithmetic(v, 58, value, 256);
      UnspellStep(input, n);
      n := n + 1;
    }
    assert input[..n] == input;
    return Some(bytes);
  }

  lemma StartAccumulator(input: string)
    ensures Radix.Digits(Value(Unspell(input[..0]), 58), 256) == [0]
  {
  }

  /** The result buffer: zero bytes first, then the accumulator reversed. */
  method FillBuffer(leadingZeros: nat, bytes: seq<nat>) returns (result: seq<nat>)
    ensures result == Zeros(leadingZeros) + Reverse(bytes)
  {
    var buffer := new nat[leadingZeros + |bytes|](_ => 0);
    var i := 0;
    while i < |bytes|
      invariant 0 <= i <= |bytes|
      invariant forall j :: 0 <= j < buffer.Length ==>
                  buffer[j] == if leadingZeros <= j < leadingZeros + i then bytes[|bytes| - 1 - (j - leadingZeros)] else 0
    {
      buffer[leadingZeros + i] := bytes[|bytes| - 1 - i];
      i := i + 1;
    }
    result := buffer[..];
  }

  method DecodeBase58btc(input: string) returns (r: Option<seq<nat>>)
    ensures r == if IsText(input) then Some(Decode(input)) else None
  {
    hide Value, Reverse, LeadingZeros, Digits, Unspell, InClass;
    var accumulated := Accumulate(input);
    if accumulated.None? {
      return None;
    }
    var leadingZeros := 0;
    while leadingZeros < |input| && input[leadingZeros] == '1'
      invariant 0 <= leadingZeros <= |input|
      invariant forall i :: 0 <= i < leadingZeros ==> input[i] == '1'
    {
      leadingZeros := leadingZeros + 1;
    }
    LeadingOnes(input, leadingZeros);
    var result := FillBuffer(leadingZeros, accumulated.value);
    return Some(result);
  }

  lemma LeadingOnes(s: string, k: nat)
    requires IsText(s) && k <= |s|
    requires (forall i :: 0 <= i < k ==> s[i] == '1') && (k < |s| ==> s[k] != '1')
    ensures LeadingZeros(Unspell(s)) == k
  {
    LeadingZerosIs(Unspell(s), k);
  }
}
