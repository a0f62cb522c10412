/** api/src/stellar/bytes32.ts and ipfs/evidence.ts: IPFS CIDv0 names of SHA-256 digests, and the
    decoder that turns a hex string, a CIDv0 or raw bytes into the 32 bytes of a contract argument. */
module ContentId {
  import opened Host
  import opened Radix
  import opened Base58

  type Digest = d: seq<nat> | |d| == 32 && InBase(d, 256) witness seq(32, _ => 0)

  /** sha2-256 multihash prefix: code 0x12, length 0x20. */
  const MULTIHASH: seq<nat> := [0x12, 0x20]

  function Multihash(d: Digest): (m: seq<nat>)
    ensures |m| == 34 && InBase(m, 256)
  {
    MULTIHASH + d
  }

  // ----- the shape of a CIDv0 -----

  /** The regular expression ^Qm[1-9A-HJ-NP-Za-km-z]{44}$. */
  predicate IsCidV0(s: string) {
    |s| == 46 && s[0] == 'Q' && s[1] == 'm' && forall i :: 2 <= i < 46 ==> InClass(s[i])
  }

  lemma Powers()
    ensures Pow(256, 32) == 115792089237316195423570985008687907853269984665640564039457584007913129639936
    ensures Pow(58, 44) == 389790918707373377135528568990913592653094657612049369038476873218241589149696
  {
    assert Pow(256, 8) == 18446744073709551616;
    assert Pow(256, 16) == 340282366920938463463374607431768211456;
    assert Pow(256, 24) == 6277101735386680763835789423207666416102355444464034512896;
    assert Pow(58, 6) == 38068692544;
    assert Pow(58, 12) == 1449225352009601191936;
    assert Pow(58, 18) == 55170114352623680311867516125184;
    assert Pow(58, 24) == 2100254120907352485526230505830591911428096;
    assert Pow(58, 30) == 79953928393091004080532279173738402825689466587316224;
    assert Pow(58, 36) == 3043741517681573408154032751732621616256793128331902261559033856;
  }

  lemma MultihashValue(d: Digest)
    ensures 4640 * Pow(256, 32) <= Value(Multihash(d), 256) < 4641 * Pow(256, 32)
  {
    hide Pow, Value;
    ValueOfConcat(MULTIHASH, d, 256);
    ValueBelowPow(d, 256);
    PrefixValue();
  }

  lemma PrefixValue()
    ensures Value(MULTIHASH, 256) == 4640
  {
    assert MULTIHASH[..1] == [0x12];
    assert [0x12][..0] == [];
    assert Value([0x12], 256) == 0x12;
  }

  /** Above its lowest 44 base-58 digits every such multihash reads 1378 = 23 * 58 + 44: `Qm`. */
  lemma MultihashTop(d: Digest)
    ensures Shift(Value(Multihash(d), 256), 58, 44) == 1378
  {
    hide Pow, Value, Shift;
    var n := Value(Multihash(d), 256);
    MultihashValue(d);
    ShiftBounds(n, 58, 44);
    Powers();
  }

  lemma TopDigits()
    ensures FromNat(1378, 58) == [44, 23]
  {
    assert FromNat(23, 58) == [23];
  }

  lemma MultihashDigits(d: Digest)
    ensures Value(Multihash(d), 256) > 0
    ensures var ds := FromNat(Value(Multihash(d), 256), 58); |ds| == 46 && ds[45] == 23 && ds[44] == 44
  {
    hide Pow, Value, Shift, FromNat;
    var n := Value(Multihash(d), 256);
    MultihashTop(d);
    ShiftIsTop(n, 58, 44);
    TopDigits();
    MultihashValue(d);
    Powers();
    var ds := FromNat(n, 58);
    assert ds[44] == ds[44..][0] && ds[45] == ds[44..][1];
  }

  lemma QmGlyphs()
    ensures |ALPHABET| == 58 && ALPHABET[23] == 'Q' && ALPHABET[44] == 'm'
  {
    hide ALPHABET;
    GlyphCode(23);
    GlyphCode(44);
    assert ALPHABET[23] as int == 'Q' as int;
    assert ALPHABET[44] as int == 'm' as int;
  }

  lemma NoLeadingZeros(d: Digest)
    ensures LeadingZeros(Multihash(d)) == 0
    ensures Multihash(d)[0] != 0
  {
  }

  /** Every SHA-256 digest has a CIDv0: 46 characters starting `Qm`. */
  lemma DigestsHaveCids(d: Digest)
    ensures IsCidV0(Encode(Multihash(d)))
    ensures IsText(Encode(Multihash(d)))
  {
    hide Value, FromNat, Reverse, LeadingZeros, ALPHABET, InClass;
    var m := Multihash(d);
    var out := Rebase(m, 256, 58);
    RebaseInBase(m, 256, 58);
    NoLeadingZeros(d);
    MultihashDigits(d);
    assert Zeros(0) == [];
    assert out == Reverse(FromNat(Value(m, 256), 58));
    assert out[0] == 23 && out[1] == 44;
    QmGlyphs();
    UnspellSpelled(out);
  }

  // ----- ipfs/evidence.ts -----

  method IpfsCidV0FromBytes(payload: seq<nat>, sha256: seq<nat> -> Digest) returns (cid: string)
    requires InBase(payload, 256)
    ensures IsCidV0(cid)
    ensures IsText(cid) && Decode(cid) == MULTIHASH + sha256(payload)
  {
    hide Encode, Decode, IsText, InClass;
    var digest := sha256(payload);
    cid := EncodeBase58btc(Multihash(digest));
    DigestsHaveCids(digest);
    CidDecodes(digest);
  }

  lemma CidDecodes(d: Digest)
    ensures IsText(Encode(Multihash(d)))
    ensures Decode(Encode(Multihash(d))) == MULTIHASH + d
  {
    hide Encode, Decode, IsText;
    NoLeadingZeros(d);
    DecodeEncode(Multihash(d));
  }

  /** Two payloads get the same name exactly when their digests agree. */
  lemma CidsAreInjective(d: Digest, e: Digest)
    ensures Encode(Multihash(d)) == Encode(Multihash(e)) <==> d == e
  {
    hide Encode, Decode, IsText;
    CidDecodes(d);
    CidDecodes(e);
    assert (MULTIHASH + d)[2..] == d && (MULTIHASH + e)[2..] == e;
  }

  // ----- api/src/stellar/bytes32.ts -----

  datatype Value32 = Raw(bytes: seq<nat>) | Text(text: string)

  datatype InvalidProjectId = InvalidProjectId(input: string, decodedLength: Option<nat>)

  /** JavaScript white space and line terminators, as `trim` strips them. */
  predicate IsSpace(c: char) {
    var n := c as int;
    || 0x09 <= n <= 0x0D || n == 0x20 || n == 0xA0 || n == 0x1680 || 0x2000 <= n <= 0x200A
    || n == 0x2028 || n == 0x2029 || n == 0x202F || n == 0x205F || n == 0x3000 || n == 0xFEFF
  }

  predicate AllSpace(s: string) {
    forall i :: 0 <= i < |s| ==> IsSpace(s[i])
  }

  function TrimStart(s: string): string {
    if s != [] && IsSpace(s[0]) then TrimStart(s[1..]) else s
  }

  function TrimEnd(s: string): string {
    if s != [] && IsSpace(s[|s| - 1]) then TrimEnd(s[..|s| - 1]) else s
  }

  function Trim(s: string): string {
    TrimEnd(TrimStart(s))
  }

  lemma {:induction false} TrimStartPads(pad: string, s: string)
    requires AllSpace(pad) && s != [] && !IsSpace(s[0])
    ensures TrimStart(pad + s) == s
    decreases |pad|
  {
    if pad == [] {
      assert pad + s == s;
    } else {
      assert (pad + s)[1..] == pad[1..] + s;
      TrimStartPads(pad[1..], s);
    }
  }

  lemma {:induction false} TrimEndPads(s: string, pad: string)
    requires AllSpace(pad) && s != [] && !IsSpace(s[|s| - 1])
    ensures TrimEnd(s + pad) == s
    decreases |pad|
  {
    if pad == [] {
      assert s + pad == s;
    } else {
      var n := |pad| - 1;
      assert (s + pad)[..|s| + n] == s + pad[..n];
      TrimEndPads(s, pad[..n]);
    }
  }

  /** Text that neither starts nor ends with a space is what is left of it inside any padding. */
  lemma TrimPads(before: string, s: string, after: string)
    requires AllSpace(before) && AllSpace(after) && s != [] && !IsSpace(s[0]) && !IsSpace(s[|s| - 1])
    ensures Trim(before + s + after) == s
  {
    assert before + s + after == before + (s + after);
    TrimStartPads(before, s + after);
    TrimEndPads(s, after);
  }

  predicate IsHex(c: char) {
    '0' <= c <= '9' || 'a' <= c <= 'f' || 'A' <= c <= 'F'
  }

  predicate AllHex(s: string) {
    forall i :: 0 <= i < |s| ==> IsHex(s[i])
  }

  function HexDigit(c: char): (n: nat)
    requires IsHex(c)
    ensures n < 16
  {
    if c <= '9' then c as int - '0' as int
    else if c <= 'F' then c as int - 'A' as int + 10
    else c as int - 'a' as int + 10
  }

  /** `Buffer.from(s, 'hex')` on hex digits: pairs of digits, an odd last digit dropped. */
  function FromHex(s: string): (b: seq<nat>)
    requires AllHex(s)
    ensures |b| == |s| / 2 && InBase(b, 256)
  {
    if |s| < 2 then [] else [16 * HexDigit(s[0]) + HexDigit(s[1])] + FromHex(s[2..])
  }

  function HexChar(n: nat): (c: char)
    requires n < 16
    ensures IsHex(c) && HexDigit(c) == n
  {
    if n < 10 then '0' + n as char else 'a' + (n - 10) as char
  }

  /** `buf.toString('hex')`. */
  function ToHex(b: seq<nat>): (s: string)
    requires InBase(b, 256)
    ensures |s| == 2 * |b| && AllHex(s)
  {
    if b == [] then [] else [HexChar(b[0] / 16), HexChar(b[0] % 16)] + ToHex(b[1..])
  }

  function Without0x(s: string): string {
    if |s| >= 2 && s[0] == '0' && (s[1] == 'x' || s[1] == 'X') then s[2..] else s
  }

  lemma CidIsText(s: string)
    requires IsCidV0(s)
    ensures IsText(s) && !IsSpace(s[0]) && !IsSpace(s[45]) && Without0x(s) == s
    ensures exists i :: 0 <= i < |s| && s[i] != '1'
  {
  }

  function DecodeBytes32(value: Value32): (r: Result<Digest, InvalidProjectId>)
    requires value.Raw? ==> InBase(value.bytes, 256)
  {
    match value
    case Raw(b) =>
      if |b| == 32 then Ok(b)
      else Err(InvalidProjectId(if b == [] then "<empty bytes>" else ToHex(b), Some(|b|)))
    case Text(text) =>
      var input := Trim(text);
      var normalized := Without0x(input);
      if |normalized| == 64 && AllHex(normalized) then Ok(FromHex(normalized))
      else if IsCidV0(input) then
        CidIsText(input);
        var decoded := Decode(input);
        if |decoded| == 34 && decoded[0] == MULTIHASH[0] && decoded[1] == MULTIHASH[1] then
          DropIsBytes(decoded);
          Ok(decoded[2..])
        else Err(InvalidProjectId(input, Some(|decoded|)))
      else Err(InvalidProjectId(input, if AllHex(normalized) then Some(|FromHex(normalized)|) else None))
  }

  lemma DropIsBytes(m: seq<nat>)
    requires InBase(m, 256) && |m| == 34
    ensures InBase(m[2..], 256) && |m[2..]| == 32
  {
  }

  /** The CIDv0 of a digest, inside any white space, decodes to exactly that digest. */
  lemma CidRoundTrip(d: Digest, before: string, after: string)
    requires AllSpace(before) && AllSpace(after)
    ensures DecodeBytes32(Text(before + Encode(Multihash(d)) + after)) == Ok(d)
  {
    hide Encode, Decode, IsText, Trim, IsSpace, Without0x;
    var cid := Encode(Multihash(d));
    DigestsHaveCids(d);
    CidIsText(cid);
    TrimPads(before, cid, after);
    CidDecodes(d);
    assert Decode(cid)[2..] == d;
  }

  /** CIDv0-shaped text is accepted with a digest exactly when it is that digest's CIDv0. */
  lemma CidAccepted(text: string, d: Digest)
    requires IsCidV0(Trim(text))
    ensures DecodeBytes32(Text(text)) == Ok(d) <==> Encode(Multihash(d)) == Trim(text)
  {
    hide Encode, Decode, IsText, Trim, IsSpace, Without0x, IsCidV0;
    var input := Trim(text);
    CidIsText(input);
    CidShape(input);
    CidDecodes(d);
    EncodeDecode(input);
    var decoded := Decode(input);
    if DecodeBytes32(Text(text)) == Ok(d) {
      assert |decoded| == 34 && decoded[2..] == d;
      assert decoded == Multihash(d);
    }
    assert Multihash(d)[2..] == d;
  }

  lemma CidShape(s: string)
    requires IsCidV0(s)
    ensures |s| == 46
  {
  }

  /** The lower-case form of a hex digit; other characters stay as they are. */
  function LowerHex(c: char): char {
    if 'A' <= c <= 'F' then 'a' + (c - 'A') else c
  }

  function Lower(s: string): (r: string)
    ensures |r| == |s| && forall i :: 0 <= i < |s| ==> r[i] == LowerHex(s[i])
  {
    seq(|s|, i requires 0 <= i < |s| => LowerHex(s[i]))
  }

  lemma LowerMeans(c: char, n: nat)
    requires n < 16
    ensures LowerHex(c) == HexChar(n) <==> IsHex(c) && HexDigit(c) == n
  {
  }

  lemma TwoDigits(x: nat, y: nat, byte: nat)
    requires x < 16 && y < 16
    ensures 16 * x + y == byte <==> x == byte / 16 && y == byte % 16
  {
  }

  lemma LowerHead(s: string)
    requires |s| >= 2
    ensures Lower(s) == [LowerHex(s[0]), LowerHex(s[1])] + Lower(s[2..])
  {
    hide LowerHex;
  }

  lemma PairHead<T>(a: T, b: T, s: seq<T>, c: T, d: T, t: seq<T>)
    ensures [a, b] + s == [c, d] + t <==> a == c && b == d && s == t
  {
    if [a, b] + s == [c, d] + t {
      assert ([a, b] + s)[0] == a && ([a, b] + s)[1] == b && ([a, b] + s)[2..] == s;
      assert ([c, d] + t)[0] == c && ([c, d] + t)[1] == d && ([c, d] + t)[2..] == t;
    }
  }

  lemma FromHexHead(s: string, b: seq<nat>)
    requires |s| >= 2 && b != [] && AllHex(s)
    ensures FromHex(s) == b <==> 16 * HexDigit(s[0]) + HexDigit(s[1]) == b[0] && FromHex(s[2..]) == b[1..]
  {
    hide IsHex, HexDigit;
    assert b == [b[0]] + b[1..];
    assert FromHex(s)[0] == 16 * HexDigit(s[0]) + HexDigit(s[1]) && FromHex(s)[1..] == FromHex(s[2..]);
  }

  lemma AllHexHead(s: string)
    requires |s| >= 2
    ensures AllHex(s) <==> IsHex(s[0]) && IsHex(s[1]) && AllHex(s[2..])
  {
    hide IsHex;
    forall i | 2 <= i < |s|
      ensures s[i] == s[2..][i - 2]
    {
    }
  }

  /** Hex text stands for the bytes whose lower-case hex is its own lower-case form. */
  lemma {:induction false} HexMeans(s: string, b: seq<nat>)
    requires |s| % 2 == 0 && InBase(b, 256)
    ensures AllHex(s) && FromHex(s) == b <==> Lower(s) == ToHex(b)
    decreases |s|
  {
    if s != [] && b != [] {
      HexMeans(s[2..], b[1..]);
      LowerHead(s);
      PairHead(LowerHex(s[0]), LowerHex(s[1]), Lower(s[2..]), HexChar(b[0] / 16), HexChar(b[0] % 16), ToHex(b[1..]));
      LowerMeans(s[0], b[0] / 16);
      LowerMeans(s[1], b[0] % 16);
      AllHexHead(s);
      hide LowerHex, HexChar, IsHex, HexDigit, Lower, AllHex;
      if AllHex(s) {
        FromHexHead(s, b);
        AllHexFirst(s);
        TwoDigits(HexDigit(s[0]), HexDigit(s[1]), b[0]);
      }
    }
  }

  lemma AllHexFirst(s: string)
    requires |s| >= 2 && AllHex(s)
    ensures IsHex(s[0]) && IsHex(s[1])
  {
  }

  /** Text without the shape of a CIDv0 is accepted with a digest exactly when, trimmed and without its 0x or
      0X prefix, it spells the digest in hex, in either case of letters. */
  lemma HexAccepted(text: string, d: Digest)
    requires !IsCidV0(Trim(text))
    ensures DecodeBytes32(Text(text)) == Ok(d) <==> Lower(Without0x(Trim(text))) == ToHex(d)
  {
    hide Trim, FromHex, ToHex, IsCidV0, Without0x, AllHex, Lower;
    var n := Without0x(Trim(text));
    if |n| == 64 {
      HexMeans(n, d);
    }
  }

  // ----- what a refusal reports -----

  /** Thirty-two raw bytes stand for themselves; any other number is refused and reported. */
  lemma RawRule(b: seq<nat>, d: Digest)
    requires InBase(b, 256)
    ensures DecodeBytes32(Raw(b)) == Ok(d) <==> b == d
    ensures |b| != 32 ==> DecodeBytes32(Raw(b)).Err? && DecodeBytes32(Raw(b)).error.decodedLength == Some(|b|)
  {
  }

  lemma Power33()
    ensures Pow(256, 33) == 29642774844752946028434172162224104410437116074403984394101141506025761187823616
  {
    Powers();
  }

  lemma TopTwo(s: string)
    requires IsCidV0(s) && IsText(s)
    ensures Unspell(s)[0] == 23 && Unspell(s)[1] == 44
  {
    assert DigitOf('Q') == 23 && DigitOf('m') == 44;
  }

  lemma LeadValue()
    ensures Value([23, 44], 58) == 1378
  {
    assert [23, 44][..1] == [23] && [23][..0] == [];
    assert Value([23], 58) == 23;
  }

  /** Text starting `Qm` is a number just above 18 times the 33rd power of 256. */
  lemma CidValue(s: string)
    requires IsCidV0(s) && IsText(s)
    ensures 1378 * Pow(58, 44) <= Value(Unspell(s), 58) < 1379 * Pow(58, 44)
  {
    hide Pow, Value, DigitOf, InClass;
    var ds := Unspell(s);
    SpellInBase(s);
    TopTwo(s);
    assert ds == [23, 44] + ds[2..];
    ValueOfConcat([23, 44], ds[2..], 58);
    ValueBelowPow(ds[2..], 58);
    LeadValue();
  }

  lemma CidDigits(s: string)
    requires IsCidV0(s) && IsText(s)
    ensures Value(Unspell(s), 58) > 0
    ensures var b := FromNat(Value(Unspell(s), 58), 256); |b| == 34 && b[33] == 0x12
  {
    hide Pow, Value, Shift, FromNat, DigitOf, InClass, Unspell;
    var n := Value(Unspell(s), 58);
    CidValue(s);
    Powers();
    Power33();
    ShiftBounds(n, 256, 33);
    assert Shift(n, 256, 33) == 18;
    ShiftIsTop(n, 256, 33);
    OneDigit();
    var b := FromNat(n, 256);
    assert b[33] == b[33..][0];
  }

  lemma OneDigit()
    ensures FromNat(18, 256) == [18]
  {
    assert FromNat(0, 256) == [];
  }

  /** CIDv0-shaped text always decodes to 34 bytes that start with the SHA-256 code. */
  lemma CidShapeDecodes(s: string)
    requires IsCidV0(s)
    ensures IsText(s) && |Decode(s)| == 34 && Decode(s)[0] == 0x12
  {
    CidIsText(s);
    TopTwo(s);
    hide Value, FromNat, Reverse, DigitOf, InClass, Unspell;
    CidDigits(s);
    var ds := Unspell(s);
    TopIsNonZero(ds);
    hide LeadingZeros;
    assert Zeros(0) == [];
    assert Decode(s) == Reverse(FromNat(Value(ds, 58), 256));
  }

  lemma TopIsNonZero(ds: seq<nat>)
    requires |ds| > 0 && ds[0] != 0
    ensures LeadingZeros(ds) == 0
  {
  }

  /** A refused text is reported as trimmed, with the number of bytes it stood for: 34 for a CIDv0 whose length
      byte is not 0x20, half the digits for hex, and none for anything else. */
  lemma RefusalReports(text: string)
    requires DecodeBytes32(Text(text)).Err?
    ensures var e, input := DecodeBytes32(Text(text)).error, Trim(text);
            && e.input == input
            && e.decodedLength == (if IsCidV0(input) then Some(34) else if AllHex(Without0x(input)) then Some(|Without0x(input)| / 2) else None)
            && (IsCidV0(input) ==> IsText(input) && |Decode(input)| == 34 && Decode(input)[1] != 0x20)
  {
    hide Trim, Decode, IsText, Without0x, AllHex, FromHex;
    if IsCidV0(Trim(text)) {
      CidShapeDecodes(Trim(text));
    }
    hide IsCidV0;
  }

  // ----- comparing a returned CID with a computed one -----

  /** The CIDv0 branch of `normalizeCidV0`; `converted` is what the CIDv1 conversion returned. */
  function NormalizeCidV0(cid: string, converted: Option<string>): Result<string, string> {
    if IsCidV0(cid) then Ok(cid)
    else if converted.Some? && converted.value != [] then Ok(converted.value)
    else Err("unsupported IPFS CID: " + cid)
  }

  /** A pinned CID normalises to the locally computed one exactly when it names the same digest. */
  lemma NormalizedCidsCompare(cid: string, d: Digest, converted: Option<string>)
    requires IsCidV0(cid)
    ensures NormalizeCidV0(cid, converted) == Ok(Encode(Multihash(d))) <==> DecodeBytes32(Text(cid)) == Ok(d)
  {
    hide Encode, IsSpace, Trim, DecodeBytes32;
    CidIsText(cid);
    TrimPads("", cid, "");
    assert "" + cid + "" == cid;
    CidAccepted(cid, d);
  }
}
