/**
 * The lowercase hexadecimal form of a generation digest (src/installer.rs).
 * Journals carry digests as 64-character strings, the generation store carries
 * 32 bytes; rollback compares the two after decoding.
 */
module DigestCodec {
  import opened Wrappers

  type Byte = value: int | 0 <= value < 256
  type Bytes = seq<Byte>
  type Digest = bytes: Bytes | |bytes| == 32
    witness [0, 0, 0, 0, 0, 0, 0, 0, 0, 0, 0, 0, 0, 0, 0, 0, 0, 0, 0, 0, 0, 0, 0, 0, 0, 0, 0, 0, 0, 0, 0, 0]

  datatype DigestError = InvalidDigest | ReservedDigest

  /** The reserved all-zero digest: "no generation". */
  const NO_GENERATION: Digest :=
    [0, 0, 0, 0, 0, 0, 0, 0, 0, 0, 0, 0, 0, 0, 0, 0, 0, 0, 0, 0, 0, 0, 0, 0, 0, 0, 0, 0, 0, 0, 0, 0]

  predicate IsHex(c: char) {
    '0' <= c <= '9' || 'a' <= c <= 'f'
  }

  predicate ValidDigest(text: string) {
    |text| == 64 && forall i | 0 <= i < |text| :: IsHex(text[i])
  }

  function HexValue(c: char): Option<nat> {
    if '0' <= c <= '9' then Some(c as int - '0' as int)
    else if 'a' <= c <= 'f' then Some(c as int - 'a' as int + 10)
    else None
  }

  function HexDigit(value: nat): char
    requires value < 16
  {
    "0123456789abcdef"[value]
  }

  lemma {:induction false} HexDigitInverse(value: nat)
    requires value < 16
    ensures IsHex(HexDigit(value)) && HexValue(HexDigit(value)) == Some(value)
    ensures HexDigit(value) as int == if value < 10 then '0' as int + value else 'a' as int + value - 10
  {
    if value < 10 {
      assert HexDigit(value) == ('0' as int + value) as char;
    } else {
      assert HexDigit(value) == ('a' as int + value - 10) as char;
    }
  }

  lemma {:induction false} HexValueInverse(c: char)
    requires IsHex(c)
    ensures HexValue(c).Some? && HexValue(c).value < 16
    ensures HexDigit(HexValue(c).value) == c
  {
    if c <= '9' {
      assert HexDigit(HexValue(c).value) == ('0' as int + HexValue(c).value) as char;
    } else {
      assert HexDigit(HexValue(c).value) == ('a' as int + HexValue(c).value - 10) as char;
    }
  }

  /** The two characters of each byte, high half first. */
  function Encode(bytes: Bytes): (text: string)
    ensures |text| == 2 * |bytes|
  {
    seq(2 * |bytes|, i requires 0 <= i < 2 * |bytes| =>
      HexDigit(if i % 2 == 0 then bytes[i / 2] / 16 else bytes[i / 2] % 16))
  }

  function ByteAt(text: string, index: nat): Byte
    requires 2 * index + 1 < |text|
    requires IsHex(text[2 * index]) && IsHex(text[2 * index + 1])
  {
    HexValueInverse(text[2 * index]);
    HexValueInverse(text[2 * index + 1]);
    16 * HexValue(text[2 * index]).value + HexValue(text[2 * index + 1]).value
  }

  lemma {:induction false} ByteAtHalves(text: string, index: nat)
    requires 2 * index + 1 < |text|
    requires IsHex(text[2 * index]) && IsHex(text[2 * index + 1])
    ensures HexDigit(ByteAt(text, index) / 16) == text[2 * index]
    ensures HexDigit(ByteAt(text, index) % 16) == text[2 * index + 1]
  {
    hide HexDigit, HexValue, IsHex;
    HexValueInverse(text[2 * index]);
    HexValueInverse(text[2 * index + 1]);
    Halves(HexValue(text[2 * index]).value, HexValue(text[2 * index + 1]).value);
  }

  lemma Halves(high: nat, low: nat)
    requires high < 16 && low < 16
    ensures (16 * high + low) / 16 == high && (16 * high + low) % 16 == low
  {
  }

  function DecodedBytes(text: string): Digest
    requires ValidDigest(text)
  {
    seq(32, i requires 0 <= i < 32 => ByteAt(text, i))
  }

  /** What the decoder promises: the bytes, unless the text is malformed or the reserved digest. */
  function Decode(text: string): Result<Digest, DigestError> {
    if !ValidDigest(text) then Err(InvalidDigest)
    else if DecodedBytes(text) == NO_GENERATION then Err(ReservedDigest)
    else Ok(DecodedBytes(text))
  }

  method EncodeGenerationDigest(value: Digest) returns (output: string)
    ensures output == Encode(value)
  {
    output := "";
    for index := 0 to |value|
      invariant output == Encode(value)[..2 * index]
    {
      var byte := value[index];
      output := output + [HexDigit(byte / 16)] + [HexDigit(byte % 16)];
    }
  }

  method DecodeGenerationDigest(value: string) returns (result: Result<Digest, DigestError>)
    ensures result == Decode(value)
  {
    if !ValidDigest(value) {
      return Err(InvalidDigest);
    }
    var digest: Bytes := [];
    for index := 0 to 32
      invariant digest == DecodedBytes(value)[..index]
    {
      HexValueInverse(value[2 * index]);
      HexValueInverse(value[2 * index + 1]);
      var high := HexValue(value[2 * index]).value;
      var low := HexValue(value[2 * index + 1]).value;
      digest := digest + [16 * high + low];
    }
    assert digest == DecodedBytes(value);
    if digest == NO_GENERATION {
      return Err(ReservedDigest);
    }
    return Ok(digest);
  }

  lemma {:induction false} EncodeIsValid(digest: Digest)
    ensures ValidDigest(Encode(digest))
  {
    forall i | 0 <= i < 64
      ensures IsHex(Encode(digest)[i])
    {
      HexDigitInverse(if i % 2 == 0 then digest[i / 2] / 16 else digest[i / 2] % 16);
    }
  }

  /** Encoding then decoding gives the digest back, except for the reserved one. */
  lemma {:induction false} DecodeOfEncode(digest: Digest)
    ensures Decode(Encode(digest)) == if digest == NO_GENERATION then Err(ReservedDigest) else Ok(digest)
  {
    EncodeIsValid(digest);
    var text := Encode(digest);
    forall i | 0 <= i < 32
      ensures DecodedBytes(text)[i] == digest[i]
    {
      assert text[2 * i] == HexDigit(digest[i] / 16);
      assert text[2 * i + 1] == HexDigit(digest[i] % 16);
      HexDigitInverse(digest[i] / 16);
      HexDigitInverse(digest[i] % 16);
    }
    assert DecodedBytes(text) == digest;
  }

  /** Decoding then encoding gives the text back. */
  lemma {:induction false} EncodeOfDecode(text: string)
    requires ValidDigest(text)
    ensures Encode(DecodedBytes(text)) == text
  {
    hide ByteAt, HexDigit, HexValue, IsHex;
    forall i | 0 <= i < 64
      ensures Encode(DecodedBytes(text))[i] == text[i]
    {
      var k := i / 2;
      ByteAtHalves(text, k);
      assert i == 2 * k || i == 2 * k + 1;
      assert DecodedBytes(text)[k] == ByteAt(text, k);
    }
    assert Encode(DecodedBytes(text)) == text;
  }

  lemma {:induction false} EncodeIsInjective(left: Digest, right: Digest)
    requires Encode(left) == Encode(right)
    ensures left == right
  {
    DecodeOfEncode(left);
    DecodeOfEncode(right);
  }

  /** The only text that decodes to nothing although well formed is the encoded reserved digest. */
  lemma {:induction false} DecodeAccepts(text: string)
    ensures Decode(text).Ok? <==> ValidDigest(text) && text != Encode(NO_GENERATION)
    ensures Decode(text).Ok? ==> Encode(Decode(text).value) == text
  {
    DecodeOfEncode(NO_GENERATION);
    if ValidDigest(text) {
      EncodeOfDecode(text);
    }
  }
}
