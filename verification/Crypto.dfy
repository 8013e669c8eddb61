/** Digests and their hexadecimal form.  SHA-256 and HMAC-SHA-256 themselves are parameters: functions
    into 32-byte digests.  No such function is free of collisions on all inputs, so a property that needs
    collision freedom asks for it on the inputs that occur. */
module Crypto {
  import opened Bytes
  import opened Wrappers
  import Json

  type Digest = d: Bytes | |d| == 32 witness seq(32, _ => 0)

  ghost predicate CollisionFreeOn(f: Bytes -> Digest, scope: iset<Bytes>)
  {
    forall a, b :: a in scope && b in scope && f(a) == f(b) ==> a == b
  }

  /** Two different inputs with the same digest. */
  predicate Collision(f: Bytes -> Digest, a: Bytes, b: Bytes)
  {
    a != b && f(a) == f(b)
  }

  predicate LowerHex(b: byte)
  {
    0x30 <= b <= 0x39 || 0x61 <= b <= 0x66
  }

  predicate AllLowerHex(text: Bytes)
  {
    forall i :: 0 <= i < |text| ==> LowerHex(text[i])
  }

  function Hex(b: Bytes): (text: Bytes)
    ensures |text| == 2 * |b|
    ensures AllLowerHex(text)
  {
    if b == [] then []
    else [Json.HexDigit(b[0] / 16), Json.HexDigit(b[0] % 16)] + Hex(b[1..])
  }

  /** `hex::decode` accepts digits of either case. */
  function HexValue(b: byte): (value: Option<nat>)
    ensures value.Some? ==> value.value < 16
  {
    if 0x30 <= b <= 0x39 then Some(b - 0x30)
    else if 0x61 <= b <= 0x66 then Some(b - 0x61 + 10)
    else if 0x41 <= b <= 0x46 then Some(b - 0x41 + 10)
    else None
  }

  function HexDecode(text: Bytes): (b: Option<Bytes>)
  {
    if text == [] then Some([])
    else if |text| == 1 then None
    else
      var high, low, rest := HexValue(text[0]), HexValue(text[1]), HexDecode(text[2..]);
      if high.Some? && low.Some? && rest.Some?
      then Some([high.value * 16 + low.value] + rest.value)
      else None
  }

  lemma DigitRoundTrip(n: nat)
    requires n < 16
    ensures HexValue(Json.HexDigit(n)) == Some(n)
  {
  }

  lemma HexDecodeStep(high: nat, low: nat, rest: Bytes, b: Bytes)
    requires high < 16 && low < 16 && HexDecode(rest) == Some(b)
    ensures HexDecode([Json.HexDigit(high), Json.HexDigit(low)] + rest) == Some([high * 16 + low] + b)
  {
    var text := [Json.HexDigit(high), Json.HexDigit(low)] + rest;
    assert text[2..] == rest && text[0] == Json.HexDigit(high) && text[1] == Json.HexDigit(low);
    DigitRoundTrip(high);
    DigitRoundTrip(low);
  }

  lemma {:induction false} HexRoundTrip(b: Bytes)
    ensures HexDecode(Hex(b)) == Some(b)
  {
    if b != [] {
      HexRoundTrip(b[1..]);
      HexDecodeStep(b[0] / 16, b[0] % 16, Hex(b[1..]), b[1..]);
      assert b == [b[0]] + b[1..];
    }
  }

  /** `validate_sha256`: 64 lowercase hexadecimal characters. */
  predicate ValidSha256(text: Bytes)
  {
    |text| == 64 && AllLowerHex(text)
  }

  const SHA256_PREFIX: Bytes := Ascii("sha256:")

  predicate ValidPrefixedSha256(text: Bytes)
  {
    SHA256_PREFIX <= text && ValidSha256(text[7..])
  }

  lemma HexInjective(a: Bytes, b: Bytes)
    requires Hex(a) == Hex(b)
    ensures a == b
  {
    HexRoundTrip(a);
    HexRoundTrip(b);
  }
}
