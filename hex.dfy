/**
 * Hexadecimal encoding of random bytes, as `crypto.randomBytes(32).toString('hex')`
 * produces a verification token: two lower-case digits per byte, high nibble first.
 */
module Hex {
  import opened Wrappers

  newtype byte = x: int | 0 <= x < 256

  /** Number of random bytes behind one verification token. */
  const TokenBytes: nat := 32

  predicate IsHexChar(c: char) {
    '0' <= c <= '9' || 'a' <= c <= 'f'
  }

  /** A verification token as issued: 64 lower-case hexadecimal characters. */
  predicate IsToken(s: string) {
    |s| == 2 * TokenBytes && forall i :: 0 <= i < |s| ==> IsHexChar(s[i])
  }

  function DigitChar(n: int): (c: char)
    requires 0 <= n < 16
    ensures IsHexChar(c)
  {
    if n < 10 then ('0' as int + n) as char else ('a' as int + n - 10) as char
  }

  function DigitValue(c: char): (n: int)
    requires IsHexChar(c)
    ensures 0 <= n < 16 && DigitChar(n) == c
  {
    if c <= '9' then c as int - '0' as int else c as int - 'a' as int + 10
  }

  lemma DigitRoundTrip(n: int)
    requires 0 <= n < 16
    ensures DigitValue(DigitChar(n)) == n
  {
  }

  /** `Buffer.toString('hex')`. */
  function Encode(bytes: seq<byte>): (s: string)
    ensures |s| == 2 * |bytes|
    ensures forall i :: 0 <= i < |s| ==> IsHexChar(s[i])
  {
    if bytes == [] then ""
    else [DigitChar(bytes[0] as int / 16), DigitChar(bytes[0] as int % 16)] + Encode(bytes[1..])
  }

  /** The inverse of Encode: reads two digits per byte, fails on an odd length or a non-digit. */
  function Decode(s: string): (r: Option<seq<byte>>)
    ensures r.Some? ==> |s| == 2 * |r.value|
    decreases |s|
  {
    if s == [] then Some([])
    else if |s| < 2 || !IsHexChar(s[0]) || !IsHexChar(s[1]) then None
    else
      match Decode(s[2..])
      case None => None
      case Some(rest) => Some([(DigitValue(s[0]) * 16 + DigitValue(s[1])) as byte] + rest)
  }

  lemma {:induction false} DecodeEncode(bytes: seq<byte>)
    ensures Decode(Encode(bytes)) == Some(bytes)
  {
    if bytes != [] {
      var b := bytes[0] as int;
      var s := Encode(bytes);
      assert s[2..] == Encode(bytes[1..]);
      DecodeEncode(bytes[1..]);
      DigitRoundTrip(b / 16);
      DigitRoundTrip(b % 16);
      assert [bytes[0]] + bytes[1..] == bytes;
    }
  }

  lemma {:induction false} EncodeDecode(s: string)
    ensures Decode(s).Some? ==> Encode(Decode(s).value) == s
    decreases |s|
  {
    if s != [] && Decode(s).Some? {
      EncodeDecode(s[2..]);
      var rest := Decode(s[2..]).value;
      var bytes := Decode(s).value;
      var v := DigitValue(s[0]) * 16 + DigitValue(s[1]);
      assert bytes[0] as int == v && bytes[1..] == rest;
      assert v / 16 == DigitValue(s[0]) && v % 16 == DigitValue(s[1]);
      assert Encode(bytes) == [s[0], s[1]] + s[2..];
    }
  }

  /** Distinct random bytes give distinct tokens. */
  lemma EncodeInjective(a: seq<byte>, b: seq<byte>)
    ensures Encode(a) == Encode(b) ==> a == b
  {
    DecodeEncode(a);
    DecodeEncode(b);
  }
}
