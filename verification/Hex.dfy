/** Lower-case hexadecimal text, as Go's encoding/hex reads and writes it. */
module Hex {
  import opened Prelude

  const DIGITS: string := "0123456789abcdef"

  function Digit(n: nat): char
    requires n < 16
  {
    DIGITS[n]
  }

  /** The value of one hexadecimal character of either case, or -1. */
  function DigitValue(c: char): int {
    if '0' <= c <= '9' then c as int - '0' as int
    else if 'a' <= c <= 'f' then c as int - 'a' as int + 10
    else if 'A' <= c <= 'F' then c as int - 'A' as int + 10
    else -1
  }

  predicate IsHexDigit(c: char) {
    DigitValue(c) >= 0
  }

  function LowerChar(c: char): char {
    if 'A' <= c <= 'Z' then (c as int + 32) as char else c
  }

  function Lower(s: string): string {
    seq(|s|, i requires 0 <= i < |s| => LowerChar(s[i]))
  }

  /** hex.EncodeToString. */
  function Encode(b: Bytes): (s: string)
    ensures |s| == 2 * |b|
  {
    seq(2 * |b|, i requires 0 <= i < 2 * |b| =>
      Digit(if i % 2 == 0 then b[i / 2] / 16 else b[i / 2] % 16))
  }

  /** hex.DecodeString: None for an odd length or a character that is no hexadecimal digit. */
  function Decode(s: string): Option<Bytes> {
    if |s| % 2 == 0 && forall i :: 0 <= i < |s| ==> IsHexDigit(s[i])
    then Some(seq(|s| / 2, i requires 0 <= i < |s| / 2 => DecodePair(s[2 * i], s[2 * i + 1])))
    else None
  }

  function DecodePair(hi: char, lo: char): Byte
    requires IsHexDigit(hi) && IsHexDigit(lo)
  {
    DigitValue(hi) * 16 + DigitValue(lo)
  }

  /** A 32-byte hash written in lower-case hexadecimal, the form the node's RPC answers with. */
  predicate IsHash(s: string) {
    |s| == 64 && forall i :: 0 <= i < |s| ==> IsHexDigit(s[i]) && LowerChar(s[i]) == s[i]
  }

  lemma DigitRoundTrip(n: nat)
    requires n < 16
    ensures DigitValue(Digit(n)) == n && LowerChar(Digit(n)) == Digit(n)
  {
  }

  /** Writing bytes and reading them back loses nothing. */
  lemma DecodeEncode(b: Bytes)
    ensures Decode(Encode(b)) == Some(b)
  {
    hide Digit, DigitValue;
    var s := Encode(b);
    forall i | 0 <= i < |s| ensures IsHexDigit(s[i]) {
      DigitRoundTrip(if i % 2 == 0 then b[i / 2] / 16 else b[i / 2] % 16);
    }
    forall i | 0 <= i < |b| ensures Decode(s).value[i] == b[i] {
      DigitRoundTrip(b[i] / 16);
      DigitRoundTrip(b[i] % 16);
      assert s[2 * i] == Digit(b[i] / 16) && s[2 * i + 1] == Digit(b[i] % 16);
    }
    assert Decode(s).value == b;
  }

  /** Reading text and writing it back lower-cases it. */
  lemma EncodeDecode(s: string)
    requires Decode(s).Some?
    ensures Encode(Decode(s).value) == Lower(s)
  {
    var b := Decode(s).value;
    forall i | 0 <= i < |s| ensures Encode(b)[i] == Lower(s)[i] {
      var hi, lo := s[2 * (i / 2)], s[2 * (i / 2) + 1];
      assert b[i / 2] == DecodePair(hi, lo);
      PairDigits(hi, lo);
      DigitOfValue(s[i]);
    }
    assert Encode(b) == Lower(s);
  }

  lemma PairDigits(hi: char, lo: char)
    requires IsHexDigit(hi) && IsHexDigit(lo)
    ensures DecodePair(hi, lo) / 16 == DigitValue(hi) && DecodePair(hi, lo) % 16 == DigitValue(lo)
  {
  }

  lemma DigitOfValue(c: char)
    requires IsHexDigit(c)
    ensures DigitValue(c) < 16 && Digit(DigitValue(c)) == LowerChar(c)
  {
  }

  /** Hexadecimal of 32 bytes is a hash, and decoding it gives the bytes back. */
  lemma EncodeIsHash(b: Bytes)
    requires |b| == 32
    ensures IsHash(Encode(b))
  {
    forall i | 0 <= i < 64 ensures IsHexDigit(Encode(b)[i]) && LowerChar(Encode(b)[i]) == Encode(b)[i] {
      DigitRoundTrip(if i % 2 == 0 then b[i / 2] / 16 else b[i / 2] % 16);
    }
  }

  lemma LowerOfHash(s: string)
    requires IsHash(s)
    ensures Lower(s) == s && Decode(s).Some? && |Decode(s).value| == 32
  {
  }
}
