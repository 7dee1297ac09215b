/**
 * Base16 ("hex") encoding of section 8 of RFC 4648 as Go's encoding/hex
 * renders it: two lowercase digits per byte, high nibble first. Decoding
 * accepts both cases, as Go's decoder does.
 */
module Hex {
  import opened Wrappers
  import opened Octets

  /** The character codes '0'..'9' and 'a'..'f'. */
  predicate IsLowerHex(c: byte)
  {
    0x30 <= c <= 0x39 || 0x61 <= c <= 0x66
  }

  predicate IsLowerHexString(s: Bytes)
  {
    forall i :: 0 <= i < |s| ==> IsLowerHex(s[i])
  }

  /** The digit for a nibble. */
  function Digit(v: int): (c: byte)
    requires 0 <= v < 16
    ensures IsLowerHex(c)
  {
    if v < 10 then (0x30 + v) as byte else (0x61 + v - 10) as byte
  }

  /** The nibble a digit stands for, in either case; None for any other character. */
  function FromDigit(c: byte): (r: Option<int>)
    ensures r.Some? ==> 0 <= r.value < 16
  {
    if 0x30 <= c <= 0x39 then Some(c as int - 0x30)
    else if 0x61 <= c <= 0x66 then Some(c as int - 0x61 + 10)
    else if 0x41 <= c <= 0x46 then Some(c as int - 0x41 + 10)
    else None
  }

  function Encode(bs: Bytes): (s: Bytes)
    ensures |s| == 2 * |bs|
    ensures IsLowerHexString(s)
    decreases |bs|
  {
    if bs == [] then []
    else [Digit(bs[0] as int / 16), Digit(bs[0] as int % 16)] + Encode(bs[1..])
  }

  /** None for an odd length or a character that is not a hex digit. */
  function Decode(s: Bytes): (r: Option<Bytes>)
    ensures r.Some? ==> 2 * |r.value| == |s|
    decreases |s|
  {
    if |s| == 0 then Some([])
    else if |s| == 1 then None
    else
      var hi := FromDigit(s[0]);
      var lo := FromDigit(s[1]);
      var rest := Decode(s[2..]);
      if hi.None? || lo.None? || rest.None? then None
      else Some([(hi.value * 16 + lo.value) as byte] + rest.value)
  }

  /** Decoding an encoding gives the bytes back. */
  lemma {:induction false} DecodeEncode(bs: Bytes)
    ensures Decode(Encode(bs)) == Some(bs)
    decreases |bs|
  {
    if bs != [] {
      var s := Encode(bs);
      assert s[2..] == Encode(bs[1..]);
      DecodeEncode(bs[1..]);
      assert [bs[0]] + bs[1..] == bs;
    }
  }

  /** A lowercase digit reads back as the nibble it is the digit of. */
  lemma DigitRoundTrip(c: byte)
    requires IsLowerHex(c)
    ensures FromDigit(c).Some? && Digit(FromDigit(c).value) == c
  {
  }

  /** Every even-length lowercase digit string is the encoding of what it decodes to. */
  lemma {:induction false} EncodeDecode(s: Bytes)
    requires |s| % 2 == 0
    requires IsLowerHexString(s)
    ensures Decode(s).Some? && Encode(Decode(s).value) == s
    decreases |s|
  {
    if |s| > 0 {
      assert IsLowerHex(s[0]) && IsLowerHex(s[1]);
      DigitRoundTrip(s[0]);
      DigitRoundTrip(s[1]);
      var hi, lo := FromDigit(s[0]).value, FromDigit(s[1]).value;
      var v := hi * 16 + lo;
      assert v / 16 == hi && v % 16 == lo;
      EncodeDecode(s[2..]);
      var b := Decode(s).value;
      assert b == [v as byte] + Decode(s[2..]).value;
      assert b[1..] == Decode(s[2..]).value;
      assert s == [s[0], s[1]] + s[2..];
    }
  }
}
