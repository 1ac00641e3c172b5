/** Lower-case hexadecimal encoding of byte strings, as `hex.EncodeToString` produces it. */
module Hex {
  import opened Wrappers

  type byte = x: int | 0 <= x < 256

  const Digits: string := "0123456789abcdef"

  predicate IsHexDigit(c: char) {
    '0' <= c <= '9' || 'a' <= c <= 'f'
  }

  /** The value of one hexadecimal digit. */
  function DigitValue(c: char): (r: int)
    requires IsHexDigit(c)
    ensures 0 <= r < 16 && Digits[r] == c
  {
    if '0' <= c <= '9' then c as int - '0' as int else c as int - 'a' as int + 10
  }

  /** Two digits per byte, high nibble first. */
  function Encode(bs: seq<byte>): (r: string)
    ensures |r| == 2 * |bs|
    ensures forall i :: 0 <= i < |r| ==> IsHexDigit(r[i])
    decreases |bs|
  {
    if |bs| == 0 then ""
    else [Digits[bs[0] / 16], Digits[bs[0] % 16]] + Encode(bs[1..])
  }

  /** The inverse of `Encode`: fails on odd length or a character outside `[0-9a-f]`. */
  function Decode(s: string): (r: Option<seq<byte>>)
    ensures r.Some? ==> 2 * |r.value| == |s|
    decreases |s|
  {
    if |s| == 0 then Some([])
    else if |s| == 1 || !IsHexDigit(s[0]) || !IsHexDigit(s[1]) then None
    else match Decode(s[2..])
      case None => None
      case Some(rest) => Some([(DigitValue(s[0]) * 16 + DigitValue(s[1])) as byte] + rest)
  }

  lemma DigitRoundTrip(n: int)
    requires 0 <= n < 16
    ensures IsHexDigit(Digits[n]) && DigitValue(Digits[n]) == n
  {
  }

  /** Decoding an encoding gives back the bytes. */
  lemma {:induction false} DecodeEncode(bs: seq<byte>)
    ensures Decode(Encode(bs)) == Some(bs)
    decreases |bs|
  {
    if |bs| > 0 {
      var s := Encode(bs);
      var hi, lo := bs[0] / 16, bs[0] % 16;
      assert s[0] == Digits[hi] && s[1] == Digits[lo] && s[2..] == Encode(bs[1..]);
      DigitRoundTrip(hi);
      DigitRoundTrip(lo);
      DecodeEncode(bs[1..]);
      assert bs == [bs[0]] + bs[1..];
    }
  }

  /** Different byte strings never share an encoding. */
  lemma EncodeInjective(a: seq<byte>, b: seq<byte>)
    requires Encode(a) == Encode(b)
    ensures a == b
  {
    DecodeEncode(a);
    DecodeEncode(b);
  }
}
