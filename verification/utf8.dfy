/** UTF-8 encoding of code points, as Go's `bytes.Buffer.WriteRune` and its
    string representation use it (RFC 3629, section 3). */
module Utf8 {

  type byte = x: int | 0 <= x < 256

  /** The UTF-8 bytes of one code point. Dafny characters are Unicode scalar
      values, so the surrogate range Go replaces with U+FFFD cannot occur. */
  function EncodeRune(c: char): (bs: seq<byte>)
    ensures 1 <= |bs| <= 4
    ensures |bs| == 1 <==> c < '\U{80}'
    ensures |bs| == 1 ==> bs[0] == c as int
    ensures |bs| > 1 ==> bs[0] >= 0xC0 && forall i :: 1 <= i < |bs| ==> 0x80 <= bs[i] < 0xC0
    ensures |bs| == if c < '\U{80}' then 1 else if c < '\U{800}' then 2 else if c < '\U{10000}' then 3 else 4
  {
    var x := c as int;
    if x < 0x80 then [x]
    else if x < 0x800 then [0xC0 + x / 64, 0x80 + x % 64]
    else if x < 0x1_0000 then [0xE0 + x / 4096, 0x80 + x / 64 % 64, 0x80 + x % 64]
    else [0xF0 + x / 262144, 0x80 + x / 4096 % 64, 0x80 + x / 64 % 64, 0x80 + x % 64]
  }

  /** The code point a well-shaped sequence of one to four bytes carries:
      the payload bits of the lead byte, then six bits from each
      continuation byte. */
  function DecodeRune(bs: seq<byte>): int
    requires 1 <= |bs| <= 4
  {
    if |bs| == 1 then bs[0] as int
    else if |bs| == 2 then (bs[0] as int - 0xC0) * 64 + (bs[1] as int - 0x80)
    else if |bs| == 3 then (bs[0] as int - 0xE0) * 4096 + (bs[1] as int - 0x80) * 64 + (bs[2] as int - 0x80)
    else (bs[0] as int - 0xF0) * 262144 + (bs[1] as int - 0x80) * 4096 + (bs[2] as int - 0x80) * 64 + (bs[3] as int - 0x80)
  }

  /** Each length has its own lead-byte range, and the payload bits decode
      back to the code point, so the bytes are the code point's UTF-8
      form. */
  lemma EncodeRuneDecodes(c: char)
    ensures var bs := EncodeRune(c);
            && DecodeRune(bs) == c as int
            && (|bs| == 2 ==> 0xC2 <= bs[0] <= 0xDF)
            && (|bs| == 3 ==> 0xE0 <= bs[0] <= 0xEF)
            && (|bs| == 4 ==> 0xF0 <= bs[0] <= 0xF4)
  {
    var x := c as int;
    if x >= 0x1_0000 {
      assert x / 4096 % 64 * 4096 + x % 4096 == x % 262144;
      assert x / 64 % 64 * 64 + x % 64 == x % 4096;
    } else if x >= 0x800 {
      assert x / 64 % 64 * 64 + x % 64 == x % 4096;
    }
  }

  /** The bytes of a Go string holding the characters `s`. */
  function EncodeString(s: string): (bs: seq<byte>)
    ensures |bs| >= |s|
  {
    if |s| == 0 then [] else EncodeRune(s[0]) + EncodeString(s[1..])
  }

  /** Encoding distributes over concatenation. */
  lemma {:induction false} EncodeStringAppend(a: string, b: string)
    ensures EncodeString(a + b) == EncodeString(a) + EncodeString(b)
  {
    if |a| > 0 {
      assert (a + b)[0] == a[0];
      assert (a + b)[1..] == a[1..] + b;
      EncodeStringAppend(a[1..], b);
      assert EncodeString(a + b) == EncodeRune(a[0]) + EncodeString(a[1..] + b);
    } else {
      assert a + b == b;
    }
  }

  /** An ASCII text is its own encoding, byte for character. */
  lemma {:induction false} EncodeAscii(s: string)
    requires forall i :: 0 <= i < |s| ==> s[i] < '\U{80}'
    ensures |EncodeString(s)| == |s|
    ensures forall i :: 0 <= i < |s| ==> EncodeString(s)[i] == s[i] as int
  {
    if |s| > 0 {
      EncodeAscii(s[1..]);
    }
  }
}
