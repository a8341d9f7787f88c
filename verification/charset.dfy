/** Character-set handling for the XMLTV input: recognising the names of
    ISO-8859-1 (Latin-1) and re-encoding Latin-1 bytes as UTF-8, which is
    what the reader handed to the XML decoder does before tokenising. */
module Charset {
  import opened Wrappers
  import opened GoStrings
  import opened Utf8

  /** The registered name of ISO-8859-1 and its aliases, as listed in the
      IANA character-sets registry (the 2010-11-04 revision). */
  const Latin1Names: seq<string> := [
    "ISO_8859-1:1987", "ISO-8859-1", "iso-ir-100", "ISO_8859-1",
    "latin1", "l1", "IBM819", "CP819", "csISOLatin1"
  ]

  /** The same nine names, written out in lower case. */
  const Latin1Lower: set<string> := {
    "iso_8859-1:1987", "iso-8859-1", "iso-ir-100", "iso_8859-1",
    "latin1", "l1", "ibm819", "cp819", "csisolatin1"
  }

  /** `isCharset`: does `charset` equal one of `names`, ignoring case? */
  function IsCharset(charset: string, names: seq<string>): (found: bool)
    ensures found <==> exists i :: 0 <= i < |names| && ToLower(charset) == ToLower(names[i])
  {
    if |names| == 0 then false
    else ToLower(charset) == ToLower(names[0]) || IsCharset(charset, names[1..])
  }

  /** The lower case of each listed name, in list order. */
  const Latin1Lowered: seq<string> := [
    "iso_8859-1:1987", "iso-8859-1", "iso-ir-100", "iso_8859-1",
    "latin1", "l1", "ibm819", "cp819", "csisolatin1"
  ]

  lemma Latin1NamesLowered()
    ensures forall i :: 0 <= i < |Latin1Names| ==> ToLower(Latin1Names[i]) == Latin1Lowered[i]
    ensures forall t :: t in Latin1Lower <==> t in Latin1Lowered
  {
    LowerOf("ISO_8859-1:1987", "iso_8859-1:1987");
    LowerOf("ISO-8859-1", "iso-8859-1");
    LowerOf("iso-ir-100", "iso-ir-100");
    LowerOf("ISO_8859-1", "iso_8859-1");
    LowerOf("latin1", "latin1");
    LowerOf("l1", "l1");
    LowerOf("IBM819", "ibm819");
    LowerOf("CP819", "cp819");
    LowerOf("csISOLatin1", "csisolatin1");
  }

  /** `IsCharsetISO88591`: the charset is a Latin-1 alias exactly when its
      lower case is one of the nine lower-cased names. */
  function IsCharsetISO88591(charset: string): (r: bool)
    ensures r <==> ToLower(charset) in Latin1Lower
  {
    Latin1NamesLowered();
    IsCharset(charset, Latin1Names)
  }

  /** Number of bytes at or above 0x80. */
  function HighCount(bs: seq<byte>): nat {
    if |bs| == 0 then 0 else (if bs[0] >= 0x80 then 1 else 0) + HighCount(bs[1..])
  }

  /** The transform the Latin-1 reader applies to the whole stream: byte `b`
      becomes code point U+00`b`, written out in UTF-8. */
  function Latin1ToUtf8(input: seq<byte>): (out: seq<byte>)
    ensures |out| == |input| + HighCount(input)
  {
    if |input| == 0 then []
    else EncodeRune(input[0] as char) + Latin1ToUtf8(input[1..])
  }

  /** A byte at or above 0x80 becomes a two-byte sequence led by 0xC2 or 0xC3. */
  lemma EncodeLatin1Byte(b: byte)
    requires b >= 0x80
    ensures EncodeRune(b as char) == [0xC0 + b / 64, 0x80 + b % 64]
    ensures 0xC2 <= 0xC0 + b / 64 <= 0xC3
  {
  }

  /** The transform distributes over concatenation, so reading the stream in
      chunks of any size yields the same bytes. */
  lemma {:induction false} Latin1Append(a: seq<byte>, b: seq<byte>)
    ensures Latin1ToUtf8(a + b) == Latin1ToUtf8(a) + Latin1ToUtf8(b)
  {
    if |a| == 0 {
      assert a + b == b;
    } else {
      assert (a + b)[0] == a[0];
      assert (a + b)[1..] == a[1..] + b;
      Latin1Append(a[1..], b);
    }
  }

  /** Bytes below 0x80 pass through unchanged. */
  lemma {:induction false} Latin1Ascii(input: seq<byte>)
    requires forall i :: 0 <= i < |input| ==> input[i] < 0x80
    ensures Latin1ToUtf8(input) == input
  {
    if |input| > 0 {
      Latin1Ascii(input[1..]);
      assert [input[0]] + input[1..] == input;
    }
  }

  /** Reads UTF-8 made of one-byte and two-byte (0xC2/0xC3-led) sequences
      back into Latin-1 bytes; anything else has no Latin-1 reading. */
  function Utf8ToLatin1(bs: seq<byte>): Option<seq<byte>>
    decreases |bs|
  {
    if |bs| == 0 then Some([])
    else if bs[0] < 0x80 then
      match Utf8ToLatin1(bs[1..])
      case Some(rest) => Some([bs[0]] + rest)
      case None => None
    else if |bs| >= 2 && 0xC2 <= bs[0] <= 0xC3 && 0x80 <= bs[1] < 0xC0 then
      match Utf8ToLatin1(bs[2..])
      case Some(rest) => Some([(bs[0] - 0xC0) * 64 + (bs[1] - 0x80)] + rest)
      case None => None
    else None
  }

  /** Decoding the transform's output gives back the Latin-1 input. */
  lemma {:induction false} Latin1RoundTrip(input: seq<byte>)
    ensures Utf8ToLatin1(Latin1ToUtf8(input)) == Some(input)
  {
    if |input| > 0 {
      var b := input[0];
      var out := Latin1ToUtf8(input);
      Latin1RoundTrip(input[1..]);
      if b < 0x80 {
        assert out[1..] == Latin1ToUtf8(input[1..]);
      } else {
        EncodeLatin1Byte(b);
        assert out[2..] == Latin1ToUtf8(input[1..]);
      }
      assert [b] + input[1..] == input;
    }
  }

  /** `CharsetReader`: for a Latin-1 alias the stream is transcoded to UTF-8
      (and can be read back byte for byte); any other charset passes the
      stream through untouched. */
  function CharsetReader(charset: string, input: seq<byte>): (out: seq<byte>)
    ensures !IsCharsetISO88591(charset) ==> out == input
    ensures IsCharsetISO88591(charset) ==> Utf8ToLatin1(out) == Some(input)
    ensures IsCharsetISO88591(charset) ==> |out| == |input| + HighCount(input)
  {
    if IsCharsetISO88591(charset) then
      Latin1RoundTrip(input);
      Latin1ToUtf8(input)
    else input
  }
}
