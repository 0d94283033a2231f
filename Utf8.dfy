/**
 * Bytes and the UTF-8 encoding of text, as `Buffer.from(text, "utf-8")`
 * produces it (RFC 3629, section 3). A Dafny `char` is a Unicode scalar
 * value, so there are no lone surrogates to replace.
 */
module Utf8 {

  newtype byte = b: int | 0 <= b < 256

  /** The number of bytes RFC 3629 uses for the code point `n`. */
  function Width(n: int): nat {
    if n < 0x80 then 1 else if n < 0x800 then 2 else if n < 0x10000 then 3 else 4
  }

  /** A continuation byte: `10` followed by six payload bits. */
  function Continuation(n: int): byte
    requires 0 <= n
  {
    (0x80 + n % 64) as byte
  }

  /** The UTF-8 bytes of one character. */
  function EncodeChar(c: char): (bs: seq<byte>)
    ensures |bs| == Width(c as int)
    ensures |bs| == 1 ==> bs[0] as int == c as int
  {
    var n := c as int;
    if n < 0x80 then [n as byte]
    else if n < 0x800 then [(0xC0 + n / 64) as byte, Continuation(n)]
    else if n < 0x10000 then [(0xE0 + n / 4096) as byte, Continuation(n / 64), Continuation(n)]
    else [(0xF0 + n / 262144) as byte, Continuation(n / 4096), Continuation(n / 64), Continuation(n)]
  }

  /** `Buffer.from(s, "utf-8")`: the characters' encodings, in order. */
  function Encode(s: string): (bs: seq<byte>)
    ensures |bs| >= |s|
  {
    if |s| == 0 then [] else EncodeChar(s[0]) + Encode(s[1..])
  }

  /** The code point a well-formed sequence of one character's bytes stands for. */
  function DecodeChar(bs: seq<byte>): int
    requires 1 <= |bs| <= 4
  {
    var b0 := bs[0] as int;
    if |bs| == 1 then b0
    else if |bs| == 2 then (b0 - 0xC0) * 64 + (bs[1] as int - 0x80)
    else if |bs| == 3 then ((b0 - 0xE0) * 64 + (bs[1] as int - 0x80)) * 64 + (bs[2] as int - 0x80)
    else (((b0 - 0xF0) * 64 + (bs[1] as int - 0x80)) * 64 + (bs[2] as int - 0x80)) * 64 + (bs[3] as int - 0x80)
  }

  // ---------------------------------------------------------------------------
  // Properties.

  /** Decoding a character's bytes gives the character back. */
  lemma DecodeEncodeChar(c: char)
    ensures DecodeChar(EncodeChar(c)) == c as int
  {
    var n := c as int;
    if n >= 0x800 && n < 0x10000 {
      assert n / 4096 * 64 + (n / 64) % 64 == n / 64;
    } else if n >= 0x10000 {
      assert n / 262144 * 64 + (n / 4096) % 64 == n / 4096;
      assert n / 4096 * 64 + (n / 64) % 64 == n / 64;
    }
  }

  /** The first byte tells how many bytes the character takes. */
  lemma LeadingByteWidth(c: char)
    ensures var b := EncodeChar(c)[0] as int;
      (b < 0x80 <==> Width(c as int) == 1)
      && (0xC0 <= b < 0xE0 <==> Width(c as int) == 2)
      && (0xE0 <= b < 0xF0 <==> Width(c as int) == 3)
      && (0xF0 <= b <==> Width(c as int) == 4)
  {
  }

  /** Text made of ASCII characters encodes to one byte per character, each its code. */
  lemma {:induction false} AsciiEncode(s: string)
    requires forall i :: 0 <= i < |s| ==> s[i] as int < 0x80
    ensures |Encode(s)| == |s|
    ensures forall i :: 0 <= i < |s| ==> Encode(s)[i] as int == s[i] as int
  {
    if |s| > 0 {
      AsciiEncode(s[1..]);
      assert Encode(s) == [s[0] as int as byte] + Encode(s[1..]);
    }
  }

  /** Encoding distributes over concatenation. */
  lemma {:induction false} EncodeAppend(a: string, b: string)
    ensures Encode(a + b) == Encode(a) + Encode(b)
  {
    if |a| > 0 {
      assert (a + b)[1..] == a[1..] + b;
      EncodeAppend(a[1..], b);
    } else {
      assert a + b == b;
    }
  }
}
