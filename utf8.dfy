/**
 * `TextEncoder.encode`: the UTF-8 encoding of a string of Unicode scalar values,
 * with a decoder that undoes it, so that the bytes a send writes determine the
 * line it returns.
 */
module Utf8 {
  import opened Wrappers

  newtype byte = x: int | 0 <= x < 256

  /** The one to four bytes of one scalar value. */
  function EncodeChar(c: char): (bs: seq<byte>)
    ensures 1 <= |bs| <= 4
  {
    var n := c as int;
    if n < 0x80 then [n as byte]
    else if n < 0x800 then [(0xC0 + n / 64) as byte, (0x80 + n % 64) as byte]
    else if n < 0x10000 then
      [(0xE0 + n / 4096) as byte, (0x80 + (n / 64) % 64) as byte, (0x80 + n % 64) as byte]
    else
      [(0xF0 + n / 262144) as byte, (0x80 + (n / 4096) % 64) as byte,
       (0x80 + (n / 64) % 64) as byte, (0x80 + n % 64) as byte]
  }

  function Encode(s: string): (r: seq<byte>)
    ensures |s| <= |r| <= 4 * |s|
    ensures (forall i :: 0 <= i < |s| ==> s[i] as int < 0x80) ==>
              |r| == |s| && forall i :: 0 <= i < |s| ==> r[i] as int == s[i] as int
  {
    if s == [] then [] else EncodeChar(s[0]) + Encode(s[1..])
  }

  /** How many bytes a sequence that starts with `lead` occupies. */
  function Width(lead: byte): nat
  {
    if lead < 0x80 then 1 else if lead < 0xE0 then 2 else if lead < 0xF0 then 3 else 4
  }

  /**
   * The scalar value of one encoded sequence, or None if it is not one: every
   * byte after the lead must be a continuation byte (10xxxxxx), and the value
   * must need exactly this many bytes (no overlong form) and be a scalar value.
   */
  function DecodeChar(bs: seq<byte>): Option<char>
    requires |bs| >= 1 && |bs| == Width(bs[0])
  {
    var n: int :=
      if |bs| == 1 then bs[0] as int
      else if |bs| == 2 then (bs[0] as int - 0xC0) * 64 + (bs[1] as int - 0x80)
      else if |bs| == 3 then
        (bs[0] as int - 0xE0) * 4096 + (bs[1] as int - 0x80) * 64 + (bs[2] as int - 0x80)
      else
        (bs[0] as int - 0xF0) * 262144 + (bs[1] as int - 0x80) * 4096
        + (bs[2] as int - 0x80) * 64 + (bs[3] as int - 0x80);
    var least := if |bs| == 1 then 0 else if |bs| == 2 then 0x80 else if |bs| == 3 then 0x800 else 0x10000;
    if (forall i :: 1 <= i < |bs| ==> 0x80 <= bs[i] < 0xC0)
       && least <= n && (n < 0xD800 || 0xE000 <= n < 0x110000)
    then Some(n as char) else None
  }

  function Decode(bs: seq<byte>): Option<string>
    decreases |bs|
  {
    if bs == [] then Some("")
    else
      var w := Width(bs[0]);
      if |bs| < w then None
      else match DecodeChar(bs[..w])
        case None => None
        case Some(c) =>
          match Decode(bs[w..])
          case None => None
          case Some(rest) => Some([c] + rest)
  }

  /** Each encoded scalar value is read back whole, from its own lead byte. */
  lemma EncodeCharDecodes(c: char)
    ensures var bs := EncodeChar(c); |bs| == Width(bs[0]) && DecodeChar(bs) == Some(c)
  {
    var n := c as int;
    if n < 0x80 {
    } else if n < 0x800 {
      TwoByteDecodes(c);
    } else if n < 0x10000 {
      ThreeByteDecodes(c);
    } else {
      FourByteDecodes(c);
    }
  }

  /** Splitting off the low six bits. */
  lemma SixBits(n: int)
    requires n >= 0
    ensures n == (n / 64) * 64 + n % 64 && 0 <= n % 64 < 64
  {
  }

  lemma TwoByteDecodes(c: char)
    requires 0x80 <= c as int < 0x800
    ensures var bs := EncodeChar(c); |bs| == Width(bs[0]) && DecodeChar(bs) == Some(c)
  {
    var n := c as int;
    SixBits(n);
    var bs := EncodeChar(c);
    assert (bs[0] as int - 0xC0) * 64 + (bs[1] as int - 0x80) == n;
  }

  lemma ThreeByteDecodes(c: char)
    requires 0x800 <= c as int < 0x10000
    ensures var bs := EncodeChar(c); |bs| == Width(bs[0]) && DecodeChar(bs) == Some(c)
  {
    var n := c as int;
    SixBits(n);
    SixBits(n / 64);
    assert n / 4096 == (n / 64) / 64;
    var bs := EncodeChar(c);
    assert (bs[0] as int - 0xE0) * 4096 + (bs[1] as int - 0x80) * 64 + (bs[2] as int - 0x80) == n;
  }

  lemma FourByteDecodes(c: char)
    requires 0x10000 <= c as int
    ensures var bs := EncodeChar(c); |bs| == Width(bs[0]) && DecodeChar(bs) == Some(c)
  {
    var n := c as int;
    SixBits(n);
    SixBits(n / 64);
    SixBits(n / 4096);
    assert n / 4096 == (n / 64) / 64;
    assert n / 262144 == (n / 4096) / 64;
    var bs := EncodeChar(c);
    assert (bs[0] as int - 0xF0) * 262144 + (bs[1] as int - 0x80) * 4096
           + (bs[2] as int - 0x80) * 64 + (bs[3] as int - 0x80) == n;
  }

  /** Decoding undoes encoding; in particular the encoding is injective. */
  lemma {:induction false} DecodeEncode(s: string)
    ensures Decode(Encode(s)) == Some(s)
    decreases |s|
  {
    if s != [] {
      var head := EncodeChar(s[0]);
      var bs := Encode(s);
      EncodeCharDecodes(s[0]);
      assert bs == head + Encode(s[1..]);
      assert bs[..|head|] == head;
      assert bs[|head|..] == Encode(s[1..]);
      DecodeEncode(s[1..]);
      assert [s[0]] + s[1..] == s;
    }
  }

  /** Two strings with the same encoding are the same string. */
  lemma EncodeInjective(s: string, t: string)
    requires Encode(s) == Encode(t)
    ensures s == t
  {
    DecodeEncode(s);
    DecodeEncode(t);
  }
}
