/** Bytes as the init pipe carries them: little-endian integers
    (`to_le_bytes` / `from_le_bytes`) and UTF-8 text (`String::from_utf8`). */
module Bytes {
  import opened Wrappers

  newtype byte = x: int | 0 <= x < 256

  function Pow256(width: nat): (r: nat)
    ensures r >= 1
  {
    if width == 0 then 1 else 256 * Pow256(width - 1)
  }

  /** The `width` little-endian bytes of `n` (`n.to_le_bytes()` for an unsigned of that width). */
  function LeBytes(n: nat, width: nat): (r: seq<byte>)
    requires n < Pow256(width)
    ensures |r| == width
  {
    if width == 0 then [] else [(n % 256) as byte] + LeBytes(n / 256, width - 1)
  }

  /** `from_le_bytes` for an unsigned integer. */
  function LeValue(bs: seq<byte>): nat
  {
    if bs == [] then 0 else bs[0] as nat + 256 * LeValue(bs[1..])
  }

  lemma {:induction false} LeValueBound(bs: seq<byte>)
    ensures LeValue(bs) < Pow256(|bs|)
  {
    if bs != [] { LeValueBound(bs[1..]); }
  }

  /** Decoding what was encoded gives the number back. */
  lemma {:induction false} LeRoundTrip(n: nat, width: nat)
    requires n < Pow256(width)
    ensures LeValue(LeBytes(n, width)) == n
  {
    if width > 0 {
      LeRoundTrip(n / 256, width - 1);
      assert LeBytes(n, width)[1..] == LeBytes(n / 256, width - 1);
    }
  }

  /** Encoding what was decoded gives the bytes back. */
  lemma {:induction false} LeBytesOfValue(bs: seq<byte>)
    ensures LeValue(bs) < Pow256(|bs|) && LeBytes(LeValue(bs), |bs|) == bs
  {
    LeValueBound(bs);
    if bs != [] {
      LeBytesOfValue(bs[1..]);
      var v := LeValue(bs);
      assert v % 256 == bs[0] as int && v / 256 == LeValue(bs[1..]);
    }
  }

  const TwoPow31: int := 0x8000_0000
  const TwoPow32: int := 0x1_0000_0000

  /** `x.to_le_bytes()` for an i32 (two's complement). */
  function I32ToLe(x: int): (r: seq<byte>)
    requires -TwoPow31 <= x < TwoPow31
    ensures |r| == 4
  {
    LeBytes(if x < 0 then x + TwoPow32 else x, 4)
  }

  /** `i32::from_le_bytes`. */
  function I32FromLe(bs: seq<byte>): int
    requires |bs| == 4
  {
    var v := LeValue(bs);
    if v >= TwoPow31 then v - TwoPow32 else v
  }

  /** An i32 survives the trip through its four little-endian bytes. */
  lemma I32RoundTrip(x: int)
    requires -TwoPow31 <= x < TwoPow31
    ensures I32FromLe(I32ToLe(x)) == x
  {
    assert Pow256(4) == TwoPow32;
    LeRoundTrip(if x < 0 then x + TwoPow32 else x, 4);
  }

  /** Any four bytes survive the trip through an i32. */
  lemma I32BytesRoundTrip(bs: seq<byte>)
    requires |bs| == 4
    ensures -TwoPow31 <= I32FromLe(bs) < TwoPow31 && I32ToLe(I32FromLe(bs)) == bs
  {
    assert Pow256(4) == TwoPow32;
    LeBytesOfValue(bs);
  }

  // ---------------------------------------------------------------------
  // UTF-8
  // ---------------------------------------------------------------------

  predicate IsCont(b: byte) { 0x80 <= b <= 0xBF }

  predicate IsScalar(cp: int) { (0 <= cp < 0xD800) || (0xE000 <= cp < 0x11_0000) }

  /** The first scalar value of `bs` and the number of bytes it takes, if they form
      a well-formed UTF-8 sequence (shortest form, no surrogates, at most U+10FFFF). */
  function DecodeFirst(bs: seq<byte>): (r: Option<(char, nat)>)
    requires bs != []
    ensures r.Some? ==> 1 <= r.value.1 <= |bs| && r.value.1 <= 4
  {
    var b0 := bs[0] as int;
    if b0 < 0x80 then Some((b0 as char, 1))
    else if 0xC2 <= b0 <= 0xDF then
      if |bs| < 2 || !IsCont(bs[1]) then None
      else Some((((b0 - 0xC0) * 64 + (bs[1] as int - 0x80)) as char, 2))
    else if 0xE0 <= b0 <= 0xEF then
      var lo := if b0 == 0xE0 then 0xA0 else 0x80;
      var hi := if b0 == 0xED then 0x9F else 0xBF;
      if |bs| < 3 || !(lo <= bs[1] as int <= hi) || !IsCont(bs[2]) then None
      else
        var cp := (b0 - 0xE0) * 4096 + (bs[1] as int - 0x80) * 64 + (bs[2] as int - 0x80);
        Some((cp as char, 3))
    else if 0xF0 <= b0 <= 0xF4 then
      var lo := if b0 == 0xF0 then 0x90 else 0x80;
      var hi := if b0 == 0xF4 then 0x8F else 0xBF;
      if |bs| < 4 || !(lo <= bs[1] as int <= hi) || !IsCont(bs[2]) || !IsCont(bs[3]) then None
      else
        var cp := (b0 - 0xF0) * 262144 + (bs[1] as int - 0x80) * 4096
                  + (bs[2] as int - 0x80) * 64 + (bs[3] as int - 0x80);
        Some((cp as char, 4))
    else None
  }

  /** `String::from_utf8(bs)`: the text, or none when `bs` is not UTF-8. */
  function Utf8Decode(bs: seq<byte>): Option<string>
    decreases |bs|
  {
    if bs == [] then Some("")
    else match DecodeFirst(bs)
      case None => None
      case Some(d) =>
        match Utf8Decode(bs[d.1..])
        case None => None
        case Some(rest) => Some([d.0] + rest)
  }

  /** The UTF-8 bytes of one character. */
  function EncodeChar(c: char): (r: seq<byte>)
    ensures 1 <= |r| <= 4
  {
    var cp := c as int;
    if cp < 0x80 then [cp as byte]
    else if cp < 0x800 then [(0xC0 + cp / 64) as byte, (0x80 + cp % 64) as byte]
    else if cp < 0x1_0000 then
      [(0xE0 + cp / 4096) as byte, (0x80 + (cp / 64) % 64) as byte, (0x80 + cp % 64) as byte]
    else
      [(0xF0 + cp / 262144) as byte, (0x80 + (cp / 4096) % 64) as byte,
       (0x80 + (cp / 64) % 64) as byte, (0x80 + cp % 64) as byte]
  }

  /** The UTF-8 bytes of a string (`s.as_bytes()`). */
  function Utf8Encode(s: string): seq<byte>
  {
    if s == [] then [] else EncodeChar(s[0]) + Utf8Encode(s[1..])
  }

  lemma DecodeEncodedChar(c: char, rest: seq<byte>)
    ensures DecodeFirst(EncodeChar(c) + rest) == Some((c, |EncodeChar(c)|))
  {
    var cp := c as int;
    if cp < 0x80 {
    } else if cp < 0x800 {
      DecodeTwo(c, rest);
    } else if cp < 0x1_0000 {
      DecodeThree(c, rest);
    } else {
      DecodeFour(c, rest);
    }
  }

  lemma DecodeTwo(c: char, rest: seq<byte>)
    requires 0x80 <= c as int < 0x800
    ensures DecodeFirst(EncodeChar(c) + rest) == Some((c, 2))
  {
    var cp := c as int;
    assert (cp / 64) * 64 + cp % 64 == cp;
  }

  lemma DecodeThree(c: char, rest: seq<byte>)
    requires 0x800 <= c as int < 0x1_0000
    ensures DecodeFirst(EncodeChar(c) + rest) == Some((c, 3))
  {
    var cp := c as int;
    assert (cp / 4096) * 4096 + ((cp / 64) % 64) * 64 + cp % 64 == cp;
  }

  lemma DecodeFour(c: char, rest: seq<byte>)
    requires 0x1_0000 <= c as int
    ensures DecodeFirst(EncodeChar(c) + rest) == Some((c, 4))
  {
    var cp := c as int;
    assert (cp / 262144) * 262144 + ((cp / 4096) % 64) * 4096 + ((cp / 64) % 64) * 64 + cp % 64 == cp;
  }

  /** Decoding the encoding of any string gives the string back. */
  lemma {:induction false} Utf8RoundTrip(s: string)
    ensures Utf8Decode(Utf8Encode(s)) == Some(s)
  {
    if s != [] {
      var e := EncodeChar(s[0]);
      var tail := Utf8Encode(s[1..]);
      DecodeEncodedChar(s[0], tail);
      Utf8RoundTrip(s[1..]);
      assert (e + tail)[|e|..] == tail;
      assert Utf8Encode(s) == e + tail;
      assert Utf8Decode(e + tail) == Some([s[0]] + s[1..]);
      assert [s[0]] + s[1..] == s;
    }
  }
}
