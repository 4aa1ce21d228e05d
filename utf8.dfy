/**
 * UTF-8, the byte encoding that both `str::as_bytes` in the program and
 * `Buffer.from(string)` in the client apply to text before it becomes a
 * derivation seed or a stored string. Dafny's `char` is a Unicode scalar
 * value, so every string has exactly one encoding.
 */
module Utf8 {
  import opened Numeric
  import opened Wrappers

  predicate IsScalar(cp: int) {
    (0 <= cp < 0xD800) || (0xE000 <= cp < 0x11_0000)
  }

  /** The one to four bytes of one scalar value. */
  function EncodeChar(c: char): (r: seq<Byte>)
    ensures 1 <= |r| <= 4
    ensures (c as int < 0x80) <==> |r| == 1
    ensures |r| == 1 ==> r[0] as int == c as int
  {
    var cp := c as int;
    if cp < 0x80 then
      [cp as Byte]
    else if cp < 0x800 then
      [(0xC0 + cp / 64) as Byte, (0x80 + cp % 64) as Byte]
    else if cp < 0x1_0000 then
      [(0xE0 + cp / 4096) as Byte, (0x80 + (cp / 64) % 64) as Byte, (0x80 + cp % 64) as Byte]
    else
      [(0xF0 + cp / 262144) as Byte, (0x80 + (cp / 4096) % 64) as Byte,
       (0x80 + (cp / 64) % 64) as Byte, (0x80 + cp % 64) as Byte]
  }

  function Encode(s: string): (r: seq<Byte>)
    ensures |r| >= |s|
  {
    if s == [] then [] else EncodeChar(s[0]) + Encode(s[1..])
  }

  predicate IsContinuation(b: Byte) {
    0x80 <= b < 0xC0
  }

  /**
   * The scalar value at the front of `bs` and the number of bytes it takes.
   * As Rust's `String::from_utf8` does, it refuses surrogates, values past
   * U+10FFFF and overlong forms (a value written with more bytes than it
   * needs), so what it reads is exactly the one encoding of that value.
   */
  function DecodeChar(bs: seq<Byte>): (r: Option<(char, nat)>)
    requires |bs| > 0
    ensures r.Some? ==> 1 <= r.value.1 <= |bs| && EncodeChar(r.value.0) == bs[..r.value.1]
  {
    var b0 := bs[0] as int;
    if b0 < 0x80 then
      assert bs[..1] == [bs[0]];
      Some((b0 as char, 1))
    else if 0xC0 <= b0 < 0xE0 && |bs| >= 2 && IsContinuation(bs[1]) then
      var cp := (b0 - 0xC0) * 64 + (bs[1] as int - 0x80);
      if cp < 0x80 then None
      else
        TwoByteEncode(bs[0], bs[1]);
        assert bs[..2] == [bs[0], bs[1]];
        Some((cp as char, 2))
    else if 0xE0 <= b0 < 0xF0 && |bs| >= 3 && IsContinuation(bs[1]) && IsContinuation(bs[2]) then
      var cp := (b0 - 0xE0) * 4096 + (bs[1] as int - 0x80) * 64 + (bs[2] as int - 0x80);
      if cp < 0x800 || !IsScalar(cp) then None
      else
        ThreeByteEncode(bs[0], bs[1], bs[2]);
        assert bs[..3] == [bs[0], bs[1], bs[2]];
        Some((cp as char, 3))
    else if 0xF0 <= b0 < 0xF8 && |bs| >= 4 && IsContinuation(bs[1]) && IsContinuation(bs[2])
            && IsContinuation(bs[3]) then
      var cp := (b0 - 0xF0) * 262144 + (bs[1] as int - 0x80) * 4096 + (bs[2] as int - 0x80) * 64
                + (bs[3] as int - 0x80);
      if cp < 0x1_0000 || !IsScalar(cp) then None
      else
        FourByteEncode(bs[0], bs[1], bs[2], bs[3]);
        assert bs[..4] == [bs[0], bs[1], bs[2], bs[3]];
        Some((cp as char, 4))
    else None
  }

  /** The overlong forms of U+0000 and an encoded surrogate are refused. */
  lemma NonMinimalRefused()
    ensures DecodeChar([0xC0, 0x80]) == None
    ensures DecodeChar([0xE0, 0x80, 0x80]) == None
    ensures DecodeChar([0xF0, 0x80, 0x80, 0x80]) == None
    ensures DecodeChar([0xED, 0xA0, 0x80]) == None
  {
  }

  lemma TwoByteEncode(b0: Byte, b1: Byte)
    requires 0xC0 <= b0 < 0xE0 && IsContinuation(b1)
    requires (b0 as int - 0xC0) * 64 + (b1 as int - 0x80) >= 0x80
    ensures EncodeChar(((b0 as int - 0xC0) * 64 + (b1 as int - 0x80)) as char) == [b0, b1]
  {
    var hi, lo := b0 as int - 0xC0, b1 as int - 0x80;
    var cp := hi * 64 + lo;
    assert cp / 64 == hi && cp % 64 == lo;
  }

  lemma ThreeByteEncode(b0: Byte, b1: Byte, b2: Byte)
    requires 0xE0 <= b0 < 0xF0 && IsContinuation(b1) && IsContinuation(b2)
    requires var cp := (b0 as int - 0xE0) * 4096 + (b1 as int - 0x80) * 64 + (b2 as int - 0x80);
      cp >= 0x800 && IsScalar(cp)
    ensures EncodeChar(((b0 as int - 0xE0) * 4096 + (b1 as int - 0x80) * 64 + (b2 as int - 0x80)) as char)
            == [b0, b1, b2]
  {
    var hi, mid, lo := b0 as int - 0xE0, b1 as int - 0x80, b2 as int - 0x80;
    var cp := hi * 4096 + mid * 64 + lo;
    assert cp / 64 == hi * 64 + mid && cp % 64 == lo;
    assert (cp / 64) / 64 == hi && (cp / 64) % 64 == mid;
    assert cp / 4096 == hi;
  }

  lemma FourByteEncode(b0: Byte, b1: Byte, b2: Byte, b3: Byte)
    requires 0xF0 <= b0 < 0xF8 && IsContinuation(b1) && IsContinuation(b2) && IsContinuation(b3)
    requires var cp := (b0 as int - 0xF0) * 262144 + (b1 as int - 0x80) * 4096 + (b2 as int - 0x80) * 64
                       + (b3 as int - 0x80);
      cp >= 0x1_0000 && IsScalar(cp)
    ensures EncodeChar(((b0 as int - 0xF0) * 262144 + (b1 as int - 0x80) * 4096 + (b2 as int - 0x80) * 64
                        + (b3 as int - 0x80)) as char) == [b0, b1, b2, b3]
  {
    var top, hi, mid, lo := b0 as int - 0xF0, b1 as int - 0x80, b2 as int - 0x80, b3 as int - 0x80;
    var cp := top * 262144 + hi * 4096 + mid * 64 + lo;
    assert cp / 64 == top * 4096 + hi * 64 + mid && cp % 64 == lo;
    assert cp / 4096 == top * 64 + hi && (cp / 64) % 64 == mid;
    assert cp / 262144 == top && (cp / 4096) % 64 == hi;
  }

  function Decode(bs: seq<Byte>): (r: Option<string>)
    decreases |bs|
  {
    if bs == [] then Some([])
    else match DecodeChar(bs)
      case None => None
      case Some((c, n)) =>
        match Decode(bs[n..])
        case None => None
        case Some(rest) => Some([c] + rest)
  }

  lemma TwoByteDigits(cp: int)
    requires 0x80 <= cp < 0x800
    ensures 2 <= cp / 64 < 32 && (cp / 64) * 64 + cp % 64 == cp
  {
  }

  lemma ThreeByteDigits(cp: int)
    requires 0x800 <= cp < 0x1_0000
    ensures cp / 4096 < 16
    ensures (cp / 4096) * 4096 + ((cp / 64) % 64) * 64 + cp % 64 == cp
  {
    assert cp / 64 == (cp / 4096) * 64 + (cp / 64) % 64;
  }

  lemma FourByteDigits(cp: int)
    requires 0x1_0000 <= cp < 0x11_0000
    ensures cp / 262144 < 5
    ensures (cp / 262144) * 262144 + ((cp / 4096) % 64) * 4096 + ((cp / 64) % 64) * 64 + cp % 64 == cp
  {
    assert cp / 4096 == (cp / 262144) * 64 + (cp / 4096) % 64;
    assert cp / 64 == (cp / 4096) * 64 + (cp / 64) % 64;
  }

  lemma DecodeEncodeChar(c: char, rest: seq<Byte>)
    ensures DecodeChar(EncodeChar(c) + rest) == Some((c, |EncodeChar(c)|))
  {
    var cp := c as int;
    var bs := EncodeChar(c) + rest;
    if cp < 0x80 {
    } else if cp < 0x800 {
      TwoByteDigits(cp);
      var b0, b1 := bs[0] as int, bs[1] as int;
      assert b0 == 0xC0 + cp / 64 && b1 == 0x80 + cp % 64;
      assert (b0 - 0xC0) * 64 + (b1 - 0x80) == cp;
    } else if cp < 0x1_0000 {
      ThreeByteDigits(cp);
      var b0, b1, b2 := bs[0] as int, bs[1] as int, bs[2] as int;
      assert b0 == 0xE0 + cp / 4096 && b1 == 0x80 + (cp / 64) % 64 && b2 == 0x80 + cp % 64;
      assert (b0 - 0xE0) * 4096 + (b1 - 0x80) * 64 + (b2 - 0x80) == cp;
    } else {
      FourByteDigits(cp);
      var b0, b1, b2, b3 := bs[0] as int, bs[1] as int, bs[2] as int, bs[3] as int;
      assert b0 == 0xF0 + cp / 262144 && b1 == 0x80 + (cp / 4096) % 64;
      assert b2 == 0x80 + (cp / 64) % 64 && b3 == 0x80 + cp % 64;
      assert (b0 - 0xF0) * 262144 + (b1 - 0x80) * 4096 + (b2 - 0x80) * 64 + (b3 - 0x80) == cp;
    }
  }

  /** Decoding undoes encoding, so the encoding loses nothing. */
  lemma {:induction false} DecodeEncode(s: string)
    ensures Decode(Encode(s)) == Some(s)
  {
    if s != [] {
      var bs := Encode(s);
      var n := |EncodeChar(s[0])|;
      assert bs == EncodeChar(s[0]) + Encode(s[1..]);
      DecodeEncodeChar(s[0], Encode(s[1..]));
      assert bs[n..] == Encode(s[1..]);
      DecodeEncode(s[1..]);
      assert Decode(bs) == Some([s[0]] + s[1..]);
      assert [s[0]] + s[1..] == s;
    }
  }

  /** Two strings with the same bytes are the same string. */
  lemma EncodeInjective(s1: string, s2: string)
    requires Encode(s1) == Encode(s2)
    ensures s1 == s2
  {
    DecodeEncode(s1);
    DecodeEncode(s2);
  }

  predicate IsAscii(s: string) {
    forall i :: 0 <= i < |s| ==> s[i] as int < 0x80
  }

  /** An ASCII string encodes as its character codes, one byte each. */
  lemma {:induction false} EncodeAscii(s: string)
    requires IsAscii(s)
    ensures |Encode(s)| == |s|
    ensures forall i :: 0 <= i < |s| ==> Encode(s)[i] as int == s[i] as int
  {
    if s != [] {
      EncodeAscii(s[1..]);
    }
  }
}
