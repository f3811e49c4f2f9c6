/**
 * UTF-8 as Rust's `String` holds it: `String::len` and `Body::from(String)`
 * see the encoded bytes, and `String::from_utf8` accepts exactly the
 * well-formed byte sequences of RFC 3629, section 4 (no overlong forms, no
 * surrogates, nothing above U+10FFFF).
 */
module Utf8 {
  import opened Wrappers

  type byte = x: int | 0 <= x < 0x100

  predicate IsContinuation(b: byte) {
    0x80 <= b <= 0xBF
  }

  /** The encoding of one Unicode scalar value, 1 to 4 bytes. */
  function EncodeChar(c: char): (r: seq<byte>)
    ensures 1 <= |r| <= 4
  {
    var cp := c as int;
    if cp < 0x80 then
      [cp]
    else if cp < 0x800 then
      [0xC0 + cp / 0x40, 0x80 + cp % 0x40]
    else if cp < 0x1_0000 then
      [0xE0 + cp / 0x1000, 0x80 + cp / 0x40 % 0x40, 0x80 + cp % 0x40]
    else
      [0xF0 + cp / 0x4_0000, 0x80 + cp / 0x1000 % 0x40, 0x80 + cp / 0x40 % 0x40, 0x80 + cp % 0x40]
  }

  /** The bytes of a `String`: each scalar value takes 1 to 4 of them. */
  function Encode(s: string): (r: seq<byte>)
    ensures |s| <= |r| <= 4 * |s|
  {
    if s == [] then [] else EncodeChar(s[0]) + Encode(s[1..])
  }

  /** Allowed range of the second byte after a three-byte lead (RFC 3629 grammar). */
  function SecondLow3(b0: byte): byte { if b0 == 0xE0 then 0xA0 else 0x80 }
  function SecondHigh3(b0: byte): byte { if b0 == 0xED then 0x9F else 0xBF }
  /** Allowed range of the second byte after a four-byte lead. */
  function SecondLow4(b0: byte): byte { if b0 == 0xF0 then 0x90 else 0x80 }
  function SecondHigh4(b0: byte): byte { if b0 == 0xF4 then 0x8F else 0xBF }

  /** Code points of the multi-byte forms, from their lead and continuation bytes. */
  function Point2(b0: int, b1: int): int { (b0 - 0xC0) * 0x40 + (b1 - 0x80) }
  function Point3(b0: int, b1: int, b2: int): int { (b0 - 0xE0) * 0x1000 + (b1 - 0x80) * 0x40 + (b2 - 0x80) }
  function Point4(b0: int, b1: int, b2: int, b3: int): int {
    (b0 - 0xF0) * 0x4_0000 + (b1 - 0x80) * 0x1000 + (b2 - 0x80) * 0x40 + (b3 - 0x80)
  }

  /**
   * Reads one scalar value from the front of `b`: the character and the
   * number of bytes it took, or `None` when the front is not well formed.
   */
  function DecodeChar(b: seq<byte>): (r: Option<(char, nat)>)
    requires |b| >= 1
    ensures r.Some? ==> 1 <= r.value.1 <= |b| && r.value.1 <= 4
  {
    var b0 := b[0];
    if b0 < 0x80 then
      Some((b0 as char, 1))
    else if 0xC2 <= b0 <= 0xDF then
      if |b| >= 2 && IsContinuation(b[1]) then
        Some((Point2(b0, b[1]) as char, 2))
      else None
    else if 0xE0 <= b0 <= 0xEF then
      if |b| >= 3 && SecondLow3(b0) <= b[1] <= SecondHigh3(b0) && IsContinuation(b[2]) then
        Some((Point3(b0, b[1], b[2]) as char, 3))
      else None
    else if 0xF0 <= b0 <= 0xF4 then
      if |b| >= 4 && SecondLow4(b0) <= b[1] <= SecondHigh4(b0) && IsContinuation(b[2]) && IsContinuation(b[3]) then
        Some((Point4(b0, b[1], b[2], b[3]) as char, 4))
      else None
    else
      None
  }

  /** `String::from_utf8`: the text, or `None` when the bytes are not UTF-8. */
  function Decode(b: seq<byte>): (r: Option<string>)
    ensures r.Some? ==> |r.value| <= |b| <= 4 * |r.value|
    decreases |b|
  {
    if b == [] then Some([])
    else match DecodeChar(b)
      case None => None
      case Some((c, n)) =>
        match Decode(b[n..])
        case None => None
        case Some(rest) => Some([c] + rest)
  }

  lemma DivMod64(x: int, q: int, r: int)
    requires 0 <= r < 0x40 && x == q * 0x40 + r
    ensures x / 0x40 == q && x % 0x40 == r
  {
  }

  lemma DivMod4096(x: int, q: int, r: int)
    requires 0 <= r < 0x1000 && x == q * 0x1000 + r
    ensures x / 0x1000 == q && x % 0x1000 == r
  {
  }

  lemma DivMod262144(x: int, q: int, r: int)
    requires 0 <= r < 0x4_0000 && x == q * 0x4_0000 + r
    ensures x / 0x4_0000 == q && x % 0x4_0000 == r
  {
  }

  /** The continuation-byte digits of a two-, three- or four-byte code point. */
  lemma Digits(cp: nat)
    ensures cp == cp / 0x40 * 0x40 + cp % 0x40
    ensures cp / 0x40 == cp / 0x1000 * 0x40 + cp / 0x40 % 0x40
    ensures cp / 0x1000 == cp / 0x4_0000 * 0x40 + cp / 0x1000 % 0x40
  {
    var q1, r0 := cp / 0x40, cp % 0x40;
    var q2, r1 := q1 / 0x40, q1 % 0x40;
    var q3, r2 := q2 / 0x40, q2 % 0x40;
    assert cp == q2 * 0x1000 + (r1 * 0x40 + r0);
    DivMod4096(cp, q2, r1 * 0x40 + r0);
    assert cp == q3 * 0x4_0000 + (r2 * 0x1000 + r1 * 0x40 + r0);
    DivMod262144(cp, q3, r2 * 0x1000 + r1 * 0x40 + r0);
  }

  lemma DecodeEncodeChar3(cp: nat, rest: seq<byte>)
    requires 0x800 <= cp < 0x1_0000 && !(0xD800 <= cp < 0xE000)
    ensures DecodeChar(EncodeChar(cp as char) + rest) == Some((cp as char, 3))
  {
    Digits(cp);
    var b := EncodeChar(cp as char) + rest;
    var b0, b1, b2 := 0xE0 + cp / 0x1000, 0x80 + cp / 0x40 % 0x40, 0x80 + cp % 0x40;
    assert b[0] == b0 && b[1] == b1 && b[2] == b2;
    assert Point3(b0, b1, b2) == cp;
  }

  lemma DecodeEncodeChar4(cp: nat, rest: seq<byte>)
    requires 0x1_0000 <= cp < 0x11_0000
    ensures DecodeChar(EncodeChar(cp as char) + rest) == Some((cp as char, 4))
  {
    Digits(cp);
    var b := EncodeChar(cp as char) + rest;
    var b0, b1, b2, b3 := 0xF0 + cp / 0x4_0000, 0x80 + cp / 0x1000 % 0x40, 0x80 + cp / 0x40 % 0x40, 0x80 + cp % 0x40;
    assert b[0] == b0 && b[1] == b1 && b[2] == b2 && b[3] == b3;
    assert Point4(b0, b1, b2, b3) == cp;
  }

  lemma DecodeEncodeChar(c: char, rest: seq<byte>)
    ensures DecodeChar(EncodeChar(c) + rest) == Some((c, |EncodeChar(c)|))
  {
    var cp := c as int;
    var b := EncodeChar(c) + rest;
    if cp < 0x80 {
      assert b[0] == cp;
    } else if cp < 0x800 {
      Digits(cp);
      var b0, b1 := 0xC0 + cp / 0x40, 0x80 + cp % 0x40;
      assert b[0] == b0 && b[1] == b1;
      assert Point2(b0, b1) == cp;
    } else if cp < 0x1_0000 {
      DecodeEncodeChar3(cp, rest);
    } else {
      DecodeEncodeChar4(cp, rest);
    }
  }

  lemma EncodePoint3(b0: byte, b1: byte, b2: byte)
    requires 0xE0 <= b0 <= 0xEF && SecondLow3(b0) <= b1 <= SecondHigh3(b0) && IsContinuation(b2)
    ensures EncodeChar(Point3(b0, b1, b2) as char) == [b0, b1, b2]
  {
    var cp := Point3(b0, b1, b2);
    var hi := (b0 - 0xE0) * 0x40 + (b1 - 0x80);
    DivMod64(cp, hi, b2 - 0x80);
    DivMod64(hi, b0 - 0xE0, b1 - 0x80);
    DivMod4096(cp, b0 - 0xE0, (b1 - 0x80) * 0x40 + (b2 - 0x80));
  }

  lemma EncodePoint4(b0: byte, b1: byte, b2: byte, b3: byte)
    requires 0xF0 <= b0 <= 0xF4 && SecondLow4(b0) <= b1 <= SecondHigh4(b0)
    requires IsContinuation(b2) && IsContinuation(b3)
    ensures EncodeChar(Point4(b0, b1, b2, b3) as char) == [b0, b1, b2, b3]
  {
    var cp := Point4(b0, b1, b2, b3);
    var hi := (b0 - 0xF0) * 0x1000 + (b1 - 0x80) * 0x40 + (b2 - 0x80);
    var top := (b0 - 0xF0) * 0x40 + (b1 - 0x80);
    DivMod64(cp, hi, b3 - 0x80);
    DivMod64(hi, top, b2 - 0x80);
    DivMod64(top, b0 - 0xF0, b1 - 0x80);
    DivMod4096(cp, top, (b2 - 0x80) * 0x40 + (b3 - 0x80));
    DivMod262144(cp, b0 - 0xF0, (b1 - 0x80) * 0x1000 + (b2 - 0x80) * 0x40 + (b3 - 0x80));
  }

  lemma EncodeDecodeChar(b: seq<byte>)
    requires |b| >= 1 && DecodeChar(b).Some?
    ensures EncodeChar(DecodeChar(b).value.0) == b[..DecodeChar(b).value.1]
  {
    var b0: int := b[0];
    if b0 < 0x80 {
    } else if b0 <= 0xDF {
      var cp := Point2(b0, b[1]);
      DivMod64(cp, b0 - 0xC0, b[1] - 0x80);
      assert EncodeChar(cp as char) == [b0, b[1]];
    } else if b0 <= 0xEF {
      EncodePoint3(b[0], b[1], b[2]);
      assert b[..3] == [b[0], b[1], b[2]];
    } else {
      EncodePoint4(b[0], b[1], b[2], b[3]);
      assert b[..4] == [b[0], b[1], b[2], b[3]];
    }
  }

  /** Decoding the bytes of a string gives the string back. */
  lemma {:induction false} DecodeEncode(s: string)
    ensures Decode(Encode(s)) == Some(s)
    decreases |s|
  {
    if s != [] {
      var e := EncodeChar(s[0]);
      DecodeEncodeChar(s[0], Encode(s[1..]));
      assert (e + Encode(s[1..]))[|e|..] == Encode(s[1..]);
      DecodeEncode(s[1..]);
      assert [s[0]] + s[1..] == s;
    }
  }

  /** One step of `Decode` on well-formed bytes: the first character, then the rest. */
  lemma DecodeFront(b: seq<byte>)
    requires b != [] && Decode(b).Some?
    ensures DecodeChar(b).Some?
    ensures Decode(b[DecodeChar(b).value.1..]).Some?
    ensures Decode(b).value == [DecodeChar(b).value.0] + Decode(b[DecodeChar(b).value.1..]).value
  {
  }

  /** Well-formed bytes start with the encoding of the text's first character and go on with a well-formed rest. */
  lemma EncodeDecodeFront(b: seq<byte>, s: string) returns (n: nat)
    requires Decode(b) == Some(s) && b != []
    ensures 1 <= n <= |b| && s != []
    ensures EncodeChar(s[0]) == b[..n] && Decode(b[n..]) == Some(s[1..])
  {
    DecodeFront(b);
    n := DecodeChar(b).value.1;
    EncodeDecodeChar(b);
  }

  /** Whatever decodes re-encodes to the very same bytes. */
  lemma {:induction false} EncodeDecode(b: seq<byte>, s: string)
    requires Decode(b) == Some(s)
    ensures Encode(s) == b
    decreases |b|
  {
    if b != [] {
      var n := EncodeDecodeFront(b, s);
      EncodeDecode(b[n..], s[1..]);
      assert b[..n] + b[n..] == b;
    }
  }

  /** `String::from_utf8` accepts exactly the encodings of strings, and gives back the string encoded. */
  lemma DecodeIff(b: seq<byte>, s: string)
    ensures Decode(b) == Some(s) <==> b == Encode(s)
  {
    if Decode(b) == Some(s) {
      EncodeDecode(b, s);
    }
    if b == Encode(s) {
      DecodeEncode(s);
    }
  }
}
