/**
 * UTF-8 as the Rust standard library uses it: `str::as_bytes` gives the
 * encoding of a string, and `String::from_utf8` (and `OsStr::to_str` on
 * Unix) accepts exactly the well-formed byte sequences of Unicode's
 * table 3-7 (no overlong forms, no surrogates, nothing above U+10FFFF).
 * Dafny's `char` is a Unicode scalar value, like Rust's.
 */
module Utf8 {
  import opened Wrappers

  newtype byte = x: int | 0 <= x < 0x100

  type Bytes = seq<byte>

  /** The UTF-8 encoding of one scalar value. */
  function EncodeChar(c: char): (r: Bytes)
    ensures 1 <= |r| <= 4
  {
    var cp := c as int;
    if cp < 0x80 then
      [cp as byte]
    else if cp < 0x800 then
      [(0xC0 + cp / 64) as byte, (0x80 + cp % 64) as byte]
    else if cp < 0x10000 then
      [(0xE0 + cp / 4096) as byte, (0x80 + (cp / 64) % 64) as byte, (0x80 + cp % 64) as byte]
    else
      [(0xF0 + cp / 262144) as byte, (0x80 + (cp / 4096) % 64) as byte,
       (0x80 + (cp / 64) % 64) as byte, (0x80 + cp % 64) as byte]
  }

  /** `s.as_bytes()`. */
  function Encode(s: string): Bytes
  {
    if s == [] then [] else EncodeChar(s[0]) + Encode(s[1..])
  }

  predicate IsContinuation(b: byte)
  {
    0x80 <= b < 0xC0
  }

  /**
   * Decodes the scalar value at the front of `b` and says how many bytes it
   * took, or None when the front of `b` is not well-formed UTF-8.
   */
  function DecodeChar(b: Bytes): (r: Option<(char, nat)>)
    requires |b| > 0
    ensures r.Some? ==> 1 <= r.value.1 <= |b| && r.value.1 <= 4
  {
    var b0 := b[0] as int;
    if b0 < 0x80 then
      Some((b0 as char, 1))
    else if 0xC2 <= b0 <= 0xDF then
      if |b| >= 2 && IsContinuation(b[1]) then
        Some((((b0 - 0xC0) * 64 + (b[1] as int - 0x80)) as char, 2))
      else None
    else if 0xE0 <= b0 <= 0xEF then
      if |b| >= 3 && IsContinuation(b[1]) && IsContinuation(b[2])
         && (b0 == 0xE0 ==> b[1] >= 0xA0) && (b0 == 0xED ==> b[1] < 0xA0)
      then
        Some((((b0 - 0xE0) * 4096 + (b[1] as int - 0x80) * 64 + (b[2] as int - 0x80)) as char, 3))
      else None
    else if 0xF0 <= b0 <= 0xF4 then
      if |b| >= 4 && IsContinuation(b[1]) && IsContinuation(b[2]) && IsContinuation(b[3])
         && (b0 == 0xF0 ==> b[1] >= 0x90) && (b0 == 0xF4 ==> b[1] < 0x90)
      then
        Some((((b0 - 0xF0) * 262144 + (b[1] as int - 0x80) * 4096
               + (b[2] as int - 0x80) * 64 + (b[3] as int - 0x80)) as char, 4))
      else None
    else None
  }

  /** `String::from_utf8(b).ok()`. */
  function Decode(b: Bytes): Option<string>
    decreases |b|
  {
    if |b| == 0 then Some([])
    else match DecodeChar(b)
      case None => None
      case Some((c, n)) =>
        match Decode(b[n..])
        case None => None
        case Some(s) => Some([c] + s)
  }

  lemma DivMod64(q: int, r: int)
    requires 0 <= r < 64
    ensures (q * 64 + r) / 64 == q && (q * 64 + r) % 64 == r
  {
  }

  lemma Split3(cp: int)
    requires 0 <= cp
    ensures cp == (cp / 4096) * 4096 + ((cp / 64) % 64) * 64 + cp % 64
  {
    assert cp == (cp / 64) * 64 + cp % 64;
    assert cp / 64 == ((cp / 64) / 64) * 64 + (cp / 64) % 64;
    assert (cp / 64) / 64 == cp / 4096;
  }

  lemma Split4(cp: int)
    requires 0 <= cp
    ensures cp == (cp / 262144) * 262144 + ((cp / 4096) % 64) * 4096 + ((cp / 64) % 64) * 64 + cp % 64
  {
    Split3(cp);
    assert cp / 4096 == ((cp / 4096) / 64) * 64 + (cp / 4096) % 64;
    assert (cp / 4096) / 64 == cp / 262144;
  }

  /** Decoding the encoding of `c` gives back `c` and consumes exactly its encoding. */
  lemma DecodeCharOfEncoding(c: char, rest: Bytes)
    ensures DecodeChar(EncodeChar(c) + rest) == Some((c, |EncodeChar(c)|))
  {
    var cp := c as int;
    var e := EncodeChar(c);
    var b := e + rest;
    assert b[0] == e[0];
    if cp < 0x80 {
    } else if cp < 0x800 {
      assert b[1] == e[1];
      assert cp == (cp / 64) * 64 + cp % 64;
    } else if cp < 0x10000 {
      assert b[1] == e[1] && b[2] == e[2];
      Split3(cp);
    } else {
      assert b[1] == e[1] && b[2] == e[2] && b[3] == e[3];
      Split4(cp);
    }
  }

  /** A well-formed front is exactly the encoding of the scalar it decodes to. */
  lemma EncodingOfDecodedChar(b: Bytes)
    requires |b| > 0 && DecodeChar(b).Some?
    ensures EncodeChar(DecodeChar(b).value.0) == b[..DecodeChar(b).value.1]
  {
    var b0 := b[0] as int;
    var c := DecodeChar(b).value.0;
    var cp := c as int;
    if b0 < 0x80 {
    } else if b0 <= 0xDF {
      var x1 := b[1] as int - 0x80;
      assert cp == (b0 - 0xC0) * 64 + x1;
      DivMod64(b0 - 0xC0, x1);
    } else if b0 <= 0xEF {
      var x1, x2 := b[1] as int - 0x80, b[2] as int - 0x80;
      assert cp == (b0 - 0xE0) * 4096 + x1 * 64 + x2;
      DivMod64((b0 - 0xE0) * 64 + x1, x2);
      DivMod64(b0 - 0xE0, x1);
      assert cp / 4096 == b0 - 0xE0;
    } else {
      var x1, x2, x3 := b[1] as int - 0x80, b[2] as int - 0x80, b[3] as int - 0x80;
      assert cp == (b0 - 0xF0) * 262144 + x1 * 4096 + x2 * 64 + x3;
      DivMod64((b0 - 0xF0) * 4096 + x1 * 64 + x2, x3);
      DivMod64((b0 - 0xF0) * 64 + x1, x2);
      DivMod64(b0 - 0xF0, x1);
      assert cp / 4096 == (b0 - 0xF0) * 64 + x1;
      assert cp / 262144 == b0 - 0xF0;
    }
  }

  /** `String::from_utf8(s.as_bytes())` gives back `s`. */
  lemma {:induction false} DecodeEncode(s: string)
    ensures Decode(Encode(s)) == Some(s)
  {
    if s != [] {
      var e := EncodeChar(s[0]);
      DecodeCharOfEncoding(s[0], Encode(s[1..]));
      assert (e + Encode(s[1..]))[|e|..] == Encode(s[1..]);
      DecodeEncode(s[1..]);
      assert [s[0]] + s[1..] == s;
    }
  }

  /** Whatever `String::from_utf8` accepts is the encoding of what it returns. */
  lemma {:induction false} EncodeDecode(b: Bytes)
    requires Decode(b).Some?
    ensures Encode(Decode(b).value) == b
    decreases |b|
  {
    if |b| > 0 {
      var n := DecodeChar(b).value.1;
      EncodingOfDecodedChar(b);
      EncodeDecode(b[n..]);
      assert b[..n] + b[n..] == b;
    }
  }

  /** Distinct strings have distinct encodings, so a name determines its directory entry. */
  lemma EncodeInjective(s: string, t: string)
    requires Encode(s) == Encode(t)
    ensures s == t
  {
    DecodeEncode(s);
    DecodeEncode(t);
  }
}
