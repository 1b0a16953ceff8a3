/** UTF-8 (section 3 of RFC 3629): the lexer's decoder (unicode.go:17-77) and what it does with the
    encoding of a code point, whole or cut short. */
module Utf8 {
  import opened Powers

  const DECODE_ERROR := -1

  const LEAD3_T1_BITS: seq<nat> := [0x20, 0x30, 0x30, 0x30, 0x30, 0x30, 0x30, 0x30, 0x30, 0x30, 0x30, 0x30, 0x30, 0x10, 0x30, 0x30]

  const LEAD4_T1_BITS: seq<nat> := [0, 0, 0, 0, 0, 0, 0, 0, 0x1E, 0x0F, 0x0F, 0x0F, 0, 0, 0, 0]

  type Byte = x: int | 0 <= x < 256

  predicate Bit(v: nat, k: nat) { v / Pow2(k) % 2 == 1 }

  /** The code point a byte sequence starts with and how many bytes it takes; an error says how far to
      look past an ill-formed start. */
  datatype Decoded = Decoded(code: int, size: nat)

  /** The last byte of a sequence, onto the bits read so far. */
  function LastByte(s: seq<Byte>, i: nat, c: int): Decoded
    requires i < |s|
  {
    if 0x80 <= s[i] < 0xC0 then Decoded(c * 64 + (s[i] - 0x80), i + 1) else Decoded(DECODE_ERROR, i)
  }

  function Decode(s: seq<Byte>): Decoded {
    if |s| == 0 then Decoded(DECODE_ERROR, 0) else
    var c: int := s[0];
    if c < 0x80 then Decoded(c, 1)
    else if |s| == 1 then Decoded(DECODE_ERROR, 1)
    else if c >= 0xF0 then DecodeFour(s)
    else if c >= 0xE0 then
      if !Bit(LEAD3_T1_BITS[c - 0xE0], s[1] / 32) then Decoded(DECODE_ERROR, 1)
      else if |s| == 2 then Decoded(DECODE_ERROR, 2)
      else LastByte(s, 2, (c - 0xE0) * 64 + s[1] % 64)
    else if c >= 0xC2 then LastByte(s, 1, c - 0xC0)
    else Decoded(DECODE_ERROR, 1)
  }

  function DecodeFour(s: seq<Byte>): Decoded
    requires |s| >= 2 && s[0] >= 0xF0
  {
    var c: int := s[0] - 0xF0;
    if c > 4 || !Bit(LEAD4_T1_BITS[s[1] / 16], c) then Decoded(DECODE_ERROR, 1)
    else if |s| == 2 then Decoded(DECODE_ERROR, 2)
    else if !(0x80 <= s[2] < 0xC0) then Decoded(DECODE_ERROR, 2)
    else if |s| == 3 then Decoded(DECODE_ERROR, 3)
    else LastByte(s, 3, (c * 64 + s[1] % 64) * 64 + (s[2] - 0x80))
  }

  /** DecodeUTF8, step by step. */
  method DecodeUtf8(s: seq<Byte>) returns (d: Decoded)
    ensures d == Decode(s)
  {
    if |s| == 0 { return Decoded(DECODE_ERROR, 0); }
    var i, c: int, ok := 1, s[0], false;
    if c < 0x80 { return Decoded(c, i); }
    if i != |s| {
      if c >= 0xE0 {
        if c < 0xF0 {
          c := c - 0xE0;
          if Bit(LEAD3_T1_BITS[c], s[i] / 32) {
            c := c * 64 + s[i] % 64;
            i := i + 1;
            ok := i != |s|;
          }
        } else {
          c := c - 0xF0;
          if c <= 4 && Bit(LEAD4_T1_BITS[s[i] / 16], c) {
            c := c * 64 + s[i] % 64;
            i := i + 1;
            if i != |s| && 0x80 <= s[i] < 0xC0 {
              c := c * 64 + (s[i] - 0x80);
              i := i + 1;
              ok := i != |s|;
            }
          }
        }
      } else if c >= 0xC2 {
        c := c - 0xC0;
        ok := true;
      }
    }
    if ok && 0x80 <= s[i] < 0xC0 {
      return Decoded(c * 64 + (s[i] - 0x80), i + 1);
    }
    return Decoded(DECODE_ERROR, i);
  }

  // ---------------------------------------------------------------- encoding

  /** A Unicode scalar value. */
  predicate Scalar(c: int) { 0 <= c < 0xD800 || 0xE000 <= c < 0x11_0000 }

  function Encode(c: int): (r: seq<Byte>)
    requires Scalar(c)
    ensures 1 <= |r| <= 4 && (c < 0x80 <==> |r| == 1) && (r[0] < 0x80 <==> |r| == 1)
  {
    if c < 0x80 then [c]
    else if c < 0x800 then [0xC0 + c / 64, 0x80 + c % 64]
    else if c < 0x1_0000 then [0xE0 + c / 4096, 0x80 + c / 64 % 64, 0x80 + c % 64]
    else [0xF0 + c / 0x4_0000, 0x80 + c / 4096 % 64, 0x80 + c / 64 % 64, 0x80 + c % 64]
  }

  lemma Lead3Allows(c: int)
    requires 0x800 <= c < 0x1_0000 && Scalar(c)
    ensures Bit(LEAD3_T1_BITS[c / 4096], (0x80 + c / 64 % 64) / 32)
  {
    var a, b := c / 4096, c / 64 % 64;
    assert c / 64 == a * 64 + b;
    assert Pow2(4) == 16 && Pow2(5) == 32 by {
      assert Pow2(1) == 2 && Pow2(2) == 4 && Pow2(3) == 8;
    }
    if b < 32 {
      assert (0x80 + b) / 32 == 4;
    } else {
      assert (0x80 + b) / 32 == 5;
    }
  }

  lemma Lead4Allows(c: int)
    requires 0x1_0000 <= c < 0x11_0000
    ensures Bit(LEAD4_T1_BITS[(0x80 + c / 4096 % 64) / 16], c / 0x4_0000)
  {
    var a, b := c / 0x4_0000, c / 4096 % 64;
    assert c / 4096 == a * 64 + b;
    assert Pow2(0) == 1 && Pow2(1) == 2 && Pow2(2) == 4 && Pow2(3) == 8 && Pow2(4) == 16;
    var row := (0x80 + b) / 16;
    assert row == 8 + b / 16;
  }

  lemma DecodeThree(c: int, s: seq<Byte>)
    requires 0x800 <= c < 0x1_0000 && Scalar(c) && |s| >= 3
    requires s[0] == 0xE0 + c / 4096 && s[1] == 0x80 + c / 64 % 64 && s[2] == 0x80 + c % 64
    ensures Decode(s) == Decoded(c, 3)
  {
    hide Bit;
    Lead3Allows(c);
    ThreeDigits(c);
  }

  lemma ThreeDigits(c: int)
    requires 0 <= c
    ensures (c / 4096 * 64 + c / 64 % 64) * 64 + c % 64 == c
    ensures (0x80 + c / 64 % 64) % 64 == c / 64 % 64
  {
    assert c / 64 == c / 4096 * 64 + c / 64 % 64;
  }

  lemma FourDigits(c: int)
    requires 0 <= c
    ensures ((c / 0x4_0000 * 64 + c / 4096 % 64) * 64 + c / 64 % 64) * 64 + c % 64 == c
    ensures (0x80 + c / 4096 % 64) % 64 == c / 4096 % 64
  {
    assert c / 4096 == c / 0x4_0000 * 64 + c / 4096 % 64;
    ThreeDigits(c);
  }

  lemma DecodesFour(c: int, s: seq<Byte>)
    requires 0x1_0000 <= c < 0x11_0000 && |s| >= 4
    requires s[0] == 0xF0 + c / 0x4_0000 && s[1] == 0x80 + c / 4096 % 64 && s[2] == 0x80 + c / 64 % 64
    requires s[3] == 0x80 + c % 64
    ensures Decode(s) == Decoded(c, 4)
  {
    hide Bit;
    Lead4Allows(c);
    FourDigits(c);
  }

  /** A whole code point decodes to itself, whatever follows it. */
  lemma DecodeEncoded(c: int, rest: seq<Byte>)
    requires Scalar(c)
    ensures Decode(Encode(c) + rest) == Decoded(c, |Encode(c)|)
  {
    var s := Encode(c) + rest;
    if c >= 0x1_0000 {
      DecodesFour(c, s);
    } else if c >= 0x800 {
      DecodeThree(c, s);
    }
  }

  /** A code point cut short is an error. */
  lemma DecodeCut(c: int, n: nat)
    requires Scalar(c) && 0 < n < |Encode(c)|
    ensures Decode(Encode(c)[..n]).code == DECODE_ERROR
  {
    var s := Encode(c)[..n];
    assert s[0] == Encode(c)[0];
  }
}
