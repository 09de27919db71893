/**
  UTF-8 as Python's `str.encode('utf-8')` and strict `bytes.decode('utf-8')`
  apply it. v1.1 stores a place name as `city.encode('utf-8').decode('utf-8')`;
  `DecodeEncode` shows that this round trip returns the name unchanged.
 */
module Utf8 {
  import opened Wrappers

  newtype byte = x: int | 0 <= x < 256

  /** Whether `x` is a Unicode scalar value (a code point that is not a surrogate). */
  predicate IsScalar(x: int) {
    (0 <= x < 0xD800) || (0xE000 <= x < 0x11_0000)
  }

  predicate IsContinuation(b: byte) {
    0x80 <= b < 0xC0
  }

  /** The one- to four-byte encoding of one character. */
  function EncodeChar(c: char): (bs: seq<byte>)
    ensures 1 <= |bs| <= 4
  {
    var x := c as int;
    if x < 0x80 then
      [x as byte]
    else if x < 0x800 then
      [(0xC0 + x / 64) as byte, (0x80 + x % 64) as byte]
    else if x < 0x1_0000 then
      [(0xE0 + x / 4096) as byte, (0x80 + (x / 64) % 64) as byte, (0x80 + x % 64) as byte]
    else
      [(0xF0 + x / 262144) as byte, (0x80 + (x / 4096) % 64) as byte,
       (0x80 + (x / 64) % 64) as byte, (0x80 + x % 64) as byte]
  }

  /** `s.encode('utf-8')`. */
  function Encode(s: string): seq<byte>
  {
    if |s| == 0 then [] else EncodeChar(s[0]) + Encode(s[1..])
  }

  /** The code point a well-formed 2-, 3- or 4-byte sequence spells. */
  function CodePoint(bs: seq<byte>): int
    requires 2 <= |bs| <= 4
  {
    if |bs| == 2 then
      (bs[0] as int - 0xC0) * 64 + (bs[1] as int - 0x80)
    else if |bs| == 3 then
      (bs[0] as int - 0xE0) * 4096 + (bs[1] as int - 0x80) * 64 + (bs[2] as int - 0x80)
    else
      (bs[0] as int - 0xF0) * 262144 + (bs[1] as int - 0x80) * 4096
      + (bs[2] as int - 0x80) * 64 + (bs[3] as int - 0x80)
  }

  /**
    The character at the start of `bs` and how many bytes it takes, or `None`
    when the strict decoder rejects what it finds there: a stray continuation
    byte, a truncated sequence, an overlong form, a surrogate, or a code point
    above U+10FFFF.
   */
  function DecodeFirst(bs: seq<byte>): (r: Option<(char, nat)>)
    requires |bs| > 0
    ensures r.Some? ==> 1 <= r.value.1 <= |bs|
  {
    var b := bs[0];
    var n := if b < 0x80 then 1 else if 0xC0 <= b < 0xE0 then 2
             else if 0xE0 <= b < 0xF0 then 3 else if 0xF0 <= b < 0xF8 then 4 else 0;
    var least := if n == 2 then 0x80 else if n == 3 then 0x800 else 0x1_0000;
    if n == 0 || |bs| < n then None
    else if n == 1 then Some((b as int as char, 1))
    else if exists i | 1 <= i < n :: !IsContinuation(bs[i]) then None
    else
      var x := CodePoint(bs[..n]);
      if x < least || !IsScalar(x) then None else Some((x as char, n))
  }

  /** `bs.decode('utf-8')`: `None` where Python raises UnicodeDecodeError. */
  function Decode(bs: seq<byte>): Option<string>
    decreases |bs|
  {
    if |bs| == 0 then Some([])
    else
      match DecodeFirst(bs)
      case None => None
      case Some((c, n)) =>
        match Decode(bs[n..])
        case None => None
        case Some(rest) => Some([c] + rest)
  }

  /** x = 64 * (x / 64) + x % 64, one level deeper for each extra continuation byte. */
  lemma Digits(x: nat)
    ensures x == (x / 64) * 64 + x % 64
    ensures x / 64 == ((x / 64) / 64) * 64 + (x / 64) % 64
    ensures x / 4096 == (x / 64) / 64
    ensures x / 262144 == (x / 4096) / 64
  {
  }

  /** Two-byte characters: U+0080 to U+07FF. */
  lemma DecodeTwoBytes(c: char, rest: seq<byte>)
    requires 0x80 <= c as int < 0x800
    ensures DecodeFirst(EncodeChar(c) + rest) == Some((c, 2))
  {
    var bs := EncodeChar(c) + rest;
    var x := c as int;
    assert bs[..2] == EncodeChar(c);
    assert CodePoint(bs[..2]) == (x / 64) * 64 + x % 64 == x;
    assert IsContinuation(bs[1]);
  }

  /** Three-byte characters: U+0800 to U+FFFF, surrogates excluded. */
  lemma DecodeThreeBytes(c: char, rest: seq<byte>)
    requires 0x800 <= c as int < 0x1_0000
    ensures DecodeFirst(EncodeChar(c) + rest) == Some((c, 3))
  {
    var bs := EncodeChar(c) + rest;
    var x := c as int;
    Digits(x);
    assert bs[..3] == EncodeChar(c);
    assert CodePoint(bs[..3]) == (x / 4096) * 4096 + ((x / 64) % 64) * 64 + x % 64 == x;
    assert IsContinuation(bs[1]) && IsContinuation(bs[2]);
  }

  /** Four-byte characters: U+10000 to U+10FFFF. */
  lemma DecodeFourBytes(c: char, rest: seq<byte>)
    requires 0x1_0000 <= c as int
    ensures DecodeFirst(EncodeChar(c) + rest) == Some((c, 4))
  {
    var bs := EncodeChar(c) + rest;
    var x := c as int;
    Digits(x);
    assert bs[..4] == EncodeChar(c);
    assert CodePoint(bs[..4])
      == (x / 262144) * 262144 + ((x / 4096) % 64) * 4096 + ((x / 64) % 64) * 64 + x % 64 == x;
    assert IsContinuation(bs[1]) && IsContinuation(bs[2]) && IsContinuation(bs[3]);
  }

  /** The strict decoder reads back exactly the character `EncodeChar` wrote, whatever follows it. */
  lemma DecodeFirstEncodeChar(c: char, rest: seq<byte>)
    ensures DecodeFirst(EncodeChar(c) + rest) == Some((c, |EncodeChar(c)|))
  {
    var x := c as int;
    if x < 0x80 {
    } else if x < 0x800 {
      DecodeTwoBytes(c, rest);
    } else if x < 0x1_0000 {
      DecodeThreeBytes(c, rest);
    } else {
      DecodeFourBytes(c, rest);
    }
  }

  /** `s.encode('utf-8').decode('utf-8') == s` for every string. */
  lemma {:induction false} DecodeEncode(s: string)
    ensures Decode(Encode(s)) == Some(s)
  {
    if |s| > 0 {
      var head := EncodeChar(s[0]);
      var tail := Encode(s[1..]);
      DecodeFirstEncodeChar(s[0], tail);
      assert (head + tail)[|head|..] == tail;
      DecodeEncode(s[1..]);
      assert [s[0]] + s[1..] == s;
    }
  }
}
