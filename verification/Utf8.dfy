/**
 The rune decoding that Go's `range`, `strconv.Quote` and `encoding/json` apply to byte
 strings, and the hexadecimal digits of their escapes.
 */
module Utf8 {

  /** The characters of a Go string are bytes. */
  predicate IsBytes(s: string) {
    forall i :: 0 <= i < |s| ==> s[i] as int < 0x100
  }

  datatype Decoded = Scalar(code: nat, width: nat) | Malformed

  predicate Between(lo: int, c: char, hi: int) { lo <= c as int <= hi }

  predicate Continues(s: string, from: nat, to: nat)
    requires to <= |s|
  {
    forall i :: from <= i < to ==> Between(0x80, s[i], 0xBF)
  }

  /** `utf8.DecodeRuneInString`: the first rune and its width, or a malformed byte (width one). */
  function DecodeFirst(s: string): Decoded
    requires s != ""
  {
    var b := s[0] as int;
    if b < 0x80 then Scalar(b, 1)
    else if 0xC2 <= b <= 0xDF && |s| >= 2 && Continues(s, 1, 2) then
      Scalar((b - 0xC0) * 64 + (s[1] as int - 0x80), 2)
    else if 0xE0 <= b <= 0xEF && |s| >= 3 && Continues(s, 1, 3)
            && (b == 0xE0 ==> s[1] as int >= 0xA0) && (b == 0xED ==> s[1] as int <= 0x9F) then
      Scalar((b - 0xE0) * 4096 + (s[1] as int - 0x80) * 64 + (s[2] as int - 0x80), 3)
    else if 0xF0 <= b <= 0xF4 && |s| >= 4 && Continues(s, 1, 4)
            && (b == 0xF0 ==> s[1] as int >= 0x90) && (b == 0xF4 ==> s[1] as int <= 0x8F) then
      Scalar((b - 0xF0) * 262144 + (s[1] as int - 0x80) * 4096 + (s[2] as int - 0x80) * 64 + (s[3] as int - 0x80), 4)
    else Malformed
  }

  /** `utf8.ValidString`. */
  predicate ValidUtf8(s: string) {
    s == "" || match DecodeFirst(s)
               case Malformed => false
               case Scalar(_, w) => w <= |s| && 0 < w && ValidUtf8(s[w..])
  }

  /** `utf8.AppendRune` for a scalar value. */
  function Encode(code: nat): string
    requires code <= 0x10FFFF
  {
    if code < 0x80 then [code as char]
    else if code < 0x800 then [(0xC0 + code / 64) as char, (0x80 + code % 64) as char]
    else if code < 0x10000 then
      [(0xE0 + code / 4096) as char, (0x80 + code / 64 % 64) as char, (0x80 + code % 64) as char]
    else
      [(0xF0 + code / 262144) as char, (0x80 + code / 4096 % 64) as char,
       (0x80 + code / 64 % 64) as char, (0x80 + code % 64) as char]
  }

  lemma DecodedWidth(s: string)
    requires s != "" && DecodeFirst(s).Scalar?
    ensures 1 <= DecodeFirst(s).width <= |s|
    ensures DecodeFirst(s).code <= 0x10FFFF
    ensures DecodeFirst(s).width == 1 <==> DecodeFirst(s).code < 0x80
    ensures DecodeFirst(s).width == 1 <==> s[0] as int < 0x80
    ensures !(0xD800 <= DecodeFirst(s).code < 0xE000)
  {
  }

  /** Encoding a decoded rune gives back the bytes it was decoded from. */
  lemma EncodeDecoded(s: string)
    requires s != "" && DecodeFirst(s).Scalar?
    ensures DecodeFirst(s).width <= |s| && DecodeFirst(s).code <= 0x10FFFF
    ensures Encode(DecodeFirst(s).code) == s[..DecodeFirst(s).width]
  {
    DecodedWidth(s);
    match DecodeFirst(s).width
    case 1 => assert s[..1] == [s[0]];
    case 2 =>
      TwoByteDigits(s[0] as int - 0xC0, s[1] as int - 0x80);
      assert s[..2] == [s[0], s[1]];
    case 3 =>
      ThreeByteDigits(s[0] as int - 0xE0, s[1] as int - 0x80, s[2] as int - 0x80);
      assert s[..3] == [s[0], s[1], s[2]];
    case _ =>
      FourByteDigits(s[0] as int - 0xF0, s[1] as int - 0x80, s[2] as int - 0x80, s[3] as int - 0x80);
      assert s[..4] == [s[0], s[1], s[2], s[3]];
  }

  lemma TwoByteDigits(y: nat, z: nat)
    requires z < 64
    ensures (y * 64 + z) / 64 == y && (y * 64 + z) % 64 == z
  {
  }

  lemma ThreeByteDigits(x: nat, y: nat, z: nat)
    requires y < 64 && z < 64
    ensures var code := x * 4096 + y * 64 + z;
            code / 4096 == x && code / 64 % 64 == y && code % 64 == z
  {
    var code := x * 4096 + y * 64 + z;
    assert code / 64 == x * 64 + y;
  }

  lemma FourByteDigits(u: nat, x: nat, y: nat, z: nat)
    requires x < 64 && y < 64 && z < 64
    ensures var code := u * 262144 + x * 4096 + y * 64 + z;
            code / 262144 == u && code / 4096 % 64 == x && code / 64 % 64 == y && code % 64 == z
  {
    var code := u * 262144 + x * 4096 + y * 64 + z;
    assert code / 64 == u * 4096 + x * 64 + y;
    assert code / 4096 == u * 64 + x;
  }

  /** The bytes of a multi-byte rune are all above the ASCII range. */
  lemma WideBytes(s: string)
    requires s != "" && DecodeFirst(s).Scalar? && DecodeFirst(s).code >= 0x80
    ensures DecodeFirst(s).width <= |s|
    ensures forall i :: 0 <= i < DecodeFirst(s).width ==> s[i] as int >= 0x80
  {
    DecodedWidth(s);
  }

  lemma BytesSuffix(s: string, w: nat)
    requires IsBytes(s) && w <= |s|
    ensures IsBytes(s[w..])
  {
  }

  // ----- Hexadecimal digits -----

  function HexDigit(n: nat): char
    requires n < 16
  {
    if n < 10 then '0' + n as char else 'a' + (n - 10) as char
  }

  predicate IsHexDigit(c: char) {
    '0' <= c <= '9' || 'a' <= c <= 'f' || 'A' <= c <= 'F'
  }

  function HexValue(c: char): (n: nat)
    requires IsHexDigit(c)
    ensures n < 16
  {
    if c <= '9' then (c - '0') as int
    else if c <= 'F' then (c - 'A') as int + 10
    else (c - 'a') as int + 10
  }

  function Hex2(n: nat): (h: string)
    requires n < 0x100
    ensures |h| == 2 && IsHex(h) && Value2(h) == n
  {
    [HexDigit(n / 16), HexDigit(n % 16)]
  }

  function Hex4(n: nat): (h: string)
    requires n < 0x10000
    ensures |h| == 4 && IsHex(h) && Value4(h) == n
  {
    var hi, lo := Hex2(n / 0x100), Hex2(n % 0x100);
    assert (hi + lo)[..2] == hi && (hi + lo)[2..] == lo;
    hi + lo
  }

  function Hex8(n: nat): (h: string)
    requires n < 0x1_0000_0000
    ensures |h| == 8 && IsHex(h) && Value8(h) == n
  {
    var hi, lo := Hex4(n / 0x10000), Hex4(n % 0x10000);
    assert (hi + lo)[..4] == hi && (hi + lo)[4..] == lo;
    hi + lo
  }

  predicate IsHex(h: string) {
    forall i :: 0 <= i < |h| ==> IsHexDigit(h[i])
  }

  function Value2(h: string): (n: nat)
    requires |h| == 2 && IsHex(h)
    ensures n < 0x100
  {
    HexValue(h[0]) * 16 + HexValue(h[1])
  }

  function Value4(h: string): (n: nat)
    requires |h| == 4 && IsHex(h)
    ensures n < 0x10000
  {
    Value2(h[..2]) * 0x100 + Value2(h[2..])
  }

  function Value8(h: string): nat
    requires |h| == 8 && IsHex(h)
  {
    Value4(h[..4]) * 0x10000 + Value4(h[4..])
  }
}
