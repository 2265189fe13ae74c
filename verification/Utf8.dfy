/** UTF-8 as in section 3 of RFC 3629, with the result Go's decoder gives for bad bytes:
    U+FFFD with width 1. */
module Utf8 {
  import opened Bytes

  datatype Rune = Rune(code: int, width: nat) {
    /** The decoder's mark for a byte that starts no valid sequence. A U+FFFD that really
        stands in the input has width 3. */
    predicate Bad() { code == 0xFFFD && width == 1 }
  }

  predicate Scalar(r: int) {
    0 <= r <= 0xD7FF || 0xE000 <= r <= 0x10FFFF
  }

  predicate In(b: byte, lo: int, hi: int) {
    lo <= b as int <= hi
  }

  function Tail(b: byte): int {
    b as int - 0x80
  }

  /** The first rune of `s` and the number of bytes it takes (utf8.DecodeRuneInString). */
  function DecodeRune(s: Str): (d: Rune)
    requires s != []
    ensures 1 <= d.width <= |s|
    ensures Scalar(d.code)
    ensures d.code < 0x80 <==> s[0] as int < 0x80
    ensures d.code < 0x80 ==> d.width == 1 && d.code == s[0] as int
    ensures d.code >= 0x80 ==> forall i | 0 <= i < d.width :: s[i] as int >= 0x80
  {
    var b := s[0] as int;
    if b < 0x80 then Rune(b, 1)
    else if 0xC2 <= b <= 0xDF && |s| >= 2 && In(s[1], 0x80, 0xBF) then
      Rune((b - 0xC0) * 0x40 + Tail(s[1]), 2)
    else if 0xE0 <= b <= 0xEF && |s| >= 3 &&
      In(s[1], if b == 0xE0 then 0xA0 else 0x80, if b == 0xED then 0x9F else 0xBF)
            && In(s[2], 0x80, 0xBF) then
      Rune((b - 0xE0) * 0x1000 + Tail(s[1]) * 0x40 + Tail(s[2]), 3)
    else if 0xF0 <= b <= 0xF4 && |s| >= 4 &&
      In(s[1], if b == 0xF0 then 0x90 else 0x80, if b == 0xF4 then 0x8F else 0xBF)
            && In(s[2], 0x80, 0xBF) && In(s[3], 0x80, 0xBF) then
      Rune((b - 0xF0) * 0x40000 + Tail(s[1]) * 0x1000 + Tail(s[2]) * 0x40 + Tail(s[3]), 4)
    else Rune(0xFFFD, 1)
  }

  function Byte(n: int): byte
    requires 0 <= n < 256
  {
    n as char
  }

  /** The UTF-8 form of a scalar value. */
  function EncodeRune(r: int): (s: Str)
    requires Scalar(r)
    ensures 1 <= |s| <= 4
  {
    if r < 0x80 then [Byte(r)]
    else if r < 0x800 then [Byte(0xC0 + r / 0x40), Byte(0x80 + r % 0x40)]
    else if r < 0x10000 then [Byte(0xE0 + r / 0x1000), Byte(0x80 + r / 0x40 % 0x40), Byte(0x80 + r % 0x40)]
    else [Byte(0xF0 + r / 0x40000), Byte(0x80 + r / 0x1000 % 0x40), Byte(0x80 + r / 0x40 % 0x40), Byte(0x80 + r % 0x40)]
  }

  /** The base-64 digits of a scalar value. */
  lemma Digits(r: int)
    requires 0 <= r < 0x110000
    ensures r == r / 0x40 * 0x40 + r % 0x40
    ensures r / 0x40 == r / 0x1000 * 0x40 + r / 0x40 % 0x40
    ensures r / 0x1000 == r / 0x40000 * 0x40 + r / 0x1000 % 0x40
  {
  }

  /** Decoding an encoded scalar value gives it back, whatever follows. */
  lemma DecodeEncode(r: int, rest: Str)
    requires Scalar(r)
    ensures EncodeRune(r) + rest != []
    ensures DecodeRune(EncodeRune(r) + rest) == Rune(r, |EncodeRune(r)|)
  {
    var e := EncodeRune(r);
    var s := e + rest;
    Digits(r);
    assert s[0] == e[0];
    if r >= 0x80 { assert s[1] == e[1]; }
    if r >= 0x800 { assert s[2] == e[2]; }
    if r >= 0x10000 { assert s[3] == e[3]; }
  }

  /** The digits of a number written in base 64 are the ones it was written with. */
  lemma FromDigits(a: int, b: int, c: int, d: int)
    requires 0 <= a && 0 <= b < 0x40 && 0 <= c < 0x40 && 0 <= d < 0x40
    ensures var n := a * 0x40000 + b * 0x1000 + c * 0x40 + d;
      n / 0x40000 == a && n / 0x1000 % 0x40 == b && n / 0x40 % 0x40 == c && n % 0x40 == d &&
      n / 0x1000 == a * 0x40 + b && n / 0x40 == a * 0x1000 + b * 0x40 + c
  {
  }

  /** A good rune is exactly the bytes it was decoded from. */
  lemma EncodeDecode(s: Str)
    requires s != [] && !DecodeRune(s).Bad()
    ensures s[..DecodeRune(s).width] == EncodeRune(DecodeRune(s).code)
  {
    var d := DecodeRune(s);
    var b := s[0] as int;
    if d.width == 2 {
      FromDigits(0, 0, b - 0xC0, Tail(s[1]));
    } else if d.width == 3 {
      FromDigits(0, b - 0xE0, Tail(s[1]), Tail(s[2]));
    } else if d.width == 4 {
      FromDigits(b - 0xF0, Tail(s[1]), Tail(s[2]), Tail(s[3]));
    }
    var e := EncodeRune(d.code);
    assert |e| == d.width;
    assert e[0] == s[0];
    if d.width > 1 { assert e[1] == s[1]; }
    if d.width > 2 { assert e[2] == s[2]; }
    if d.width > 3 { assert e[3] == s[3]; }
  }

  /** What is decoded depends on the decoded bytes only. */
  lemma DecodePrefix(s: Str, rest: Str)
    requires s != [] && !DecodeRune(s).Bad()
    ensures DecodeRune(s[..DecodeRune(s).width] + rest) == DecodeRune(s)
  {
    EncodeDecode(s);
    DecodeEncode(DecodeRune(s).code, rest);
  }

  /** `s` is a sequence of well-formed UTF-8 forms. */
  predicate WellFormed(s: Str) {
    s == [] || (!DecodeRune(s).Bad() && WellFormed(s[DecodeRune(s).width..]))
  }

  lemma {:induction false} WellFormedConcat(a: Str, b: Str)
    requires WellFormed(a) && WellFormed(b)
    ensures WellFormed(a + b)
    decreases |a|
  {
    if a == [] {
      assert a + b == b;
    } else {
      var w := DecodeRune(a).width;
      assert a + b == a[..w] + (a[w..] + b);
      DecodePrefix(a, a[w..] + b);
      assert (a + b)[w..] == a[w..] + b;
      WellFormedConcat(a[w..], b);
    }
  }

  /** The runes a Go `range` loop visits, in order. */
  function Runes(s: Str): seq<Rune> {
    if s == [] then [] else [DecodeRune(s)] + Runes(s[DecodeRune(s).width..])
  }

  /** Every ASCII byte is a rune of its own: no multi-byte form swallows it. */
  lemma {:induction false} AsciiIsRune(s: Str, i: nat)
    requires i < |s| && s[i] as int < 0x80
    ensures Rune(s[i] as int, 1) in Runes(s)
    decreases |s|
  {
    var d := DecodeRune(s);
    if i >= d.width {
      AsciiIsRune(s[d.width..], i - d.width);
    }
  }
}
