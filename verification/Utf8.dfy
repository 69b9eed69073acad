/** UTF-8 as `str::from_utf8` and `String::push` see it. A Dafny char is a Unicode
    scalar value, so a Dafny string is exactly a Rust String. */
module Utf8 {
  import opened Wrappers

  function EncodeChar(c: char): seq<byte> {
    var n := c as int;
    if n < 0x80 then [n]
    else if n < 0x800 then [0xC0 + n / 0x40, 0x80 + n % 0x40]
    else if n < 0x10000 then [0xE0 + n / 0x1000, 0x80 + n / 0x40 % 0x40, 0x80 + n % 0x40]
    else [0xF0 + n / 0x40000, 0x80 + n / 0x1000 % 0x40, 0x80 + n / 0x40 % 0x40, 0x80 + n % 0x40]
  }

  function Encode(s: string): seq<byte> {
    if s == [] then [] else EncodeChar(s[0]) + Encode(s[1..])
  }

  /** Length announced by a leading byte; 0 for a byte that cannot lead. */
  function CharLen(b: byte): nat {
    if b <= 0x7F then 1
    else if 0xC0 <= b <= 0xDF then 2
    else if 0xE0 <= b <= 0xEF then 3
    else if 0xF0 <= b <= 0xF7 then 4
    else 0
  }

  predicate IsCont(b: byte) { 0x80 <= b <= 0xBF }

  /** Table 3-7 of the Unicode Standard: the byte sequences that are one character. */
  predicate OneChar(s: seq<byte>) {
    if |s| == 1 then s[0] <= 0x7F
    else if |s| == 2 then 0xC2 <= s[0] <= 0xDF && IsCont(s[1])
    else if |s| == 3 then
      && 0xE0 <= s[0] <= 0xEF && IsCont(s[1]) && IsCont(s[2])
      && (s[0] == 0xE0 ==> 0xA0 <= s[1])
      && (s[0] == 0xED ==> s[1] <= 0x9F)
    else if |s| == 4 then
      && 0xF0 <= s[0] <= 0xF4 && IsCont(s[1]) && IsCont(s[2]) && IsCont(s[3])
      && (s[0] == 0xF0 ==> 0x90 <= s[1])
      && (s[0] == 0xF4 ==> s[1] <= 0x8F)
    else false
  }

  /** The code point spelled by one well-formed character. */
  function CodePoint(s: seq<byte>): int
    requires OneChar(s)
  {
    var a: int := s[0];
    if |s| == 1 then a
    else
      var b: int := s[1] as int - 0x80;
      if |s| == 2 then (a - 0xC0) * 0x40 + b
      else
        var c: int := s[2] as int - 0x80;
        if |s| == 3 then (a - 0xE0) * 0x1000 + b * 0x40 + c
        else
          var d: int := s[3] as int - 0x80;
          (a - 0xF0) * 0x40000 + b * 0x1000 + c * 0x40 + d
  }

  function DecodeChar(s: seq<byte>): char
    requires OneChar(s)
  {
    CodePoint(s) as char
  }

  lemma Base64Digits(hi: int, lo: int)
    requires 0 <= lo < 0x40
    ensures (hi * 0x40 + lo) / 0x40 == hi && (hi * 0x40 + lo) % 0x40 == lo
  {
  }

  lemma DecodeEncode(s: seq<byte>)
    requires OneChar(s)
    ensures EncodeChar(DecodeChar(s)) == s
  {
    if |s| == 2 {
      Base64Digits(s[0] as int - 0xC0, s[1] as int - 0x80);
    } else if |s| == 3 {
      DecodeEncodeThree(s);
    } else if |s| == 4 {
      DecodeEncodeFour(s);
    }
  }

  lemma DecodeEncodeThree(s: seq<byte>)
    requires OneChar(s) && |s| == 3
    ensures EncodeChar(DecodeChar(s)) == s
  {
    var n := CodePoint(s);
    var a, b, c := s[0] as int - 0xE0, s[1] as int - 0x80, s[2] as int - 0x80;
    Base64Digits(a * 0x40 + b, c);
    Base64Digits(a, b);
    assert n / 0x40 == a * 0x40 + b && n / 0x1000 == (n / 0x40) / 0x40;
  }

  lemma DecodeEncodeFour(s: seq<byte>)
    requires OneChar(s) && |s| == 4
    ensures EncodeChar(DecodeChar(s)) == s
  {
    var n := CodePoint(s);
    var a, b, c, d := s[0] as int - 0xF0, s[1] as int - 0x80, s[2] as int - 0x80, s[3] as int - 0x80;
    Base64Digits(a * 0x1000 + b * 0x40 + c, d);
    Base64Digits(a * 0x40 + b, c);
    Base64Digits(a, b);
    assert n / 0x1000 == (n / 0x40) / 0x40 && n / 0x40000 == (n / 0x1000) / 0x40;
  }

  lemma TwoBytes(n: int)
    requires 0x80 <= n < 0x800
    ensures n == n / 0x40 * 0x40 + n % 0x40 && 2 <= n / 0x40 < 0x20
  {
  }

  lemma ThreeBytes(n: int)
    requires 0x800 <= n < 0x10000
    ensures n == n / 0x1000 * 0x1000 + n / 0x40 % 0x40 * 0x40 + n % 0x40 && n / 0x1000 < 0x10
    ensures n / 0x1000 == 0 ==> n / 0x40 % 0x40 >= 0x20
  {
    assert n / 0x40 == n / 0x1000 * 0x40 + n / 0x40 % 0x40;
  }

  lemma FourBytes(n: int)
    requires 0x10000 <= n < 0x110000
    ensures n == n / 0x40000 * 0x40000 + n / 0x1000 % 0x40 * 0x1000 + n / 0x40 % 0x40 * 0x40 + n % 0x40 && n / 0x40000 <= 4
    ensures n / 0x40000 == 0 ==> n / 0x1000 % 0x40 >= 0x10
    ensures n / 0x40000 == 4 ==> n / 0x1000 % 0x40 <= 0xF
  {
    assert n / 0x40 == n / 0x1000 * 0x40 + n / 0x40 % 0x40;
    assert n / 0x1000 == n / 0x40000 * 0x40 + n / 0x1000 % 0x40;
  }

  lemma NoSurrogate(c: char)
    ensures !(0xD800 <= c as int < 0xE000)
  {
  }

  lemma EncodeDecode(c: char)
    ensures OneChar(EncodeChar(c)) && DecodeChar(EncodeChar(c)) == c
    ensures |EncodeChar(c)| == CharLen(EncodeChar(c)[0])
    ensures c as int < 0x80 <==> EncodeChar(c)[0] < 0x80
  {
    var n := c as int;
    if 0x80 <= n < 0x800 {
      TwoBytes(n);
    } else if 0x800 <= n < 0x10000 {
      ThreeBytes(n);
      NoSurrogate(c);
    } else if 0x10000 <= n {
      FourBytes(n);
    }
  }
}
