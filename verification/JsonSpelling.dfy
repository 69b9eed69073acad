/** The lexical grammar of RFC 8259 (sections 6 and 7), and the proof that the lexer
    reads exactly it: every spelling of a string or a number is read as what it
    denotes, and whatever is read was such a spelling. */
module JsonSpelling {
  import opened Wrappers
  import opened Floats
  import opened JsonLexis
  import Utf8

  // ----- strings -----

  /** One character inside the quotes: as itself, as a two-byte escape, as \uXXXX, or
      as a pair \uXXXX\uXXXX. Hex digits may be in either case. */
  datatype Piece =
    | Raw(c: char)
    | Short(b: byte)
    | Unicode(hex: seq<byte>)
    | Surrogates(high: seq<byte>, low: seq<byte>)

  predicate ValidPiece(p: Piece) {
    match p
    case Raw(c) => c >= ' ' && c != '"' && c != '\\'
    case Short(b) => ShortEscape(b).Some?
    case Unicode(h) => |h| == 4 && IsHex4(h) && !HighSurrogate(Hex4(h)) && !LowSurrogate(Hex4(h))
    case Surrogates(h, l) =>
      |h| == 4 && |l| == 4 && IsHex4(h) && IsHex4(l) && HighSurrogate(Hex4(h)) && LowSurrogate(Hex4(l))
  }

  function SpellPiece(p: Piece): seq<byte> {
    match p
    case Raw(c) => Utf8.EncodeChar(c)
    case Short(b) => [BACKSLASH, b]
    case Unicode(h) => [BACKSLASH, 0x75] + h
    case Surrogates(h, l) => [BACKSLASH, 0x75] + h + [BACKSLASH, 0x75] + l
  }

  function DenotePiece(p: Piece): char
    requires ValidPiece(p)
  {
    match p
    case Raw(c) => c
    case Short(b) => ShortEscape(b).value
    case Unicode(h) => Hex4(h) as char
    case Surrogates(h, l) => Pair(Hex4(h), Hex4(l)) as char
  }

  predicate ValidPieces(ps: seq<Piece>) { forall p | p in ps :: ValidPiece(p) }

  /** The pieces and the closing quote, before `tail`. */
  function SpellString(ps: seq<Piece>, tail: seq<byte>): seq<byte> {
    if ps == [] then [QUOTE] + tail else SpellPiece(ps[0]) + SpellString(ps[1..], tail)
  }

  function DenoteString(ps: seq<Piece>): string
    requires ValidPieces(ps)
  {
    if ps == [] then "" else [DenotePiece(ps[0])] + DenoteString(ps[1..])
  }

  lemma Utf8CharRead(c: char, s: seq<byte>)
    requires c as int >= 0x80
    ensures ScanUtf8Char(Utf8.EncodeChar(c) + s) == Ok((c, s))
  {
    var e := Utf8.EncodeChar(c);
    Utf8.EncodeDecode(c);
    assert (e + s)[..|e|] == e && (e + s)[|e|..] == s;
  }

  lemma Hex4Prefix(h: seq<byte>, s: seq<byte>)
    requires |h| == 4
    ensures IsHex4(h + s) <==> IsHex4(h)
    ensures IsHex4(h) ==> Hex4(h + s) == Hex4(h)
  {
    assert forall i | 0 <= i < 4 :: (h + s)[i] == h[i];
  }

  lemma PairRead(h: seq<byte>, l: seq<byte>, s: seq<byte>)
    requires ValidPiece(Surrogates(h, l))
    ensures ScanEscape([0x75] + h + [BACKSLASH, 0x75] + l + s) == Ok((Pair(Hex4(h), Hex4(l)) as char, s))
  {
    var after := [BACKSLASH, 0x75] + l + s;
    var text := [0x75] + h + [BACKSLASH, 0x75] + l + s;
    assert text[1..] == h + after && text[5..] == after;
    Hex4Prefix(h, after);
    assert after[2..] == l + s && after[6..] == s;
    Hex4Prefix(l, s);
  }

  lemma ShortRead(b: byte, s: seq<byte>)
    requires ValidPiece(Short(b))
    ensures ScanEscape([b] + s) == Ok((DenotePiece(Short(b)), s))
  {
    assert ([b] + s)[1..] == s;
  }

  lemma UnicodeRead(h: seq<byte>, s: seq<byte>)
    requires ValidPiece(Unicode(h))
    ensures ScanEscape([0x75] + h + s) == Ok((DenotePiece(Unicode(h)), s))
  {
    var text := [0x75] + h + s;
    Hex4Prefix(h, s);
    assert text[1..] == h + s && text[5..] == s;
  }

  lemma EscapeRead(p: Piece, s: seq<byte>)
    requires ValidPiece(p) && !p.Raw?
    ensures SpellPiece(p)[0] == BACKSLASH
    ensures ScanEscape(SpellPiece(p)[1..] + s) == Ok((DenotePiece(p), s))
  {
    hide ScanEscape, Hex4, Pair;
    var text := SpellPiece(p)[1..] + s;
    match p
    case Short(b) =>
      ShortRead(b, s);
      assert text == [b] + s;
    case Unicode(h) =>
      UnicodeRead(h, s);
      assert text == [0x75] + h + s;
    case Surrogates(h, l) =>
      PairRead(h, l, s);
      assert text == [0x75] + h + [BACKSLASH, 0x75] + l + s;
  }

  /** The lexer reads a piece as the character it denotes. */
  lemma PieceRead(acc: string, p: Piece, s: seq<byte>)
    requires ValidPiece(p)
    ensures ScanString(acc, SpellPiece(p) + s) == ScanString(acc + [DenotePiece(p)], s)
  {
    var text := SpellPiece(p) + s;
    if p.Raw? {
      Utf8.EncodeDecode(p.c);
      if p.c as int >= 0x80 {
        Utf8CharRead(p.c, s);
      } else {
        assert text[1..] == s;
      }
    } else {
      EscapeRead(p, s);
      assert text[1..] == SpellPiece(p)[1..] + s;
    }
  }

  /** Any mix of spellings decodes to the characters it denotes. */
  lemma {:induction false} StringRead(acc: string, ps: seq<Piece>, tail: seq<byte>)
    requires ValidPieces(ps)
    ensures ScanString(acc, SpellString(ps, tail)) == Ok((acc + DenoteString(ps), tail))
    decreases |ps|
  {
    if ps == [] {
      assert ([QUOTE] + tail)[1..] == tail && acc + "" == acc;
    } else {
      PieceRead(acc, ps[0], SpellString(ps[1..], tail));
      StringRead(acc + [DenotePiece(ps[0])], ps[1..], tail);
      assert acc + [DenotePiece(ps[0])] + DenoteString(ps[1..]) == acc + DenoteString(ps);
    }
  }

  /** What follows a backslash was an escape. */
  lemma EscapeSpelled(s: seq<byte>) returns (p: Piece)
    requires ScanEscape(s).Ok?
    ensures ValidPiece(p) && DenotePiece(p) == ScanEscape(s).value.0
    ensures [BACKSLASH] + s == SpellPiece(p) + ScanEscape(s).value.1
  {
    if ShortEscape(s[0]).Some? {
      p := Short(s[0]);
    } else {
      var h := s[1..5];
      assert s[1..] == h + s[5..];
      Hex4Prefix(h, s[5..]);
      if HighSurrogate(Hex4(h)) {
        var r := s[5..];
        var l := r[2..6];
        assert r[2..] == l + r[6..];
        Hex4Prefix(l, r[6..]);
        p := Surrogates(h, l);
        assert s == [0x75] + h + [BACKSLASH, 0x75] + l + r[6..];
      } else {
        p := Unicode(h);
        assert s == [0x75] + h + s[5..];
      }
    }
  }

  lemma Utf8CharSpelled(s: seq<byte>) returns (p: Piece)
    requires s != [] && s[0] >= 0x80 && ScanUtf8Char(s).Ok?
    ensures ValidPiece(p) && DenotePiece(p) == ScanUtf8Char(s).value.0
    ensures s == SpellPiece(p) + ScanUtf8Char(s).value.1
  {
    var e := s[..Utf8.CharLen(s[0])];
    Utf8.DecodeEncode(e);
    p := Raw(Utf8.DecodeChar(e));
    Utf8.EncodeDecode(p.c);
  }

  /** Whatever the lexer accepts as the rest of a string was a spelling of it. */
  lemma {:induction false} StringSpelled(acc: string, s: seq<byte>) returns (ps: seq<Piece>)
    requires ScanString(acc, s).Ok?
    ensures ValidPieces(ps)
    ensures s == SpellString(ps, ScanString(acc, s).value.1)
    ensures ScanString(acc, s).value.0 == acc + DenoteString(ps)
    decreases |s|
  {
    if s[0] == QUOTE {
      ps := [];
    } else {
      var p: Piece, r: seq<byte>;
      if s[0] == BACKSLASH {
        p := EscapeSpelled(s[1..]);
        r := ScanEscape(s[1..]).value.1;
      } else if s[0] < 0x80 {
        p := Raw(s[0] as char);
        r := s[1..];
      } else {
        p := Utf8CharSpelled(s);
        r := ScanUtf8Char(s).value.1;
      }
      assert s == SpellPiece(p) + r;
      var qs := StringSpelled(acc + [DenotePiece(p)], r);
      ps := [p] + qs;
      assert ps[1..] == qs;
    }
  }

  // ----- numbers -----

  datatype Exponent = Exponent(e: byte, sign: seq<byte>, digits: seq<byte>)

  /** A JSON number by its parts. */
  datatype Numeral = Numeral(neg: bool, whole: seq<byte>, fraction: Option<seq<byte>>, exponent: Option<Exponent>)
  {
    predicate IsFloat() { fraction.Some? || exponent.Some? }
  }

  predicate Digits(d: seq<byte>) {
    d != [] && forall b | b in d :: IsDigit(b)
  }

  predicate ValidNumeral(n: Numeral) {
    && Digits(n.whole) && (n.whole[0] == ZERO_DIGIT ==> |n.whole| == 1)
    && (n.fraction.Some? ==> Digits(n.fraction.value))
    && (n.exponent.Some? ==>
          && n.exponent.value.e in {0x65, 0x45}
          && n.exponent.value.sign in {[], [0x2B], [MINUS]}
          && Digits(n.exponent.value.digits))
  }

  function SpellExponent(e: Option<Exponent>, tail: seq<byte>): seq<byte> {
    if e.None? then tail else [e.value.e] + (e.value.sign + (e.value.digits + tail))
  }

  function SpellFraction(f: Option<seq<byte>>, tail: seq<byte>): seq<byte> {
    if f.None? then tail else [POINT] + (f.value + tail)
  }

  function SpellNumeral(n: Numeral, tail: seq<byte>): seq<byte> {
    var w := n.whole + SpellFraction(n.fraction, SpellExponent(n.exponent, tail));
    if n.neg then [MINUS] + w else w
  }

  function NumeralText(n: Numeral): seq<byte> { SpellNumeral(n, []) }

  /** Nothing in front of `s` could belong to a number that ends there. */
  predicate EndsNumber(s: seq<byte>) {
    s == [] || (!IsDigit(s[0]) && !AtFraction(s) && !AtExponent(s))
  }

  lemma {:induction false} DigitsRead(d: seq<byte>, tail: seq<byte>)
    requires forall b | b in d :: IsDigit(b)
    requires tail == [] || !IsDigit(tail[0])
    ensures DropDigits(d + tail) == tail
  {
    if d == [] {
      assert d + tail == tail;
    } else {
      assert (d + tail)[1..] == d[1..] + tail;
      DigitsRead(d[1..], tail);
    }
  }

  lemma WholeRead(d: seq<byte>, tail: seq<byte>)
    requires Digits(d) && (d[0] == ZERO_DIGIT ==> |d| == 1)
    requires tail == [] || !IsDigit(tail[0])
    ensures DropInt(d + tail) == Some(tail)
  {
    assert (d + tail)[1..] == d[1..] + tail;
    DigitsRead(d[1..], tail);
    if |d| == 1 {
      assert d[1..] + tail == tail;
    }
  }

  lemma FractionRead(f: Option<seq<byte>>, tail: seq<byte>)
    requires f.Some? ==> Digits(f.value)
    requires tail == [] || (!IsDigit(tail[0]) && !AtFraction(tail))
    ensures DropFraction(SpellFraction(f, tail)) == Some(tail)
    ensures AtFraction(SpellFraction(f, tail)) == f.Some?
  {
    if f.Some? {
      assert SpellFraction(f, tail)[1..] == f.value + tail;
      DigitsRead(f.value, tail);
    }
  }

  lemma ExponentRead(e: Option<Exponent>, tail: seq<byte>)
    requires e.Some? ==> e.value.e in {0x65, 0x45} && e.value.sign in {[], [0x2B], [MINUS]} && Digits(e.value.digits)
    requires EndsNumber(tail)
    ensures DropExponent(SpellExponent(e, tail)) == Some(tail)
    ensures AtExponent(SpellExponent(e, tail)) == e.Some?
  {
    if e.Some? {
      var x := e.value;
      var rest := x.digits + tail;
      assert SpellExponent(e, tail)[1..] == x.sign + rest;
      assert DropSign(x.sign + rest) == rest by {
        if x.sign == [] {
          assert x.sign + rest == rest && rest[0] == x.digits[0] && x.digits[0] in x.digits;
        } else {
          assert (x.sign + rest)[1..] == rest;
        }
      }
      DigitsRead(x.digits, tail);
    }
  }

  lemma NumeralAppend(n: Numeral, tail: seq<byte>)
    ensures SpellNumeral(n, tail) == NumeralText(n) + tail
  {
  }

  /** The lexer reads a spelled number as a whole and nothing after it. */
  lemma NumberRead(lib: FloatLib, n: Numeral, tail: seq<byte>)
    requires ValidNumeral(n) && EndsNumber(tail)
    ensures ScanNumber(lib, NumeralText(n) + tail)
         == Ok((NumberToken(lib, NumeralText(n), n.IsFloat()), tail))
  {
    NumeralAppend(n, tail);
    var s := SpellNumeral(n, tail);
    var e := SpellExponent(n.exponent, tail);
    var f := SpellFraction(n.fraction, e);
    if n.neg {
      assert s[1..] == n.whole + f;
    }
    assert n.whole[0] in n.whole;
    assert DropMinus(s) == n.whole + f;
    WholeRead(n.whole, f);
    FractionRead(n.fraction, e);
    ExponentRead(n.exponent, tail);
    hide ValidNumeral, EndsNumber, NumeralText, SpellNumeral, SpellExponent, SpellFraction, DropMinus;
    assert s[..|s| - |tail|] == NumeralText(n);
  }

  lemma {:induction false} DigitsSpelled(s: seq<byte>) returns (d: seq<byte>)
    ensures forall b | b in d :: IsDigit(b)
    ensures s == d + DropDigits(s)
    ensures s != [] && IsDigit(s[0]) ==> d != [] && d[0] == s[0]
    decreases |s|
  {
    if s != [] && IsDigit(s[0]) {
      var d' := DigitsSpelled(s[1..]);
      d := [s[0]] + d';
      assert s == [s[0]] + s[1..];
    } else {
      d := [];
    }
  }

  lemma FractionSpelled(s: seq<byte>) returns (f: Option<seq<byte>>)
    requires DropFraction(s).Some?
    ensures s == SpellFraction(f, DropFraction(s).value) && (f.Some? ==> Digits(f.value))
    ensures f.Some? == AtFraction(s)
  {
    f := None;
    if AtFraction(s) {
      var d := DigitsSpelled(s[1..]);
      f := Some(d);
    }
  }

  lemma ExponentSpelled(s: seq<byte>) returns (e: Option<Exponent>)
    requires DropExponent(s).Some?
    ensures s == SpellExponent(e, DropExponent(s).value)
    ensures e.Some? ==> e.value.e in {0x65, 0x45} && e.value.sign in {[], [0x2B], [MINUS]} && Digits(e.value.digits)
    ensures e.Some? == AtExponent(s)
  {
    e := None;
    if AtExponent(s) {
      var r := s[1..];
      var sign := if r != [] && (r[0] == 0x2B || r[0] == MINUS) then [r[0]] else [];
      assert r == sign + DropSign(r);
      var d := DigitsSpelled(DropSign(r));
      e := Some(Exponent(s[0], sign, d));
    }
  }

  lemma WholeSpelled(s: seq<byte>) returns (whole: seq<byte>)
    requires DropInt(s).Some?
    ensures Digits(whole) && (whole[0] == ZERO_DIGIT ==> |whole| == 1)
    ensures s == whole + DropInt(s).value
  {
    if s[0] == ZERO_DIGIT {
      whole := [s[0]];
    } else {
      var d := DigitsSpelled(s[1..]);
      whole := [s[0]] + d;
      assert s == [s[0]] + s[1..];
    }
  }

  /** Whatever the lexer accepts as a number is spelled by the grammar. */
  lemma NumberSpelled(lib: FloatLib, s: seq<byte>) returns (n: Numeral)
    requires ScanNumber(lib, s).Ok?
    ensures ValidNumeral(n)
    ensures s == NumeralText(n) + ScanNumber(lib, s).value.1
    ensures ScanNumber(lib, s).value.0 == NumberToken(lib, NumeralText(n), n.IsFloat())
  {
    hide DropInt, DropFraction, DropExponent, NumberToken;
    var neg := s != [] && s[0] == MINUS;
    var whole := WholeSpelled(DropMinus(s));
    var i := DropInt(DropMinus(s)).value;
    var f := FractionSpelled(i);
    var e := ExponentSpelled(DropFraction(i).value);
    n := Numeral(neg, whole, f, e);
    var tail := ScanNumber(lib, s).value.1;
    NumeralAppend(n, tail);
    assert s == SpellNumeral(n, tail);
    assert s[..|s| - |tail|] == NumeralText(n);
  }
}
