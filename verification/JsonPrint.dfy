/** What the writer is asked to write, as a tree; its compact text; and the proof that
    the lexer reads that text back as the tokens of the tree. */
module JsonPrint {
  import opened Wrappers
  import opened Floats
  import opened JsonLexis
  import opened JsonSpelling
  import opened JsonGrammar
  import Utf8

  /** Numbers are the text written for them. */
  datatype Doc =
    | DNull
    | DBool(b: bool)
    | DNum(text: seq<byte>)
    | DStr(s: string)
    | DArr(elems: Docs)
    | DObj(members: DocMembers)

  datatype Docs = NoDocs | DocElem(head: Doc, tail: Docs)

  datatype DocMembers = NoDocMembers | DocMember(key: string, val: Doc, tail: DocMembers)

  // ----- scalars -----

  function DecimalDigits(n: nat): seq<byte> {
    if n < 10 then [0x30 + n] else DecimalDigits(n / 10) + [0x30 + n % 10]
  }

  function IntegerText(i: int): seq<byte> {
    if i < 0 then [MINUS] + DecimalDigits(-i) else DecimalDigits(i)
  }

  const HEX: seq<byte> :=
    [0x30, 0x31, 0x32, 0x33, 0x34, 0x35, 0x36, 0x37, 0x38, 0x39, 0x61, 0x62, 0x63, 0x64, 0x65, 0x66]

  /** The bytes written for one byte of a string. */
  function EscapeByte(b: byte): seq<byte> {
    if b == QUOTE then [BACKSLASH, QUOTE]
    else if b == BACKSLASH then [BACKSLASH, BACKSLASH]
    else if b == 0x0A then [BACKSLASH, 0x6E]
    else if b == 0x0D then [BACKSLASH, 0x72]
    else if b == 0x09 then [BACKSLASH, 0x74]
    else if b == 0x08 then [BACKSLASH, 0x62]
    else if b == 0x0C then [BACKSLASH, 0x66]
    else if b < 0x20 then [BACKSLASH, 0x75, 0x30, 0x30, HEX[b / 16], HEX[b % 16]]
    else [b]
  }

  function EscapeBytes(bs: seq<byte>): seq<byte> {
    if bs == [] then [] else EscapeByte(bs[0]) + EscapeBytes(bs[1..])
  }

  function Quoted(s: string): seq<byte> {
    [QUOTE] + EscapeBytes(Utf8.Encode(s)) + [QUOTE]
  }

  predicate FloatMark(text: seq<byte>) {
    POINT in text || 0x65 in text || 0x45 in text
  }

  /** ryu's text, marked as a float if it does not say so itself. */
  function FloatText(lib: FloatLib, x: F64): seq<byte> {
    if FloatMark(lib.format(x)) then lib.format(x) else lib.format(x) + [POINT, ZERO_DIGIT]
  }

  ghost predicate IsNumber(text: seq<byte>) {
    exists n :: ValidNumeral(n) && text == NumeralText(n)
  }

  /** What the codec relies on: ryu writes a JSON number that parses to the same bits. */
  ghost predicate Lawful(lib: FloatLib) {
    forall x: F64 :: IsFinite(x) ==>
      IsNumber(lib.format(x)) && lib.parse(FloatText(lib, x)) == x
  }

  // ----- trees -----

  function Print(d: Doc): seq<byte> {
    match d
    case DNull => NULL
    case DBool(b) => if b then TRUE else FALSE
    case DNum(text) => text
    case DStr(s) => Quoted(s)
    case DArr(es) => [0x5B] + PrintElems(es) + [0x5D]
    case DObj(ms) => [0x7B] + PrintMembers(ms) + [0x7D]
  }

  function PrintElems(es: Docs): seq<byte> {
    if es.NoDocs? then []
    else if es.tail.NoDocs? then Print(es.head)
    else Print(es.head) + [0x2C] + PrintElems(es.tail)
  }

  function PrintMember(key: string, val: seq<byte>): seq<byte> {
    Quoted(key) + [0x3A] + val
  }

  function PrintMembers(ms: DocMembers): seq<byte> {
    if ms.NoDocMembers? then []
    else if ms.tail.NoDocMembers? then PrintMember(ms.key, Print(ms.val))
    else PrintMember(ms.key, Print(ms.val)) + [0x2C] + PrintMembers(ms.tail)
  }

  /** The JSON value a reader sees. */
  ghost function Meant(lib: FloatLib, d: Doc): Json {
    match d
    case DNull => JNull
    case DBool(b) => JBool(b)
    case DNum(text) =>
      (match NumberToken(lib, text, FloatMark(text))
       case Integer(i) => JInt(i)
       case Number(n) => JNum(n)
       case _ => JNull)
    case DStr(s) => JStr(s)
    case DArr(es) => JArr(MeantElems(lib, es))
    case DObj(ms) => JObj(MeantMembers(lib, ms))
  }

  ghost function MeantElems(lib: FloatLib, es: Docs): Elems {
    if es.NoDocs? then NoElems else Elem(Meant(lib, es.head), MeantElems(lib, es.tail))
  }

  ghost function MeantMembers(lib: FloatLib, ms: DocMembers): Members {
    if ms.NoDocMembers? then NoMembers else Member(ms.key, Meant(lib, ms.val), MeantMembers(lib, ms.tail))
  }

  ghost predicate Printable(d: Doc) {
    match d
    case DNum(text) => IsNumber(text)
    case DArr(es) => PrintableElems(es)
    case DObj(ms) => PrintableMembers(ms)
    case _ => true
  }

  ghost predicate PrintableElems(es: Docs) {
    es.NoDocs? || (Printable(es.head) && PrintableElems(es.tail))
  }

  ghost predicate PrintableMembers(ms: DocMembers) {
    ms.NoDocMembers? || (Printable(ms.val) && PrintableMembers(ms.tail))
  }

  // ----- integers -----

  lemma {:induction false} DecimalDigitsValue(n: nat)
    ensures Digits(DecimalDigits(n)) && Natural(DecimalDigits(n)) == n
    ensures DecimalDigits(n)[0] == ZERO_DIGIT ==> n == 0
  {
    var d := DecimalDigits(n);
    if n < 10 {
      assert Natural(d) == 10 * Natural(d[..0]) + (d[0] as int - 0x30);
    } else {
      DecimalDigitsValue(n / 10);
      assert d[..|d| - 1] == DecimalDigits(n / 10);
      assert forall b | b in d :: b in DecimalDigits(n / 10) || b == d[|d| - 1];
    }
  }

  lemma IntegerTextValue(i: int)
    ensures IsNumber(IntegerText(i)) && !FloatMark(IntegerText(i))
    ensures IntegerOf(IntegerText(i)) == i
  {
    var d := DecimalDigits(if i < 0 then -i else i);
    DecimalDigitsValue(if i < 0 then -i else i);
    assert i >= 10 || i <= -10 || |d| == 1;
    var n := Numeral(i < 0, d, None, None);
    assert d[0] in d;
    assert ValidNumeral(n) && NumeralText(n) == IntegerText(i) by {
      assert d + [] == d;
    }
    if i < 0 {
      assert IntegerText(i)[1..] == d;
    }
  }

  // ----- floats -----

  lemma NumeralMark(n: Numeral)
    requires ValidNumeral(n)
    ensures FloatMark(NumeralText(n)) <==> n.IsFloat()
  {
    var e := SpellExponent(n.exponent, []);
    var f := SpellFraction(n.fraction, e);
    if n.exponent.Some? {
      assert e[0] == n.exponent.value.e && e[0] in e;
      assert forall b | b in e :: b in f;
      assert forall b | b in f :: b in NumeralText(n);
    } else if n.fraction.Some? {
      assert f[0] in f;
      assert forall b | b in f :: b in NumeralText(n);
    } else {
      assert f == [];
      assert forall b | b in NumeralText(n) :: b == MINUS || b in n.whole;
    }
  }

  lemma FloatTextIsFloat(lib: FloatLib, x: F64)
    requires Lawful(lib) && IsFinite(x)
    ensures IsNumber(FloatText(lib, x)) && FloatMark(FloatText(lib, x))
    ensures lib.parse(FloatText(lib, x)) == x
  {
    var t := lib.format(x);
    var n: Numeral :| ValidNumeral(n) && t == NumeralText(n);
    NumeralMark(n);
    if !FloatMark(t) {
      var m := n.(fraction := Some([ZERO_DIGIT]));
      assert n.whole + [] == n.whole;
      assert NumeralText(m) == t + [POINT, ZERO_DIGIT];
      assert POINT in FloatText(lib, x);
      assert ValidNumeral(m);
    }
  }

  // ----- strings -----

  function EscapePiece(c: char): Piece {
    var n := c as int;
    if n == 0x22 || n == 0x5C then Short(n)
    else if n == 0x0A then Short(0x6E)
    else if n == 0x0D then Short(0x72)
    else if n == 0x09 then Short(0x74)
    else if n == 0x08 then Short(0x62)
    else if n == 0x0C then Short(0x66)
    else if n < 0x20 then Unicode([0x30, 0x30, HEX[n / 16], HEX[n % 16]])
    else Raw(c)
  }

  function EscapePieces(s: string): seq<Piece> {
    if s == [] then [] else [EscapePiece(s[0])] + EscapePieces(s[1..])
  }

  lemma HexDigitOfHex(i: int)
    requires 0 <= i < 16
    ensures HexDigit(HEX[i]) == Some(i)
  {
  }

  lemma EscapePieceDenotes(c: char)
    ensures ValidPiece(EscapePiece(c)) && DenotePiece(EscapePiece(c)) == c
  {
    var n := c as int;
    if n < 0x20 {
      HexDigitOfHex(n / 16);
      HexDigitOfHex(n % 16);
    }
  }

  lemma {:induction false} EscapePiecesDenote(s: string)
    ensures ValidPieces(EscapePieces(s)) && DenoteString(EscapePieces(s)) == s
  {
    if s != [] {
      EscapePieceDenotes(s[0]);
      EscapePiecesDenote(s[1..]);
      assert EscapePieces(s)[1..] == EscapePieces(s[1..]);
    }
  }

  lemma {:induction false} EscapeBytesAppend(a: seq<byte>, b: seq<byte>)
    ensures EscapeBytes(a + b) == EscapeBytes(a) + EscapeBytes(b)
  {
    if a == [] {
      assert a + b == b;
    } else {
      assert (a + b)[1..] == a[1..] + b;
      EscapeBytesAppend(a[1..], b);
    }
  }

  lemma {:induction false} EscapeBytesHigh(bs: seq<byte>)
    requires forall b | b in bs :: b >= 0x80
    ensures EscapeBytes(bs) == bs
  {
    if bs != [] {
      assert bs[0] in bs && forall b | b in bs[1..] :: b in bs;
      EscapeBytesHigh(bs[1..]);
    }
  }

  lemma EscapeOneChar(c: char)
    ensures EscapeBytes(Utf8.EncodeChar(c)) == SpellPiece(EscapePiece(c))
  {
    var e := Utf8.EncodeChar(c);
    if c as int < 0x80 {
      assert e[1..] == [];
      assert EscapeBytes(e) == EscapeByte(e[0]) + [];
    } else {
      EscapeBytesHigh(e);
    }
  }

  /** Escaping byte by byte is escaping character by character. */
  lemma {:induction false} EscapeIsSpelling(s: string, tail: seq<byte>)
    ensures EscapeBytes(Utf8.Encode(s)) + ([QUOTE] + tail) == SpellString(EscapePieces(s), tail)
  {
    if s != [] {
      var head, rest := Utf8.EncodeChar(s[0]), Utf8.Encode(s[1..]);
      EscapeBytesAppend(head, rest);
      EscapeOneChar(s[0]);
      EscapeIsSpelling(s[1..], tail);
      assert EscapePieces(s)[1..] == EscapePieces(s[1..]);
    }
  }

  /** Reading what was written for a string gives the string back. */
  lemma QuotedRead(s: string, tail: seq<byte>)
    ensures ScanString("", (Quoted(s) + tail)[1..]) == Ok((s, tail))
  {
    assert (Quoted(s) + tail)[1..] == EscapeBytes(Utf8.Encode(s)) + ([QUOTE] + tail);
    EscapeIsSpelling(s, tail);
    EscapePiecesDenote(s);
    StringRead("", EscapePieces(s), tail);
    assert "" + s == s;
  }

  // ----- the text of a tree is read as its tokens -----

  lemma PunctuationRead(lib: FloatLib, b: byte, s: seq<byte>)
    requires Punctuation(b).Some?
    ensures Tokens(lib, [b] + s) == More(Punctuation(b).value, Tokens(lib, s))
  {
    assert ([b] + s)[1..] == s;
  }

  lemma TextRead(lib: FloatLib, t: string, s: seq<byte>)
    ensures Tokens(lib, Quoted(t) + s) == More(Text(t), Tokens(lib, s))
  {
    QuotedRead(t, s);
  }

  lemma LiteralRead(lib: FloatLib, s: seq<byte>)
    ensures Tokens(lib, NULL + s) == More(Null, Tokens(lib, s))
    ensures Tokens(lib, TRUE + s) == More(Boolean(true), Tokens(lib, s))
    ensures Tokens(lib, FALSE + s) == More(Boolean(false), Tokens(lib, s))
  {
    assert (NULL + s)[4..] == s && (TRUE + s)[4..] == s && (FALSE + s)[5..] == s;
  }

  lemma NumberTokens(lib: FloatLib, s: seq<byte>)
    requires s != [] && (s[0] == MINUS || IsDigit(s[0])) && ScanNumber(lib, s).Ok?
    ensures Tokens(lib, s) == More(ScanNumber(lib, s).value.0, Tokens(lib, ScanNumber(lib, s).value.1))
  {
    hide ScanNumber;
  }

  lemma NumberStart(n: Numeral)
    requires ValidNumeral(n)
    ensures NumeralText(n) != [] && (NumeralText(n)[0] == MINUS || IsDigit(NumeralText(n)[0]))
  {
    assert n.whole[0] in n.whole;
    assert NumeralText(n)[0] == if n.neg then MINUS else n.whole[0];
  }

  lemma NumberTextRead(lib: FloatLib, text: seq<byte>, s: seq<byte>)
    requires IsNumber(text) && EndsNumber(s)
    ensures Tokens(lib, text + s) == More(NumberToken(lib, text, FloatMark(text)), Tokens(lib, s))
    ensures var t := NumberToken(lib, text, FloatMark(text)); t.Integer? || t.Number?
  {
    hide ScanNumber, FloatMark, Tokens;
    var n: Numeral :| ValidNumeral(n) && text == NumeralText(n);
    NumeralMark(n);
    NumberStart(n);
    NumberRead(lib, n, s);
    NumberTokens(lib, text + s);
  }

  lemma ArrayOpened(lib: FloatLib, es: Docs, tail: seq<byte>)
    ensures var inner := Tokens(lib, PrintElems(es) + ([0x5D] + tail));
            && Tokens(lib, Print(DArr(es)) + tail) == More(ArrayStart, inner)
            && (es.NoDocs? ==> inner == More(ArrayEnd, Tokens(lib, tail)))
  {
    hide Tokens, PrintElems;
    var close := [0x5D] + tail;
    assert Print(DArr(es)) + tail == [0x5B] + (PrintElems(es) + close);
    PunctuationRead(lib, 0x5B, PrintElems(es) + close);
    PunctuationRead(lib, 0x5D, tail);
    NothingPrinted();
    assert [] + close == close;
  }

  lemma ObjectOpened(lib: FloatLib, ms: DocMembers, tail: seq<byte>)
    ensures var inner := Tokens(lib, PrintMembers(ms) + ([0x7D] + tail));
            && Tokens(lib, Print(DObj(ms)) + tail) == More(ObjectStart, inner)
            && (ms.NoDocMembers? ==> inner == More(ObjectEnd, Tokens(lib, tail)))
  {
    hide Tokens, PrintMembers;
    var close := [0x7D] + tail;
    assert Print(DObj(ms)) + tail == [0x7B] + (PrintMembers(ms) + close);
    PunctuationRead(lib, 0x7B, PrintMembers(ms) + close);
    PunctuationRead(lib, 0x7D, tail);
    NothingPrinted();
    assert [] + close == close;
  }

  lemma NothingPrinted()
    ensures PrintElems(NoDocs) == [] && PrintMembers(NoDocMembers) == []
  {
  }

  lemma {:induction false} PrintRead(lib: FloatLib, d: Doc, tail: seq<byte>)
    requires Printable(d) && EndsNumber(tail)
    ensures Tokens(lib, Print(d) + tail) == Spell(Meant(lib, d), Tokens(lib, tail))
    decreases d
  {
    hide Tokens, NumberToken, Quoted, IsNumber, EndsNumber, FloatMark;
    match d
    case DNull => LiteralRead(lib, tail);
    case DBool(b) => LiteralRead(lib, tail);
    case DNum(text) => NumberTextRead(lib, text, tail);
    case DStr(s) => TextRead(lib, s, tail);
    case DArr(es) =>
      if es.DocElem? {
        PrintElemsRead(lib, es, tail);
      }
      ArrayOpened(lib, es, tail);
    case DObj(ms) =>
      if ms.DocMember? {
        PrintMembersRead(lib, ms, tail);
      }
      ObjectOpened(lib, ms, tail);
  }

  lemma {:induction false} PrintElemsRead(lib: FloatLib, es: Docs, tail: seq<byte>)
    requires es.DocElem? && PrintableElems(es)
    ensures Tokens(lib, PrintElems(es) + ([0x5D] + tail)) == SpellElems(MeantElems(lib, es), Tokens(lib, tail))
    decreases es
  {
    var close := [0x5D] + tail;
    PunctuationRead(lib, 0x5D, tail);
    if es.tail.NoDocs? {
      PrintRead(lib, es.head, close);
    } else {
      var rest := PrintElems(es.tail) + close;
      assert PrintElems(es) + close == Print(es.head) + ([0x2C] + rest);
      PrintRead(lib, es.head, [0x2C] + rest);
      PunctuationRead(lib, 0x2C, rest);
      PrintElemsRead(lib, es.tail, tail);
    }
  }

  lemma {:induction false} PrintMembersRead(lib: FloatLib, ms: DocMembers, tail: seq<byte>)
    requires ms.DocMember? && PrintableMembers(ms)
    ensures Tokens(lib, PrintMembers(ms) + ([0x7D] + tail)) == SpellMembers(MeantMembers(lib, ms), Tokens(lib, tail))
    decreases ms
  {
    hide Tokens, Quoted;
    var close := [0x7D] + tail;
    var after := if ms.tail.NoDocMembers? then close else [0x2C] + (PrintMembers(ms.tail) + close);
    var value := Print(ms.val) + after;
    assert PrintMembers(ms) + close == Quoted(ms.key) + ([0x3A] + value);
    TextRead(lib, ms.key, [0x3A] + value);
    PunctuationRead(lib, 0x3A, value);
    PrintRead(lib, ms.val, after);
    if ms.tail.NoDocMembers? {
      PunctuationRead(lib, 0x7D, tail);
    } else {
      PunctuationRead(lib, 0x2C, PrintMembers(ms.tail) + close);
      PrintMembersRead(lib, ms.tail, tail);
    }
  }
}
