/** The lexical level of lite-json, as functions from the unread bytes to a token
    and the bytes after it. The Lexer class is proved against these functions, and
    the grammar of RFC 8259 is proved about them. */
module JsonLexis {
  import opened Wrappers
  import opened Floats
  import Utf8

  datatype Token =
    | Text(s: string)
    | Integer(i: I64)
    | Number(n: F64)
    | Boolean(b: bool)
    | Null
    | ObjectStart
    | ObjectEnd
    | ArrayStart
    | ArrayEnd
    | Colon
    | Comma

  /** Tokens of one sort; what a token with content holds is not compared. */
  predicate SameSort(a: Token, b: Token) {
    match a
    case Text(_) => b.Text?
    case Integer(_) => b.Integer?
    case Number(_) => b.Number?
    case Boolean(_) => b.Boolean?
    case _ => a == b
  }

  /** Byte offsets of errors are not modelled. */
  datatype ParseFault =
    | UnexpectedChar(ch: byte)
    | UnexpectedEof
    | InvalidEscape
    | InvalidUnicodeEscape
    | InvalidSurrogatePair
    | UnterminatedString
    | InvalidNumber
    | InvalidLiteral
    | ExpectedToken(expected: string)
    | MissingField(field: string)
    | DepthExceeded

  /** What is left to read, token by token: the end, a lexical error, or a token. */
  datatype Stream = End | Bad(fault: ParseFault) | More(tok: Token, rest: Stream)
  {
    function Len(): nat { if More? then 1 + rest.Len() else 0 }
  }

  type Scan<T> = Result<(T, seq<byte>), ParseFault>

  const QUOTE: byte := 0x22
  const BACKSLASH: byte := 0x5C
  const MINUS: byte := 0x2D
  const POINT: byte := 0x2E
  const ZERO_DIGIT: byte := 0x30

  function Ascii(s: string): seq<byte>
    requires forall i | 0 <= i < |s| :: s[i] < '\U{80}'
  {
    seq(|s|, i requires 0 <= i < |s| => s[i] as byte)
  }

  predicate IsSpace(b: byte) { b == 0x20 || b == 0x09 || b == 0x0A || b == 0x0D }

  predicate IsDigit(b: byte) { 0x30 <= b <= 0x39 }

  function SkipSpace(s: seq<byte>): (r: seq<byte>)
    ensures |r| <= |s|
  {
    if s != [] && IsSpace(s[0]) then SkipSpace(s[1..]) else s
  }

  // ----- strings -----

  function HexDigit(b: byte): Option<int> {
    if 0x30 <= b <= 0x39 then Some(b as int - 0x30)
    else if 0x61 <= b <= 0x66 then Some(b as int - 0x61 + 10)
    else if 0x41 <= b <= 0x46 then Some(b as int - 0x41 + 10)
    else None
  }

  predicate IsHex4(s: seq<byte>) {
    |s| >= 4 && forall i | 0 <= i < 4 :: HexDigit(s[i]).Some?
  }

  function Hex4(s: seq<byte>): (v: int)
    requires IsHex4(s)
    ensures 0 <= v < 0x10000
  {
    var d := i requires 0 <= i < 4 => HexDigit(s[i]).value;
    d(0) * 0x1000 + d(1) * 0x100 + d(2) * 0x10 + d(3)
  }

  predicate HighSurrogate(n: int) { 0xD800 <= n <= 0xDBFF }

  predicate LowSurrogate(n: int) { 0xDC00 <= n <= 0xDFFF }

  /** The scalar value of a surrogate pair. */
  function Pair(high: int, low: int): (n: int)
    requires HighSurrogate(high) && LowSurrogate(low)
    ensures 0x10000 <= n <= 0x10FFFF
  {
    0x10000 + (high - 0xD800) * 0x400 + (low - 0xDC00)
  }

  function ShortEscape(b: byte): Option<char> {
    if b == QUOTE then Some('"')
    else if b == BACKSLASH then Some('\\')
    else if b == 0x2F then Some('/')
    else if b == 0x62 then Some('\U{08}')
    else if b == 0x66 then Some('\U{0C}')
    else if b == 0x6E then Some('\n')
    else if b == 0x72 then Some('\r')
    else if b == 0x74 then Some('\t')
    else None
  }

  /** After a backslash. */
  function ScanEscape(s: seq<byte>): (r: Scan<char>)
    ensures r.Ok? ==> |r.value.1| < |s|
  {
    if s == [] then Err(UnterminatedString)
    else if ShortEscape(s[0]).Some? then Ok((ShortEscape(s[0]).value, s[1..]))
    else if s[0] != 0x75 then Err(InvalidEscape)
    else if !IsHex4(s[1..]) then Err(InvalidUnicodeEscape)
    else
      var high := Hex4(s[1..]);
      var r := s[5..];
      if LowSurrogate(high) then Err(InvalidSurrogatePair)
      else if !HighSurrogate(high) then Ok((high as char, r))
      else if !(|r| > 1 && r[0] == BACKSLASH && r[1] == 0x75) then Err(InvalidSurrogatePair)
      else if !IsHex4(r[2..]) then Err(InvalidUnicodeEscape)
      else if !LowSurrogate(Hex4(r[2..])) then Err(InvalidSurrogatePair)
      else Ok((Pair(high, Hex4(r[2..])) as char, r[6..]))
  }

  /** At a byte of 0x80 or more inside a string. */
  function ScanUtf8Char(s: seq<byte>): (r: Scan<char>)
    requires s != []
    ensures r.Ok? ==> |r.value.1| < |s|
  {
    var len := Utf8.CharLen(s[0]);
    if len == 0 || len > |s| then Err(UnterminatedString)
    else if Utf8.OneChar(s[..len]) then Ok((Utf8.DecodeChar(s[..len]), s[len..]))
    else Err(UnexpectedChar(s[0]))
  }

  /** After the opening quote, with `acc` already decoded. */
  function ScanString(acc: string, s: seq<byte>): (r: Scan<string>)
    ensures r.Ok? ==> |r.value.1| < |s|
    decreases |s|
  {
    if s == [] then Err(UnterminatedString)
    else if s[0] == QUOTE then Ok((acc, s[1..]))
    else if s[0] < 0x20 then Err(UnexpectedChar(s[0]))
    else if s[0] == BACKSLASH then
      match ScanEscape(s[1..])
      case Err(e) => Err(e)
      case Ok((c, r)) => ScanString(acc + [c], r)
    else if s[0] < 0x80 then ScanString(acc + [s[0] as char], s[1..])
    else
      match ScanUtf8Char(s)
      case Err(e) => Err(e)
      case Ok((c, r)) => ScanString(acc + [c], r)
  }

  // ----- numbers -----

  function DropDigits(s: seq<byte>): (r: seq<byte>)
    ensures |r| <= |s|
  {
    if s != [] && IsDigit(s[0]) then DropDigits(s[1..]) else s
  }

  function DropMinus(s: seq<byte>): (r: seq<byte>)
    ensures |r| <= |s|
  {
    if s != [] && s[0] == MINUS then s[1..] else s
  }

  function DropInt(s: seq<byte>): (r: Option<seq<byte>>)
    ensures r.Some? ==> |r.value| < |s|
  {
    if s == [] || !IsDigit(s[0]) then None
    else if s[0] != ZERO_DIGIT then Some(DropDigits(s[1..]))
    else if |s| > 1 && IsDigit(s[1]) then None
    else Some(s[1..])
  }

  predicate AtFraction(s: seq<byte>) { s != [] && s[0] == POINT }

  function DropFraction(s: seq<byte>): (r: Option<seq<byte>>)
    ensures r.Some? ==> |r.value| <= |s|
  {
    if !AtFraction(s) then Some(s)
    else if |s| > 1 && IsDigit(s[1]) then Some(DropDigits(s[1..]))
    else None
  }

  predicate AtExponent(s: seq<byte>) { s != [] && (s[0] == 0x65 || s[0] == 0x45) }

  function DropSign(s: seq<byte>): (r: seq<byte>)
    ensures |r| <= |s|
  {
    if s != [] && (s[0] == 0x2B || s[0] == MINUS) then s[1..] else s
  }

  function DropExponent(s: seq<byte>): (r: Option<seq<byte>>)
    ensures r.Some? ==> |r.value| <= |s|
  {
    if !AtExponent(s) then Some(s)
    else
      var d := DropSign(s[1..]);
      if d != [] && IsDigit(d[0]) then Some(DropDigits(d)) else None
  }

  /** The value of a string of digits. */
  function Natural(digits: seq<byte>): int {
    if digits == [] then 0
    else 10 * Natural(digits[..|digits| - 1]) + (digits[|digits| - 1] as int - 0x30)
  }

  /** The value of a number text without fraction and exponent. */
  function IntegerOf(text: seq<byte>): int {
    if text != [] && text[0] == MINUS then -Natural(text[1..]) else Natural(text)
  }

  function NumberToken(lib: FloatLib, text: seq<byte>, isFloat: bool): Token {
    if !isFloat && I64_MIN <= IntegerOf(text) <= I64_MAX then Integer(IntegerOf(text))
    else Number(lib.parse(text))
  }

  function ScanNumber(lib: FloatLib, s: seq<byte>): (r: Scan<Token>)
    ensures r.Ok? ==> |r.value.1| < |s|
  {
    match DropInt(DropMinus(s))
    case None => Err(InvalidNumber)
    case Some(i) =>
      match DropFraction(i)
      case None => Err(InvalidNumber)
      case Some(f) =>
        match DropExponent(f)
        case None => Err(InvalidNumber)
        case Some(e) => Ok((NumberToken(lib, s[..|s| - |e|], AtFraction(i) || AtExponent(f)), e))
  }

  // ----- tokens -----

  function ScanLiteral(s: seq<byte>, literal: seq<byte>, tok: Token): (r: Scan<Token>)
    requires literal != []
    ensures r.Ok? ==> |r.value.1| < |s|
  {
    if literal <= s then Ok((tok, s[|literal|..])) else Err(InvalidLiteral)
  }

  function Punctuation(b: byte): Option<Token> {
    if b == 0x7B then Some(ObjectStart)
    else if b == 0x7D then Some(ObjectEnd)
    else if b == 0x5B then Some(ArrayStart)
    else if b == 0x5D then Some(ArrayEnd)
    else if b == 0x3A then Some(Colon)
    else if b == 0x2C then Some(Comma)
    else None
  }

  const TRUE: seq<byte> := [0x74, 0x72, 0x75, 0x65]
  const FALSE: seq<byte> := [0x66, 0x61, 0x6C, 0x73, 0x65]
  const NULL: seq<byte> := [0x6E, 0x75, 0x6C, 0x6C]

  /** At the first byte of a token. */
  function ScanToken(lib: FloatLib, s: seq<byte>): (r: Scan<Token>)
    requires s != []
    ensures r.Ok? ==> |r.value.1| < |s|
  {
    if Punctuation(s[0]).Some? then Ok((Punctuation(s[0]).value, s[1..]))
    else if s[0] == QUOTE then
      match ScanString("", s[1..])
      case Err(e) => Err(e)
      case Ok((t, r)) => Ok((Text(t), r))
    else if s[0] == 0x74 then ScanLiteral(s, TRUE, Boolean(true))
    else if s[0] == 0x66 then ScanLiteral(s, FALSE, Boolean(false))
    else if s[0] == 0x6E then ScanLiteral(s, NULL, Null)
    else if s[0] == MINUS || IsDigit(s[0]) then ScanNumber(lib, s)
    else Err(UnexpectedChar(s[0]))
  }

  /** All tokens of `s`, up to the end or the first lexical error. */
  function Tokens(lib: FloatLib, s: seq<byte>): Stream
    decreases |s|
  {
    var t := SkipSpace(s);
    if t == [] then End
    else
      match ScanToken(lib, t)
      case Err(e) => Bad(e)
      case Ok((tok, r)) => More(tok, Tokens(lib, r))
  }
}
