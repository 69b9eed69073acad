/** The byte-level tokenizer with one token of lookahead. */
module JsonLexer {
  import opened Wrappers
  import opened Floats
  import opened JsonLexis
  import Utf8

  /** The result `r` of a scan that has left `unread` is the one `spec` describes. */
  ghost predicate Follows<T>(r: Result<T, ParseFault>, spec: Scan<T>, unread: seq<byte>) {
    match spec
    case Err(e) => r == Err(e)
    case Ok((v, rest)) => r == Ok(v) && unread == rest
  }

  class Lexer {
    const lib: FloatLib
    const input: seq<byte>
    var pos: nat
    var peeked: Option<Token>

    constructor (lib: FloatLib, input: seq<byte>)
      ensures Valid() && Unread() == Tokens(lib, input)
      ensures this.lib == lib && this.input == input
    {
      this.lib, this.input := lib, input;
      pos, peeked := 0, None;
      new;
      assert input[0..] == input;
    }

    ghost predicate Valid()
      reads this
    {
      pos <= |input|
    }

    /** The tokens not yet consumed. */
    ghost function Unread(): Stream
      requires Valid()
      reads this
    {
      var later := Tokens(lib, input[pos..]);
      if peeked.Some? then More(peeked.value, later) else later
    }

    /** True when only white space is left. */
    method IsEof() returns (eof: bool)
      requires Valid()
      modifies this`pos
      ensures Valid() && Unread() == old(Unread())
      ensures eof <==> Unread() == End
    {
      if peeked.Some? {
        return false;
      }
      SkipWhitespace();
      SkipSpaceTwice(old(input[pos..]));
      eof := pos >= |input|;
    }

    method NextToken() returns (r: Result<Option<Token>, ParseFault>)
      requires Valid()
      modifies this
      ensures Valid()
      ensures match old(Unread())
              case End => r == Ok(None) && Unread() == End
              case Bad(e) => r == Err(e)
              case More(tok, rest) => r == Ok(Some(tok)) && Unread() == rest
    {
      if peeked.Some? {
        var tok := peeked.value;
        peeked := None;
        return Ok(Some(tok));
      }
      r := ScanNext();
    }

    /** Looks at the next token and leaves it to be read. */
    method PeekToken() returns (r: Result<Option<Token>, ParseFault>)
      requires Valid()
      modifies this
      ensures Valid()
      ensures match old(Unread())
              case End => r == Ok(None) && Unread() == End
              case Bad(e) => r == Err(e)
              case More(tok, _) => r == Ok(Some(tok)) && Unread() == old(Unread())
    {
      if peeked.None? {
        var t :- ScanNext();
        peeked := t;
      }
      return Ok(peeked);
    }

    /** Consumes the next token, which must be of the sort of `expected`. */
    method ExpectToken(expected: Token) returns (r: Result<Token, ParseFault>)
      requires Valid()
      modifies this
      ensures Valid()
      ensures r.Ok? <==> old(Unread()).More? && SameSort(old(Unread()).tok, expected)
      ensures r.Ok? ==> r.value == old(Unread()).tok && Unread() == old(Unread()).rest
      ensures old(Unread()).End? ==> r == Err(UnexpectedEof)
      ensures old(Unread()).Bad? ==> r == Err(old(Unread()).fault)
    {
      var t :- NextToken();
      if t.None? {
        return Err(UnexpectedEof);
      }
      if !SameSort(t.value, expected) {
        return Err(ExpectedToken("token"));
      }
      return Ok(t.value);
    }

    // ----- scanning -----

    method SkipWhitespace()
      requires Valid()
      modifies this`pos
      ensures Valid() && input[pos..] == SkipSpace(old(input[pos..]))
    {
      while pos < |input| && IsSpace(input[pos])
        invariant Valid()
        invariant SkipSpace(input[pos..]) == SkipSpace(old(input[pos..]))
      {
        assert input[pos..][1..] == input[pos + 1..];
        pos := pos + 1;
      }
    }

    method ScanNext() returns (r: Result<Option<Token>, ParseFault>)
      requires Valid() && peeked.None?
      modifies this`pos
      ensures Valid()
      ensures match old(Unread())
              case End => r == Ok(None) && Unread() == End
              case Bad(e) => r == Err(e)
              case More(tok, rest) => r == Ok(Some(tok)) && Unread() == rest
    {
      SkipWhitespace();
      SkipSpaceTwice(old(input[pos..]));
      if pos >= |input| {
        return Ok(None);
      }
      var b := input[pos];
      if Punctuation(b).Some? {
        assert input[pos..][1..] == input[pos + 1..];
        pos := pos + 1;
        return Ok(Some(Punctuation(b).value));
      }
      var t: Result<Token, ParseFault>;
      if b == QUOTE {
        var s := ScanStringHere();
        t := if s.Ok? then Ok(Text(s.value)) else Err(s.error);
      } else if b == 0x74 {
        t := ExpectLiteral(TRUE, Boolean(true));
      } else if b == 0x66 {
        t := ExpectLiteral(FALSE, Boolean(false));
      } else if b == 0x6E {
        t := ExpectLiteral(NULL, Null);
      } else if b == MINUS || IsDigit(b) {
        t := ScanNumberHere();
      } else {
        t := Err(UnexpectedChar(b));
      }
      r := if t.Ok? then Ok(Some(t.value)) else Err(t.error);
    }

    method ExpectLiteral(literal: seq<byte>, tok: Token) returns (r: Result<Token, ParseFault>)
      requires Valid() && literal != []
      modifies this`pos
      ensures Valid() && Follows(r, ScanLiteral(old(input[pos..]), literal, tok), input[pos..])
    {
      if pos + |literal| <= |input| {
        assert input[pos..][..|literal|] == input[pos..pos + |literal|];
      }
      if pos + |literal| > |input| || input[pos..pos + |literal|] != literal {
        return Err(InvalidLiteral);
      }
      assert input[pos..][|literal|..] == input[pos + |literal|..];
      pos := pos + |literal|;
      return Ok(tok);
    }

    method ScanStringHere() returns (r: Result<string, ParseFault>)
      requires Valid() && pos < |input| && input[pos] == QUOTE
      modifies this`pos
      ensures Valid() && Follows(r, ScanString("", old(input[pos + 1..])), input[pos..])
    {
      pos := pos + 1;
      var s := "";
      while true
        invariant Valid()
        invariant ScanString(s, input[pos..]) == ScanString("", old(input[pos + 1..]))
        decreases |input| - pos
      {
        if pos >= |input| {
          return Err(UnterminatedString);
        }
        var b := input[pos];
        assert input[pos..][1..] == input[pos + 1..];
        if b == QUOTE {
          pos := pos + 1;
          return Ok(s);
        } else if b == BACKSLASH {
          pos := pos + 1;
          var c :- ScanEscapeHere();
          s := s + [c];
        } else if b < 0x20 {
          return Err(UnexpectedChar(b));
        } else if b < 0x80 {
          s := s + [b as char];
          pos := pos + 1;
        } else {
          var c :- ScanUtf8Here();
          s := s + [c];
        }
      }
    }

    method ScanUtf8Here() returns (r: Result<char, ParseFault>)
      requires Valid() && pos < |input|
      modifies this`pos
      ensures Valid() && Follows(r, ScanUtf8Char(old(input[pos..])), input[pos..])
      ensures r.Ok? ==> pos > old(pos)
    {
      var len := Utf8.CharLen(input[pos]);
      if len == 0 || pos + len > |input| {
        return Err(UnterminatedString);
      }
      var slice := input[pos..pos + len];
      assert input[pos..][..len] == slice && input[pos..][len..] == input[pos + len..];
      if Utf8.OneChar(slice) {
        pos := pos + len;
        return Ok(Utf8.DecodeChar(slice));
      }
      return Err(UnexpectedChar(input[pos]));
    }

    method ScanEscapeHere() returns (r: Result<char, ParseFault>)
      requires Valid()
      modifies this`pos
      ensures Valid() && Follows(r, ScanEscape(old(input[pos..])), input[pos..])
      ensures r.Ok? ==> pos > old(pos)
    {
      if pos >= |input| {
        return Err(UnterminatedString);
      }
      ghost var s := input[pos..];
      var b := input[pos];
      pos := pos + 1;
      assert s[1..] == input[pos..];
      if ShortEscape(b).Some? {
        return Ok(ShortEscape(b).value);
      }
      if b != 0x75 {
        return Err(InvalidEscape);
      }
      var cp :- ScanHex4Here();
      assert s[5..] == input[pos..];
      ghost var t := input[pos..];
      if HighSurrogate(cp) {
        if pos + 1 < |input| && input[pos] == BACKSLASH && input[pos + 1] == 0x75 {
          pos := pos + 2;
          assert t[2..] == input[pos..];
          var low :- ScanHex4Here();
          if !LowSurrogate(low) {
            return Err(InvalidSurrogatePair);
          }
          assert t[6..] == input[pos..];
          return Ok(Pair(cp, low) as char);
        }
        return Err(InvalidSurrogatePair);
      } else if LowSurrogate(cp) {
        return Err(InvalidSurrogatePair);
      }
      return Ok(cp as char);
    }

    method ScanHex4Here() returns (r: Result<int, ParseFault>)
      requires Valid()
      modifies this`pos
      ensures Valid()
      ensures r == if IsHex4(old(input[pos..])) then Ok(Hex4(old(input[pos..]))) else Err(InvalidUnicodeEscape)
      ensures r.Ok? ==> pos == old(pos) + 4
    {
      if pos + 4 > |input| {
        return Err(InvalidUnicodeEscape);
      }
      ghost var s := input[pos..];
      ghost var start := pos;
      var val := 0;
      for i := 0 to 4
        invariant pos == start + i && Valid() && |input| >= start + 4
        invariant forall j | 0 <= j < i :: HexDigit(s[j]).Some?
        invariant i == 1 ==> val == HexDigit(s[0]).value
        invariant i == 2 ==> val == HexDigit(s[0]).value * 0x10 + HexDigit(s[1]).value
        invariant i == 3 ==> val == HexDigit(s[0]).value * 0x100 + HexDigit(s[1]).value * 0x10 + HexDigit(s[2]).value
        invariant i == 4 ==> val == Hex4(s)
        invariant i == 0 ==> val == 0
      {
        var d := HexDigit(input[pos]);
        assert s[i] == input[pos];
        if d.None? {
          return Err(InvalidUnicodeEscape);
        }
        val := val * 16 + d.value;
        pos := pos + 1;
      }
      return Ok(val);
    }

    method SkipDigits()
      requires Valid()
      modifies this`pos
      ensures Valid() && pos >= old(pos) && input[pos..] == DropDigits(old(input[pos..]))
    {
      while pos < |input| && IsDigit(input[pos])
        invariant Valid() && pos >= old(pos)
        invariant DropDigits(input[pos..]) == DropDigits(old(input[pos..]))
      {
        assert input[pos..][1..] == input[pos + 1..];
        pos := pos + 1;
      }
    }

    /** The three parts of a number; each reports whether its part is well formed. */
    method SkipInt() returns (ok: bool)
      requires Valid()
      modifies this`pos
      ensures Valid()
      ensures ok <==> DropInt(old(input[pos..])).Some?
      ensures ok ==> pos > old(pos) && input[pos..] == DropInt(old(input[pos..])).value
    {
      ghost var s := input[pos..];
      if pos >= |input| {
        return false;
      }
      assert s[1..] == input[pos + 1..];
      if input[pos] == ZERO_DIGIT {
        pos := pos + 1;
        return !(pos < |input| && IsDigit(input[pos]));
      } else if IsDigit(input[pos]) {
        SkipDigits();
        return true;
      }
      return false;
    }

    method SkipFraction() returns (ok: bool, found: bool)
      requires Valid()
      modifies this`pos
      ensures Valid() && found == AtFraction(old(input[pos..]))
      ensures ok <==> DropFraction(old(input[pos..])).Some?
      ensures ok ==> pos >= old(pos) && input[pos..] == DropFraction(old(input[pos..])).value
    {
      ghost var s := input[pos..];
      if pos < |input| && input[pos] == POINT {
        assert s[1..] == input[pos + 1..];
        pos := pos + 1;
        if pos >= |input| || !IsDigit(input[pos]) {
          return false, true;
        }
        SkipDigits();
        return true, true;
      }
      return true, false;
    }

    method SkipExponent() returns (ok: bool, found: bool)
      requires Valid()
      modifies this`pos
      ensures Valid() && found == AtExponent(old(input[pos..]))
      ensures ok <==> DropExponent(old(input[pos..])).Some?
      ensures ok ==> pos >= old(pos) && input[pos..] == DropExponent(old(input[pos..])).value
    {
      ghost var s := input[pos..];
      if pos < |input| && (input[pos] == 0x65 || input[pos] == 0x45) {
        assert s[1..] == input[pos + 1..];
        pos := pos + 1;
        if pos < |input| && (input[pos] == 0x2B || input[pos] == MINUS) {
          assert s[1..][1..] == input[pos + 1..];
          pos := pos + 1;
        }
        assert DropSign(s[1..]) == input[pos..];
        if pos >= |input| || !IsDigit(input[pos]) {
          return false, true;
        }
        SkipDigits();
        return true, true;
      }
      return true, false;
    }

    method ScanNumberHere() returns (r: Result<Token, ParseFault>)
      requires Valid() && pos < |input|
      modifies this`pos
      ensures Valid() && Follows(r, ScanNumber(lib, old(input[pos..])), input[pos..])
    {
      var start := pos;
      ghost var s := input[pos..];
      if input[pos] == MINUS {
        assert s[1..] == input[pos + 1..];
        pos := pos + 1;
      }
      assert input[pos..] == DropMinus(s);
      var ok := SkipInt();
      if !ok {
        return Err(InvalidNumber);
      }
      var isFraction, isExponent;
      ok, isFraction := SkipFraction();
      if !ok {
        return Err(InvalidNumber);
      }
      ok, isExponent := SkipExponent();
      if !ok {
        return Err(InvalidNumber);
      }
      var text := input[start..pos];
      assert s[..|s| - |input[pos..]|] == text;
      return Ok(NumberToken(lib, text, isFraction || isExponent));
    }
  }

  lemma SkipSpaceTwice(s: seq<byte>)
    ensures SkipSpace(SkipSpace(s)) == SkipSpace(s)
    ensures SkipSpace(s) != [] ==> !IsSpace(SkipSpace(s)[0])
  {
  }
}
