/** The grammar of RFC 8259 over bytes (sections 2 to 7): values with any white space
    between tokens and any spelling of strings and numbers. A text is read as a value
    exactly when it is a text of that value. */
module JsonText {
  import opened Wrappers
  import opened Floats
  import opened JsonLexis
  import opened JsonGrammar
  import opened JsonSpelling
  import opened JsonPrint

  // ----- texts -----

  /** A value with everything its text leaves open: spellings and white space. */
  datatype Syntax =
    | SNull
    | SBool(b: bool)
    | SNum(n: Numeral)
    | SStr(ps: seq<Piece>)
    | SEmptyArr(gap: seq<byte>)
    | SArr(elems: SElems)
    | SEmptyObj(gap: seq<byte>)
    | SObj(members: SMembers)

  datatype SElems =
    | LastElem(before: seq<byte>, val: Syntax, after: seq<byte>)
    | MoreElems(before: seq<byte>, val: Syntax, after: seq<byte>, tail: SElems)

  datatype SMember = SMember(before: seq<byte>, key: seq<Piece>, gap: seq<byte>, space: seq<byte>, val: Syntax, after: seq<byte>)

  datatype SMembers =
    | LastMember(m: SMember)
    | MoreMembers(m: SMember, tail: SMembers)

  predicate Blanks(w: seq<byte>) { forall b | b in w :: IsSpace(b) }

  predicate Valid(c: Syntax) {
    match c
    case SNum(n) => ValidNumeral(n)
    case SStr(ps) => ValidPieces(ps)
    case SEmptyArr(gap) => Blanks(gap)
    case SArr(es) => ValidElems(es)
    case SEmptyObj(gap) => Blanks(gap)
    case SObj(ms) => ValidMembers(ms)
    case _ => true
  }

  predicate ValidElems(es: SElems) {
    Blanks(es.before) && Valid(es.val) && Blanks(es.after) && (es.MoreElems? ==> ValidElems(es.tail))
  }

  predicate ValidMember(m: SMember) {
    Blanks(m.before) && ValidPieces(m.key) && Blanks(m.gap) && Blanks(m.space) && Valid(m.val) && Blanks(m.after)
  }

  predicate ValidMembers(ms: SMembers) { ValidMember(ms.m) && (ms.MoreMembers? ==> ValidMembers(ms.tail)) }

  /** The bytes of a value, in front of `tail`. */
  function Write(c: Syntax, tail: seq<byte>): seq<byte>
    decreases c, 0
  {
    match c
    case SNull => NULL + tail
    case SBool(b) => if b then TRUE + tail else FALSE + tail
    case SNum(n) => NumeralText(n) + tail
    case SStr(ps) => [QUOTE] + SpellString(ps, tail)
    case SEmptyArr(gap) => [0x5B] + (gap + ([0x5D] + tail))
    case SArr(es) => [0x5B] + WriteElems(es, tail)
    case SEmptyObj(gap) => [0x7B] + (gap + ([0x7D] + tail))
    case SObj(ms) => [0x7B] + WriteMembers(ms, tail)
  }

  /** The elements, through the closing bracket. */
  function WriteElems(es: SElems, tail: seq<byte>): seq<byte>
    decreases es, 0
  {
    es.before + Write(es.val, es.after +
      if es.LastElem? then [0x5D] + tail else [0x2C] + WriteElems(es.tail, tail))
  }

  function WriteMember(m: SMember, tail: seq<byte>): seq<byte>
    decreases m, 0
  {
    m.before + ([QUOTE] + SpellString(m.key, m.gap + ([0x3A] + (m.space + Write(m.val, m.after + tail)))))
  }

  /** The members, through the closing brace. */
  function WriteMembers(ms: SMembers, tail: seq<byte>): seq<byte>
    decreases ms, 1
  {
    WriteMember(ms.m, if ms.LastMember? then [0x7D] + tail else [0x2C] + WriteMembers(ms.tail, tail))
  }

  function NumberMeant(t: Token): Json {
    match t
    case Integer(i) => JInt(i)
    case Number(x) => JNum(x)
    case _ => JNull
  }

  /** The value that a text stands for. */
  function Denote(lib: FloatLib, c: Syntax): Json
    requires Valid(c)
  {
    match c
    case SNull => JNull
    case SBool(b) => JBool(b)
    case SNum(n) => NumberMeant(NumberToken(lib, NumeralText(n), n.IsFloat()))
    case SStr(ps) => JStr(DenoteString(ps))
    case SEmptyArr(_) => JArr(NoElems)
    case SArr(es) => JArr(DenoteElems(lib, es))
    case SEmptyObj(_) => JObj(NoMembers)
    case SObj(ms) => JObj(DenoteMembers(lib, ms))
  }

  function DenoteElems(lib: FloatLib, es: SElems): (r: Elems)
    requires ValidElems(es)
    ensures r.Elem?
  {
    Elem(Denote(lib, es.val), if es.LastElem? then NoElems else DenoteElems(lib, es.tail))
  }

  function DenoteMembers(lib: FloatLib, ms: SMembers): (r: Members)
    requires ValidMembers(ms)
    ensures r.Member?
  {
    assert ValidMember(ms.m);
    Member(DenoteString(ms.m.key), Denote(lib, ms.m.val), if ms.LastMember? then NoMembers else DenoteMembers(lib, ms.tail))
  }

  /** The whole text of one value, white space around it allowed. */
  ghost predicate IsText(lib: FloatLib, s: seq<byte>, j: Json) {
    exists before, c, after ::
      Blanks(before) && Valid(c) && Blanks(after) && s == before + Write(c, after) && Denote(lib, c) == j
  }

  // ----- white space -----

  lemma {:induction false} BlanksSkipped(lib: FloatLib, w: seq<byte>, s: seq<byte>)
    requires Blanks(w)
    ensures SkipSpace(w + s) == SkipSpace(s) && Tokens(lib, w + s) == Tokens(lib, s)
    decreases |w|
  {
    if w == [] {
      assert w + s == s;
    } else {
      assert w[0] in w && forall b | b in w[1..] :: b in w;
      assert (w + s)[1..] == w[1..] + s;
      BlanksSkipped(lib, w[1..], s);
    }
  }

  lemma {:induction false} SkippedAreBlanks(s: seq<byte>) returns (w: seq<byte>)
    ensures Blanks(w) && s == w + SkipSpace(s)
    decreases |s|
  {
    if s != [] && IsSpace(s[0]) {
      var v := SkippedAreBlanks(s[1..]);
      w := [s[0]] + v;
      assert s == [s[0]] + s[1..];
    } else {
      w := [];
    }
  }

  lemma EndIsBlanks(lib: FloatLib, s: seq<byte>)
    ensures Tokens(lib, s) == End <==> Blanks(s)
  {
    hide ScanToken;
    var w := SkippedAreBlanks(s);
    if Blanks(s) {
      BlanksSkipped(lib, s, []);
      assert s + [] == s;
    }
    if SkipSpace(s) == [] {
      assert s == w;
    }
  }

  lemma BlankEnds(w: seq<byte>, s: seq<byte>)
    requires Blanks(w) && EndsNumber(s)
    ensures EndsNumber(w + s)
  {
    if w == [] {
      assert w + s == s;
    } else {
      assert w[0] in w && (w + s)[0] == w[0];
    }
  }

  lemma PunctuationEnds(b: byte, s: seq<byte>)
    requires Punctuation(b).Some?
    ensures EndsNumber([b] + s)
  {
  }

  // ----- a text is read as its value -----

  lemma StringTextRead(lib: FloatLib, ps: seq<Piece>, tail: seq<byte>)
    requires ValidPieces(ps)
    ensures Tokens(lib, [QUOTE] + SpellString(ps, tail)) == More(Text(DenoteString(ps)), Tokens(lib, tail))
  {
    hide SpellString, DenoteString;
    StringRead("", ps, tail);
    assert ([QUOTE] + SpellString(ps, tail))[1..] == SpellString(ps, tail);
    assert "" + DenoteString(ps) == DenoteString(ps);
  }

  lemma NumeralRead(lib: FloatLib, n: Numeral, tail: seq<byte>)
    requires ValidNumeral(n) && EndsNumber(tail)
    ensures Tokens(lib, NumeralText(n) + tail) == Spell(NumberMeant(NumberToken(lib, NumeralText(n), n.IsFloat())), Tokens(lib, tail))
  {
    hide ScanNumber, Tokens, NumeralText, ValidNumeral, EndsNumber;
    NumberStart(n);
    NumberRead(lib, n, tail);
    NumberTokens(lib, NumeralText(n) + tail);
  }

  lemma ClosedEmpty(lib: FloatLib, open: byte, gap: seq<byte>, close: byte, tail: seq<byte>)
    requires Punctuation(open).Some? && Punctuation(close).Some? && Blanks(gap)
    ensures Tokens(lib, [open] + (gap + ([close] + tail))) ==
            More(Punctuation(open).value, More(Punctuation(close).value, Tokens(lib, tail)))
  {
    hide Tokens;
    PunctuationRead(lib, open, gap + ([close] + tail));
    BlanksSkipped(lib, gap, [close] + tail);
    PunctuationRead(lib, close, tail);
  }

  lemma {:induction false} WriteRead(lib: FloatLib, c: Syntax, tail: seq<byte>)
    requires Valid(c) && EndsNumber(tail)
    ensures Tokens(lib, Write(c, tail)) == Spell(Denote(lib, c), Tokens(lib, tail))
    decreases c, 0
  {
    hide Tokens, NumeralText, NumberToken, SpellString, DenoteString, EndsNumber;
    match c
    case SNull => LiteralRead(lib, tail);
    case SBool(b) => LiteralRead(lib, tail);
    case SNum(n) => NumeralRead(lib, n, tail);
    case SStr(ps) => StringTextRead(lib, ps, tail);
    case SEmptyArr(gap) => ClosedEmpty(lib, 0x5B, gap, 0x5D, tail);
    case SEmptyObj(gap) => ClosedEmpty(lib, 0x7B, gap, 0x7D, tail);
    case SArr(es) =>
      WriteElemsRead(lib, es, tail);
      PunctuationRead(lib, 0x5B, WriteElems(es, tail));
    case SObj(ms) =>
      WriteMembersRead(lib, ms, tail);
      PunctuationRead(lib, 0x7B, WriteMembers(ms, tail));
  }

  lemma {:induction false} WriteElemsRead(lib: FloatLib, es: SElems, tail: seq<byte>)
    requires ValidElems(es)
    ensures Tokens(lib, WriteElems(es, tail)) == SpellElems(DenoteElems(lib, es), Tokens(lib, tail))
    decreases es, 0
  {
    hide Tokens, EndsNumber;
    var b: byte := if es.LastElem? then 0x5D else 0x2C;
    var rest := if es.LastElem? then tail else WriteElems(es.tail, tail);
    var next := es.after + ([b] + rest);
    PunctuationEnds(b, rest);
    BlankEnds(es.after, [b] + rest);
    BlanksSkipped(lib, es.before, Write(es.val, next));
    WriteRead(lib, es.val, next);
    BlanksSkipped(lib, es.after, [b] + rest);
    PunctuationRead(lib, b, rest);
    if es.MoreElems? {
      WriteElemsRead(lib, es.tail, tail);
    }
  }

  lemma {:induction false} WriteMembersRead(lib: FloatLib, ms: SMembers, tail: seq<byte>)
    requires ValidMembers(ms)
    ensures Tokens(lib, WriteMembers(ms, tail)) == SpellMembers(DenoteMembers(lib, ms), Tokens(lib, tail))
    decreases ms, 0
  {
    hide Tokens, EndsNumber, SpellString, DenoteString;
    var b: byte := if ms.LastMember? then 0x7D else 0x2C;
    var rest := if ms.LastMember? then tail else WriteMembers(ms.tail, tail);
    var m := ms.m;
    assert ValidMember(m);
    var next := m.after + ([b] + rest);
    var value := Write(m.val, next);
    var colon := m.gap + ([0x3A] + (m.space + value));
    PunctuationEnds(b, rest);
    BlankEnds(m.after, [b] + rest);
    BlanksSkipped(lib, m.before, [QUOTE] + SpellString(m.key, colon));
    StringTextRead(lib, m.key, colon);
    BlanksSkipped(lib, m.gap, [0x3A] + (m.space + value));
    PunctuationRead(lib, 0x3A, m.space + value);
    BlanksSkipped(lib, m.space, value);
    WriteRead(lib, m.val, next);
    BlanksSkipped(lib, m.after, [b] + rest);
    PunctuationRead(lib, b, rest);
    if ms.MoreMembers? {
      WriteMembersRead(lib, ms.tail, tail);
    }
  }

  // ----- whatever is read was a text -----

  /** The bytes that a first token was read from. */
  lemma TokenFound(lib: FloatLib, s: seq<byte>) returns (w: seq<byte>, t: seq<byte>, r: seq<byte>)
    requires Tokens(lib, s).More?
    ensures Blanks(w) && s == w + t && t != [] && ScanToken(lib, t) == Ok((Tokens(lib, s).tok, r))
    ensures Tokens(lib, r) == Tokens(lib, s).rest
  {
    hide ScanToken;
    w := SkippedAreBlanks(s);
    t := SkipSpace(s);
    r := ScanToken(lib, t).value.1;
  }

  lemma PunctuationFound(lib: FloatLib, t: seq<byte>, tok: Token, r: seq<byte>, b: byte)
    requires t != [] && ScanToken(lib, t) == Ok((tok, r)) && Punctuation(b) == Some(tok)
    ensures t == [b] + r
  {
    hide ScanString, ScanNumber;
    ScanNumberKind(lib, t);
    assert t == [t[0]] + t[1..];
  }

  lemma ScanNumberKind(lib: FloatLib, t: seq<byte>)
    ensures ScanNumber(lib, t).Ok? ==> ScanNumber(lib, t).value.0.Integer? || ScanNumber(lib, t).value.0.Number?
  {
  }

  lemma ScalarFound(lib: FloatLib, t: seq<byte>, j: Json, tok: Token, r: seq<byte>) returns (c: Syntax)
    requires t != [] && ScanToken(lib, t) == Ok((tok, r))
    requires !j.JArr? && !j.JObj? && Spell(j, End) == More(tok, End)
    ensures Valid(c) && t == Write(c, r) && Denote(lib, c) == j
  {
    hide ScanString, ScanNumber, NumberToken, NumeralText, ValidPieces, ValidNumeral;
    ScanNumberKind(lib, t);
    match j
    case JNull =>
      c := SNull;
      assert t == t[..4] + t[4..];
    case JBool(b) =>
      c := SBool(b);
      assert b ==> t == t[..4] + t[4..];
      assert !b ==> t == t[..5] + t[5..];
    case JStr(s) =>
      var ps := StringSpelled("", t[1..]);
      c := SStr(ps);
      assert t == [QUOTE] + t[1..];
      assert "" + DenoteString(ps) == DenoteString(ps);
    case JInt(_) =>
      var n := NumberSpelled(lib, t);
      c := SNum(n);
    case JNum(_) =>
      var n := NumberSpelled(lib, t);
      c := SNum(n);
  }

  lemma {:induction false} WriteFound(lib: FloatLib, s: seq<byte>, j: Json, after: Stream)
    returns (w: seq<byte>, c: Syntax, r: seq<byte>)
    requires Tokens(lib, s) == Spell(j, after)
    ensures Blanks(w) && Valid(c) && s == w + Write(c, r) && Tokens(lib, r) == after && Denote(lib, c) == j
    decreases j, 2
  {
    hide Tokens, ScanToken, SpellElems, SpellMembers, IsSpace;
    var t, rest;
    w, t, rest := TokenFound(lib, s);
    match j {
      case JArr(es) =>
        PunctuationFound(lib, t, ArrayStart, rest, 0x5B);
        if es.NoElems? {
          var gap, u, v := TokenFound(lib, rest);
          PunctuationFound(lib, u, ArrayEnd, v, 0x5D);
          c, r := SEmptyArr(gap), v;
        } else {
          var cs;
          cs, r := WriteElemsFound(lib, rest, es, after);
          c := SArr(cs);
        }
      case JObj(ms) =>
        PunctuationFound(lib, t, ObjectStart, rest, 0x7B);
        if ms.NoMembers? {
          var gap, u, v := TokenFound(lib, rest);
          PunctuationFound(lib, u, ObjectEnd, v, 0x7D);
          c, r := SEmptyObj(gap), v;
        } else {
          var cs;
          cs, r := WriteMembersFound(lib, rest, ms, after);
          c := SObj(cs);
        }
      case _ =>
        c := ScalarFound(lib, t, j, Tokens(lib, s).tok, rest);
        r := rest;
    }
  }

  lemma {:induction false} WriteElemsFound(lib: FloatLib, s: seq<byte>, es: Elems, after: Stream)
    returns (cs: SElems, r: seq<byte>)
    requires es.Elem? && Tokens(lib, s) == SpellElems(es, after)
    ensures ValidElems(cs) && s == WriteElems(cs, r) && Tokens(lib, r) == after && DenoteElems(lib, cs) == es
    decreases es, 1
  {
    hide Tokens, ScanToken, Spell, IsSpace;
    var last := es.tail.NoElems?;
    var next := if last then More(ArrayEnd, after) else More(Comma, SpellElems(es.tail, after));
    var w, c, q := WriteFound(lib, s, es.head, next);
    var w', t, u := TokenFound(lib, q);
    if last {
      PunctuationFound(lib, t, ArrayEnd, u, 0x5D);
      cs, r := LastElem(w, c, w'), u;
    } else {
      PunctuationFound(lib, t, Comma, u, 0x2C);
      var tail;
      tail, r := WriteElemsFound(lib, u, es.tail, after);
      cs := MoreElems(w, c, w', tail);
    }
  }

  lemma {:induction false} WriteMembersFound(lib: FloatLib, s: seq<byte>, ms: Members, after: Stream)
    returns (cs: SMembers, r: seq<byte>)
    requires ms.Member? && Tokens(lib, s) == SpellMembers(ms, after)
    ensures ValidMembers(cs) && s == WriteMembers(cs, r) && Tokens(lib, r) == after && DenoteMembers(lib, cs) == ms
    decreases ms, 1
  {
    hide Tokens, ScanToken, Spell, IsSpace, ValidPieces, SpellString, DenoteString;
    var last := ms.tail.NoMembers?;
    var next := if last then More(ObjectEnd, after) else More(Comma, SpellMembers(ms.tail, after));
    var w0, t0, u0 := TokenFound(lib, s);
    var ps := KeyFound(lib, t0, ms.key, u0);
    var w1, t1, u1 := TokenFound(lib, u0);
    PunctuationFound(lib, t1, Colon, u1, 0x3A);
    var w2, c, q := WriteFound(lib, u1, ms.val, next);
    var w3, t2, u2 := TokenFound(lib, q);
    var m := SMember(w0, ps, w1, w2, c, w3);
    if last {
      PunctuationFound(lib, t2, ObjectEnd, u2, 0x7D);
      cs, r := LastMember(m), u2;
    } else {
      PunctuationFound(lib, t2, Comma, u2, 0x2C);
      var tail;
      tail, r := WriteMembersFound(lib, u2, ms.tail, after);
      cs := MoreMembers(m, tail);
    }
  }

  lemma KeyFound(lib: FloatLib, t: seq<byte>, key: string, r: seq<byte>) returns (ps: seq<Piece>)
    requires t != [] && ScanToken(lib, t) == Ok((Text(key), r))
    ensures ValidPieces(ps) && t == [QUOTE] + SpellString(ps, r) && DenoteString(ps) == key
  {
    hide ScanToken;
    var c := ScalarFound(lib, t, JStr(key), Text(key), r);
    ps := c.ps;
  }

  // ----- the recogniser over bytes -----

  /** Reading the bytes gives a value and nothing else exactly when they are its text. */
  lemma ReadIffText(lib: FloatLib, s: seq<byte>, j: Json)
    ensures Read(Tokens(lib, s)) == Some((j, End)) <==> IsText(lib, s, j)
  {
    hide Tokens, Read, Spell, Valid, Write, Denote, Blanks;
    if Read(Tokens(lib, s)) == Some((j, End)) {
      ReadIffSpelled(Tokens(lib, s), j, End);
      var w, c, r := WriteFound(lib, s, j, End);
      EndIsBlanks(lib, r);
    }
    if IsText(lib, s, j) {
      var w, c, r :| Blanks(w) && Valid(c) && Blanks(r) && s == w + Write(c, r) && Denote(lib, c) == j;
      BlanksSkipped(lib, w, Write(c, r));
      BlankTail(r);
      WriteRead(lib, c, r);
      EndIsBlanks(lib, r);
      ReadIffSpelled(Tokens(lib, s), j, End);
    }
  }

  lemma BlankTail(r: seq<byte>)
    requires Blanks(r)
    ensures EndsNumber(r)
  {
    BlankEnds(r, []);
    assert r + [] == r;
  }
}
