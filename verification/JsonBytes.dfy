/** The parser over whole texts: what it accepts and returns, said of the bytes alone. */
module JsonBytes {
  import opened Wrappers
  import opened Floats
  import opened JsonLexis
  import opened JsonGrammar
  import opened JsonMeaning
  import opened JsonText
  import opened JsonAlike
  import JsonParser
  import Omi

  /** Some JSON text of RFC 8259 spells `m` in the bytes. */
  ghost predicate Means(lib: FloatLib, s: seq<byte>, m: Omi.OmiMessage) {
    exists j :: IsText(lib, s, j) && MessageOf(lib, j) == Some(m)
  }

  lemma TextIsUnique(lib: FloatLib, s: seq<byte>, j: Json, k: Json)
    requires IsText(lib, s, j) && IsText(lib, s, k)
    ensures j == k
  {
    hide IsText, Tokens, Read;
    ReadIffText(lib, s, j);
    ReadIffText(lib, s, k);
  }

  /** Bytes are parsed to a message exactly when they are a text of a tree that means it. */
  method ParseText(lib: FloatLib, bytes: seq<byte>) returns (r: Result<Omi.OmiMessage, JsonLexis.ParseFault>)
    ensures forall m :: r == Ok(m) <==> Means(lib, bytes, m)
  {
    hide IsText, MessageOf, Tokens, JsonGrammar.Read;
    var p := new JsonParser.JsonParser(lib, bytes);
    r := p.ParseMessage();
    forall m ensures r == Ok(m) <==> Means(lib, bytes, m) {
      if r == Ok(m) {
        ReadIffText(lib, bytes, JsonGrammar.Read(Tokens(lib, bytes)).value.0);
      }
      if Means(lib, bytes, m) {
        var j :| IsText(lib, bytes, j) && MessageOf(lib, j) == Some(m);
        ReadIffText(lib, bytes, j);
      }
    }
  }

  /** Skipping one value reaches the end exactly for the texts nested at most MAX_DEPTH deep. */
  method SkipText(lib: FloatLib, bytes: seq<byte>) returns (ok: bool)
    ensures ok <==> exists j :: IsText(lib, bytes, j) && Height(j) <= MAX_DEPTH
  {
    hide IsText, Tokens, JsonGrammar.Read, Height;
    var p := new JsonParser.JsonParser(lib, bytes);
    var r := p.SkipValue();
    if r.Err? {
      ok := false;
    } else {
      ok := p.lex.IsEof();
    }
    if ok {
      ReadIffText(lib, bytes, JsonGrammar.Read(Tokens(lib, bytes)).value.0);
    }
    if j :| IsText(lib, bytes, j) && Height(j) <= MAX_DEPTH {
      ReadIffText(lib, bytes, j);
    }
  }

  /** Two texts of alike trees are parsed to the same message, or both refused. */
  method ParseAlike(lib: FloatLib, a: seq<byte>, b: seq<byte>, ghost j: Json, ghost k: Json)
    returns (x: Result<Omi.OmiMessage, ParseFault>, y: Result<Omi.OmiMessage, ParseFault>)
    requires IsText(lib, a, j) && IsText(lib, b, k)
    requires Alike(Node(NO_ENVELOPE, false), j, k, MAX_DEPTH)
    ensures x.Ok? || y.Ok? ==> x == y
  {
    hide IsText, MessageOf, Alike;
    x := ParseText(lib, a);
    y := ParseText(lib, b);
    AlikeMeansSame(lib, j, k, 0);
    SameTexts(lib, a, b, j, k);
    assert x.Ok? ==> Means(lib, a, x.value);
    assert y.Ok? ==> Means(lib, b, y.value);
  }

  lemma SameTexts(lib: FloatLib, a: seq<byte>, b: seq<byte>, j: Json, k: Json)
    requires IsText(lib, a, j) && IsText(lib, b, k) && MessageOf(lib, j) == MessageOf(lib, k)
    ensures forall m :: Means(lib, a, m) <==> Means(lib, b, m)
  {
    hide IsText, MessageOf;
    forall m ensures Means(lib, a, m) <==> Means(lib, b, m) {
      if i :| IsText(lib, a, i) && MessageOf(lib, i) == Some(m) {
        TextIsUnique(lib, a, i, j);
        assert IsText(lib, b, k) && MessageOf(lib, k) == Some(m);
      }
      if i :| IsText(lib, b, i) && MessageOf(lib, i) == Some(m) {
        TextIsUnique(lib, b, i, k);
        assert IsText(lib, a, j) && MessageOf(lib, j) == Some(m);
      }
    }
  }
}
