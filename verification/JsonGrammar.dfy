/** JSON values as trees, the grammar of RFC 8259 over tokens (sections 2 to 5), and
    the proof that reading by recursive descent recognises exactly that grammar. */
module JsonGrammar {
  import opened Wrappers
  import opened Floats
  import opened JsonLexis

  datatype Json =
    | JNull
    | JBool(b: bool)
    | JInt(i: I64)
    | JNum(n: F64)
    | JStr(s: string)
    | JArr(elems: Elems)
    | JObj(members: Members)

  datatype Elems = NoElems | Elem(head: Json, tail: Elems)

  datatype Members = NoMembers | Member(key: string, val: Json, tail: Members)

  // ----- the grammar: the tokens of a value, placed before `after` -----

  ghost function Spell(j: Json, after: Stream): Stream
    decreases j, 2
  {
    match j
    case JNull => More(Null, after)
    case JBool(b) => More(Boolean(b), after)
    case JInt(i) => More(Integer(i), after)
    case JNum(n) => More(Number(n), after)
    case JStr(s) => More(Text(s), after)
    case JArr(es) => More(ArrayStart, SpellItems(es, after))
    case JObj(ms) => More(ObjectStart, SpellBody(ms, after))
  }

  /** What follows `[`, through the closing bracket. */
  ghost function SpellItems(es: Elems, after: Stream): Stream
    decreases es, 1
  {
    if es.NoElems? then More(ArrayEnd, after) else SpellElems(es, after)
  }

  ghost function SpellElems(es: Elems, after: Stream): Stream
    requires es.Elem?
    decreases es, 0
  {
    Spell(es.head,
          if es.tail.NoElems? then More(ArrayEnd, after) else More(Comma, SpellElems(es.tail, after)))
  }

  /** What follows `{`, through the closing brace. */
  ghost function SpellBody(ms: Members, after: Stream): Stream
    decreases ms, 1
  {
    if ms.NoMembers? then More(ObjectEnd, after) else SpellMembers(ms, after)
  }

  ghost function SpellMembers(ms: Members, after: Stream): Stream
    requires ms.Member?
    decreases ms, 0
  {
    More(Text(ms.key), More(Colon, Spell(ms.val,
         if ms.tail.NoMembers? then More(ObjectEnd, after) else More(Comma, SpellMembers(ms.tail, after)))))
  }

  /** Nesting: each `{` or `[` is one level. */
  function Height(j: Json): nat {
    match j
    case JArr(es) => 1 + ElemsHeight(es)
    case JObj(ms) => 1 + MembersHeight(ms)
    case _ => 0
  }

  function Max(a: nat, b: nat): nat { if a < b then b else a }

  function ElemsHeight(es: Elems): nat {
    if es.NoElems? then 0 else Max(Height(es.head), ElemsHeight(es.tail))
  }

  function MembersHeight(ms: Members): nat {
    if ms.NoMembers? then 0 else Max(Height(ms.val), MembersHeight(ms.tail))
  }

  // ----- recursive descent over tokens, without a depth limit -----

  ghost function Read(s: Stream): (r: Option<(Json, Stream)>)
    ensures r.Some? ==> r.value.1.Len() < s.Len()
    decreases s.Len(), 0
  {
    if !s.More? then None
    else
      match s.tok
      case Null => Some((JNull, s.rest))
      case Boolean(b) => Some((JBool(b), s.rest))
      case Integer(i) => Some((JInt(i), s.rest))
      case Number(n) => Some((JNum(n), s.rest))
      case Text(t) => Some((JStr(t), s.rest))
      case ArrayStart =>
        (match ReadItems(s.rest)
         case None => None
         case Some((es, r)) => Some((JArr(es), r)))
      case ObjectStart =>
        (match ReadBody(s.rest)
         case None => None
         case Some((ms, r)) => Some((JObj(ms), r)))
      case _ => None
  }

  ghost function ReadItems(s: Stream): (r: Option<(Elems, Stream)>)
    ensures r.Some? ==> r.value.1.Len() < s.Len()
    decreases s.Len(), 2
  {
    if s.More? && s.tok == ArrayEnd then Some((NoElems, s.rest)) else ReadElems(s)
  }

  ghost function ReadElems(s: Stream): (r: Option<(Elems, Stream)>)
    ensures r.Some? ==> r.value.1.Len() < s.Len() && r.value.0.Elem?
    decreases s.Len(), 1
  {
    match Read(s)
    case None => None
    case Some((j, r)) =>
      if r.More? && r.tok == ArrayEnd then Some((Elem(j, NoElems), r.rest))
      else if r.More? && r.tok == Comma then
        match ReadElems(r.rest)
        case None => None
        case Some((es, r')) => Some((Elem(j, es), r'))
      else None
  }

  ghost function ReadBody(s: Stream): (r: Option<(Members, Stream)>)
    ensures r.Some? ==> r.value.1.Len() < s.Len()
    decreases s.Len(), 2
  {
    if s.More? && s.tok == ObjectEnd then Some((NoMembers, s.rest)) else ReadMembers(s)
  }

  ghost predicate AtKey(s: Stream) {
    s.More? && s.tok.Text? && s.rest.More? && s.rest.tok == Colon
  }

  ghost function ReadMembers(s: Stream): (r: Option<(Members, Stream)>)
    ensures r.Some? ==> r.value.1.Len() < s.Len() && r.value.0.Member?
    decreases s.Len(), 1
  {
    if !AtKey(s) then None
    else
      assert s.Len() == 2 + s.rest.rest.Len();
      match Read(s.rest.rest)
      case None => None
      case Some((j, r)) =>
        if r.More? && r.tok == ObjectEnd then Some((Member(s.tok.s, j, NoMembers), r.rest))
        else if r.More? && r.tok == Comma then
          match ReadMembers(r.rest)
          case None => None
          case Some((ms, r')) => Some((Member(s.tok.s, j, ms), r'))
        else None
  }

  // ----- reading is the inverse of spelling -----

  lemma {:induction false} ReadSpell(j: Json, after: Stream)
    ensures Read(Spell(j, after)) == Some((j, after))
    decreases j
  {
    match j
    case JArr(es) =>
      if es.Elem? {
        ReadSpellElems(es, after);
        NoBracketFirst(es.head);
      }
    case JObj(ms) =>
      if ms.Member? {
        ReadSpellMembers(ms, after);
      }
    case _ =>
  }

  lemma NoBracketFirst(j: Json)
    ensures forall s :: Spell(j, s).More? && Spell(j, s).tok != ArrayEnd
  {
  }

  lemma {:induction false} ReadSpellElems(es: Elems, after: Stream)
    requires es.Elem?
    ensures ReadElems(SpellElems(es, after)) == Some((es, after))
    decreases es
  {
    if es.tail.NoElems? {
      ReadSpell(es.head, More(ArrayEnd, after));
    } else {
      ReadSpell(es.head, More(Comma, SpellElems(es.tail, after)));
      ReadSpellElems(es.tail, after);
    }
  }

  lemma {:induction false} ReadSpellMembers(ms: Members, after: Stream)
    requires ms.Member?
    ensures ReadMembers(SpellMembers(ms, after)) == Some((ms, after))
    decreases ms
  {
    if ms.tail.NoMembers? {
      ReadSpell(ms.val, More(ObjectEnd, after));
    } else {
      ReadSpell(ms.val, More(Comma, SpellMembers(ms.tail, after)));
      ReadSpellMembers(ms.tail, after);
    }
  }

  lemma {:induction false} SpellRead(s: Stream)
    requires Read(s).Some?
    ensures s == Spell(Read(s).value.0, Read(s).value.1)
    decreases s.Len(), 0
  {
    match s.tok
    case ArrayStart =>
      if !(s.rest.More? && s.rest.tok == ArrayEnd) {
        SpellReadElems(s.rest);
      }
    case ObjectStart =>
      if !(s.rest.More? && s.rest.tok == ObjectEnd) {
        SpellReadMembers(s.rest);
      }
    case _ =>
  }

  lemma {:induction false} SpellReadElems(s: Stream)
    requires ReadElems(s).Some?
    ensures s == SpellElems(ReadElems(s).value.0, ReadElems(s).value.1)
    decreases s.Len(), 1
  {
    SpellRead(s);
    var r := Read(s).value.1;
    if r.tok == Comma {
      SpellReadElems(r.rest);
    }
  }

  lemma {:induction false} SpellReadMembers(s: Stream)
    requires ReadMembers(s).Some?
    ensures s == SpellMembers(ReadMembers(s).value.0, ReadMembers(s).value.1)
    decreases s.Len(), 1
  {
    assert s.Len() == 2 + s.rest.rest.Len();
    SpellRead(s.rest.rest);
    var r := Read(s.rest.rest).value.1;
    if r.tok == Comma {
      SpellReadMembers(r.rest);
    }
  }

  /** Recursive descent recognises exactly the grammar, and reads it in one way only. */
  lemma ReadIffSpelled(s: Stream, j: Json, rest: Stream)
    ensures Read(s) == Some((j, rest)) <==> s == Spell(j, rest)
  {
    if Read(s) == Some((j, rest)) {
      SpellRead(s);
    }
    ReadSpell(j, rest);
  }
}
