/** The depth-limited recursive-descent parser. Every method is proved to return
    what JsonMeaning says of the one JSON value that JsonGrammar reads at the
    parser's position, to stop right after it, and to restore the depth. */
module JsonParser {
  import opened Wrappers
  import opened Floats
  import opened JsonLexis
  import opened JsonLexer
  import opened JsonGrammar
  import opened JsonMeaning
  import opened Odf
  import Omi

  /** Read a value at `s` and interpret it. */
  ghost function Reads<T>(s: Stream, f: Json -> Option<T>): Option<(T, Stream)> {
    match JsonGrammar.Read(s)
    case None => None
    case Some((j, rest)) =>
      match f(j)
      case None => None
      case Some(x) => Some((x, rest))
  }

  /** Read members at `s`, through the closing brace, into `f`. */
  ghost function MembersAt(lib: FloatLib, s: Stream, f: Fields, room: nat): Option<(Fields, Stream)> {
    match ReadMembers(s)
    case None => None
    case Some((ms, rest)) => TakeAll(lib, f, ms, room).Map(x => (x, rest))
  }

  ghost function Taking(lib: FloatLib, f: Fields, key: string, room: nat): Json -> Option<Fields> {
    j => Take(lib, f, key, j, room)
  }

  ghost function TakingElem(lib: FloatLib, f: Items, room: nat): Json -> Option<Items> {
    j => TakeElem(lib, f, j, room)
  }

  /** Read one member, without what follows it. */
  ghost function MemberAt(lib: FloatLib, s: Stream, f: Fields, room: nat): Option<(Fields, Stream)> {
    if !AtKey(s) then None else Reads(s.rest.rest, Taking(lib, f, s.tok.s, room))
  }

  ghost function BodyAt(lib: FloatLib, s: Stream, f: Fields, room: nat): Option<(Fields, Stream)> {
    match ReadBody(s)
    case None => None
    case Some((ms, rest)) => TakeAll(lib, f, ms, room).Map(x => (x, rest))
  }

  ghost function ElemsAt(lib: FloatLib, s: Stream, f: Items, room: nat): Option<(Items, Stream)> {
    match ReadElems(s)
    case None => None
    case Some((es, rest)) => TakeElems(lib, f, es, room).Map(x => (x, rest))
  }

  ghost function ItemsAt(lib: FloatLib, s: Stream, f: Items, room: nat): Option<(Items, Stream)> {
    match ReadItems(s)
    case None => None
    case Some((es, rest)) => TakeElems(lib, f, es, room).Map(x => (x, rest))
  }

  class JsonParser {
    const lex: Lexer
    var depth: nat

    constructor (lib: FloatLib, input: seq<byte>)
      ensures Valid() && fresh(lex) && depth == 0
      ensures lex.lib == lib && lex.Unread() == Tokens(lib, input)
    {
      lex := new Lexer(lib, input);
      depth := 0;
    }

    ghost predicate Valid()
      reads this, lex
    {
      lex.Valid() && depth <= MAX_DEPTH
    }

    /** The result is the one `want` describes and the parser stands after it, at depth `d`. */
    ghost predicate Done<T>(r: Result<T, ParseFault>, want: Option<(T, Stream)>, d: nat)
      reads this, lex
    {
      && lex.Valid() && depth <= MAX_DEPTH + 1
      && match want
         case None => r.Err?
         case Some((x, rest)) => r == Ok(x) && Valid() && lex.Unread() == rest && depth == d
    }

    method Enter() returns (r: Result<(), ParseFault>)
      requires Valid()
      modifies this`depth
      ensures depth == old(depth) + 1
      ensures r == if old(depth) == MAX_DEPTH then Err(DepthExceeded) else Ok(())
    {
      depth := depth + 1;
      return if depth > MAX_DEPTH then Err(DepthExceeded) else Ok(());
    }

    method Leave()
      modifies this`depth
      ensures depth == if old(depth) == 0 then 0 else old(depth) - 1
    {
      depth := if depth == 0 then 0 else depth - 1;
    }

    // ----- tokens -----

    method PeekIs(expected: Token) returns (r: Result<bool, ParseFault>)
      requires Valid()
      requires !expected.Text? && !expected.Integer? && !expected.Number? && !expected.Boolean?
      modifies lex
      ensures Valid() && (old(lex.Unread()).Bad? <==> r.Err?)
      ensures r.Ok? ==> lex.Unread() == old(lex.Unread())
      ensures r.Ok? ==> (r.value <==> lex.Unread().More? && lex.Unread().tok == expected)
    {
      var t :- lex.PeekToken();
      return Ok(t == Some(expected));
    }

    /** Consumes a null if that is what comes next. */
    method TakeNull() returns (r: Result<bool, ParseFault>)
      requires Valid()
      modifies lex
      ensures Valid()
      ensures var s := old(lex.Unread());
              var j := JsonGrammar.Read(s);
              if j.Some? && j.value.0.JNull? then r == Ok(true) && lex.Unread() == j.value.1
              else if r.Ok? then r.value == false && lex.Unread() == s
              else j.None?
    {
      var isNull :- PeekIs(Null);
      if isNull {
        var _ := lex.NextToken();
      }
      return Ok(isNull);
    }

    method ExpectString() returns (r: Result<string, ParseFault>)
      requires Valid()
      modifies lex
      ensures var s := old(lex.Unread());
              Valid() && if s.More? && s.tok.Text? then r == Ok(s.tok.s) && lex.Unread() == s.rest else r.Err?
      ensures Done(r, Reads(old(lex.Unread()), StringOf), depth)
    {
      var t :- lex.NextToken();
      match t
      case Some(Text(s)) => return Ok(s);
      case Some(_) => return Err(ExpectedToken("string"));
      case None => return Err(UnexpectedEof);
    }

    method ExpectStringOr(was: Option<string>) returns (r: Result<Option<string>, ParseFault>)
      requires Valid()
      modifies lex
      ensures Done(r, Reads(old(lex.Unread()), j => StringOr(was, j)), depth)
    {
      var isNull :- TakeNull();
      if isNull {
        return Ok(was);
      }
      var x :- ExpectString();
      return Ok(Some(x));
    }

    method ExpectF64() returns (r: Result<F64, ParseFault>)
      requires Valid()
      modifies lex
      ensures Done(r, Reads(old(lex.Unread()), j => F64Of(lex.lib, j)), depth)
    {
      var t :- lex.NextToken();
      match t
      case Some(Number(n)) => return Ok(n);
      case Some(Integer(i)) => return Ok(lex.lib.ofI64(i));
      case Some(_) => return Err(ExpectedToken("number"));
      case None => return Err(UnexpectedEof);
    }

    method ExpectI64() returns (r: Result<I64, ParseFault>)
      requires Valid()
      modifies lex
      ensures Done(r, Reads(old(lex.Unread()), j => I64Of(lex.lib, j)), depth)
    {
      var t :- lex.NextToken();
      match t
      case Some(Integer(i)) => return Ok(i);
      case Some(Number(n)) =>
        var i := lex.lib.toI64(n);
        return if Equals(lex.lib.ofI64(i), n) then Ok(i) else Err(ExpectedToken("integer"));
      case _ => return Err(ExpectedToken("integer"));
    }

    method ExpectU64() returns (r: Result<U64, ParseFault>)
      requires Valid()
      modifies lex
      ensures Done(r, Reads(old(lex.Unread()), j => U64Of(lex.lib, j)), depth)
    {
      var i :- ExpectI64();
      return if i < 0 then Err(ExpectedToken("non-negative integer")) else Ok(i as U64);
    }

    method ExpectU16() returns (r: Result<U16, ParseFault>)
      requires Valid()
      modifies lex
      ensures Done(r, Reads(old(lex.Unread()), j => U16Of(lex.lib, j)), depth)
    {
      var i :- ExpectU64();
      return if i < 0x1_0000 then Ok(i as U16) else Err(ExpectedToken("status code"));
    }

    /** The end of every loop over members or elements: true after a comma, false after
        the closing token. */
    method NextOrEnd(closing: Token) returns (r: Result<bool, ParseFault>)
      requires Valid() && (closing == ObjectEnd || closing == ArrayEnd)
      modifies lex
      ensures Valid()
      ensures var s := old(lex.Unread());
              if s.More? && s.tok == Comma then r == Ok(true) && lex.Unread() == s.rest
              else if s.More? && s.tok == closing then r == Ok(false) && lex.Unread() == s.rest
              else r.Err?
      ensures r.Ok? ==> lex.Unread().Len() < old(lex.Unread().Len())
    {
      var comma :- PeekIs(Comma);
      if comma {
        var _ := lex.NextToken();
        return Ok(true);
      }
      var end := PeekIs(closing);
      if end == Ok(true) {
        var _ := lex.NextToken();
        return Ok(false);
      }
      return Err(ExpectedToken("',' or the closing bracket"));
    }

    /** Skips any JSON value that fits in the remaining depth. Each nested call is one
        level deeper, so the recursion is no deeper than MAX_DEPTH calls below this one. */
    method SkipValue() returns (r: Result<(), ParseFault>)
      requires Valid()
      modifies this, lex
      ensures var room := MAX_DEPTH - old(depth);
              Done(r, Reads(old(lex.Unread()), j => Skip(j, room)), old(depth))
      decreases MAX_DEPTH - depth, 0
    {
      var t :- lex.NextToken();
      match t
      case None => return Err(UnexpectedEof);
      case Some(Text(_)) => return Ok(());
      case Some(Integer(_)) => return Ok(());
      case Some(Number(_)) => return Ok(());
      case Some(Boolean(_)) => return Ok(());
      case Some(Null) => return Ok(());
      case Some(ObjectStart) =>
        var _ :- Enter();
        r := SkipRestOfObject();
      case Some(ArrayStart) =>
        var _ :- Enter();
        r := SkipRestOfArray();
      case Some(_) => return Err(ExpectedToken("value"));
    }

    /** After `[` and Enter. */
    method SkipRestOfArray() returns (r: Result<(), ParseFault>)
      requires Valid() && depth > 0
      modifies this, lex
      ensures Done(r, SkipItemsAt(old(lex.Unread()), MAX_DEPTH - old(depth)), old(depth) - 1)
      decreases MAX_DEPTH - depth, 1
    {
      var d, s := depth, lex.Unread();
      var atEnd :- PeekIs(ArrayEnd);
      if atEnd {
        var _ := lex.NextToken();
        Leave();
        return Ok(());
      }
      while true
        invariant Valid() && depth == d
        invariant SkipElemsAt(lex.Unread(), MAX_DEPTH - d) == SkipItemsAt(s, MAX_DEPTH - d)
        decreases lex.Unread().Len()
      {
        SkipElemsStep(lex.Unread(), MAX_DEPTH - d);
        var _ :- SkipValue();
        var more :- NextOrEnd(ArrayEnd);
        if !more {
          Leave();
          return Ok(());
        }
      }
    }

    /** After `{` and Enter. */
    method SkipRestOfObject() returns (r: Result<(), ParseFault>)
      requires Valid() && depth > 0
      modifies this, lex
      ensures Done(r, SkipBodyAt(old(lex.Unread()), MAX_DEPTH - old(depth)), old(depth) - 1)
      decreases MAX_DEPTH - depth, 2
    {
      var d, s := depth, lex.Unread();
      var atEnd :- PeekIs(ObjectEnd);
      if atEnd {
        var _ := lex.NextToken();
        Leave();
        return Ok(());
      }
      while true
        invariant Valid() && depth == d
        invariant SkipMembersAt(lex.Unread(), MAX_DEPTH - d) == SkipBodyAt(s, MAX_DEPTH - d)
        decreases lex.Unread().Len()
      {
        SkipMembersStep(lex.Unread(), MAX_DEPTH - d);
        var _ :- SkipMember();
        var more :- NextOrEnd(ObjectEnd);
        if !more {
          Leave();
          return Ok(());
        }
      }
    }

    /** One member: a key, a colon, and a value of any kind. */
    method SkipMember() returns (r: Result<(), ParseFault>)
      requires Valid() && depth > 0
      modifies this, lex
      ensures var s, room := old(lex.Unread()), MAX_DEPTH - old(depth);
              Done(r, if AtKey(s) then Reads(s.rest.rest, j => Skip(j, room)) else None, old(depth))
      ensures r.Ok? ==> lex.Unread().Len() < old(lex.Unread().Len())
      decreases MAX_DEPTH - depth, 1
    {
      var _ :- ExpectString();
      var _ :- lex.ExpectToken(Colon);
      r := SkipValue();
    }

    /** Arrays and objects are skipped and read as null. */
    method ParseOmiValue() returns (r: Result<OmiValue, ParseFault>)
      requires Valid()
      modifies this, lex
      ensures var room := MAX_DEPTH - old(depth);
              Done(r, Reads(old(lex.Unread()), j => OmiOf(lex.lib, j, room)), old(depth))
    {
      var t :- lex.NextToken();
      match t
      case Some(Null) => return Ok(OmiNull);
      case Some(Boolean(b)) => return Ok(OmiBool(b));
      case Some(Text(s)) => return Ok(OmiStr(s));
      case Some(Number(n)) => return Ok(OmiNumber(n));
      case Some(Integer(i)) => return Ok(OmiNumber(lex.lib.ofI64(i)));
      case Some(ArrayStart) =>
        var _ :- Enter();
        var _ :- SkipRestOfArray();
        return Ok(OmiNull);
      case Some(ObjectStart) =>
        var _ :- Enter();
        var _ :- SkipRestOfObject();
        return Ok(OmiNull);
      case Some(_) => return Err(ExpectedToken("value (null, bool, number, or string)"));
      case None => return Err(UnexpectedEof);
    }

    // ----- the loops over members and elements -----

    /** After `{`: reads members into `f`, through the closing brace. */
    method ParseFields(f: Fields) returns (r: Result<Fields, ParseFault>)
      requires Valid()
      modifies this, lex
      ensures Done(r, BodyAt(lex.lib, old(lex.Unread()), f, MAX_DEPTH - old(depth)), old(depth))
      decreases lex.Unread().Len(), 4
    {
      hide MembersAt, BodyAt, MemberAt, Stream.Len;
      ghost var s, d := lex.Unread(), depth;
      BodyStep(lex.lib, s, f, MAX_DEPTH - d);
      var atEnd :- PeekIs(ObjectEnd);
      if atEnd {
        var _ := lex.NextToken();
        return Ok(f);
      }
      var g := f;
      while true
        invariant Valid() && depth == d && lex.Unread().Len() <= s.Len()
        invariant MembersAt(lex.lib, lex.Unread(), g, MAX_DEPTH - d) == BodyAt(lex.lib, s, f, MAX_DEPTH - d)
        decreases lex.Unread().Len()
      {
        MembersStep(lex.lib, lex.Unread(), g, MAX_DEPTH - d);
        g :- ParseMember(g);
        var more :- NextOrEnd(ObjectEnd);
        if !more {
          return Ok(g);
        }
      }
    }

    method ParseMember(f: Fields) returns (r: Result<Fields, ParseFault>)
      requires Valid()
      modifies this, lex
      ensures Done(r, MemberAt(lex.lib, old(lex.Unread()), f, MAX_DEPTH - old(depth)), old(depth))
      ensures r.Ok? ==> lex.Unread().Len() < old(lex.Unread().Len())
      decreases lex.Unread().Len(), 3
    {
      hide Taking, Reads;
      ghost var s := lex.Unread();
      ghost var want := MemberAt(lex.lib, s, f, MAX_DEPTH - depth);
      MemberAtAdvances(lex.lib, s, f, MAX_DEPTH - depth);
      var key :- ExpectString();
      var _ :- lex.ExpectToken(Colon);
      assert key == s.tok.s && lex.Unread() == s.rest.rest;
      assert want == Reads(s.rest.rest, Taking(lex.lib, f, key, MAX_DEPTH - depth));
      r := TakeMember(f, key);
      assert Done(r, want, old(depth));
    }

    /** After `[`: reads elements into `f`, through the closing bracket. */
    method ParseElems(f: Items) returns (r: Result<Items, ParseFault>)
      requires Valid()
      modifies this, lex
      ensures Done(r, ItemsAt(lex.lib, old(lex.Unread()), f, MAX_DEPTH - old(depth)), old(depth))
      decreases lex.Unread().Len(), 4
    {
      hide ElemsAt, ItemsAt, TakingElem, Stream.Len, Reads;
      ghost var s, d := lex.Unread(), depth;
      ItemsStep(lex.lib, s, f, MAX_DEPTH - d);
      var atEnd :- PeekIs(ArrayEnd);
      if atEnd {
        var _ := lex.NextToken();
        return Ok(f);
      }
      var g := f;
      while true
        invariant Valid() && depth == d && lex.Unread().Len() <= s.Len()
        invariant ElemsAt(lex.lib, lex.Unread(), g, MAX_DEPTH - d) == ItemsAt(lex.lib, s, f, MAX_DEPTH - d)
        decreases lex.Unread().Len()
      {
        ElemsStep(lex.lib, lex.Unread(), g, MAX_DEPTH - d);
        g :- TakeElement(g);
        var more :- NextOrEnd(ArrayEnd);
        if !more {
          return Ok(g);
        }
      }
    }

    /** `{`, members, `}` without entering a level. */
    method ParseObjectInto(f: Fields) returns (r: Result<Fields, ParseFault>)
      requires Valid()
      modifies this, lex
      ensures var room := MAX_DEPTH - old(depth);
              Done(r, Reads(old(lex.Unread()), j => FieldsOf(lex.lib, f, j, room)), old(depth))
      decreases lex.Unread().Len(), 0
    {
      hide BodyAt, JsonGrammar.Read, TakeAll;
      ObjectRead(lex.lib, lex.Unread(), f, MAX_DEPTH - depth);
      var _ :- lex.ExpectToken(ObjectStart);
      r := ParseFields(f);
    }

    /** The same, one level deeper. */
    method ParseNestedObject(f: Fields) returns (r: Result<Fields, ParseFault>)
      requires Valid()
      modifies this, lex
      ensures Done(r, Reads(old(lex.Unread()), NestedFields(lex.lib, f, MAX_DEPTH - old(depth))), old(depth))
      decreases lex.Unread().Len(), 1
    {
      var _ :- Enter();
      var g :- ParseObjectInto(f);
      Leave();
      return Ok(g);
    }

    method ParseArrayInto(f: Items) returns (r: Result<Items, ParseFault>)
      requires Valid()
      modifies this, lex
      ensures var room := MAX_DEPTH - old(depth);
              Done(r, Reads(old(lex.Unread()), j => ItemsIn(lex.lib, f, j, room)), old(depth))
      decreases lex.Unread().Len(), 0
    {
      hide ItemsAt, JsonGrammar.Read, TakeElems;
      ArrayRead(lex.lib, lex.Unread(), f, MAX_DEPTH - depth);
      var _ :- lex.ExpectToken(ArrayStart);
      r := ParseElems(f);
    }

    // ----- O-DF data -----

    method ParseValue() returns (r: Result<Value, ParseFault>)
      requires Valid()
      modifies this, lex
      ensures var room := MAX_DEPTH - old(depth);
              Done(r, Reads(old(lex.Unread()), j => ValueOf(lex.lib, j, room)), old(depth))
      decreases lex.Unread().Len(), 2
    {
      var f :- ParseNestedObject(NO_VALUE);
      var x := EndValue(f.value);
      return if x.Some? then Ok(x.value) else Err(MissingField("v"));
    }

    method ParseRingBuffer() returns (r: Result<Ring, ParseFault>)
      requires Valid()
      modifies this, lex
      ensures var room := MAX_DEPTH - old(depth);
              Done(r, Reads(old(lex.Unread()), j => RingOf(lex.lib, j, room)), old(depth))
      decreases lex.Unread().Len(), 2
    {
      var _ :- Enter();
      var f :- ParseArrayInto(ValueItems([]));
      Leave();
      var ring := FillRing(f.values);
      return Ok(ring);
    }

    /** The array lists the newest value first; the oldest is pushed first. */
    static method FillRing(newestFirst: seq<Value>) returns (ring: Ring)
      ensures ring == EndRing(newestFirst)
    {
      ring := NewRing(if newestFirst == [] then 1 else |newestFirst|);
      var i := |newestFirst|;
      assert newestFirst[..i] == newestFirst;
      while i > 0
        invariant 0 <= i <= |newestFirst|
        invariant PushAll(ring, Reverse(newestFirst[..i])) == EndRing(newestFirst)
      {
        i := i - 1;
        ReverseLast(newestFirst[..i + 1]);
        assert newestFirst[..i + 1][..i] == newestFirst[..i];
        ring := Push(ring, newestFirst[i]);
      }
    }

    method ParseMetaMap() returns (r: Result<map<string, OmiValue>, ParseFault>)
      requires Valid()
      modifies this, lex
      ensures var room := MAX_DEPTH - old(depth);
              Done(r, Reads(old(lex.Unread()), j => MetaOf(lex.lib, j, room)), old(depth))
      decreases lex.Unread().Len(), 2
    {
      var f :- ParseNestedObject(MetaFields(map[]));
      return Ok(f.entries);
    }

    method ParseInfoItem() returns (r: Result<InfoItem, ParseFault>)
      requires Valid()
      modifies this, lex
      ensures var room := MAX_DEPTH - old(depth);
              Done(r, Reads(old(lex.Unread()), j => InfoOf(lex.lib, j, room)), old(depth))
      decreases lex.Unread().Len(), 2
    {
      var f :- ParseNestedObject(NO_INFO);
      var x := EndInfo(f.info);
      return if x.Some? then Ok(x.value) else Err(MissingField("values"));
    }

    method ParseItemsMap() returns (r: Result<map<string, InfoItem>, ParseFault>)
      requires Valid()
      modifies this, lex
      ensures var room := MAX_DEPTH - old(depth);
              Done(r, Reads(old(lex.Unread()), j => ItemsOf(lex.lib, j, room)), old(depth))
      decreases lex.Unread().Len(), 2
    {
      var f :- ParseNestedObject(ItemsFields(map[]));
      return Ok(f.items);
    }

    method ParseObject() returns (r: Result<Object, ParseFault>)
      requires Valid()
      modifies this, lex
      ensures var room := MAX_DEPTH - old(depth);
              Done(r, Reads(old(lex.Unread()), j => ObjectOf(lex.lib, j, room)), old(depth))
      decreases lex.Unread().Len(), 2
    {
      var f :- ParseNestedObject(NO_OBJECT);
      var x := EndObject(f.node);
      return if x.Some? then Ok(x.value) else Err(MissingField("id"));
    }

    method ParseObjectsMap() returns (r: Result<Objects, ParseFault>)
      requires Valid()
      modifies this, lex
      ensures var room := MAX_DEPTH - old(depth);
              Done(r, Reads(old(lex.Unread()), j => ObjectsOf(lex.lib, j, room)), old(depth))
      decreases lex.Unread().Len(), 2
    {
      var f :- ParseNestedObject(ObjectsFields(map[]));
      return Ok(f.objects);
    }

    // ----- protocol parts -----

    method ParseWriteItem() returns (r: Result<Omi.WriteItem, ParseFault>)
      requires Valid()
      modifies this, lex
      ensures var room := MAX_DEPTH - old(depth);
              Done(r, Reads(old(lex.Unread()), j => WriteItemOf(lex.lib, j, room)), old(depth))
      decreases lex.Unread().Len(), 2
    {
      var f :- ParseObjectInto(NO_WRITE_ITEM);
      var x := EndWriteItem(f.item);
      return if x.Some? then Ok(x.value) else Err(MissingField("path or v"));
    }

    method ParseWriteItems() returns (r: Result<seq<Omi.WriteItem>, ParseFault>)
      requires Valid()
      modifies this, lex
      ensures var room := MAX_DEPTH - old(depth);
              Done(r, Reads(old(lex.Unread()), j => WritesOf(lex.lib, j, room)), old(depth))
      decreases lex.Unread().Len(), 2
    {
      var f :- ParseArrayInto(WriteItems([]));
      return Ok(f.writes);
    }

    method ParseStringArray() returns (r: Result<seq<string>, ParseFault>)
      requires Valid()
      modifies this, lex
      ensures var room := MAX_DEPTH - old(depth);
              Done(r, Reads(old(lex.Unread()), j => RidsOf(lex.lib, j, room)), old(depth))
      decreases lex.Unread().Len(), 2
    {
      var f :- ParseArrayInto(RidItems([]));
      return Ok(f.rids);
    }

    method ParseItemStatus() returns (r: Result<Omi.ItemStatus, ParseFault>)
      requires Valid()
      modifies this, lex
      ensures var room := MAX_DEPTH - old(depth);
              Done(r, Reads(old(lex.Unread()), j => StatusOf(lex.lib, j, room)), old(depth))
      decreases lex.Unread().Len(), 2
    {
      var f :- ParseObjectInto(NO_STATUS);
      var x := EndStatus(f.status);
      return if x.Some? then Ok(x.value) else Err(MissingField("path or status"));
    }

    method ParseResponseResult() returns (r: Result<Omi.ResponseResult, ParseFault>)
      requires Valid()
      modifies this, lex
      ensures var room := MAX_DEPTH - old(depth);
              Done(r, Reads(old(lex.Unread()), j => ResultOf(lex.lib, j, room)), old(depth))
      decreases lex.Unread().Len(), 2
    {
      var isArray :- PeekIs(ArrayStart);
      if isArray {
        var f :- ParseArrayInto(StatusItems([]));
        return Ok(Omi.StatusBatch(f.statuses));
      }
      var _ :- SkipValue();
      return Ok(Omi.SingleResult(Omi.NullPayload));
    }

    /** One of the five operations, with the checks each makes of its fields. */
    method ParseOperation(key: string) returns (r: Result<Omi.Operation, ParseFault>)
      requires Valid() && key in OPERATIONS
      modifies this, lex
      ensures var room := MAX_DEPTH - old(depth);
              Done(r, Reads(old(lex.Unread()), j => OperationOf(lex.lib, key, j, room)), old(depth))
      decreases lex.Unread().Len(), 2
    {
      var f :- ParseObjectInto(OperationFields(key));
      var x := EndOperation(f);
      return if x.Some? then Ok(x.value) else Err(MissingField("operation field"));
    }

    /** A whole message: the envelope, then nothing but white space. */
    method ParseMessage() returns (r: Result<Omi.OmiMessage, ParseFault>)
      requires Valid() && depth == 0
      modifies this, lex
      ensures r == match Reads(old(lex.Unread()), j => MessageOf(lex.lib, j))
                   case Some((m, End)) => Ok(m)
                   case _ => Err(if r.Err? then r.error else UnexpectedEof)
    {
      var f :- ParseObjectInto(NO_ENVELOPE);
      var m := EndEnvelope(f.envelope);
      if m.None? {
        return Err(MissingField("envelope field"));
      }
      var eof := lex.IsEof();
      return if eof then Ok(m.value) else Err(ExpectedToken("end of input"));
    }

    // ----- the arms of the key matches -----

    method TakeValueMember(l: ValueLocals, key: string) returns (r: Result<ValueLocals, ParseFault>)
      requires Valid()
      modifies this, lex
      ensures var room := MAX_DEPTH - old(depth);
              Done(r, Reads(old(lex.Unread()), j => TakeOfValue(lex.lib, l, key, j, room)), old(depth))
      decreases lex.Unread().Len(), 5
    {
      if key == "v" {
        var x :- ParseOmiValue();
        return Ok(l.(v := Some(x)));
      } else if key == "t" {
        var isNull :- TakeNull();
        if isNull {
          return Ok(l);
        }
        var x :- ExpectF64();
        return Ok(l.(t := Some(x)));
      } else {
        var _ :- SkipValue();
        return Ok(l);
      }
    }

    method TakeInfoMember(l: InfoLocals, key: string) returns (r: Result<InfoLocals, ParseFault>)
      requires Valid()
      modifies this, lex
      ensures var room := MAX_DEPTH - old(depth);
              Done(r, Reads(old(lex.Unread()), j => TakeOfInfo(lex.lib, l, key, j, room)), old(depth))
      decreases lex.Unread().Len(), 5
    {
      hide MetaOf, RingOf, StringOr, JsonGrammar.Read, Skip;
      if key == "type" {
        var x :- ExpectStringOr(l.typeUri);
        return Ok(l.(typeUri := x));
      } else if key == "desc" {
        var x :- ExpectStringOr(l.desc);
        return Ok(l.(desc := x));
      } else if key == "meta" {
        var isNull :- TakeNull();
        if isNull {
          return Ok(l);
        }
        var x :- ParseMetaMap();
        return Ok(l.(meta := Some(x)));
      } else if key == "values" {
        var x :- ParseRingBuffer();
        return Ok(l.(values := Some(x)));
      } else {
        var _ :- SkipValue();
        return Ok(l);
      }
    }

    method TakeObjectMember(l: ObjectLocals, key: string) returns (r: Result<ObjectLocals, ParseFault>)
      requires Valid()
      modifies this, lex
      ensures var room := MAX_DEPTH - old(depth);
              Done(r, Reads(old(lex.Unread()), j => TakeOfObject(lex.lib, l, key, j, room)), old(depth))
      decreases lex.Unread().Len(), 5
    {
      if key == "id" {
        var x :- ExpectString();
        return Ok(l.(id := Some(x)));
      } else if key == "type" {
        var x :- ExpectStringOr(l.typeUri);
        return Ok(l.(typeUri := x));
      } else if key == "desc" {
        var x :- ExpectStringOr(l.desc);
        return Ok(l.(desc := x));
      } else if key == "items" || key == "objects" {
        r := TakeChildren(l, key);
      } else {
        var _ :- SkipValue();
        return Ok(l);
      }
    }

    method TakeChildren(l: ObjectLocals, key: string) returns (r: Result<ObjectLocals, ParseFault>)
      requires Valid() && (key == "items" || key == "objects")
      modifies this, lex
      ensures var room := MAX_DEPTH - old(depth);
              Done(r, Reads(old(lex.Unread()), j => TakeOfObject(lex.lib, l, key, j, room)), old(depth))
      decreases lex.Unread().Len(), 4
    {
      hide ItemsOf, ObjectsOf, StringOr, JsonGrammar.Read, Skip;
      var isNull :- TakeNull();
      if isNull {
        return Ok(l);
      }
      if key == "items" {
        var x :- ParseItemsMap();
        return Ok(l.(items := Some(x)));
      }
      var x :- ParseObjectsMap();
      return Ok(l.(objects := Some(x)));
    }

    method TakeReadMember(l: Omi.ReadOp, key: string) returns (r: Result<Omi.ReadOp, ParseFault>)
      requires Valid()
      modifies this, lex
      ensures var room := MAX_DEPTH - old(depth);
              Done(r, Reads(old(lex.Unread()), j => TakeOfRead(lex.lib, l, key, j, room)), old(depth))
      decreases lex.Unread().Len(), 5
    {
      if key == "path" {
        var x :- ExpectString();
        return Ok(l.(path := Some(x)));
      } else if key == "rid" {
        var x :- ExpectString();
        return Ok(l.(rid := Some(x)));
      } else if key == "newest" {
        var x :- ExpectU64();
        return Ok(l.(newest := Some(x)));
      } else if key == "oldest" {
        var x :- ExpectU64();
        return Ok(l.(oldest := Some(x)));
      } else if key == "begin" {
        var x :- ExpectF64();
        return Ok(l.(begin := Some(x)));
      } else if key == "end" {
        var x :- ExpectF64();
        return Ok(l.(end := Some(x)));
      } else if key == "depth" {
        var x :- ExpectU64();
        return Ok(l.(depth := Some(x)));
      } else if key == "interval" {
        var x :- ExpectF64();
        return Ok(l.(interval := Some(x)));
      } else if key == "callback" {
        var x :- ExpectString();
        return Ok(l.(callback := Some(x)));
      } else {
        var _ :- SkipValue();
        return Ok(l);
      }
    }

    method TakeWriteMember(l: WriteLocals, key: string) returns (r: Result<WriteLocals, ParseFault>)
      requires Valid()
      modifies this, lex
      ensures var room := MAX_DEPTH - old(depth);
              Done(r, Reads(old(lex.Unread()), j => TakeOfWrite(lex.lib, l, key, j, room)), old(depth))
      decreases lex.Unread().Len(), 5
    {
      if key == "path" {
        var x :- ExpectString();
        return Ok(l.(path := Some(x)));
      } else if key == "v" {
        var x :- ParseOmiValue();
        return Ok(l.(v := Some(x)));
      } else if key == "t" {
        var x :- ExpectF64();
        return Ok(l.(t := Some(x)));
      } else if key == "items" {
        var x :- ParseWriteItems();
        return Ok(l.(items := Some(x)));
      } else if key == "objects" {
        var x :- ParseObjectsMap();
        return Ok(l.(objects := Some(x)));
      } else {
        var _ :- SkipValue();
        return Ok(l);
      }
    }

    method TakeWriteItemMember(l: WriteItemLocals, key: string) returns (r: Result<WriteItemLocals, ParseFault>)
      requires Valid()
      modifies this, lex
      ensures var room := MAX_DEPTH - old(depth);
              Done(r, Reads(old(lex.Unread()), j => TakeOfWriteItem(lex.lib, l, key, j, room)), old(depth))
      decreases lex.Unread().Len(), 5
    {
      if key == "path" {
        var x :- ExpectString();
        return Ok(l.(path := Some(x)));
      } else if key == "v" {
        var x :- ParseOmiValue();
        return Ok(l.(v := Some(x)));
      } else if key == "t" {
        var x :- ExpectF64();
        return Ok(l.(t := Some(x)));
      } else {
        var _ :- SkipValue();
        return Ok(l);
      }
    }

    method TakeDeleteMember(l: Option<string>, key: string) returns (r: Result<Option<string>, ParseFault>)
      requires Valid()
      modifies this, lex
      ensures var room := MAX_DEPTH - old(depth);
              Done(r, Reads(old(lex.Unread()), j => TakeOfDelete(l, key, j, room)), old(depth))
      decreases lex.Unread().Len(), 5
    {
      if key == "path" {
        var x :- ExpectString();
        return Ok(Some(x));
      } else {
        var _ :- SkipValue();
        return Ok(l);
      }
    }

    method TakeCancelMember(l: Option<seq<string>>, key: string) returns (r: Result<Option<seq<string>>, ParseFault>)
      requires Valid()
      modifies this, lex
      ensures var room := MAX_DEPTH - old(depth);
              Done(r, Reads(old(lex.Unread()), j => TakeOfCancel(lex.lib, l, key, j, room)), old(depth))
      decreases lex.Unread().Len(), 5
    {
      if key == "rid" {
        var x :- ParseStringArray();
        return Ok(Some(x));
      } else {
        var _ :- SkipValue();
        return Ok(l);
      }
    }

    method TakeResponseMember(l: ResponseLocals, key: string) returns (r: Result<ResponseLocals, ParseFault>)
      requires Valid()
      modifies this, lex
      ensures var room := MAX_DEPTH - old(depth);
              Done(r, Reads(old(lex.Unread()), j => TakeOfResponse(lex.lib, l, key, j, room)), old(depth))
      decreases lex.Unread().Len(), 5
    {
      if key == "status" {
        var x :- ExpectU16();
        return Ok(l.(status := Some(x)));
      } else if key == "rid" {
        var x :- ExpectString();
        return Ok(l.(rid := Some(x)));
      } else if key == "desc" {
        var x :- ExpectString();
        return Ok(l.(desc := Some(x)));
      } else if key == "result" {
        var x :- ParseResponseResult();
        return Ok(l.(result := Some(x)));
      } else {
        var _ :- SkipValue();
        return Ok(l);
      }
    }

    method TakeStatusMember(l: StatusLocals, key: string) returns (r: Result<StatusLocals, ParseFault>)
      requires Valid()
      modifies this, lex
      ensures var room := MAX_DEPTH - old(depth);
              Done(r, Reads(old(lex.Unread()), j => TakeOfStatus(lex.lib, l, key, j, room)), old(depth))
      decreases lex.Unread().Len(), 5
    {
      if key == "path" {
        var x :- ExpectString();
        return Ok(l.(path := Some(x)));
      } else if key == "status" {
        var x :- ExpectU16();
        return Ok(l.(status := Some(x)));
      } else if key == "desc" {
        var x :- ExpectString();
        return Ok(l.(desc := Some(x)));
      } else {
        var _ :- SkipValue();
        return Ok(l);
      }
    }

    method TakeEnvelopeMember(l: EnvelopeLocals, key: string) returns (r: Result<EnvelopeLocals, ParseFault>)
      requires Valid()
      modifies this, lex
      ensures var room := MAX_DEPTH - old(depth);
              Done(r, Reads(old(lex.Unread()), j => TakeOfEnvelope(lex.lib, l, key, j, room)), old(depth))
      decreases lex.Unread().Len(), 5
    {
      if key == "omi" {
        var x :- ExpectString();
        return Ok(l.(version := Some(x)));
      } else if key == "ttl" {
        var x :- ExpectI64();
        return Ok(l.(ttl := Some(x)));
      } else if key in OPERATIONS {
        var x :- ParseOperation(key);
        return Ok(l.(operation := Some(x), seen := l.seen + {key}));
      } else {
        var _ :- SkipValue();
        return Ok(l);
      }
    }

    method TakeMember(f: Fields, key: string) returns (r: Result<Fields, ParseFault>)
      requires Valid()
      modifies this, lex
      ensures Done(r, Reads(old(lex.Unread()), Taking(lex.lib, f, key, MAX_DEPTH - old(depth))), old(depth))
      decreases lex.Unread().Len(), 7
    {
      hide TakeOfValue, TakeOfInfo, TakeOfObject, OmiOf, InfoOf, ObjectOf, JsonGrammar.Read;
      match f
      case ValueFields(l) =>
        var x :- TakeValueMember(l, key);
        return Ok(ValueFields(x));
      case InfoFields(l) =>
        var x :- TakeInfoMember(l, key);
        return Ok(InfoFields(x));
      case ObjectFields(l) =>
        var x :- TakeObjectMember(l, key);
        return Ok(ObjectFields(x));
      case MetaFields(m) =>
        var x :- ParseOmiValue();
        return Ok(MetaFields(m[key := x]));
      case ItemsFields(m) =>
        var x :- ParseInfoItem();
        return Ok(ItemsFields(m[key := x]));
      case ObjectsFields(m) =>
        var x :- ParseObject();
        return Ok(ObjectsFields(m[key := x]));
      case _ => r := TakeOmiMember(f, key);
    }

    method TakeOmiMember(f: Fields, key: string) returns (r: Result<Fields, ParseFault>)
      requires Valid()
      requires !f.ValueFields? && !f.InfoFields? && !f.ObjectFields?
      requires !f.MetaFields? && !f.ItemsFields? && !f.ObjectsFields?
      modifies this, lex
      ensures Done(r, Reads(old(lex.Unread()), Taking(lex.lib, f, key, MAX_DEPTH - old(depth))), old(depth))
      decreases lex.Unread().Len(), 6
    {
      hide TakeOfRead, TakeOfWrite, TakeOfWriteItem, TakeOfDelete, TakeOfCancel, TakeOfResponse,
        TakeOfStatus, TakeOfEnvelope, JsonGrammar.Read;
      match f
      case ReadFields(l) =>
        var x :- TakeReadMember(l, key);
        return Ok(ReadFields(x));
      case WriteFields(l) =>
        var x :- TakeWriteMember(l, key);
        return Ok(WriteFields(x));
      case WriteItemFields(l) =>
        var x :- TakeWriteItemMember(l, key);
        return Ok(WriteItemFields(x));
      case DeleteFields(l) =>
        var x :- TakeDeleteMember(l, key);
        return Ok(DeleteFields(x));
      case CancelFields(l) =>
        var x :- TakeCancelMember(l, key);
        return Ok(CancelFields(x));
      case ResponseFields(l) =>
        var x :- TakeResponseMember(l, key);
        return Ok(ResponseFields(x));
      case StatusFields(l) =>
        var x :- TakeStatusMember(l, key);
        return Ok(StatusFields(x));
      case EnvelopeFields(l) =>
        var x :- TakeEnvelopeMember(l, key);
        return Ok(EnvelopeFields(x));
    }

    method TakeElement(f: Items) returns (r: Result<Items, ParseFault>)
      requires Valid()
      modifies this, lex
      ensures Done(r, Reads(old(lex.Unread()), TakingElem(lex.lib, f, MAX_DEPTH - old(depth))), old(depth))
      ensures r.Ok? ==> lex.Unread().Len() < old(lex.Unread().Len())
      decreases lex.Unread().Len(), 3
    {
      match f
      case ValueItems(xs) =>
        var x :- ParseValue();
        return Ok(ValueItems(xs + [x]));
      case WriteItems(xs) =>
        var x :- ParseWriteItem();
        return Ok(WriteItems(xs + [x]));
      case StatusItems(xs) =>
        var x :- ParseItemStatus();
        return Ok(StatusItems(xs + [x]));
      case RidItems(xs) =>
        var x :- ExpectString();
        return Ok(RidItems(xs + [x]));
    }
  }

  /** An object read one level deeper. */
  ghost function NestedFields(lib: FloatLib, f: Fields, room: nat): Json -> Option<Fields> {
    j => if room == 0 then None else FieldsOf(lib, f, j, room - 1)
  }

  lemma {:induction false} ReverseLast<T>(s: seq<T>)
    requires s != []
    ensures Reverse(s) == [s[|s| - 1]] + Reverse(s[..|s| - 1])
  {
    if |s| > 1 {
      ReverseLast(s[1..]);
      assert s[1..][..|s| - 2] == s[..|s| - 1][1..];
    }
  }

  lemma MemberAtAdvances(lib: FloatLib, s: Stream, f: Fields, room: nat)
    ensures var m := MemberAt(lib, s, f, room);
            m.Some? ==> AtKey(s) && m.value.1.Len() < s.Len()
  {
    if AtKey(s) {
      assert s.Len() == 2 + s.rest.rest.Len();
    }
  }

  /** One round of the loop over members: a key, a value, then the end or a comma. */
  lemma ObjectRead(lib: FloatLib, s: Stream, f: Fields, room: nat)
    ensures var read := JsonGrammar.Read(s);
            var body := if s.More? && s.tok == ObjectStart then BodyAt(lib, s.rest, f, room) else None;
            if read.None? then body == None
            else
              var got := FieldsOf(lib, f, read.value.0, room);
              body == if got.None? then None else Some((got.value, read.value.1))
  {
  }

  lemma ArrayRead(lib: FloatLib, s: Stream, f: Items, room: nat)
    ensures var read := JsonGrammar.Read(s);
            var items := if s.More? && s.tok == ArrayStart then ItemsAt(lib, s.rest, f, room) else None;
            if read.None? then items == None
            else
              var got := ItemsIn(lib, f, read.value.0, room);
              items == if got.None? then None else Some((got.value, read.value.1))
  {
  }

  lemma MembersStep(lib: FloatLib, s: Stream, f: Fields, room: nat)
    ensures MembersAt(lib, s, f, room) ==
            match MemberAt(lib, s, f, room)
            case None => None
            case Some((g, r)) =>
              if r.More? && r.tok == ObjectEnd then Some((g, r.rest))
              else if r.More? && r.tok == Comma then MembersAt(lib, r.rest, g, room)
              else None
  {
    if AtKey(s) && JsonGrammar.Read(s.rest.rest).Some? {
      var (j, r) := JsonGrammar.Read(s.rest.rest).value;
      if r.More? && r.tok == ObjectEnd {
        assert ReadMembers(s) == Some((Member(s.tok.s, j, NoMembers), r.rest));
        assert forall g :: TakeAll(lib, g, NoMembers, room) == Some(g);
      } else if r.More? && r.tok == Comma && ReadMembers(r.rest).Some? {
        assert ReadMembers(s) == Some((Member(s.tok.s, j, ReadMembers(r.rest).value.0), ReadMembers(r.rest).value.1));
      }
    }
  }

  lemma BodyStep(lib: FloatLib, s: Stream, f: Fields, room: nat)
    ensures BodyAt(lib, s, f, room) ==
            if s.More? && s.tok == ObjectEnd then Some((f, s.rest)) else MembersAt(lib, s, f, room)
    ensures !s.More? ==> BodyAt(lib, s, f, room).None?
  {
    assert TakeAll(lib, f, NoMembers, room) == Some(f);
  }

  lemma ItemsStep(lib: FloatLib, s: Stream, f: Items, room: nat)
    ensures ItemsAt(lib, s, f, room) ==
            if s.More? && s.tok == ArrayEnd then Some((f, s.rest)) else ElemsAt(lib, s, f, room)
    ensures !s.More? ==> ItemsAt(lib, s, f, room).None?
  {
    assert TakeElems(lib, f, NoElems, room) == Some(f);
  }

  lemma ElemsStep(lib: FloatLib, s: Stream, f: Items, room: nat)
    ensures ElemsAt(lib, s, f, room) ==
            match Reads(s, TakingElem(lib, f, room))
            case None => None
            case Some((g, r)) =>
              if r.More? && r.tok == ArrayEnd then Some((g, r.rest))
              else if r.More? && r.tok == Comma then ElemsAt(lib, r.rest, g, room)
              else None
  {
    if JsonGrammar.Read(s).Some? {
      var (j, r) := JsonGrammar.Read(s).value;
      if r.More? && r.tok == ArrayEnd {
        assert ReadElems(s) == Some((Elem(j, NoElems), r.rest));
        assert forall g :: TakeElems(lib, g, NoElems, room) == Some(g);
      } else if r.More? && r.tok == Comma && ReadElems(r.rest).Some? {
        assert ReadElems(s) == Some((Elem(j, ReadElems(r.rest).value.0), ReadElems(r.rest).value.1));
      }
    }
  }

  ghost function SkipItemsAt(s: Stream, room: nat): Option<((), Stream)> {
    match ReadItems(s)
    case None => None
    case Some((es, rest)) => if ElemsHeight(es) <= room then Some(((), rest)) else None
  }

  ghost function SkipElemsAt(s: Stream, room: nat): Option<((), Stream)> {
    match ReadElems(s)
    case None => None
    case Some((es, rest)) => if ElemsHeight(es) <= room then Some(((), rest)) else None
  }

  ghost function SkipBodyAt(s: Stream, room: nat): Option<((), Stream)> {
    match ReadBody(s)
    case None => None
    case Some((ms, rest)) => if MembersHeight(ms) <= room then Some(((), rest)) else None
  }

  ghost function SkipMembersAt(s: Stream, room: nat): Option<((), Stream)> {
    match ReadMembers(s)
    case None => None
    case Some((ms, rest)) => if MembersHeight(ms) <= room then Some(((), rest)) else None
  }

  /** One round of the loop over elements: a value, then the end or a comma. */
  lemma SkipElemsStep(s: Stream, room: nat)
    ensures SkipElemsAt(s, room) ==
            match Reads(s, j => Skip(j, room))
            case None => None
            case Some((_, r)) =>
              if r.More? && r.tok == ArrayEnd then Some(((), r.rest))
              else if r.More? && r.tok == Comma then SkipElemsAt(r.rest, room)
              else None
  {
    if JsonGrammar.Read(s).Some? {
      var (j, r) := JsonGrammar.Read(s).value;
      if r.More? && r.tok == ArrayEnd {
        assert ReadElems(s) == Some((Elem(j, NoElems), r.rest));
        assert ElemsHeight(Elem(j, NoElems)) == Max(Height(j), 0);
      } else if r.More? && r.tok == Comma && ReadElems(r.rest).Some? {
        var (es, r') := ReadElems(r.rest).value;
        assert ReadElems(s) == Some((Elem(j, es), r'));
        assert ElemsHeight(Elem(j, es)) == Max(Height(j), ElemsHeight(es));
      }
    }
  }

  lemma SkipMembersStep(s: Stream, room: nat)
    ensures SkipMembersAt(s, room) ==
            if !AtKey(s) then None
            else
              match Reads(s.rest.rest, j => Skip(j, room))
              case None => None
              case Some((_, r)) =>
                if r.More? && r.tok == ObjectEnd then Some(((), r.rest))
                else if r.More? && r.tok == Comma then SkipMembersAt(r.rest, room)
                else None
  {
    if AtKey(s) && JsonGrammar.Read(s.rest.rest).Some? {
      var (j, r) := JsonGrammar.Read(s.rest.rest).value;
      if r.More? && r.tok == ObjectEnd {
        assert ReadMembers(s) == Some((Member(s.tok.s, j, NoMembers), r.rest));
        assert MembersHeight(Member(s.tok.s, j, NoMembers)) == Max(Height(j), 0);
      } else if r.More? && r.tok == Comma && ReadMembers(r.rest).Some? {
        var (ms, r') := ReadMembers(r.rest).value;
        assert ReadMembers(s) == Some((Member(s.tok.s, j, ms), r'));
        assert MembersHeight(Member(s.tok.s, j, ms)) == Max(Height(j), MembersHeight(ms));
      }
    }
  }
}
