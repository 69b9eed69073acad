/** Round trips of whole texts: the writer's bytes through the lexer and the parser. */
module RoundTripText {
  import opened Wrappers
  import opened Floats
  import opened JsonLexis
  import opened JsonGrammar
  import opened JsonMeaning
  import opened JsonPrint
  import opened JsonWriter
  import opened JsonDocs
  import opened RoundTripOdf
  import opened RoundTrip
  import opened Odf
  import JsonParser
  import ToJson
  import JsonSpelling
  import Omi

  // ----- everything the serialiser writes is made of grammatical numbers -----

  lemma {:induction false} PrintableAdd(ms: DocMembers, key: string, d: Doc)
    ensures PrintableMembers(Add(ms, key, d)) <==> PrintableMembers(ms) && Printable(d)
  {
    if ms.DocMember? {
      PrintableAdd(ms.tail, key, d);
    }
  }

  lemma {:induction false} PrintableAddElem(es: Docs, d: Doc)
    ensures PrintableElems(AddElem(es, d)) <==> PrintableElems(es) && Printable(d)
  {
    if es.DocElem? {
      PrintableAddElem(es.tail, d);
    }
  }

  lemma PrintableFloat(lib: FloatLib, x: F64)
    requires Lawful(lib)
    ensures Printable(FloatDoc(lib, x))
  {
    if IsFinite(x) {
      FloatTextIsFloat(lib, x);
    }
  }

  lemma PrintableInt(i: int)
    ensures Printable(IntDoc(i))
  {
    IntegerTextValue(i);
  }

  lemma PrintableOmi(lib: FloatLib, v: OmiValue)
    requires Lawful(lib)
    ensures Printable(OmiDoc(lib, v))
  {
    if v.OmiNumber? {
      PrintableFloat(lib, v.n);
    }
  }

  lemma PrintableOpts(lib: FloatLib, ms: DocMembers, key: string, s: Option<string>, x: Option<F64>, n: Option<U64>)
    requires Lawful(lib) && PrintableMembers(ms)
    ensures PrintableMembers(AddStr(ms, key, s))
    ensures PrintableMembers(AddF64(lib, ms, key, x))
    ensures PrintableMembers(AddU64(ms, key, n))
  {
    if s.Some? {
      PrintableAdd(ms, key, DStr(s.value));
    }
    if x.Some? {
      PrintableFloat(lib, x.value);
      PrintableAdd(ms, key, FloatDoc(lib, x.value));
    }
    if n.Some? {
      PrintableInt(n.value);
      PrintableAdd(ms, key, IntDoc(n.value));
    }
  }

  lemma PrintableValue(lib: FloatLib, v: Value)
    requires Lawful(lib)
    ensures Printable(ValueDoc(lib, v))
  {
    PrintableOmi(lib, v.v);
    PrintableAdd(NoDocMembers, "v", OmiDoc(lib, v.v));
    PrintableOpts(lib, Add(NoDocMembers, "v", OmiDoc(lib, v.v)), "t", None, v.t, None);
  }

  lemma {:induction false} PrintableValues(lib: FloatLib, vs: seq<Value>)
    requires Lawful(lib)
    ensures PrintableElems(ValueDocs(lib, vs))
  {
    if vs != [] {
      PrintableValues(lib, vs[..|vs| - 1]);
      PrintableValue(lib, vs[|vs| - 1]);
      PrintableAddElem(ValueDocs(lib, vs[..|vs| - 1]), ValueDoc(lib, vs[|vs| - 1]));
    }
  }

  lemma {:induction false} PrintableMeta(lib: FloatLib, m: map<string, OmiValue>, keys: seq<string>)
    requires Lawful(lib) && forall k | k in keys :: k in m
    ensures PrintableMembers(MetaMembers(lib, m, keys))
  {
    if keys != [] {
      var before, last := keys[..|keys| - 1], keys[|keys| - 1];
      PrintableMeta(lib, m, before);
      PrintableOmi(lib, m[last]);
      PrintableAdd(MetaMembers(lib, m, before), last, OmiDoc(lib, m[last]));
    }
  }

  lemma PrintableInfo(lib: FloatLib, i: InfoItem)
    requires Lawful(lib)
    ensures Printable(InfoDoc(lib, i))
  {
    hide Add, MetaMembers, ValueDocs;
    PrintableOpts(lib, NoDocMembers, "type", i.typeUri, None, None);
    var t := AddStr(NoDocMembers, "type", i.typeUri);
    PrintableOpts(lib, t, "desc", i.desc, None, None);
    var ms := AddStr(t, "desc", i.desc);
    if i.meta.Some? {
      PrintableMeta(lib, i.meta.value, Keys(i.meta.value));
      PrintableAdd(ms, "meta", MetaDoc(lib, i.meta.value));
      ms := Add(ms, "meta", MetaDoc(lib, i.meta.value));
    }
    if i.values.vals != [] {
      PrintableValues(lib, Reverse(i.values.vals));
      PrintableAdd(ms, "values", RingDoc(lib, i.values));
    }
  }

  lemma {:induction false} PrintableItems(lib: FloatLib, m: map<string, InfoItem>, keys: seq<string>)
    requires Lawful(lib) && forall k | k in keys :: k in m
    ensures PrintableMembers(ItemsMembers(lib, m, keys))
  {
    if keys != [] {
      var before, last := keys[..|keys| - 1], keys[|keys| - 1];
      PrintableItems(lib, m, before);
      PrintableInfo(lib, m[last]);
      PrintableAdd(ItemsMembers(lib, m, before), last, InfoDoc(lib, m[last]));
    }
  }

  lemma {:induction false} PrintableObject(lib: FloatLib, o: Object, depth: nat)
    requires Lawful(lib) && Shallow(o, depth)
    ensures Printable(ObjectDoc(lib, o, depth))
    decreases depth, 1
  {
    hide Add, ItemsMembers, ObjectsMembers;
    var i := Add(NoDocMembers, "id", DStr(o.id));
    PrintableAdd(NoDocMembers, "id", DStr(o.id));
    PrintableOpts(lib, i, "type", o.typeUri, None, None);
    PrintableOpts(lib, AddStr(i, "type", o.typeUri), "desc", o.desc, None, None);
    var ms := HeadMembers(o);
    if o.items.Some? {
      PrintableItems(lib, o.items.value, Keys(o.items.value));
      PrintableAdd(ms, "items", ItemsDoc(lib, o.items.value));
      ms := Add(ms, "items", ItemsDoc(lib, o.items.value));
    }
    if o.objects.Some? {
      PrintableObjects(lib, o.objects.value, Keys(o.objects.value), depth);
      PrintableAdd(ms, "objects", ObjectsDoc(lib, o.objects.value, depth));
    }
  }

  lemma {:induction false} PrintableObjects(lib: FloatLib, m: Objects, keys: seq<string>, depth: nat)
    requires Lawful(lib) && depth > 0 && forall k | k in m :: Shallow(m[k], depth - 1)
    requires forall k | k in keys :: k in m
    ensures PrintableMembers(ObjectsMembers(lib, m, keys, depth))
    decreases depth, 0, |keys|
  {
    if keys != [] {
      var before, last := keys[..|keys| - 1], keys[|keys| - 1];
      PrintableObjects(lib, m, before, depth);
      PrintableObject(lib, m[last], depth - 1);
      PrintableAdd(ObjectsMembers(lib, m, before, depth), last, ObjectDoc(lib, m[last], depth - 1));
    }
  }

  lemma PrintableRead(lib: FloatLib, op: Omi.ReadOp)
    requires Lawful(lib)
    ensures PrintableMembers(ReadOpMembers(lib, op))
  {
    hide AddStr, AddU64, AddF64, Printable;
    var ms := NoDocMembers;
    PrintableOpts(lib, ms, "path", op.path, None, None);
    ms := AddStr(ms, "path", op.path);
    PrintableOpts(lib, ms, "rid", op.rid, None, None);
    ms := AddStr(ms, "rid", op.rid);
    PrintableOpts(lib, ms, "newest", None, None, op.newest);
    ms := AddU64(ms, "newest", op.newest);
    PrintableOpts(lib, ms, "oldest", None, None, op.oldest);
    ms := AddU64(ms, "oldest", op.oldest);
    PrintableOpts(lib, ms, "begin", None, op.begin, None);
    ms := AddF64(lib, ms, "begin", op.begin);
    PrintableOpts(lib, ms, "end", None, op.end, None);
    ms := AddF64(lib, ms, "end", op.end);
    PrintableOpts(lib, ms, "depth", None, None, op.depth);
    ms := AddU64(ms, "depth", op.depth);
    PrintableOpts(lib, ms, "interval", None, op.interval, None);
    ms := AddF64(lib, ms, "interval", op.interval);
    PrintableOpts(lib, ms, "callback", op.callback, None, None);
  }

  lemma PrintableWriteItem(lib: FloatLib, w: Omi.WriteItem)
    requires Lawful(lib)
    ensures PrintableMembers(WriteItemMembers(lib, w))
  {
    var p := Add(NoDocMembers, "path", DStr(w.path));
    PrintableAdd(NoDocMembers, "path", DStr(w.path));
    PrintableOmi(lib, w.v);
    PrintableAdd(p, "v", OmiDoc(lib, w.v));
    PrintableOpts(lib, Add(p, "v", OmiDoc(lib, w.v)), "t", None, w.t, None);
  }

  lemma {:induction false} PrintableWriteItems(lib: FloatLib, ws: seq<Omi.WriteItem>)
    requires Lawful(lib)
    ensures PrintableElems(WriteItemDocs(lib, ws))
  {
    if ws != [] {
      PrintableWriteItems(lib, ws[..|ws| - 1]);
      PrintableWriteItem(lib, ws[|ws| - 1]);
      PrintableAddElem(WriteItemDocs(lib, ws[..|ws| - 1]), DObj(WriteItemMembers(lib, ws[|ws| - 1])));
    }
  }

  lemma PrintableWrite(lib: FloatLib, op: Omi.WriteOp)
    requires Lawful(lib)
    ensures PrintableMembers(WriteMembers(lib, op))
  {
    hide Add, ObjectsMembers;
    match op
    case Single(path, v, t) => PrintableWriteItem(lib, Omi.WriteItem(path, v, t));
    case Batch(items) =>
      PrintableWriteItems(lib, items);
      PrintableAdd(NoDocMembers, "items", DArr(WriteItemDocs(lib, items)));
    case Tree(path, objects) =>
      var t := TruncateMap(objects, UNLIMITED);
      PrintableObjects(lib, t, Keys(t), UNLIMITED + 1);
      PrintableAdd(NoDocMembers, "path", DStr(path));
      PrintableAdd(Add(NoDocMembers, "path", DStr(path)), "objects", ObjectsDoc(lib, t, UNLIMITED + 1));
  }

  lemma {:induction false} PrintableRids(rids: seq<string>)
    ensures PrintableElems(RidDocs(rids))
  {
    if rids != [] {
      PrintableRids(rids[..|rids| - 1]);
      PrintableAddElem(RidDocs(rids[..|rids| - 1]), DStr(rids[|rids| - 1]));
    }
  }

  lemma PrintableStatus(lib: FloatLib, s: Omi.ItemStatus)
    requires Lawful(lib)
    ensures PrintableMembers(StatusMembers(s))
  {
    var p := Add(NoDocMembers, "path", DStr(s.path));
    PrintableAdd(NoDocMembers, "path", DStr(s.path));
    PrintableInt(s.status);
    PrintableAdd(p, "status", IntDoc(s.status));
    PrintableOpts(lib, Add(p, "status", IntDoc(s.status)), "desc", s.desc, None, None);
  }

  lemma {:induction false} PrintableStatuses(lib: FloatLib, ss: seq<Omi.ItemStatus>)
    requires Lawful(lib)
    ensures PrintableElems(StatusDocs(ss))
  {
    if ss != [] {
      PrintableStatuses(lib, ss[..|ss| - 1]);
      PrintableStatus(lib, ss[|ss| - 1]);
      PrintableAddElem(StatusDocs(ss[..|ss| - 1]), DObj(StatusMembers(ss[|ss| - 1])));
    }
  }

  lemma PrintableResult(lib: FloatLib, r: Omi.ResponseResult)
    requires Lawful(lib)
    ensures Printable(ResultDoc(lib, r))
  {
    hide Add, MetaMembers, ValueDocs, StatusDocs;
    match r
    case StatusBatch(items) => PrintableStatuses(lib, items);
    case SingleResult(NullPayload) =>
    case SingleResult(ReadValues(path, values, meta)) =>
      var ms := Add(NoDocMembers, "path", DStr(path));
      PrintableAdd(NoDocMembers, "path", DStr(path));
      if meta.Some? && meta.value != map[] {
        PrintableMeta(lib, meta.value, Keys(meta.value));
        PrintableAdd(ms, "meta", MetaDoc(lib, meta.value));
        ms := Add(ms, "meta", MetaDoc(lib, meta.value));
      }
      PrintableValues(lib, values);
      PrintableAdd(ms, "values", DArr(ValueDocs(lib, values)));
  }

  lemma PrintableResponse(lib: FloatLib, b: Omi.ResponseBody)
    requires Lawful(lib)
    ensures PrintableMembers(ResponseMembers(lib, b))
  {
    hide Add, ResultDoc, Printable;
    var s := Add(NoDocMembers, "status", IntDoc(b.status));
    PrintableInt(b.status);
    PrintableAdd(NoDocMembers, "status", IntDoc(b.status));
    PrintableOpts(lib, s, "rid", b.rid, None, None);
    var r := AddStr(s, "rid", b.rid);
    PrintableOpts(lib, r, "desc", b.desc, None, None);
    if b.result.Some? {
      PrintableResult(lib, b.result.value);
      PrintableAdd(AddStr(r, "desc", b.desc), "result", ResultDoc(lib, b.result.value));
    }
  }

  lemma PrintableOperation(lib: FloatLib, op: Omi.Operation)
    requires Lawful(lib)
    ensures PrintableMembers(OperationMembers(lib, op))
  {
    match op
    case Read(r) => PrintableRead(lib, r);
    case Write(w) => PrintableWrite(lib, w);
    case Delete(path) => PrintableAdd(NoDocMembers, "path", DStr(path));
    case Cancel(rids) =>
      PrintableRids(rids);
      PrintableAdd(NoDocMembers, "rid", DArr(RidDocs(rids)));
    case Response(b) => PrintableResponse(lib, b);
  }

  lemma PrintableMessage(lib: FloatLib, m: Omi.OmiMessage)
    requires Lawful(lib)
    ensures Printable(MessageDoc(lib, m))
  {
    hide Add, OperationMembers, OperationKey;
    var o := Add(NoDocMembers, "omi", DStr(m.version));
    var t := Add(o, "ttl", IntDoc(m.ttl));
    PrintableAdd(NoDocMembers, "omi", DStr(m.version));
    PrintableInt(m.ttl);
    PrintableAdd(o, "ttl", IntDoc(m.ttl));
    PrintableOperation(lib, m.operation);
    PrintableAdd(t, OperationKey(m.operation), DObj(OperationMembers(lib, m.operation)));
  }

  // ----- the theorems -----

  /** The text of a serialised message is read to its end as exactly the message's tree. */
  lemma MessageTextRead(lib: FloatLib, m: Omi.OmiMessage)
    requires Lawful(lib)
    ensures JsonGrammar.Read(Tokens(lib, Print(MessageDoc(lib, m)))) == Some((Meant(lib, MessageDoc(lib, m)), End))
  {
    var d := MessageDoc(lib, m);
    PrintableMessage(lib, m);
    PrintRead(lib, d, []);
    assert Print(d) + [] == Print(d) && Tokens(lib, []) == End;
    ReadSpell(Meant(lib, d), End);
  }

  /** Serialise a message and parse the bytes. The same message returns exactly when it
      satisfies ReturnsMessage. */
  method Reparse(lib: FloatLib, m: Omi.OmiMessage) returns (r: Result<Omi.OmiMessage, ParseFault>)
    requires Lawful(lib)
    ensures r == Ok(RefitMessage(m)) <==> ReturnsMessage(m)
  {
    hide MessageDoc, ReturnsMessage, RefitMessage, MessageOf, Meant, Print;
    var bytes := ToJson.MessageBytes(lib, m);
    MessageTextRead(lib, m);
    MessageReturns(lib, m);
    var p := new JsonParser.JsonParser(lib, bytes);
    r := p.ParseMessage();
  }

  /** An object with all its text, at any position of the parser's depth. */
  lemma ObjectTextReturns(lib: FloatLib, o: Object, depth: nat, room: nat, tail: seq<byte>)
    requires Lawful(lib) && Shallow(o, depth) && JsonSpelling.EndsNumber(tail)
    ensures JsonParser.Reads(Tokens(lib, Print(ObjectDoc(lib, o, depth)) + tail), j => ObjectOf(lib, j, room))
         == Some((RefitObject(o, depth), Tokens(lib, tail)))
       <==> ReturnsObject(o, room)
  {
    hide Meant, Print, ObjectOf, RefitObject, ReturnsObject, ObjectDoc;
    PrintableObject(lib, o, depth);
    PrintRead(lib, ObjectDoc(lib, o, depth), tail);
    ReadSpell(Meant(lib, ObjectDoc(lib, o, depth)), Tokens(lib, tail));
    ObjectReturns(lib, o, depth, room);
  }

  // ----- the assumption on the float routines can be met -----

  /** A FloatLib that spells a pattern as its decimal integer with ".0" is lawful. */
  function PatternLib(): FloatLib {
    FloatLib(
      x => DecimalDigits(x as int) + [POINT, ZERO_DIGIT],
      t => if |t| >= 2 && 0 <= Natural(t[..|t| - 2]) < TWO_64 then Natural(t[..|t| - 2]) as F64 else ZERO,
      i => ZERO,
      x => 0)
  }

  lemma PatternLibLawful()
    ensures Lawful(PatternLib())
  {
    hide PatternLib;
    forall x: F64
      ensures IsNumber(PatternLib().format(x)) && PatternLib().parse(FloatText(PatternLib(), x)) == x
    {
      PatternReturns(x);
    }
  }

  lemma PatternReturns(x: F64)
    ensures IsNumber(PatternLib().format(x)) && PatternLib().parse(FloatText(PatternLib(), x)) == x
  {
    var lib := PatternLib();
    var d := DecimalDigits(x as int);
    DecimalDigitsValue(x as int);
    var n := JsonSpelling.Numeral(false, d, Some([ZERO_DIGIT]), None);
    assert d[0] in d && (x as int >= 10 || |d| == 1);
    assert JsonSpelling.NumeralText(n) == lib.format(x);
    assert POINT in lib.format(x);
    assert lib.format(x)[..|d|] == d;
  }
}
