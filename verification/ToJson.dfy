/** Serialisation of O-DF data and messages through the writer. Each method is proved
    to write exactly one value: the text of the tree JsonDocs gives for it. */
module ToJson {
  import opened Wrappers
  import opened Floats
  import opened Odf
  import opened JsonPrint
  import opened JsonWriter
  import opened JsonDocs
  import JsonMeaning
  import Omi

  // ----- fields of an open object that already holds `ms` -----

  method FieldStr(w: JsonWriter, key: string, s: string, ghost p: Pen, ghost ms: DocMembers)
    requires w.State() == InObject(p, ms)
    modifies w
    ensures w.State() == InObject(p, Add(ms, key, DStr(s)))
  {
    w.Key(key);
    w.StringVal(s);
    MemberAdded(p, ms, key, DStr(s));
  }

  method FieldU64(w: JsonWriter, key: string, n: U64, ghost p: Pen, ghost ms: DocMembers)
    requires w.State() == InObject(p, ms)
    modifies w
    ensures w.State() == InObject(p, Add(ms, key, IntDoc(n)))
  {
    w.Key(key);
    w.U64Val(n);
    MemberAdded(p, ms, key, IntDoc(n));
  }

  method FieldI64(w: JsonWriter, key: string, n: I64, ghost p: Pen, ghost ms: DocMembers)
    requires w.State() == InObject(p, ms)
    modifies w
    ensures w.State() == InObject(p, Add(ms, key, IntDoc(n)))
  {
    w.Key(key);
    w.I64Val(n);
    MemberAdded(p, ms, key, IntDoc(n));
  }

  method FieldOmi(w: JsonWriter, key: string, v: OmiValue, ghost p: Pen, ghost ms: DocMembers)
    requires w.State() == InObject(p, ms)
    modifies w
    ensures w.State() == InObject(p, Add(ms, key, OmiDoc(w.lib, v)))
  {
    w.Key(key);
    WriteOmiValue(w, v);
    MemberAdded(p, ms, key, OmiDoc(w.lib, v));
  }

  method FieldStrOpt(w: JsonWriter, key: string, s: Option<string>, ghost p: Pen, ghost ms: DocMembers)
    requires w.State() == InObject(p, ms)
    modifies w
    ensures w.State() == InObject(p, AddStr(ms, key, s))
  {
    if s.Some? {
      FieldStr(w, key, s.value, p, ms);
    }
  }

  method FieldF64Opt(w: JsonWriter, key: string, x: Option<F64>, ghost p: Pen, ghost ms: DocMembers)
    requires w.State() == InObject(p, ms)
    modifies w
    ensures w.State() == InObject(p, AddF64(w.lib, ms, key, x))
  {
    if x.Some? {
      w.Key(key);
      w.F64Val(x.value);
      MemberAdded(p, ms, key, FloatDoc(w.lib, x.value));
    }
  }

  method FieldU64Opt(w: JsonWriter, key: string, n: Option<U64>, ghost p: Pen, ghost ms: DocMembers)
    requires w.State() == InObject(p, ms)
    modifies w
    ensures w.State() == InObject(p, AddU64(ms, key, n))
  {
    if n.Some? {
      FieldU64(w, key, n.value, p, ms);
    }
  }

  // ----- O-DF -----

  method WriteOmiValue(w: JsonWriter, v: OmiValue)
    modifies w
    ensures w.State() == Put(old(w.State()), OmiDoc(w.lib, v))
  {
    match v
    case OmiNull => w.NullVal();
    case OmiBool(b) => w.BoolVal(b);
    case OmiNumber(n) => w.F64Val(n);
    case OmiStr(s) => w.StringVal(s);
  }

  method WriteValue(w: JsonWriter, v: Value)
    modifies w
    ensures w.State() == Put(old(w.State()), ValueDoc(w.lib, v))
  {
    ghost var p := w.State();
    w.BeginObject();
    OpenContainer(p);
    FieldOmi(w, "v", v.v, p, NoDocMembers);
    FieldF64Opt(w, "t", v.t, p, Add(NoDocMembers, "v", OmiDoc(w.lib, v.v)));
    w.EndObject();
    Closed(p, ValueMembers(w.lib, v), NoDocs);
  }

  method WriteValues(w: JsonWriter, xs: seq<Value>)
    modifies w
    ensures w.State() == Put(old(w.State()), DArr(ValueDocs(w.lib, xs)))
  {
    hide Put, Step;
    ghost var p := w.State();
    w.BeginArray();
    OpenContainer(p);
    var i := 0;
    while i < |xs|
      invariant 0 <= i <= |xs| && w.State() == InArray(p, ValueDocs(w.lib, xs[..i]))
    {
      WriteValue(w, xs[i]);
      ElemAdded(p, ValueDocs(w.lib, xs[..i]), ValueDoc(w.lib, xs[i]));
      assert xs[..i + 1][..i] == xs[..i];
      i := i + 1;
    }
    assert xs[..i] == xs;
    w.EndArray();
    Closed(p, NoDocMembers, ValueDocs(w.lib, xs));
  }

  method WriteRing(w: JsonWriter, r: Ring)
    modifies w
    ensures w.State() == Put(old(w.State()), RingDoc(w.lib, r))
  {
    WriteValues(w, JsonMeaning.Reverse(r.vals));
  }

  method WriteMeta(w: JsonWriter, m: map<string, OmiValue>)
    modifies w
    ensures w.State() == Put(old(w.State()), MetaDoc(w.lib, m))
  {
    hide Put, Step, Keys;
    ghost var p := w.State();
    w.BeginObject();
    OpenContainer(p);
    var keys := Keys(m);
    var i := 0;
    while i < |keys|
      invariant 0 <= i <= |keys| && w.State() == InObject(p, MetaMembers(w.lib, m, keys[..i]))
    {
      w.Key(keys[i]);
      WriteOmiValue(w, m[keys[i]]);
      MemberAdded(p, MetaMembers(w.lib, m, keys[..i]), keys[i], OmiDoc(w.lib, m[keys[i]]));
      assert keys[..i + 1][..i] == keys[..i];
      i := i + 1;
    }
    assert keys[..i] == keys;
    w.EndObject();
    Closed(p, MetaMembers(w.lib, m, keys), NoDocs);
  }

  method WriteInfoItem(w: JsonWriter, i: InfoItem)
    modifies w
    ensures w.State() == Put(old(w.State()), InfoDoc(w.lib, i))
  {
    hide Put, Step;
    ghost var p := w.State();
    w.BeginObject();
    OpenContainer(p);
    FieldStrOpt(w, "type", i.typeUri, p, NoDocMembers);
    ghost var ms := AddStr(NoDocMembers, "type", i.typeUri);
    FieldStrOpt(w, "desc", i.desc, p, ms);
    ms := AddStr(ms, "desc", i.desc);
    if i.meta.Some? {
      w.Key("meta");
      WriteMeta(w, i.meta.value);
      MemberAdded(p, ms, "meta", MetaDoc(w.lib, i.meta.value));
      ms := Add(ms, "meta", MetaDoc(w.lib, i.meta.value));
    }
    if i.values.vals != [] {
      w.Key("values");
      WriteRing(w, i.values);
      MemberAdded(p, ms, "values", RingDoc(w.lib, i.values));
      ms := Add(ms, "values", RingDoc(w.lib, i.values));
    }
    w.EndObject();
    Closed(p, ms, NoDocs);
  }

  method WriteItems(w: JsonWriter, m: map<string, InfoItem>)
    modifies w
    ensures w.State() == Put(old(w.State()), ItemsDoc(w.lib, m))
  {
    hide Put, Step, Keys;
    ghost var p := w.State();
    w.BeginObject();
    OpenContainer(p);
    var keys := Keys(m);
    var i := 0;
    while i < |keys|
      invariant 0 <= i <= |keys| && w.State() == InObject(p, ItemsMembers(w.lib, m, keys[..i]))
    {
      w.Key(keys[i]);
      WriteInfoItem(w, m[keys[i]]);
      MemberAdded(p, ItemsMembers(w.lib, m, keys[..i]), keys[i], InfoDoc(w.lib, m[keys[i]]));
      assert keys[..i + 1][..i] == keys[..i];
      i := i + 1;
    }
    assert keys[..i] == keys;
    w.EndObject();
    Closed(p, ItemsMembers(w.lib, m, keys), NoDocs);
  }

  /** Writes exactly the object cut off at `depth`. */
  method WriteObject(w: JsonWriter, o: Object, depth: nat)
    modifies w
    ensures w.State() == Put(old(w.State()), ObjectDoc(w.lib, Truncate(o, depth), depth))
    decreases depth, 1
  {
    hide Put, Step, ItemsDoc;
    ghost var p, t := w.State(), Truncate(o, depth);
    w.BeginObject();
    OpenContainer(p);
    WriteObjectHead(w, o, p);
    ghost var ms := HeadMembers(o);
    if depth > 0 {
      if o.items.Some? {
        w.Key("items");
        WriteItems(w, o.items.value);
        MemberAdded(p, ms, "items", ItemsDoc(w.lib, o.items.value));
        ms := Add(ms, "items", ItemsDoc(w.lib, o.items.value));
      }
      if o.objects.Some? {
        w.Key("objects");
        WriteObjects(w, o.objects.value, depth);
        MemberAdded(p, ms, "objects", ObjectsDoc(w.lib, TruncateMap(o.objects.value, depth - 1), depth));
        ms := Add(ms, "objects", ObjectsDoc(w.lib, TruncateMap(o.objects.value, depth - 1), depth));
      }
    }
    w.EndObject();
    Closed(p, ms, NoDocs);
  }

  method WriteObjectHead(w: JsonWriter, o: Object, ghost p: Pen)
    requires w.State() == InObject(p, NoDocMembers)
    modifies w
    ensures w.State() == InObject(p, HeadMembers(o))
  {
    FieldStr(w, "id", o.id, p, NoDocMembers);
    ghost var ms := Add(NoDocMembers, "id", DStr(o.id));
    FieldStrOpt(w, "type", o.typeUri, p, ms);
    FieldStrOpt(w, "desc", o.desc, p, AddStr(ms, "type", o.typeUri));
  }

  method WriteObjects(w: JsonWriter, m: Objects, depth: nat)
    requires depth > 0
    modifies w
    ensures w.State() == Put(old(w.State()), ObjectsDoc(w.lib, TruncateMap(m, depth - 1), depth))
    decreases depth, 0
  {
    hide Put, Step, Keys, ObjectDoc, Shallow, Truncate;
    ghost var p, t := w.State(), TruncateMap(m, depth - 1);
    w.BeginObject();
    OpenContainer(p);
    var keys := Keys(m);
    KeysOfDomain(m, t);
    var i := 0;
    while i < |keys|
      invariant 0 <= i <= |keys| && w.State() == InObject(p, ObjectsMembers(w.lib, t, keys[..i], depth))
    {
      w.Key(keys[i]);
      WriteObject(w, m[keys[i]], depth - 1);
      MemberAdded(p, ObjectsMembers(w.lib, t, keys[..i], depth), keys[i], ObjectDoc(w.lib, t[keys[i]], depth - 1));
      assert keys[..i + 1][..i] == keys[..i];
      i := i + 1;
    }
    assert keys[..i] == keys;
    w.EndObject();
    Closed(p, ObjectsMembers(w.lib, t, keys, depth), NoDocs);
  }

  lemma KeysOfDomain<T, U>(m: map<string, T>, t: map<string, U>)
    requires m.Keys == t.Keys
    ensures Keys(m) == Keys(t)
  {
  }

  // ----- messages -----

  method WriteReadOp(w: JsonWriter, op: Omi.ReadOp)
    modifies w
    ensures w.State() == Put(old(w.State()), DObj(ReadOpMembers(w.lib, op)))
  {
    hide Put, Step, Add;
    ghost var p := w.State();
    w.BeginObject();
    OpenContainer(p);
    ghost var ms := NoDocMembers;
    FieldStrOpt(w, "path", op.path, p, ms);
    ms := AddStr(ms, "path", op.path);
    FieldStrOpt(w, "rid", op.rid, p, ms);
    ms := AddStr(ms, "rid", op.rid);
    FieldU64Opt(w, "newest", op.newest, p, ms);
    ms := AddU64(ms, "newest", op.newest);
    FieldU64Opt(w, "oldest", op.oldest, p, ms);
    ms := AddU64(ms, "oldest", op.oldest);
    FieldF64Opt(w, "begin", op.begin, p, ms);
    ms := AddF64(w.lib, ms, "begin", op.begin);
    FieldF64Opt(w, "end", op.end, p, ms);
    ms := AddF64(w.lib, ms, "end", op.end);
    FieldU64Opt(w, "depth", op.depth, p, ms);
    ms := AddU64(ms, "depth", op.depth);
    FieldF64Opt(w, "interval", op.interval, p, ms);
    ms := AddF64(w.lib, ms, "interval", op.interval);
    FieldStrOpt(w, "callback", op.callback, p, ms);
    w.EndObject();
    Closed(p, ReadOpMembers(w.lib, op), NoDocs);
  }

  method WriteWriteItem(w: JsonWriter, x: Omi.WriteItem)
    modifies w
    ensures w.State() == Put(old(w.State()), DObj(WriteItemMembers(w.lib, x)))
  {
    hide Put, Step;
    ghost var p := w.State();
    w.BeginObject();
    OpenContainer(p);
    FieldStr(w, "path", x.path, p, NoDocMembers);
    ghost var ms := Add(NoDocMembers, "path", DStr(x.path));
    FieldOmi(w, "v", x.v, p, ms);
    FieldF64Opt(w, "t", x.t, p, Add(ms, "v", OmiDoc(w.lib, x.v)));
    w.EndObject();
    Closed(p, WriteItemMembers(w.lib, x), NoDocs);
  }

  method WriteWriteItems(w: JsonWriter, xs: seq<Omi.WriteItem>)
    modifies w
    ensures w.State() == Put(old(w.State()), DArr(WriteItemDocs(w.lib, xs)))
  {
    hide Put, Step;
    ghost var p := w.State();
    w.BeginArray();
    OpenContainer(p);
    var i := 0;
    while i < |xs|
      invariant 0 <= i <= |xs| && w.State() == InArray(p, WriteItemDocs(w.lib, xs[..i]))
    {
      WriteWriteItem(w, xs[i]);
      ElemAdded(p, WriteItemDocs(w.lib, xs[..i]), DObj(WriteItemMembers(w.lib, xs[i])));
      assert xs[..i + 1][..i] == xs[..i];
      i := i + 1;
    }
    assert xs[..i] == xs;
    w.EndArray();
    Closed(p, NoDocMembers, WriteItemDocs(w.lib, xs));
  }

  method WriteWriteOp(w: JsonWriter, op: Omi.WriteOp)
    modifies w
    ensures w.State() == Put(old(w.State()), DObj(WriteMembers(w.lib, op)))
  {
    hide Put, Step;
    if op.Single? {
      WriteWriteItem(w, Omi.WriteItem(op.path, op.v, op.t));
      return;
    }
    ghost var p := w.State();
    w.BeginObject();
    OpenContainer(p);
    match op {
    case Batch(items) =>
      w.Key("items");
      WriteWriteItems(w, items);
      MemberAdded(p, NoDocMembers, "items", DArr(WriteItemDocs(w.lib, items)));
    case Tree(path, objects) =>
      FieldStr(w, "path", path, p, NoDocMembers);
      w.Key("objects");
      WriteObjects(w, objects, UNLIMITED + 1);
      MemberAdded(p, Add(NoDocMembers, "path", DStr(path)), "objects",
                  ObjectsDoc(w.lib, TruncateMap(objects, UNLIMITED), UNLIMITED + 1));
    }
    w.EndObject();
    Closed(p, WriteMembers(w.lib, op), NoDocs);
  }

  method WriteRids(w: JsonWriter, xs: seq<string>)
    modifies w
    ensures w.State() == Put(old(w.State()), DArr(RidDocs(xs)))
  {
    hide Put, Step;
    ghost var p := w.State();
    w.BeginArray();
    OpenContainer(p);
    var i := 0;
    while i < |xs|
      invariant 0 <= i <= |xs| && w.State() == InArray(p, RidDocs(xs[..i]))
    {
      w.StringVal(xs[i]);
      ElemAdded(p, RidDocs(xs[..i]), DStr(xs[i]));
      assert xs[..i + 1][..i] == xs[..i];
      i := i + 1;
    }
    assert xs[..i] == xs;
    w.EndArray();
    Closed(p, NoDocMembers, RidDocs(xs));
  }

  method WriteItemStatus(w: JsonWriter, s: Omi.ItemStatus)
    modifies w
    ensures w.State() == Put(old(w.State()), DObj(StatusMembers(s)))
  {
    hide Put, Step;
    ghost var p := w.State();
    w.BeginObject();
    OpenContainer(p);
    FieldStr(w, "path", s.path, p, NoDocMembers);
    ghost var ms := Add(NoDocMembers, "path", DStr(s.path));
    FieldU64(w, "status", s.status, p, ms);
    FieldStrOpt(w, "desc", s.desc, p, Add(ms, "status", IntDoc(s.status)));
    w.EndObject();
    Closed(p, StatusMembers(s), NoDocs);
  }

  method WriteStatuses(w: JsonWriter, xs: seq<Omi.ItemStatus>)
    modifies w
    ensures w.State() == Put(old(w.State()), DArr(StatusDocs(xs)))
  {
    hide Put, Step;
    ghost var p := w.State();
    w.BeginArray();
    OpenContainer(p);
    var i := 0;
    while i < |xs|
      invariant 0 <= i <= |xs| && w.State() == InArray(p, StatusDocs(xs[..i]))
    {
      WriteItemStatus(w, xs[i]);
      ElemAdded(p, StatusDocs(xs[..i]), DObj(StatusMembers(xs[i])));
      assert xs[..i + 1][..i] == xs[..i];
      i := i + 1;
    }
    assert xs[..i] == xs;
    w.EndArray();
    Closed(p, NoDocMembers, StatusDocs(xs));
  }

  method WritePayload(w: JsonWriter, r: Omi.ResultPayload)
    modifies w
    ensures w.State() == Put(old(w.State()), PayloadDoc(w.lib, r))
  {
    hide Put, Step, MetaDoc;
    if r.NullPayload? {
      w.NullVal();
      return;
    }
    ghost var p := w.State();
    w.BeginObject();
    OpenContainer(p);
    FieldStr(w, "path", r.path, p, NoDocMembers);
    ghost var ms := Add(NoDocMembers, "path", DStr(r.path));
    if r.meta.Some? && r.meta.value != map[] {
      w.Key("meta");
      WriteMeta(w, r.meta.value);
      MemberAdded(p, ms, "meta", MetaDoc(w.lib, r.meta.value));
      ms := Add(ms, "meta", MetaDoc(w.lib, r.meta.value));
    }
    w.Key("values");
    WriteValues(w, r.values);
    MemberAdded(p, ms, "values", DArr(ValueDocs(w.lib, r.values)));
    w.EndObject();
    Closed(p, Add(ms, "values", DArr(ValueDocs(w.lib, r.values))), NoDocs);
  }

  method WriteResult(w: JsonWriter, r: Omi.ResponseResult)
    modifies w
    ensures w.State() == Put(old(w.State()), ResultDoc(w.lib, r))
  {
    match r
    case StatusBatch(items) => WriteStatuses(w, items);
    case SingleResult(payload) => WritePayload(w, payload);
  }

  method WriteResponse(w: JsonWriter, b: Omi.ResponseBody)
    modifies w
    ensures w.State() == Put(old(w.State()), DObj(ResponseMembers(w.lib, b)))
  {
    hide Put, Step, ResultDoc;
    ghost var p := w.State();
    w.BeginObject();
    OpenContainer(p);
    FieldU64(w, "status", b.status, p, NoDocMembers);
    ghost var ms := Add(NoDocMembers, "status", IntDoc(b.status));
    FieldStrOpt(w, "rid", b.rid, p, ms);
    ms := AddStr(ms, "rid", b.rid);
    FieldStrOpt(w, "desc", b.desc, p, ms);
    ms := AddStr(ms, "desc", b.desc);
    if b.result.Some? {
      w.Key("result");
      WriteResult(w, b.result.value);
      MemberAdded(p, ms, "result", ResultDoc(w.lib, b.result.value));
    }
    w.EndObject();
    Closed(p, ResponseMembers(w.lib, b), NoDocs);
  }

  method WriteOperation(w: JsonWriter, op: Omi.Operation)
    modifies w
    ensures w.State() == Put(old(w.State()), DObj(OperationMembers(w.lib, op)))
  {
    match op
    case Read(r) => WriteReadOp(w, r);
    case Write(x) => WriteWriteOp(w, x);
    case Response(b) => WriteResponse(w, b);
    case Delete(path) =>
      ghost var p := w.State();
      w.BeginObject();
      OpenContainer(p);
      FieldStr(w, "path", path, p, NoDocMembers);
      w.EndObject();
      Closed(p, OperationMembers(w.lib, op), NoDocs);
    case Cancel(rids) =>
      ghost var p := w.State();
      w.BeginObject();
      OpenContainer(p);
      w.Key("rid");
      WriteRids(w, rids);
      MemberAdded(p, NoDocMembers, "rid", DArr(RidDocs(rids)));
      w.EndObject();
      Closed(p, OperationMembers(w.lib, op), NoDocs);
  }

  method WriteMessage(w: JsonWriter, m: Omi.OmiMessage)
    modifies w
    ensures w.State() == Put(old(w.State()), MessageDoc(w.lib, m))
  {
    hide Put, Step, OperationMembers;
    ghost var p := w.State();
    w.BeginObject();
    OpenContainer(p);
    FieldStr(w, "omi", m.version, p, NoDocMembers);
    ghost var ms := Add(NoDocMembers, "omi", DStr(m.version));
    FieldI64(w, "ttl", m.ttl, p, ms);
    ms := Add(ms, "ttl", IntDoc(m.ttl));
    w.Key(OperationKey(m.operation));
    WriteOperation(w, m.operation);
    MemberAdded(p, ms, OperationKey(m.operation), DObj(OperationMembers(w.lib, m.operation)));
    w.EndObject();
    Closed(p, MessageMembers(w.lib, m), NoDocs);
  }

  /** `to_json_bytes` of a message. */
  method MessageBytes(lib: FloatLib, m: Omi.OmiMessage) returns (bytes: seq<byte>)
    ensures bytes == Print(MessageDoc(lib, m))
  {
    var w := new JsonWriter(lib);
    WriteMessage(w, m);
    bytes := w.buf;
    assert PreValue(Pen([], [], false)) == Pen([], [], false);
  }
}
