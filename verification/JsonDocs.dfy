/** The tree each value is serialised as. */
module JsonDocs {
  import opened Wrappers
  import opened Floats
  import opened Odf
  import opened JsonPrint
  import opened JsonWriter
  import opened SortedMap
  import JsonMeaning
  import Omi

  function FloatDoc(lib: FloatLib, x: F64): Doc {
    if IsFinite(x) then DNum(FloatText(lib, x)) else DNull
  }

  function IntDoc(i: int): Doc { DNum(IntegerText(i)) }

  function AddStr(ms: DocMembers, key: string, s: Option<string>): DocMembers {
    if s.Some? then Add(ms, key, DStr(s.value)) else ms
  }

  function AddF64(lib: FloatLib, ms: DocMembers, key: string, x: Option<F64>): DocMembers {
    if x.Some? then Add(ms, key, FloatDoc(lib, x.value)) else ms
  }

  function AddU64(ms: DocMembers, key: string, n: Option<U64>): DocMembers {
    if n.Some? then Add(ms, key, IntDoc(n.value)) else ms
  }

  // ----- O-DF -----

  function OmiDoc(lib: FloatLib, v: OmiValue): Doc {
    match v
    case OmiNull => DNull
    case OmiBool(b) => DBool(b)
    case OmiNumber(n) => FloatDoc(lib, n)
    case OmiStr(s) => DStr(s)
  }

  function ValueMembers(lib: FloatLib, v: Value): DocMembers {
    AddF64(lib, Add(NoDocMembers, "v", OmiDoc(lib, v.v)), "t", v.t)
  }

  function ValueDoc(lib: FloatLib, v: Value): Doc { DObj(ValueMembers(lib, v)) }

  function ValueDocs(lib: FloatLib, vs: seq<Value>): Docs {
    if vs == [] then NoDocs
    else AddElem(ValueDocs(lib, vs[..|vs| - 1]), ValueDoc(lib, vs[|vs| - 1]))
  }

  /** Histories are written newest first. */
  function RingDoc(lib: FloatLib, r: Ring): Doc {
    DArr(ValueDocs(lib, JsonMeaning.Reverse(r.vals)))
  }

  function MetaMembers(lib: FloatLib, m: map<string, OmiValue>, keys: seq<string>): DocMembers
    requires forall k | k in keys :: k in m
  {
    if keys == [] then NoDocMembers
    else
      var last := |keys| - 1;
      Add(MetaMembers(lib, m, keys[..last]), keys[last], OmiDoc(lib, m[keys[last]]))
  }

  function Keys<T>(m: map<string, T>): (keys: seq<string>)
    ensures |keys| == |m.Keys| && forall k :: k in keys <==> k in m
  {
    SortedKeysCover(m.Keys);
    SortedKeys(m.Keys)
  }

  function MetaDoc(lib: FloatLib, m: map<string, OmiValue>): Doc {
    DObj(MetaMembers(lib, m, Keys(m)))
  }

  /** An empty history is left out. */
  function InfoMembers(lib: FloatLib, i: InfoItem): DocMembers {
    var ms := AddStr(AddStr(NoDocMembers, "type", i.typeUri), "desc", i.desc);
    var ns := if i.meta.Some? then Add(ms, "meta", MetaDoc(lib, i.meta.value)) else ms;
    if i.values.vals != [] then Add(ns, "values", RingDoc(lib, i.values)) else ns
  }

  function InfoDoc(lib: FloatLib, i: InfoItem): Doc { DObj(InfoMembers(lib, i)) }

  function ItemsMembers(lib: FloatLib, m: map<string, InfoItem>, keys: seq<string>): DocMembers
    requires forall k | k in keys :: k in m
  {
    if keys == [] then NoDocMembers
    else
      var last := |keys| - 1;
      Add(ItemsMembers(lib, m, keys[..last]), keys[last], InfoDoc(lib, m[keys[last]]))
  }

  function ItemsDoc(lib: FloatLib, m: map<string, InfoItem>): Doc {
    DObj(ItemsMembers(lib, m, Keys(m)))
  }

  /** An object cut off below `depth`: at 0 it has neither items nor children. */
  function Truncate(o: Object, depth: nat): (t: Object)
    ensures Shallow(t, depth)
    decreases depth
  {
    if depth == 0 then o.(items := None, objects := None)
    else if o.objects.None? then o
    else o.(objects := Some(map k | k in o.objects.value :: Truncate(o.objects.value[k], depth - 1)))
  }

  function HeadMembers(o: Object): DocMembers {
    AddStr(AddStr(Add(NoDocMembers, "id", DStr(o.id)), "type", o.typeUri), "desc", o.desc)
  }

  /** The tree of an object of which no level lies below `depth`. */
  function ObjectDoc(lib: FloatLib, o: Object, depth: nat): Doc
    requires Shallow(o, depth)
    decreases depth, 1
  {
    var ms := HeadMembers(o);
    var ns := if o.items.Some? then Add(ms, "items", ItemsDoc(lib, o.items.value)) else ms;
    DObj(if o.objects.Some? then Add(ns, "objects", ObjectsDoc(lib, o.objects.value, depth)) else ns)
  }

  /** No child lies below `depth`, and at depth 0 there are no items either. */
  predicate Shallow(o: Object, depth: nat)
    decreases depth
  {
    && (depth == 0 ==> o.items.None? && o.objects.None?)
    && (o.objects.Some? ==> forall k | k in o.objects.value :: depth > 0 && Shallow(o.objects.value[k], depth - 1))
  }

  function ObjectsDoc(lib: FloatLib, m: Objects, depth: nat): Doc
    requires depth > 0 && forall k | k in m :: Shallow(m[k], depth - 1)
    decreases depth, 0, |m.Keys| + 1
  {
    DObj(ObjectsMembers(lib, m, Keys(m), depth))
  }

  function ObjectsMembers(lib: FloatLib, m: Objects, keys: seq<string>, depth: nat): DocMembers
    requires depth > 0 && forall k | k in m :: Shallow(m[k], depth - 1)
    requires forall k | k in keys :: k in m
    decreases depth, 0, |keys|
  {
    if keys == [] then NoDocMembers
    else
      var last := |keys| - 1;
      Add(ObjectsMembers(lib, m, keys[..last], depth), keys[last], ObjectDoc(lib, m[keys[last]], depth - 1))
  }

  /** Nothing is cut off an object that ends above `depth`. */
  lemma {:induction false} TruncateAll(o: Object, depth: nat)
    requires depth > 0 && (o.objects.Some? ==> WithinDepth(o.objects.value, depth - 1))
    ensures Truncate(o, depth) == o
    decreases depth
  {
    if o.objects.Some? {
      forall k | k in o.objects.value
        ensures Truncate(o.objects.value[k], depth - 1) == o.objects.value[k]
      {
        TruncateAll(o.objects.value[k], depth - 1);
      }
      assert Truncate(o, depth).objects.value == o.objects.value;
    }
  }

  // ----- messages -----

  /** usize::MAX on the device: no limit that a tree in memory could reach. */
  const UNLIMITED: nat := 0xFFFF_FFFF

  function ReadOpMembers(lib: FloatLib, op: Omi.ReadOp): DocMembers {
    var a := AddStr(AddStr(NoDocMembers, "path", op.path), "rid", op.rid);
    var b := AddU64(AddU64(a, "newest", op.newest), "oldest", op.oldest);
    var c := AddF64(lib, AddF64(lib, b, "begin", op.begin), "end", op.end);
    AddStr(AddF64(lib, AddU64(c, "depth", op.depth), "interval", op.interval), "callback", op.callback)
  }

  function WriteItemMembers(lib: FloatLib, w: Omi.WriteItem): DocMembers {
    AddF64(lib, Add(Add(NoDocMembers, "path", DStr(w.path)), "v", OmiDoc(lib, w.v)), "t", w.t)
  }

  function WriteItemDocs(lib: FloatLib, ws: seq<Omi.WriteItem>): Docs {
    if ws == [] then NoDocs
    else AddElem(WriteItemDocs(lib, ws[..|ws| - 1]), DObj(WriteItemMembers(lib, ws[|ws| - 1])))
  }

  function TruncateMap(m: Objects, depth: nat): (r: Objects)
    ensures r.Keys == m.Keys && forall k | k in m :: Shallow(r[k], depth)
  {
    map k | k in m :: Truncate(m[k], depth)
  }

  function WriteMembers(lib: FloatLib, op: Omi.WriteOp): DocMembers {
    match op
    case Single(path, v, t) => WriteItemMembers(lib, Omi.WriteItem(path, v, t))
    case Batch(items) => Add(NoDocMembers, "items", DArr(WriteItemDocs(lib, items)))
    case Tree(path, objects) =>
      Add(Add(NoDocMembers, "path", DStr(path)), "objects",
          ObjectsDoc(lib, TruncateMap(objects, UNLIMITED), UNLIMITED + 1))
  }

  function RidDocs(rids: seq<string>): Docs {
    if rids == [] then NoDocs else AddElem(RidDocs(rids[..|rids| - 1]), DStr(rids[|rids| - 1]))
  }

  function StatusMembers(s: Omi.ItemStatus): DocMembers {
    AddStr(Add(Add(NoDocMembers, "path", DStr(s.path)), "status", IntDoc(s.status)), "desc", s.desc)
  }

  function StatusDocs(ss: seq<Omi.ItemStatus>): Docs {
    if ss == [] then NoDocs
    else AddElem(StatusDocs(ss[..|ss| - 1]), DObj(StatusMembers(ss[|ss| - 1])))
  }

  function PayloadDoc(lib: FloatLib, p: Omi.ResultPayload): Doc {
    match p
    case NullPayload => DNull
    case ReadValues(path, values, meta) =>
      var ms := Add(NoDocMembers, "path", DStr(path));
      var ns := if meta.Some? && meta.value != map[] then Add(ms, "meta", MetaDoc(lib, meta.value)) else ms;
      DObj(Add(ns, "values", DArr(ValueDocs(lib, values))))
  }

  function ResultDoc(lib: FloatLib, r: Omi.ResponseResult): Doc {
    match r
    case StatusBatch(items) => DArr(StatusDocs(items))
    case SingleResult(p) => PayloadDoc(lib, p)
  }

  function ResponseMembers(lib: FloatLib, b: Omi.ResponseBody): DocMembers {
    var ms := AddStr(AddStr(Add(NoDocMembers, "status", IntDoc(b.status)), "rid", b.rid), "desc", b.desc);
    if b.result.Some? then Add(ms, "result", ResultDoc(lib, b.result.value)) else ms
  }

  function OperationKey(op: Omi.Operation): string {
    match op
    case Read(_) => "read"
    case Write(_) => "write"
    case Delete(_) => "delete"
    case Cancel(_) => "cancel"
    case Response(_) => "response"
  }

  function OperationMembers(lib: FloatLib, op: Omi.Operation): DocMembers {
    match op
    case Read(r) => ReadOpMembers(lib, r)
    case Write(w) => WriteMembers(lib, w)
    case Delete(path) => Add(NoDocMembers, "path", DStr(path))
    case Cancel(rids) => Add(NoDocMembers, "rid", DArr(RidDocs(rids)))
    case Response(b) => ResponseMembers(lib, b)
  }

  function MessageMembers(lib: FloatLib, m: Omi.OmiMessage): DocMembers {
    var ms := Add(Add(NoDocMembers, "omi", DStr(m.version)), "ttl", IntDoc(m.ttl));
    Add(ms, OperationKey(m.operation), DObj(OperationMembers(lib, m.operation)))
  }

  function MessageDoc(lib: FloatLib, m: Omi.OmiMessage): Doc { DObj(MessageMembers(lib, m)) }
}
