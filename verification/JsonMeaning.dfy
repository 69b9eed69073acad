/** What a JSON tree means as O-DF data or as a protocol message. The parser never
    builds the tree; it is proved to return what these functions say of it. */
module JsonMeaning {
  import opened Wrappers
  import opened Floats
  import opened Odf
  import opened JsonGrammar
  import Omi

  // ----- scalars -----

  function StringOf(j: Json): Option<string> {
    if j.JStr? then Some(j.s) else None
  }

  /** A string, or null to keep `old`. */
  function StringOr(was: Option<string>, j: Json): Option<Option<string>> {
    if j.JNull? then Some(was) else StringOf(j).Map(x => Some(x))
  }

  function F64Of(lib: FloatLib, j: Json): Option<F64> {
    match j
    case JNum(n) => Some(n)
    case JInt(i) => Some(lib.ofI64(i))
    case _ => None
  }

  function I64Of(lib: FloatLib, j: Json): Option<I64> {
    match j
    case JInt(i) => Some(i)
    case JNum(n) => if Equals(lib.ofI64(lib.toI64(n)), n) then Some(lib.toI64(n)) else None
    case _ => None
  }

  function U64Of(lib: FloatLib, j: Json): Option<U64> {
    match I64Of(lib, j)
    case Some(i) => if i < 0 then None else Some(i as U64)
    case None => None
  }

  function U16Of(lib: FloatLib, j: Json): Option<U16> {
    match U64Of(lib, j)
    case Some(i) => if i < 0x1_0000 then Some(i as U16) else None
    case None => None
  }

  /** A value whose content is ignored; it must still fit in the remaining depth. */
  function Skip(j: Json, room: nat): Option<()> {
    if Height(j) <= room then Some(()) else None
  }

  function OmiOf(lib: FloatLib, j: Json, room: nat): Option<OmiValue> {
    match j
    case JNull => Some(OmiNull)
    case JBool(b) => Some(OmiBool(b))
    case JStr(s) => Some(OmiStr(s))
    case JNum(n) => Some(OmiNumber(n))
    case JInt(i) => Some(OmiNumber(lib.ofI64(i)))
    case _ => if Skip(j, room).Some? then Some(OmiNull) else None
  }

  // ----- members: the local variables each object parser fills -----

  datatype ValueLocals = ValueLocals(v: Option<OmiValue>, t: Option<F64>)

  datatype InfoLocals = InfoLocals(
    typeUri: Option<string>, desc: Option<string>, meta: Option<map<string, OmiValue>>, values: Option<Ring>)

  datatype ObjectLocals = ObjectLocals(
    id: Option<string>, typeUri: Option<string>, desc: Option<string>,
    items: Option<map<string, InfoItem>>, objects: Option<Objects>)

  datatype WriteLocals = WriteLocals(
    path: Option<string>, v: Option<OmiValue>, t: Option<F64>,
    items: Option<seq<Omi.WriteItem>>, objects: Option<Objects>)

  datatype WriteItemLocals = WriteItemLocals(path: Option<string>, v: Option<OmiValue>, t: Option<F64>)

  datatype ResponseLocals = ResponseLocals(
    status: Option<U16>, rid: Option<string>, desc: Option<string>, result: Option<Omi.ResponseResult>)

  datatype StatusLocals = StatusLocals(path: Option<string>, status: Option<U16>, desc: Option<string>)

  /** `seen` is the bit set of operation keys. */
  datatype EnvelopeLocals = EnvelopeLocals(
    version: Option<string>, ttl: Option<I64>, operation: Option<Omi.Operation>, seen: set<string>)

  datatype Fields =
    | ValueFields(value: ValueLocals)
    | MetaFields(entries: map<string, OmiValue>)
    | InfoFields(info: InfoLocals)
    | ItemsFields(items: map<string, InfoItem>)
    | ObjectFields(node: ObjectLocals)
    | ObjectsFields(objects: Objects)
    | ReadFields(read: Omi.ReadOp)
    | WriteFields(write: WriteLocals)
    | WriteItemFields(item: WriteItemLocals)
    | DeleteFields(path: Option<string>)
    | CancelFields(rids: Option<seq<string>>)
    | ResponseFields(response: ResponseLocals)
    | StatusFields(status: StatusLocals)
    | EnvelopeFields(envelope: EnvelopeLocals)

  const NO_VALUE := ValueFields(ValueLocals(None, None))
  const NO_INFO := InfoFields(InfoLocals(None, None, None, None))
  const NO_OBJECT := ObjectFields(ObjectLocals(None, None, None, None, None))
  const NO_READ := ReadFields(Omi.ReadOp(None, None, None, None, None, None, None, None, None))
  const NO_WRITE := WriteFields(WriteLocals(None, None, None, None, None))
  const NO_WRITE_ITEM := WriteItemFields(WriteItemLocals(None, None, None))
  const NO_RESPONSE := ResponseFields(ResponseLocals(None, None, None, None))
  const NO_STATUS := StatusFields(StatusLocals(None, None, None))
  const NO_ENVELOPE := EnvelopeFields(EnvelopeLocals(None, None, None, {}))

  const OPERATIONS: set<string> := {"read", "write", "delete", "cancel", "response"}

  predicate SameKind(f: Fields, g: Fields) {
    match f
    case ValueFields(_) => g.ValueFields?
    case MetaFields(_) => g.MetaFields?
    case InfoFields(_) => g.InfoFields?
    case ItemsFields(_) => g.ItemsFields?
    case ObjectFields(_) => g.ObjectFields?
    case ObjectsFields(_) => g.ObjectsFields?
    case ReadFields(_) => g.ReadFields?
    case WriteFields(_) => g.WriteFields?
    case WriteItemFields(_) => g.WriteItemFields?
    case DeleteFields(_) => g.DeleteFields?
    case CancelFields(_) => g.CancelFields?
    case ResponseFields(_) => g.ResponseFields?
    case StatusFields(_) => g.StatusFields?
    case EnvelopeFields(_) => g.EnvelopeFields?
  }

  /** Reads member `key: val` into `f`, as the arms of the key matches do. */
  function Take(lib: FloatLib, f: Fields, key: string, val: Json, room: nat): (r: Option<Fields>)
    ensures r.Some? ==> SameKind(f, r.value)
    decreases val, 5
  {
    match f
    case ValueFields(l) => TakeOfValue(lib, l, key, val, room).Map(x => ValueFields(x))
    case MetaFields(m) => OmiOf(lib, val, room).Map(x => MetaFields(m[key := x]))
    case InfoFields(l) => TakeOfInfo(lib, l, key, val, room).Map(x => InfoFields(x))
    case ItemsFields(m) => InfoOf(lib, val, room).Map(x => ItemsFields(m[key := x]))
    case ObjectFields(l) => TakeOfObject(lib, l, key, val, room).Map(x => ObjectFields(x))
    case ObjectsFields(m) => ObjectOf(lib, val, room).Map(x => ObjectsFields(m[key := x]))
    case ReadFields(l) => TakeOfRead(lib, l, key, val, room).Map(x => ReadFields(x))
    case WriteFields(l) => TakeOfWrite(lib, l, key, val, room).Map(x => WriteFields(x))
    case WriteItemFields(l) => TakeOfWriteItem(lib, l, key, val, room).Map(x => WriteItemFields(x))
    case DeleteFields(l) => TakeOfDelete(l, key, val, room).Map(x => DeleteFields(x))
    case CancelFields(l) => TakeOfCancel(lib, l, key, val, room).Map(x => CancelFields(x))
    case ResponseFields(l) => TakeOfResponse(lib, l, key, val, room).Map(x => ResponseFields(x))
    case StatusFields(l) => TakeOfStatus(lib, l, key, val, room).Map(x => StatusFields(x))
    case EnvelopeFields(l) => TakeOfEnvelope(lib, l, key, val, room).Map(x => EnvelopeFields(x))
  }

  function Ignore<T>(l: T, val: Json, room: nat): Option<T> {
    if Skip(val, room).Some? then Some(l) else None
  }

  function TakeOfValue(lib: FloatLib, l: ValueLocals, key: string, val: Json, room: nat): Option<ValueLocals> {
    if key == "v" then OmiOf(lib, val, room).Map(x => l.(v := Some(x)))
    else if key == "t" then if val.JNull? then Some(l) else F64Of(lib, val).Map(x => l.(t := Some(x)))
    else Ignore(l, val, room)
  }

  function TakeOfInfo(lib: FloatLib, l: InfoLocals, key: string, val: Json, room: nat): Option<InfoLocals>
    decreases val, 4
  {
    if key == "type" then StringOr(l.typeUri, val).Map(x => l.(typeUri := x))
    else if key == "desc" then StringOr(l.desc, val).Map(x => l.(desc := x))
    else if key == "meta" then if val.JNull? then Some(l) else MetaOf(lib, val, room).Map(x => l.(meta := Some(x)))
    else if key == "values" then RingOf(lib, val, room).Map(x => l.(values := Some(x)))
    else Ignore(l, val, room)
  }

  function TakeOfObject(lib: FloatLib, l: ObjectLocals, key: string, val: Json, room: nat): Option<ObjectLocals>
    decreases val, 4
  {
    if key == "id" then StringOf(val).Map(x => l.(id := Some(x)))
    else if key == "type" then StringOr(l.typeUri, val).Map(x => l.(typeUri := x))
    else if key == "desc" then StringOr(l.desc, val).Map(x => l.(desc := x))
    else if key == "items" then if val.JNull? then Some(l) else ItemsOf(lib, val, room).Map(x => l.(items := Some(x)))
    else if key == "objects" then if val.JNull? then Some(l) else ObjectsOf(lib, val, room).Map(x => l.(objects := Some(x)))
    else Ignore(l, val, room)
  }

  function TakeOfRead(lib: FloatLib, l: Omi.ReadOp, key: string, val: Json, room: nat): Option<Omi.ReadOp> {
    if key == "path" then StringOf(val).Map(x => l.(path := Some(x)))
    else if key == "rid" then StringOf(val).Map(x => l.(rid := Some(x)))
    else if key == "newest" then U64Of(lib, val).Map(x => l.(newest := Some(x)))
    else if key == "oldest" then U64Of(lib, val).Map(x => l.(oldest := Some(x)))
    else if key == "begin" then F64Of(lib, val).Map(x => l.(begin := Some(x)))
    else if key == "end" then F64Of(lib, val).Map(x => l.(end := Some(x)))
    else if key == "depth" then U64Of(lib, val).Map(x => l.(depth := Some(x)))
    else if key == "interval" then F64Of(lib, val).Map(x => l.(interval := Some(x)))
    else if key == "callback" then StringOf(val).Map(x => l.(callback := Some(x)))
    else Ignore(l, val, room)
  }

  function TakeOfWrite(lib: FloatLib, l: WriteLocals, key: string, val: Json, room: nat): Option<WriteLocals>
    decreases val, 4
  {
    if key == "path" then StringOf(val).Map(x => l.(path := Some(x)))
    else if key == "v" then OmiOf(lib, val, room).Map(x => l.(v := Some(x)))
    else if key == "t" then F64Of(lib, val).Map(x => l.(t := Some(x)))
    else if key == "items" then WritesOf(lib, val, room).Map(x => l.(items := Some(x)))
    else if key == "objects" then ObjectsOf(lib, val, room).Map(x => l.(objects := Some(x)))
    else Ignore(l, val, room)
  }

  function TakeOfWriteItem(lib: FloatLib, l: WriteItemLocals, key: string, val: Json, room: nat): Option<WriteItemLocals> {
    if key == "path" then StringOf(val).Map(x => l.(path := Some(x)))
    else if key == "v" then OmiOf(lib, val, room).Map(x => l.(v := Some(x)))
    else if key == "t" then F64Of(lib, val).Map(x => l.(t := Some(x)))
    else Ignore(l, val, room)
  }

  function TakeOfDelete(l: Option<string>, key: string, val: Json, room: nat): Option<Option<string>> {
    if key == "path" then StringOf(val).Map(x => Some(x))
    else Ignore(l, val, room)
  }

  function TakeOfCancel(lib: FloatLib, l: Option<seq<string>>, key: string, val: Json, room: nat): Option<Option<seq<string>>>
    decreases val, 4
  {
    if key == "rid" then RidsOf(lib, val, room).Map(x => Some(x))
    else Ignore(l, val, room)
  }

  function TakeOfResponse(lib: FloatLib, l: ResponseLocals, key: string, val: Json, room: nat): Option<ResponseLocals>
    decreases val, 4
  {
    if key == "status" then U16Of(lib, val).Map(x => l.(status := Some(x)))
    else if key == "rid" then StringOf(val).Map(x => l.(rid := Some(x)))
    else if key == "desc" then StringOf(val).Map(x => l.(desc := Some(x)))
    else if key == "result" then ResultOf(lib, val, room).Map(x => l.(result := Some(x)))
    else Ignore(l, val, room)
  }

  function TakeOfStatus(lib: FloatLib, l: StatusLocals, key: string, val: Json, room: nat): Option<StatusLocals> {
    if key == "path" then StringOf(val).Map(x => l.(path := Some(x)))
    else if key == "status" then U16Of(lib, val).Map(x => l.(status := Some(x)))
    else if key == "desc" then StringOf(val).Map(x => l.(desc := Some(x)))
    else Ignore(l, val, room)
  }

  function TakeOfEnvelope(lib: FloatLib, l: EnvelopeLocals, key: string, val: Json, room: nat): Option<EnvelopeLocals>
    decreases val, 4
  {
    if key == "omi" then StringOf(val).Map(x => l.(version := Some(x)))
    else if key == "ttl" then I64Of(lib, val).Map(x => l.(ttl := Some(x)))
    else if key in OPERATIONS then OperationOf(lib, key, val, room).Map(x => l.(operation := Some(x), seen := l.seen + {key}))
    else Ignore(l, val, room)
  }

  function TakeAll(lib: FloatLib, f: Fields, ms: Members, room: nat): (r: Option<Fields>)
    ensures r.Some? ==> SameKind(f, r.value)
    decreases ms
  {
    if ms.NoMembers? then Some(f)
    else
      match Take(lib, f, ms.key, ms.val, room)
      case None => None
      case Some(g) => TakeAll(lib, g, ms.tail, room)
  }

  /** An object whose members all go into `f`. */
  function FieldsOf(lib: FloatLib, f: Fields, j: Json, room: nat): (r: Option<Fields>)
    ensures r.Some? ==> SameKind(f, r.value)
    decreases j, 2
  {
    if j.JObj? then TakeAll(lib, f, j.members, room) else None
  }

  // ----- elements -----

  datatype Items =
    | ValueItems(values: seq<Value>)
    | WriteItems(writes: seq<Omi.WriteItem>)
    | StatusItems(statuses: seq<Omi.ItemStatus>)
    | RidItems(rids: seq<string>)

  predicate SameItems(f: Items, g: Items) {
    && f.ValueItems? == g.ValueItems? && f.WriteItems? == g.WriteItems?
    && f.StatusItems? == g.StatusItems? && f.RidItems? == g.RidItems?
  }

  function TakeElem(lib: FloatLib, f: Items, j: Json, room: nat): (r: Option<Items>)
    ensures r.Some? ==> SameItems(f, r.value)
    decreases j, 5
  {
    match f
    case ValueItems(vs) => ValueOf(lib, j, room).Map(x => ValueItems(vs + [x]))
    case WriteItems(ws) => WriteItemOf(lib, j, room).Map(x => WriteItems(ws + [x]))
    case StatusItems(ss) => StatusOf(lib, j, room).Map(x => StatusItems(ss + [x]))
    case RidItems(rs) => StringOf(j).Map(x => RidItems(rs + [x]))
  }

  function TakeElems(lib: FloatLib, f: Items, es: Elems, room: nat): (r: Option<Items>)
    ensures r.Some? ==> SameItems(f, r.value)
    decreases es
  {
    if es.NoElems? then Some(f)
    else
      match TakeElem(lib, f, es.head, room)
      case None => None
      case Some(g) => TakeElems(lib, g, es.tail, room)
  }

  function ItemsIn(lib: FloatLib, f: Items, j: Json, room: nat): (r: Option<Items>)
    ensures r.Some? ==> SameItems(f, r.value)
    decreases j, 2
  {
    if j.JArr? then TakeElems(lib, f, j.elems, room) else None
  }

  // ----- what the collected locals make: the code after each loop -----

  function EndValue(l: ValueLocals): Option<Value> {
    l.v.Map(v => Value(v, l.t))
  }

  function EndInfo(l: InfoLocals): Option<InfoItem> {
    l.values.Map(r => InfoItem(l.typeUri, l.desc, l.meta, r))
  }

  function EndObject(l: ObjectLocals): Option<Object> {
    l.id.Map(id => Object(id, l.typeUri, l.desc, l.items, l.objects))
  }

  function Reverse<T>(s: seq<T>): seq<T> {
    if s == [] then [] else Reverse(s[1..]) + [s[0]]
  }

  /** A ring buffer filled from an array that lists the newest value first. */
  function EndRing(newestFirst: seq<Value>): Ring {
    PushAll(NewRing(if newestFirst == [] then 1 else |newestFirst|), Reverse(newestFirst))
  }

  function EndRead(l: Omi.ReadOp): Option<Omi.Operation> {
    if Omi.ValidRead(l) then Some(Omi.Read(l)) else None
  }

  function EndWrite(l: WriteLocals): Option<Omi.Operation> {
    if l.v.Some? then
      if l.items.Some? || l.objects.Some? then None
      else l.path.Map(p => Omi.Write(Omi.Single(p, l.v.value, l.t)))
    else if l.items.Some? then
      if l.objects.Some? || l.items.value == [] then None
      else Some(Omi.Write(Omi.Batch(l.items.value)))
    else if l.objects.Some? then
      if !WithinDepth(l.objects.value, Omi.MAX_OBJECT_DEPTH) then None
      else l.path.Map(p => Omi.Write(Omi.Tree(p, l.objects.value)))
    else None
  }

  function EndWriteItem(l: WriteItemLocals): Option<Omi.WriteItem> {
    if l.path.Some? && l.v.Some? then Some(Omi.WriteItem(l.path.value, l.v.value, l.t)) else None
  }

  function EndDelete(l: Option<string>): Option<Omi.Operation> {
    if l.Some? && Omi.ValidDelete(l.value) then Some(Omi.Delete(l.value)) else None
  }

  function EndCancel(l: Option<seq<string>>): Option<Omi.Operation> {
    if l.Some? && Omi.ValidCancel(l.value) then Some(Omi.Cancel(l.value)) else None
  }

  function EndStatus(l: StatusLocals): Option<Omi.ItemStatus> {
    if l.path.Some? && l.status.Some? then Some(Omi.ItemStatus(l.path.value, l.status.value, l.desc)) else None
  }

  function EndResponse(l: ResponseLocals): Option<Omi.Operation> {
    l.status.Map(s => Omi.Response(Omi.ResponseBody(s, l.rid, l.desc, l.result)))
  }

  /** Exactly one kind of operation must have been seen. */
  function EndEnvelope(l: EnvelopeLocals): Option<Omi.OmiMessage> {
    if l.version == Some("1.0") && l.ttl.Some? && |l.seen| == 1 && l.operation.Some? then
      Some(Omi.OmiMessage("1.0", l.ttl.value, l.operation.value))
    else None
  }

  // ----- O-DF data; each of these enters one nesting level -----

  function ValueOf(lib: FloatLib, j: Json, room: nat): Option<Value>
    decreases j, 3
  {
    if room == 0 then None
    else
      match FieldsOf(lib, NO_VALUE, j, room - 1)
      case None => None
      case Some(f) => EndValue(f.value)
  }

  function MetaOf(lib: FloatLib, j: Json, room: nat): Option<map<string, OmiValue>>
    decreases j, 3
  {
    if room == 0 then None
    else
      match FieldsOf(lib, MetaFields(map[]), j, room - 1)
      case None => None
      case Some(f) => Some(f.entries)
  }

  function RingOf(lib: FloatLib, j: Json, room: nat): Option<Ring>
    decreases j, 3
  {
    if room == 0 then None
    else
      match ItemsIn(lib, ValueItems([]), j, room - 1)
      case None => None
      case Some(f) => Some(EndRing(f.values))
  }

  function InfoOf(lib: FloatLib, j: Json, room: nat): Option<InfoItem>
    decreases j, 3
  {
    if room == 0 then None
    else
      match FieldsOf(lib, NO_INFO, j, room - 1)
      case None => None
      case Some(f) => EndInfo(f.info)
  }

  function ItemsOf(lib: FloatLib, j: Json, room: nat): Option<map<string, InfoItem>>
    decreases j, 3
  {
    if room == 0 then None
    else
      match FieldsOf(lib, ItemsFields(map[]), j, room - 1)
      case None => None
      case Some(f) => Some(f.items)
  }

  function ObjectOf(lib: FloatLib, j: Json, room: nat): Option<Object>
    decreases j, 3
  {
    if room == 0 then None
    else
      match FieldsOf(lib, NO_OBJECT, j, room - 1)
      case None => None
      case Some(f) => EndObject(f.node)
  }

  function ObjectsOf(lib: FloatLib, j: Json, room: nat): Option<Objects>
    decreases j, 3
  {
    if room == 0 then None
    else
      match FieldsOf(lib, ObjectsFields(map[]), j, room - 1)
      case None => None
      case Some(f) => Some(f.objects)
  }

  // ----- protocol parts; these enter no nesting level -----

  function WriteItemOf(lib: FloatLib, j: Json, room: nat): Option<Omi.WriteItem>
    decreases j, 3
  {
    match FieldsOf(lib, NO_WRITE_ITEM, j, room)
    case None => None
    case Some(f) => EndWriteItem(f.item)
  }

  function WritesOf(lib: FloatLib, j: Json, room: nat): Option<seq<Omi.WriteItem>>
    decreases j, 3
  {
    match ItemsIn(lib, WriteItems([]), j, room)
    case None => None
    case Some(f) => Some(f.writes)
  }

  function RidsOf(lib: FloatLib, j: Json, room: nat): Option<seq<string>>
    decreases j, 3
  {
    match ItemsIn(lib, RidItems([]), j, room)
    case None => None
    case Some(f) => Some(f.rids)
  }

  function StatusOf(lib: FloatLib, j: Json, room: nat): Option<Omi.ItemStatus>
    decreases j, 3
  {
    match FieldsOf(lib, NO_STATUS, j, room)
    case None => None
    case Some(f) => EndStatus(f.status)
  }

  /** A result that is not an array is skipped, whatever it holds. */
  function ResultOf(lib: FloatLib, j: Json, room: nat): Option<Omi.ResponseResult>
    decreases j, 3
  {
    if j.JArr? then
      match ItemsIn(lib, StatusItems([]), j, room)
      case None => None
      case Some(f) => Some(Omi.StatusBatch(f.statuses))
    else if Skip(j, room).Some? then Some(Omi.SingleResult(Omi.NullPayload))
    else None
  }

  function OperationOf(lib: FloatLib, key: string, j: Json, room: nat): Option<Omi.Operation>
    requires key in OPERATIONS
    decreases j, 3
  {
    match FieldsOf(lib, OperationFields(key), j, room)
    case None => None
    case Some(f) => EndOperation(f)
  }

  function OperationFields(key: string): Fields
    requires key in OPERATIONS
  {
    if key == "read" then NO_READ
    else if key == "write" then NO_WRITE
    else if key == "delete" then DeleteFields(None)
    else if key == "cancel" then CancelFields(None)
    else NO_RESPONSE
  }

  function EndOperation(f: Fields): Option<Omi.Operation>
    requires f.ReadFields? || f.WriteFields? || f.DeleteFields? || f.CancelFields? || f.ResponseFields?
  {
    match f
    case ReadFields(l) => EndRead(l)
    case WriteFields(l) => EndWrite(l)
    case DeleteFields(l) => EndDelete(l)
    case CancelFields(l) => EndCancel(l)
    case ResponseFields(l) => EndResponse(l)
  }

  const MAX_DEPTH: nat := 32

  function MessageOf(lib: FloatLib, j: Json): Option<Omi.OmiMessage> {
    match FieldsOf(lib, NO_ENVELOPE, j, MAX_DEPTH)
    case None => None
    case Some(f) => EndEnvelope(f.envelope)
  }
}
