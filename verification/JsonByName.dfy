/** What each JSON object means, said by the names of its members alone: which members it
    needs, of which types, and which part of the result each of them gives. */
module JsonByName {
  import opened Wrappers
  import opened Floats
  import opened Odf
  import opened JsonGrammar
  import opened JsonMeaning
  import opened JsonOrder
  import Omi

  /** The value of the last member named `key`; of the last that is not null. */
  function Last(ms: Members, key: string): Option<Json> {
    if ms.NoMembers? then None
    else
      var later := Last(ms.tail, key);
      if later.Some? then later else if ms.key == key then Some(ms.val) else None
  }

  function LastSet(ms: Members, key: string): Option<Json> {
    if ms.NoMembers? then None
    else
      var later := LastSet(ms.tail, key);
      if later.Some? then later else if ms.key == key && !ms.val.JNull? then Some(ms.val) else None
  }

  /** What is read from a member, or what was there if there is no such member. */
  function Else<T>(j: Option<Json>, x: Option<T>, was: Option<T>): Option<T> { if j.Some? then x else was }

  function TextAt(j: Option<Json>): Option<string> { if j.Some? && j.value.JStr? then Some(j.value.s) else None }

  function NumberAt(lib: FloatLib, j: Option<Json>): Option<F64> {
    match j
    case Some(JNum(x)) => Some(x)
    case Some(JInt(i)) => Some(lib.ofI64(i))
    case _ => None
  }

  /** An integer, or a number that is one. */
  function WholeAt(lib: FloatLib, j: Option<Json>): Option<I64> {
    match j
    case Some(JInt(i)) => Some(i)
    case Some(JNum(x)) => if Equals(lib.ofI64(lib.toI64(x)), x) then Some(lib.toI64(x)) else None
    case _ => None
  }

  function CountAt(lib: FloatLib, j: Option<Json>): Option<U64> {
    var i := WholeAt(lib, j);
    if i.Some? && i.value >= 0 then Some(i.value as int) else None
  }

  function CodeAt(lib: FloatLib, j: Option<Json>): Option<U16> {
    var i := WholeAt(lib, j);
    if i.Some? && 0 <= i.value < 0x1_0000 then Some(i.value as int) else None
  }

  /** A scalar as itself; an array or an object as null. */
  function AnyAt(lib: FloatLib, j: Option<Json>): Option<OmiValue> {
    match j
    case None => None
    case Some(JBool(b)) => Some(OmiBool(b))
    case Some(JStr(s)) => Some(OmiStr(s))
    case Some(JNum(x)) => Some(OmiNumber(x))
    case Some(JInt(i)) => Some(OmiNumber(lib.ofI64(i)))
    case Some(_) => Some(OmiNull)
  }

  lemma Scalars(lib: FloatLib, j: Json, room: nat)
    ensures StringOf(j) == TextAt(Some(j)) && F64Of(lib, j) == NumberAt(lib, Some(j)) && I64Of(lib, j) == WholeAt(lib, Some(j))
    ensures U64Of(lib, j) == CountAt(lib, Some(j)) && U16Of(lib, j) == CodeAt(lib, Some(j))
    ensures OmiOf(lib, j, room) == if Height(j) <= room then AnyAt(lib, Some(j)) else None
  {
  }

  // ----- the members each kind of object admits -----

  /** A member that makes no object of this kind unreadable. */
  predicate Typed(lib: FloatLib, f: Fields, key: string, v: Json, room: nat) {
    match f
    case ValueFields(_) =>
      if key == "t" then v.JNull? || NumberAt(lib, Some(v)).Some? else Height(v) <= room
    case MetaFields(_) => Height(v) <= room
    case InfoFields(_) =>
      if key == "type" || key == "desc" then v.JNull? || v.JStr?
      else if key == "meta" then v.JNull? || MetaOf(lib, v, room).Some?
      else if key == "values" then RingOf(lib, v, room).Some? else Height(v) <= room
    case ItemsFields(_) => InfoOf(lib, v, room).Some?
    case ObjectFields(_) =>
      if key == "id" then v.JStr?
      else if key == "type" || key == "desc" then v.JNull? || v.JStr?
      else if key == "items" then v.JNull? || ItemsOf(lib, v, room).Some?
      else if key == "objects" then v.JNull? || ObjectsOf(lib, v, room).Some? else Height(v) <= room
    case ObjectsFields(_) => ObjectOf(lib, v, room).Some?
    case ReadFields(_) =>
      if key in {"path", "rid", "callback"} then v.JStr?
      else if key in {"newest", "oldest", "depth"} then CountAt(lib, Some(v)).Some?
      else if key in {"begin", "end", "interval"} then NumberAt(lib, Some(v)).Some? else Height(v) <= room
    case WriteFields(_) =>
      if key == "path" then v.JStr?
      else if key == "t" then NumberAt(lib, Some(v)).Some?
      else if key == "items" then WritesOf(lib, v, room).Some?
      else if key == "objects" then ObjectsOf(lib, v, room).Some? else Height(v) <= room
    case WriteItemFields(_) =>
      if key == "path" then v.JStr? else if key == "t" then NumberAt(lib, Some(v)).Some? else Height(v) <= room
    case DeleteFields(_) => if key == "path" then v.JStr? else Height(v) <= room
    case CancelFields(_) => if key == "rid" then RidsOf(lib, v, room).Some? else Height(v) <= room
    case ResponseFields(_) =>
      if key == "status" then CodeAt(lib, Some(v)).Some?
      else if key == "rid" || key == "desc" then v.JStr?
      else if key == "result" then ResultOf(lib, v, room).Some? else Height(v) <= room
    case StatusFields(_) =>
      if key == "status" then CodeAt(lib, Some(v)).Some?
      else if key == "path" || key == "desc" then v.JStr? else Height(v) <= room
    case EnvelopeFields(_) =>
      if key == "omi" then v.JStr? else if key == "ttl" then WholeAt(lib, Some(v)).Some?
      else if key in OPERATIONS then OperationOf(lib, key, v, room).Some? else Height(v) <= room
  }

  predicate AllTyped(lib: FloatLib, f: Fields, ms: Members, room: nat) {
    ms.Member? ==> Typed(lib, f, ms.key, ms.val, room) && AllTyped(lib, f, ms.tail, room)
  }

  predicate OdfFields(f: Fields) {
    f.ValueFields? || f.MetaFields? || f.InfoFields? || f.ItemsFields? || f.ObjectFields? || f.ObjectsFields?
  }

  lemma TypedIs(lib: FloatLib, f: Fields, key: string, v: Json, room: nat)
    ensures Take(lib, f, key, v, room).Some? <==> Typed(lib, f, key, v, room)
  {
    hide Take, Typed;
    if OdfFields(f) {
      TypedOdf(lib, f, key, v, room);
    } else {
      TypedOmi(lib, f, key, v, room);
    }
  }

  lemma TypedOdf(lib: FloatLib, f: Fields, key: string, v: Json, room: nat)
    requires OdfFields(f)
    ensures Take(lib, f, key, v, room).Some? <==> Typed(lib, f, key, v, room)
  {
    hide MetaOf, RingOf, InfoOf, ItemsOf, ObjectOf, ObjectsOf, StringOf, F64Of, OmiOf, NumberAt, AnyAt, Height;
    Scalars(lib, v, room);
    SomeAt(lib, v);
  }

  lemma TypedOmi(lib: FloatLib, f: Fields, key: string, v: Json, room: nat)
    requires !OdfFields(f)
    ensures Take(lib, f, key, v, room).Some? <==> Typed(lib, f, key, v, room)
  {
    hide ObjectsOf, WritesOf, RidsOf, ResultOf, OperationOf;
    hide StringOf, F64Of, I64Of, U64Of, U16Of, OmiOf, NumberAt, WholeAt, CountAt, CodeAt, AnyAt, Height;
    Scalars(lib, v, room);
    SomeAt(lib, v);
  }

  lemma SomeAt(lib: FloatLib, v: Json)
    ensures AnyAt(lib, Some(v)).Some?
  {
  }

  lemma SameTyped(lib: FloatLib, f: Fields, g: Fields, key: string, v: Json, room: nat)
    requires SameKind(f, g)
    ensures Typed(lib, f, key, v, room) <==> Typed(lib, g, key, v, room)
  {
    hide MetaOf, RingOf, InfoOf, ItemsOf, ObjectOf, ObjectsOf, WritesOf, RidsOf, ResultOf, OperationOf, NumberAt, WholeAt, CountAt, CodeAt, Height;
  }

  lemma {:induction false} SameAllTyped(lib: FloatLib, f: Fields, g: Fields, ms: Members, room: nat)
    requires SameKind(f, g)
    ensures AllTyped(lib, f, ms, room) <==> AllTyped(lib, g, ms, room)
    decreases ms
  {
    hide Typed;
    if ms.Member? {
      SameTyped(lib, f, g, ms.key, ms.val, room);
      SameAllTyped(lib, f, g, ms.tail, room);
    }
  }

  /** An object is read to its end exactly when all its members are of their types. */
  lemma {:induction false} ReadIffTyped(lib: FloatLib, f: Fields, ms: Members, room: nat)
    ensures TakeAll(lib, f, ms, room).Some? <==> AllTyped(lib, f, ms, room)
    decreases ms
  {
    hide Take, Typed, SameKind;
    if ms.Member? {
      TypedIs(lib, f, ms.key, ms.val, room);
      var g := Take(lib, f, ms.key, ms.val, room);
      if g.Some? {
        ReadIffTyped(lib, g.value, ms.tail, room);
        SameAllTyped(lib, f, g.value, ms.tail, room);
      }
    }
  }

  // ----- which member gives which part -----

  // Parts that are objects or arrays themselves.

  function MetaAt(lib: FloatLib, j: Option<Json>, room: nat): Option<map<string, OmiValue>> {
    if j.Some? then MetaOf(lib, j.value, room) else None
  }

  function RingAt(lib: FloatLib, j: Option<Json>, room: nat): Option<Ring> {
    if j.Some? then RingOf(lib, j.value, room) else None
  }

  function ItemsAt(lib: FloatLib, j: Option<Json>, room: nat): Option<map<string, InfoItem>> {
    if j.Some? then ItemsOf(lib, j.value, room) else None
  }

  function ObjectsAt(lib: FloatLib, j: Option<Json>, room: nat): Option<Objects> {
    if j.Some? then ObjectsOf(lib, j.value, room) else None
  }

  function WritesAt(lib: FloatLib, j: Option<Json>, room: nat): Option<seq<Omi.WriteItem>> {
    if j.Some? then WritesOf(lib, j.value, room) else None
  }

  function RidsAt(lib: FloatLib, j: Option<Json>, room: nat): Option<seq<string>> {
    if j.Some? then RidsOf(lib, j.value, room) else None
  }

  function ResultAt(lib: FloatLib, j: Option<Json>, room: nat): Option<Omi.ResponseResult> {
    if j.Some? then ResultOf(lib, j.value, room) else None
  }

  lemma {:induction false} ValueTaken(lib: FloatLib, l: ValueLocals, ms: Members, room: nat)
    requires TakeAll(lib, ValueFields(l), ms, room).Some?
    ensures TakeAll(lib, ValueFields(l), ms, room).value.ValueFields?
    ensures var r := TakeAll(lib, ValueFields(l), ms, room).value.value;
            && r.v == Else(Last(ms, "v"), AnyAt(lib, Last(ms, "v")), l.v)
            && r.t == Else(LastSet(ms, "t"), NumberAt(lib, LastSet(ms, "t")), l.t)
    decreases ms
  {
    hide Take, Height, StringOf, F64Of, I64Of, U64Of, U16Of, OmiOf, TextAt, NumberAt, WholeAt, CountAt, CodeAt, AnyAt;
    hide MetaOf, RingOf, ItemsOf, ObjectsOf, WritesOf, RidsOf, ResultOf, TakeOfValue;
    if ms.Member? {
      ValueSets(lib, l, ms.key, ms.val, room);
      TypedIs(lib, ValueFields(l), ms.key, ms.val, room);
      Scalars(lib, ms.val, room);
      ValueTaken(lib, Take(lib, ValueFields(l), ms.key, ms.val, room).value.value, ms.tail, room);
    }
  }

  lemma {:induction false} InfoTaken(lib: FloatLib, l: InfoLocals, ms: Members, room: nat)
    requires TakeAll(lib, InfoFields(l), ms, room).Some?
    ensures TakeAll(lib, InfoFields(l), ms, room).value.InfoFields?
    ensures var r := TakeAll(lib, InfoFields(l), ms, room).value.info;
            && r.typeUri == Else(LastSet(ms, "type"), TextAt(LastSet(ms, "type")), l.typeUri)
            && r.desc == Else(LastSet(ms, "desc"), TextAt(LastSet(ms, "desc")), l.desc)
            && r.meta == Else(LastSet(ms, "meta"), MetaAt(lib, LastSet(ms, "meta"), room), l.meta)
            && r.values == Else(Last(ms, "values"), RingAt(lib, Last(ms, "values"), room), l.values)
    decreases ms
  {
    hide Take, Height, StringOf, F64Of, I64Of, U64Of, U16Of, OmiOf, TextAt, NumberAt, WholeAt, CountAt, CodeAt, AnyAt;
    hide MetaOf, RingOf, ItemsOf, ObjectsOf, WritesOf, RidsOf, ResultOf, TakeOfInfo;
    if ms.Member? {
      InfoSets(lib, l, ms.key, ms.val, room);
      TypedIs(lib, InfoFields(l), ms.key, ms.val, room);
      Scalars(lib, ms.val, room);
      InfoTaken(lib, Take(lib, InfoFields(l), ms.key, ms.val, room).value.info, ms.tail, room);
    }
  }

  lemma {:induction false} ObjectTaken(lib: FloatLib, l: ObjectLocals, ms: Members, room: nat)
    requires TakeAll(lib, ObjectFields(l), ms, room).Some?
    ensures TakeAll(lib, ObjectFields(l), ms, room).value.ObjectFields?
    ensures var r := TakeAll(lib, ObjectFields(l), ms, room).value.node;
            && r.id == Else(Last(ms, "id"), TextAt(Last(ms, "id")), l.id)
            && r.typeUri == Else(LastSet(ms, "type"), TextAt(LastSet(ms, "type")), l.typeUri)
            && r.desc == Else(LastSet(ms, "desc"), TextAt(LastSet(ms, "desc")), l.desc)
            && r.items == Else(LastSet(ms, "items"), ItemsAt(lib, LastSet(ms, "items"), room), l.items)
            && r.objects == Else(LastSet(ms, "objects"), ObjectsAt(lib, LastSet(ms, "objects"), room), l.objects)
    decreases ms
  {
    hide Take, Height, StringOf, F64Of, I64Of, U64Of, U16Of, OmiOf, TextAt, NumberAt, WholeAt, CountAt, CodeAt, AnyAt;
    hide MetaOf, RingOf, ItemsOf, ObjectsOf, WritesOf, RidsOf, ResultOf, TakeOfObject;
    if ms.Member? {
      ObjectSets(lib, l, ms.key, ms.val, room);
      TypedIs(lib, ObjectFields(l), ms.key, ms.val, room);
      Scalars(lib, ms.val, room);
      ObjectTaken(lib, Take(lib, ObjectFields(l), ms.key, ms.val, room).value.node, ms.tail, room);
    }
  }

  lemma {:induction false} ReadTaken(lib: FloatLib, l: Omi.ReadOp, ms: Members, room: nat)
    requires TakeAll(lib, ReadFields(l), ms, room).Some?
    ensures TakeAll(lib, ReadFields(l), ms, room).value.ReadFields?
    ensures var r := TakeAll(lib, ReadFields(l), ms, room).value.read;
            && r.path == Else(Last(ms, "path"), TextAt(Last(ms, "path")), l.path)
            && r.rid == Else(Last(ms, "rid"), TextAt(Last(ms, "rid")), l.rid)
            && r.newest == Else(Last(ms, "newest"), CountAt(lib, Last(ms, "newest")), l.newest)
            && r.oldest == Else(Last(ms, "oldest"), CountAt(lib, Last(ms, "oldest")), l.oldest)
            && r.begin == Else(Last(ms, "begin"), NumberAt(lib, Last(ms, "begin")), l.begin)
            && r.end == Else(Last(ms, "end"), NumberAt(lib, Last(ms, "end")), l.end)
            && r.depth == Else(Last(ms, "depth"), CountAt(lib, Last(ms, "depth")), l.depth)
            && r.interval == Else(Last(ms, "interval"), NumberAt(lib, Last(ms, "interval")), l.interval)
            && r.callback == Else(Last(ms, "callback"), TextAt(Last(ms, "callback")), l.callback)
    decreases ms
  {
    hide Take, Height, StringOf, F64Of, I64Of, U64Of, U16Of, OmiOf, TextAt, NumberAt, WholeAt, CountAt, CodeAt, AnyAt;
    hide MetaOf, RingOf, ItemsOf, ObjectsOf, WritesOf, RidsOf, ResultOf, TakeOfRead;
    if ms.Member? {
      ReadSets(lib, l, ms.key, ms.val, room);
      TypedIs(lib, ReadFields(l), ms.key, ms.val, room);
      Scalars(lib, ms.val, room);
      ReadTaken(lib, Take(lib, ReadFields(l), ms.key, ms.val, room).value.read, ms.tail, room);
    }
  }

  lemma {:induction false} WriteTaken(lib: FloatLib, l: WriteLocals, ms: Members, room: nat)
    requires TakeAll(lib, WriteFields(l), ms, room).Some?
    ensures TakeAll(lib, WriteFields(l), ms, room).value.WriteFields?
    ensures var r := TakeAll(lib, WriteFields(l), ms, room).value.write;
            && r.path == Else(Last(ms, "path"), TextAt(Last(ms, "path")), l.path)
            && r.v == Else(Last(ms, "v"), AnyAt(lib, Last(ms, "v")), l.v)
            && r.t == Else(Last(ms, "t"), NumberAt(lib, Last(ms, "t")), l.t)
            && r.items == Else(Last(ms, "items"), WritesAt(lib, Last(ms, "items"), room), l.items)
            && r.objects == Else(Last(ms, "objects"), ObjectsAt(lib, Last(ms, "objects"), room), l.objects)
    decreases ms
  {
    hide Take, Height, StringOf, F64Of, I64Of, U64Of, U16Of, OmiOf, TextAt, NumberAt, WholeAt, CountAt, CodeAt, AnyAt;
    hide MetaOf, RingOf, ItemsOf, ObjectsOf, WritesOf, RidsOf, ResultOf, TakeOfWrite;
    if ms.Member? {
      WriteSets(lib, l, ms.key, ms.val, room);
      TypedIs(lib, WriteFields(l), ms.key, ms.val, room);
      Scalars(lib, ms.val, room);
      WriteTaken(lib, Take(lib, WriteFields(l), ms.key, ms.val, room).value.write, ms.tail, room);
    }
  }

  lemma {:induction false} WriteItemTaken(lib: FloatLib, l: WriteItemLocals, ms: Members, room: nat)
    requires TakeAll(lib, WriteItemFields(l), ms, room).Some?
    ensures TakeAll(lib, WriteItemFields(l), ms, room).value.WriteItemFields?
    ensures var r := TakeAll(lib, WriteItemFields(l), ms, room).value.item;
            && r.path == Else(Last(ms, "path"), TextAt(Last(ms, "path")), l.path)
            && r.v == Else(Last(ms, "v"), AnyAt(lib, Last(ms, "v")), l.v)
            && r.t == Else(Last(ms, "t"), NumberAt(lib, Last(ms, "t")), l.t)
    decreases ms
  {
    hide Take, Height, StringOf, F64Of, I64Of, U64Of, U16Of, OmiOf, TextAt, NumberAt, WholeAt, CountAt, CodeAt, AnyAt;
    hide MetaOf, RingOf, ItemsOf, ObjectsOf, WritesOf, RidsOf, ResultOf, TakeOfWriteItem;
    if ms.Member? {
      WriteItemSets(lib, l, ms.key, ms.val, room);
      TypedIs(lib, WriteItemFields(l), ms.key, ms.val, room);
      Scalars(lib, ms.val, room);
      WriteItemTaken(lib, Take(lib, WriteItemFields(l), ms.key, ms.val, room).value.item, ms.tail, room);
    }
  }

  lemma {:induction false} ResponseTaken(lib: FloatLib, l: ResponseLocals, ms: Members, room: nat)
    requires TakeAll(lib, ResponseFields(l), ms, room).Some?
    ensures TakeAll(lib, ResponseFields(l), ms, room).value.ResponseFields?
    ensures var r := TakeAll(lib, ResponseFields(l), ms, room).value.response;
            && r.status == Else(Last(ms, "status"), CodeAt(lib, Last(ms, "status")), l.status)
            && r.rid == Else(Last(ms, "rid"), TextAt(Last(ms, "rid")), l.rid)
            && r.desc == Else(Last(ms, "desc"), TextAt(Last(ms, "desc")), l.desc)
            && r.result == Else(Last(ms, "result"), ResultAt(lib, Last(ms, "result"), room), l.result)
    decreases ms
  {
    hide Take, Height, StringOf, F64Of, I64Of, U64Of, U16Of, OmiOf, TextAt, NumberAt, WholeAt, CountAt, CodeAt, AnyAt;
    hide MetaOf, RingOf, ItemsOf, ObjectsOf, WritesOf, RidsOf, ResultOf, TakeOfResponse;
    if ms.Member? {
      ResponseSets(lib, l, ms.key, ms.val, room);
      TypedIs(lib, ResponseFields(l), ms.key, ms.val, room);
      Scalars(lib, ms.val, room);
      ResponseTaken(lib, Take(lib, ResponseFields(l), ms.key, ms.val, room).value.response, ms.tail, room);
    }
  }

  lemma {:induction false} StatusTaken(lib: FloatLib, l: StatusLocals, ms: Members, room: nat)
    requires TakeAll(lib, StatusFields(l), ms, room).Some?
    ensures TakeAll(lib, StatusFields(l), ms, room).value.StatusFields?
    ensures var r := TakeAll(lib, StatusFields(l), ms, room).value.status;
            && r.path == Else(Last(ms, "path"), TextAt(Last(ms, "path")), l.path)
            && r.status == Else(Last(ms, "status"), CodeAt(lib, Last(ms, "status")), l.status)
            && r.desc == Else(Last(ms, "desc"), TextAt(Last(ms, "desc")), l.desc)
    decreases ms
  {
    hide Take, Height, StringOf, F64Of, I64Of, U64Of, U16Of, OmiOf, TextAt, NumberAt, WholeAt, CountAt, CodeAt, AnyAt;
    hide MetaOf, RingOf, ItemsOf, ObjectsOf, WritesOf, RidsOf, ResultOf, TakeOfStatus;
    if ms.Member? {
      StatusSets(lib, l, ms.key, ms.val, room);
      TypedIs(lib, StatusFields(l), ms.key, ms.val, room);
      Scalars(lib, ms.val, room);
      StatusTaken(lib, Take(lib, StatusFields(l), ms.key, ms.val, room).value.status, ms.tail, room);
    }
  }

  lemma NothingAt(lib: FloatLib)
    ensures TextAt(None) == None && NumberAt(lib, None) == None && WholeAt(lib, None) == None
    ensures CountAt(lib, None) == None && CodeAt(lib, None) == None && AnyAt(lib, None) == None
  {
  }

  lemma {:induction false} DeleteTaken(lib: FloatLib, l: Option<string>, ms: Members, room: nat)
    requires TakeAll(lib, DeleteFields(l), ms, room).Some?
    ensures TakeAll(lib, DeleteFields(l), ms, room).value == DeleteFields(Else(Last(ms, "path"), TextAt(Last(ms, "path")), l))
    decreases ms
  {
    hide Take, Height, TextAt;
    if ms.Member? {
      OneKeySets(lib, DeleteFields(l), ms.key, ms.val, room);
      Scalars(lib, ms.val, room);
      DeleteTaken(lib, Take(lib, DeleteFields(l), ms.key, ms.val, room).value.path, ms.tail, room);
    }
  }

  lemma {:induction false} CancelTaken(lib: FloatLib, l: Option<seq<string>>, ms: Members, room: nat)
    requires TakeAll(lib, CancelFields(l), ms, room).Some?
    ensures TakeAll(lib, CancelFields(l), ms, room).value == CancelFields(Else(Last(ms, "rid"), RidsAt(lib, Last(ms, "rid"), room), l))
    decreases ms
  {
    hide Take, Height, RidsOf;
    if ms.Member? {
      OneKeySets(lib, CancelFields(l), ms.key, ms.val, room);
      CancelTaken(lib, Take(lib, CancelFields(l), ms.key, ms.val, room).value.rids, ms.tail, room);
    }
  }

  // ----- maps: every member is one entry -----

  lemma {:induction false} MetaTaken(lib: FloatLib, m: map<string, OmiValue>, ms: Members, room: nat)
    requires TakeAll(lib, MetaFields(m), ms, room).Some?
    ensures TakeAll(lib, MetaFields(m), ms, room).value.MetaFields?
    ensures var r := TakeAll(lib, MetaFields(m), ms, room).value.entries;
            && (forall k :: k in r <==> Last(ms, k).Some? || k in m)
            && (forall k | k in r :: Some(r[k]) == if Last(ms, k).Some? then AnyAt(lib, Last(ms, k)) else Some(m[k]))
    decreases ms
  {
    hide Height, OmiOf, AnyAt;
    if ms.Member? {
      Scalars(lib, ms.val, room);
      var x := OmiOf(lib, ms.val, room);
      assert Take(lib, MetaFields(m), ms.key, ms.val, room) == Some(MetaFields(m[ms.key := x.value]));
      MetaTaken(lib, m[ms.key := x.value], ms.tail, room);
    }
  }

  lemma {:induction false} ItemsTaken(lib: FloatLib, m: map<string, InfoItem>, ms: Members, room: nat)
    requires TakeAll(lib, ItemsFields(m), ms, room).Some?
    ensures TakeAll(lib, ItemsFields(m), ms, room).value.ItemsFields?
    ensures var r := TakeAll(lib, ItemsFields(m), ms, room).value.items;
            && (forall k :: k in r <==> Last(ms, k).Some? || k in m)
            && (forall k | k in r :: Some(r[k]) == if Last(ms, k).Some? then InfoOf(lib, Last(ms, k).value, room) else Some(m[k]))
    decreases ms
  {
    hide InfoOf;
    if ms.Member? {
      var x := InfoOf(lib, ms.val, room);
      assert Take(lib, ItemsFields(m), ms.key, ms.val, room) == Some(ItemsFields(m[ms.key := x.value]));
      ItemsTaken(lib, m[ms.key := x.value], ms.tail, room);
    }
  }

  lemma {:induction false} ObjectsTaken(lib: FloatLib, m: Objects, ms: Members, room: nat)
    requires TakeAll(lib, ObjectsFields(m), ms, room).Some?
    ensures TakeAll(lib, ObjectsFields(m), ms, room).value.ObjectsFields?
    ensures var r := TakeAll(lib, ObjectsFields(m), ms, room).value.objects;
            && (forall k :: k in r <==> Last(ms, k).Some? || k in m)
            && (forall k | k in r :: Some(r[k]) == if Last(ms, k).Some? then ObjectOf(lib, Last(ms, k).value, room) else Some(m[k]))
    decreases ms
  {
    hide ObjectOf;
    if ms.Member? {
      var x := ObjectOf(lib, ms.val, room);
      assert Take(lib, ObjectsFields(m), ms.key, ms.val, room) == Some(ObjectsFields(m[ms.key := x.value]));
      ObjectsTaken(lib, m[ms.key := x.value], ms.tail, room);
    }
  }

  // ----- the envelope -----

  /** `key` is the one operation among the members. */
  predicate OnlyOperation(ms: Members, key: string) {
    && key in {"read", "write", "delete", "cancel", "response"} && Last(ms, key).Some?
    && forall k | k in {"read", "write", "delete", "cancel", "response"} && k != key :: Last(ms, k).None?
  }

  function OperationAt(lib: FloatLib, key: string, j: Option<Json>, room: nat): Option<Omi.Operation>
    requires key in OPERATIONS
  {
    if j.Some? then OperationOf(lib, key, j.value, room) else None
  }

  lemma {:induction false} EnvelopeTaken(lib: FloatLib, l: EnvelopeLocals, ms: Members, room: nat)
    requires TakeAll(lib, EnvelopeFields(l), ms, room).Some?
    ensures TakeAll(lib, EnvelopeFields(l), ms, room).value.EnvelopeFields?
    ensures var r := TakeAll(lib, EnvelopeFields(l), ms, room).value.envelope;
            && r.version == Else(Last(ms, "omi"), TextAt(Last(ms, "omi")), l.version)
            && r.ttl == Else(Last(ms, "ttl"), WholeAt(lib, Last(ms, "ttl")), l.ttl)
            && (forall k :: k in r.seen <==> k in l.seen || (k in OPERATIONS && Last(ms, k).Some?))
    decreases ms
  {
    hide Take, Height, OperationOf, TextAt, WholeAt, I64Of, StringOf, TakeOfEnvelope;
    if ms.Member? {
      EnvelopeSets(lib, l, ms.key, ms.val, room);
      Scalars(lib, ms.val, room);
      EnvelopeTaken(lib, Take(lib, EnvelopeFields(l), ms.key, ms.val, room).value.envelope, ms.tail, room);
    }
  }

  lemma {:induction false} OperationTaken(lib: FloatLib, l: EnvelopeLocals, ms: Members, key: string, room: nat)
    requires TakeAll(lib, EnvelopeFields(l), ms, room).Some? && key in OPERATIONS
    requires forall k | k in OPERATIONS && k != key :: Last(ms, k).None?
    ensures TakeAll(lib, EnvelopeFields(l), ms, room).value.EnvelopeFields?
    ensures TakeAll(lib, EnvelopeFields(l), ms, room).value.envelope.operation ==
            Else(Last(ms, key), OperationAt(lib, key, Last(ms, key), room), l.operation)
    decreases ms
  {
    hide Take, Height, OperationOf, I64Of, StringOf, TakeOfEnvelope;
    if ms.Member? {
      EnvelopeSets(lib, l, ms.key, ms.val, room);
      assert Last(ms, ms.key).Some?;
      assert forall k | Last(ms, k).None? :: Last(ms.tail, k).None?;
      OperationTaken(lib, Take(lib, EnvelopeFields(l), ms.key, ms.val, room).value.envelope, ms.tail, key, room);
    }
  }

  // ----- the types of the members that count -----

  lemma {:induction false} LastTyped(lib: FloatLib, f: Fields, ms: Members, key: string, room: nat)
    requires AllTyped(lib, f, ms, room)
    ensures Last(ms, key).Some? ==> Typed(lib, f, key, Last(ms, key).value, room)
    ensures LastSet(ms, key).Some? ==> Typed(lib, f, key, LastSet(ms, key).value, room) && !LastSet(ms, key).value.JNull?
    decreases ms
  {
    hide Typed;
    if ms.Member? {
      LastTyped(lib, f, ms.tail, key, room);
    }
  }

  // ----- operations -----

  /** A read names exactly one of a path and a request, whatever else it gives. */
  lemma ReadMeans(lib: FloatLib, ms: Members, room: nat)
    ensures var r := OperationOf(lib, "read", JObj(ms), room);
            && (r.Some? <==> AllTyped(lib, NO_READ, ms, room) && (Last(ms, "path").Some? <==> Last(ms, "rid").None?))
            && (r.Some? ==> r.value == Omi.Read(Omi.ReadOp(
                    TextAt(Last(ms, "path")), TextAt(Last(ms, "rid")),
                    CountAt(lib, Last(ms, "newest")), CountAt(lib, Last(ms, "oldest")),
                    NumberAt(lib, Last(ms, "begin")), NumberAt(lib, Last(ms, "end")),
                    CountAt(lib, Last(ms, "depth")), NumberAt(lib, Last(ms, "interval")), TextAt(Last(ms, "callback")))))
  {
    hide TakeAll, NumberAt, CountAt, AllTyped, Last;
    ReadIffTyped(lib, NO_READ, ms, room);
    if AllTyped(lib, NO_READ, ms, room) {
      ReadTaken(lib, NO_READ.read, ms, room);
      LastTyped(lib, NO_READ, ms, "path", room);
      LastTyped(lib, NO_READ, ms, "rid", room);
      NothingAt(lib);
    }
  }

  /** A delete names a path that starts with a slash and is not the root. */
  lemma DeleteMeans(lib: FloatLib, ms: Members, room: nat)
    ensures var r, path := OperationOf(lib, "delete", JObj(ms), room), TextAt(Last(ms, "path"));
            && (r.Some? <==> AllTyped(lib, DeleteFields(None), ms, room)
                             && path.Some? && |path.value| > 1 && path.value[0] == '/')
            && (r.Some? ==> r.value == Omi.Delete(path.value))
  {
    hide TakeAll, AllTyped, Last;
    ReadIffTyped(lib, DeleteFields(None), ms, room);
    if AllTyped(lib, DeleteFields(None), ms, room) {
      DeleteTaken(lib, None, ms, room);
    }
  }

  /** A cancel lists at least one request. */
  lemma CancelMeans(lib: FloatLib, ms: Members, room: nat)
    ensures var r, rids := OperationOf(lib, "cancel", JObj(ms), room), RidsAt(lib, Last(ms, "rid"), room);
            && (r.Some? <==> AllTyped(lib, CancelFields(None), ms, room) && rids.Some? && |rids.value| > 0)
            && (r.Some? ==> r.value == Omi.Cancel(rids.value))
  {
    hide TakeAll, AllTyped, Last, RidsOf;
    ReadIffTyped(lib, CancelFields(None), ms, room);
    if AllTyped(lib, CancelFields(None), ms, room) {
      CancelTaken(lib, None, ms, room);
    }
  }

  /** A write has exactly one of a value, a list of items that is not empty, and a tree;
      a value or a tree goes to a path, and a tree is nested at most eight deep. */
  lemma WriteMeans(lib: FloatLib, ms: Members, room: nat)
    ensures var r, path := OperationOf(lib, "write", JObj(ms), room), TextAt(Last(ms, "path"));
            var v, items, tree := AnyAt(lib, Last(ms, "v")), WritesAt(lib, Last(ms, "items"), room), ObjectsAt(lib, Last(ms, "objects"), room);
            && (r.Some? <==>
                  && AllTyped(lib, NO_WRITE, ms, room)
                  && (|| (v.Some? && items.None? && tree.None? && path.Some?)
                      || (v.None? && items.Some? && tree.None? && |items.value| > 0)
                      || (v.None? && items.None? && tree.Some? && path.Some? && WithinDepth(tree.value, 8))))
            && (r.Some? ==> r.value == Omi.Write(
                    if v.Some? then Omi.Single(path.value, v.value, NumberAt(lib, Last(ms, "t")))
                    else if items.Some? then Omi.Batch(items.value) else Omi.Tree(path.value, tree.value)))
  {
    hide TakeAll, AllTyped, Last, WritesOf, ObjectsOf, NumberAt, AnyAt, WithinDepth;
    ReadIffTyped(lib, NO_WRITE, ms, room);
    if AllTyped(lib, NO_WRITE, ms, room) {
      WriteTaken(lib, NO_WRITE.write, ms, room);
      NothingAt(lib);
    }
  }

  lemma WriteItemMeans(lib: FloatLib, ms: Members, room: nat)
    ensures var r := WriteItemOf(lib, JObj(ms), room);
            && (r.Some? <==> AllTyped(lib, NO_WRITE_ITEM, ms, room) && Last(ms, "path").Some? && Last(ms, "v").Some?)
            && (r.Some? ==> Some(r.value.path) == TextAt(Last(ms, "path")) && Some(r.value.v) == AnyAt(lib, Last(ms, "v"))
                            && r.value.t == NumberAt(lib, Last(ms, "t")))
  {
    hide TakeAll, AllTyped, Last, NumberAt, AnyAt;
    ReadIffTyped(lib, NO_WRITE_ITEM, ms, room);
    if AllTyped(lib, NO_WRITE_ITEM, ms, room) {
      WriteItemTaken(lib, NO_WRITE_ITEM.item, ms, room);
      LastTyped(lib, NO_WRITE_ITEM, ms, "path", room);
      NothingAt(lib);
      if Last(ms, "v").Some? {
        SomeAt(lib, Last(ms, "v").value);
      }
    }
  }

  lemma StatusMeans(lib: FloatLib, ms: Members, room: nat)
    ensures var r := StatusOf(lib, JObj(ms), room);
            && (r.Some? <==> AllTyped(lib, NO_STATUS, ms, room) && Last(ms, "path").Some? && Last(ms, "status").Some?)
            && (r.Some? ==> Some(r.value.path) == TextAt(Last(ms, "path")) && Some(r.value.status) == CodeAt(lib, Last(ms, "status"))
                            && r.value.desc == TextAt(Last(ms, "desc")))
  {
    hide TakeAll, AllTyped, Last, CodeAt;
    ReadIffTyped(lib, NO_STATUS, ms, room);
    if AllTyped(lib, NO_STATUS, ms, room) {
      StatusTaken(lib, NO_STATUS.status, ms, room);
      LastTyped(lib, NO_STATUS, ms, "path", room);
      LastTyped(lib, NO_STATUS, ms, "status", room);
      NothingAt(lib);
    }
  }

  lemma ResponseMeans(lib: FloatLib, ms: Members, room: nat)
    ensures var r := OperationOf(lib, "response", JObj(ms), room);
            && (r.Some? <==> AllTyped(lib, NO_RESPONSE, ms, room) && Last(ms, "status").Some?)
            && (r.Some? ==> r.value.Response? && Some(r.value.body.status) == CodeAt(lib, Last(ms, "status"))
                            && r.value.body.rid == TextAt(Last(ms, "rid")) && r.value.body.desc == TextAt(Last(ms, "desc"))
                            && r.value.body.result == ResultAt(lib, Last(ms, "result"), room))
  {
    hide TakeAll, AllTyped, Last, CodeAt, ResultOf;
    ReadIffTyped(lib, NO_RESPONSE, ms, room);
    if AllTyped(lib, NO_RESPONSE, ms, room) {
      ResponseTaken(lib, NO_RESPONSE.response, ms, room);
      LastTyped(lib, NO_RESPONSE, ms, "status", room);
      NothingAt(lib);
    }
  }

  /** A message has the version "1.0", a time to live, and one kind of operation. */
  lemma MessageMeans(lib: FloatLib, ms: Members)
    ensures MessageOf(lib, JObj(ms)).Some? <==>
      && AllTyped(lib, NO_ENVELOPE, ms, 32) && Last(ms, "omi") == Some(JStr("1.0")) && Last(ms, "ttl").Some?
      && exists key :: OnlyOperation(ms, key)
    ensures forall key :: MessageOf(lib, JObj(ms)).Some? && OnlyOperation(ms, key) ==>
      var m := MessageOf(lib, JObj(ms)).value;
      && m.version == "1.0" && Some(m.ttl) == WholeAt(lib, Last(ms, "ttl"))
      && Some(m.operation) == OperationOf(lib, key, Last(ms, key).value, 32)
  {
    hide TakeAll, AllTyped, Last, WholeAt, OperationOf;
    ReadIffTyped(lib, NO_ENVELOPE, ms, 32);
    if AllTyped(lib, NO_ENVELOPE, ms, 32) {
      EnvelopeTaken(lib, NO_ENVELOPE.envelope, ms, 32);
      LastTyped(lib, NO_ENVELOPE, ms, "ttl", 32);
      NothingAt(lib);
      var e := TakeAll(lib, NO_ENVELOPE, ms, 32).value.envelope;
      OneSeen(ms, e.seen);
      forall key | OnlyOperation(ms, key)
        ensures e.operation == OperationOf(lib, key, Last(ms, key).value, 32) && e.operation.Some?
      {
        OperationTaken(lib, NO_ENVELOPE.envelope, ms, key, 32);
        LastTyped(lib, NO_ENVELOPE, ms, key, 32);
      }
    }
  }

  lemma OneSeen(ms: Members, seen: set<string>)
    requires forall k :: k in seen <==> k in OPERATIONS && Last(ms, k).Some?
    ensures |seen| == 1 <==> exists key :: OnlyOperation(ms, key)
  {
    hide Last;
    if |seen| == 1 {
      var key :| key in seen;
      assert |seen - {key}| == 0;
      assert forall k | k in seen :: k == key || k in seen - {key};
      assert OnlyOperation(ms, key);
    }
    if key :| OnlyOperation(ms, key) {
      assert seen == {key};
    }
  }

  // ----- O-DF data -----

  lemma ValueMeans(lib: FloatLib, ms: Members, room: nat)
    ensures var r := ValueOf(lib, JObj(ms), room);
            && (r.Some? <==> room > 0 && AllTyped(lib, NO_VALUE, ms, room - 1) && Last(ms, "v").Some?)
            && (r.Some? ==> Some(r.value.v) == AnyAt(lib, Last(ms, "v")) && r.value.t == NumberAt(lib, LastSet(ms, "t")))
  {
    hide TakeAll, AllTyped, Last, LastSet, NumberAt, AnyAt;
    if room > 0 {
      ReadIffTyped(lib, NO_VALUE, ms, room - 1);
      if AllTyped(lib, NO_VALUE, ms, room - 1) {
        ValueTaken(lib, NO_VALUE.value, ms, room - 1);
        NothingAt(lib);
        if Last(ms, "v").Some? {
          SomeAt(lib, Last(ms, "v").value);
        }
      }
    }
  }

  lemma MetaMeans(lib: FloatLib, ms: Members, room: nat)
    ensures var r := MetaOf(lib, JObj(ms), room);
            && (r.Some? <==> room > 0 && AllTyped(lib, MetaFields(map[]), ms, room - 1))
            && (r.Some? ==> && (forall k :: k in r.value <==> Last(ms, k).Some?)
                            && (forall k | k in r.value :: Some(r.value[k]) == AnyAt(lib, Last(ms, k))))
  {
    hide TakeAll, AllTyped, Last, AnyAt;
    if room > 0 {
      ReadIffTyped(lib, MetaFields(map[]), ms, room - 1);
      if AllTyped(lib, MetaFields(map[]), ms, room - 1) {
        MetaTaken(lib, map[], ms, room - 1);
      }
    }
  }

  lemma InfoMeans(lib: FloatLib, ms: Members, room: nat)
    ensures var r := InfoOf(lib, JObj(ms), room);
            && (r.Some? <==> room > 0 && AllTyped(lib, NO_INFO, ms, room - 1) && Last(ms, "values").Some?)
            && (r.Some? ==> && r.value.typeUri == TextAt(LastSet(ms, "type")) && r.value.desc == TextAt(LastSet(ms, "desc"))
                            && r.value.meta == MetaAt(lib, LastSet(ms, "meta"), room - 1)
                            && Some(r.value.values) == RingAt(lib, Last(ms, "values"), room - 1))
  {
    hide TakeAll, AllTyped, Last, LastSet, MetaOf, RingOf;
    if room > 0 {
      ReadIffTyped(lib, NO_INFO, ms, room - 1);
      if AllTyped(lib, NO_INFO, ms, room - 1) {
        InfoTaken(lib, NO_INFO.info, ms, room - 1);
        LastTyped(lib, NO_INFO, ms, "values", room - 1);
        NothingAt(lib);
      }
    }
  }

  lemma ItemsMean(lib: FloatLib, ms: Members, room: nat)
    ensures var r := ItemsOf(lib, JObj(ms), room);
            && (r.Some? <==> room > 0 && AllTyped(lib, ItemsFields(map[]), ms, room - 1))
            && (r.Some? ==> && (forall k :: k in r.value <==> Last(ms, k).Some?)
                            && (forall k | k in r.value :: Some(r.value[k]) == InfoOf(lib, Last(ms, k).value, room - 1)))
  {
    hide TakeAll, AllTyped, Last, InfoOf;
    if room > 0 {
      ReadIffTyped(lib, ItemsFields(map[]), ms, room - 1);
      if AllTyped(lib, ItemsFields(map[]), ms, room - 1) {
        ItemsTaken(lib, map[], ms, room - 1);
      }
    }
  }

  lemma ObjectMeans(lib: FloatLib, ms: Members, room: nat)
    ensures var r := ObjectOf(lib, JObj(ms), room);
            && (r.Some? <==> room > 0 && AllTyped(lib, NO_OBJECT, ms, room - 1) && Last(ms, "id").Some?)
            && (r.Some? ==> && Some(r.value.id) == TextAt(Last(ms, "id"))
                            && r.value.typeUri == TextAt(LastSet(ms, "type")) && r.value.desc == TextAt(LastSet(ms, "desc"))
                            && r.value.items == ItemsAt(lib, LastSet(ms, "items"), room - 1)
                            && r.value.objects == ObjectsAt(lib, LastSet(ms, "objects"), room - 1))
  {
    hide TakeAll, AllTyped, Last, LastSet, ItemsOf, ObjectsOf;
    if room > 0 {
      ReadIffTyped(lib, NO_OBJECT, ms, room - 1);
      if AllTyped(lib, NO_OBJECT, ms, room - 1) {
        ObjectTaken(lib, NO_OBJECT.node, ms, room - 1);
        LastTyped(lib, NO_OBJECT, ms, "id", room - 1);
        NothingAt(lib);
      }
    }
  }

  lemma ObjectsMean(lib: FloatLib, ms: Members, room: nat)
    ensures var r := ObjectsOf(lib, JObj(ms), room);
            && (r.Some? <==> room > 0 && AllTyped(lib, ObjectsFields(map[]), ms, room - 1))
            && (r.Some? ==> && (forall k :: k in r.value <==> Last(ms, k).Some?)
                            && (forall k | k in r.value :: Some(r.value[k]) == ObjectOf(lib, Last(ms, k).value, room - 1)))
  {
    hide TakeAll, AllTyped, Last, ObjectOf;
    if room > 0 {
      ReadIffTyped(lib, ObjectsFields(map[]), ms, room - 1);
      if AllTyped(lib, ObjectsFields(map[]), ms, room - 1) {
        ObjectsTaken(lib, map[], ms, room - 1);
      }
    }
  }

  /** Anything that is not an object means none of these. */
  lemma OnlyObjectsMean(lib: FloatLib, j: Json, key: string, room: nat)
    requires !j.JObj?
    ensures MessageOf(lib, j).None? && (key in OPERATIONS ==> OperationOf(lib, key, j, room).None?)
    ensures ObjectOf(lib, j, room).None? && ObjectsOf(lib, j, room).None? && ItemsOf(lib, j, room).None?
    ensures InfoOf(lib, j, room).None? && MetaOf(lib, j, room).None? && ValueOf(lib, j, room).None?
    ensures WriteItemOf(lib, j, room).None? && StatusOf(lib, j, room).None?
  {
  }

  // ----- arrays -----

  function Listed(es: Elems): seq<Json> { if es.NoElems? then [] else [es.head] + Listed(es.tail) }

  lemma {:induction false} ValuesTaken(lib: FloatLib, vs: seq<Value>, es: Elems, room: nat)
    ensures var r, js := TakeElems(lib, ValueItems(vs), es, room), Listed(es);
            && (r.Some? <==> forall j | j in js :: ValueOf(lib, j, room).Some?)
            && (r.Some? ==> r.value.ValueItems? && |r.value.values| == |vs| + |js| && vs <= r.value.values
                            && forall i | 0 <= i < |js| :: ValueOf(lib, js[i], room) == Some(r.value.values[|vs| + i]))
    decreases es
  {
    hide ValueOf;
    if es.Elem? {
      var x := ValueOf(lib, es.head, room);
      assert TakeElem(lib, ValueItems(vs), es.head, room) == if x.Some? then Some(ValueItems(vs + [x.value])) else None;
      assert es.head in Listed(es) && forall j | j in Listed(es.tail) :: j in Listed(es);
      if x.Some? {
        ValuesTaken(lib, vs + [x.value], es.tail, room);
      }
    }
  }

  /** A history: the values listed newest first, and as many places as values. */
  lemma RingMeans(lib: FloatLib, es: Elems, room: nat)
    ensures var r, js := RingOf(lib, JArr(es), room), Listed(es);
            && (r.Some? <==> room > 0 && forall j | j in js :: ValueOf(lib, j, room - 1).Some?)
            && (r.Some? ==> && |r.value.vals| == |js| && r.value.capacity == (if js == [] then 1 else |js|)
                            && forall i | 0 <= i < |js| :: ValueOf(lib, js[|js| - 1 - i], room - 1) == Some(r.value.vals[i]))
  {
    hide ValueOf, TakeElems, PushAll;
    if room > 0 {
      ValuesTaken(lib, [], es, room - 1);
      var t := TakeElems(lib, ValueItems([]), es, room - 1);
      if t.Some? {
        var xs := t.value.values;
        ReversedAt(xs);
        PushAllFits(NewRing(if xs == [] then 1 else |xs|), Reverse(xs));
      }
    }
  }

  lemma {:induction false} ReversedAt<T>(s: seq<T>)
    ensures |Reverse(s)| == |s| && forall i | 0 <= i < |s| :: Reverse(s)[i] == s[|s| - 1 - i]
    decreases |s|
  {
    if s != [] {
      ReversedAt(s[1..]);
    }
  }

  lemma {:induction false} WritesTaken(lib: FloatLib, ws: seq<Omi.WriteItem>, es: Elems, room: nat)
    ensures var r, js := TakeElems(lib, WriteItems(ws), es, room), Listed(es);
            && (r.Some? <==> forall j | j in js :: WriteItemOf(lib, j, room).Some?)
            && (r.Some? ==> r.value.WriteItems? && |r.value.writes| == |ws| + |js| && ws <= r.value.writes
                            && forall i | 0 <= i < |js| :: WriteItemOf(lib, js[i], room) == Some(r.value.writes[|ws| + i]))
    decreases es
  {
    hide WriteItemOf;
    if es.Elem? {
      var x := WriteItemOf(lib, es.head, room);
      assert TakeElem(lib, WriteItems(ws), es.head, room) == if x.Some? then Some(WriteItems(ws + [x.value])) else None;
      assert es.head in Listed(es) && forall j | j in Listed(es.tail) :: j in Listed(es);
      if x.Some? {
        WritesTaken(lib, ws + [x.value], es.tail, room);
      }
    }
  }

  lemma {:induction false} StatusesTaken(lib: FloatLib, ss: seq<Omi.ItemStatus>, es: Elems, room: nat)
    ensures var r, js := TakeElems(lib, StatusItems(ss), es, room), Listed(es);
            && (r.Some? <==> forall j | j in js :: StatusOf(lib, j, room).Some?)
            && (r.Some? ==> r.value.StatusItems? && |r.value.statuses| == |ss| + |js| && ss <= r.value.statuses
                            && forall i | 0 <= i < |js| :: StatusOf(lib, js[i], room) == Some(r.value.statuses[|ss| + i]))
    decreases es
  {
    hide StatusOf;
    if es.Elem? {
      var x := StatusOf(lib, es.head, room);
      assert TakeElem(lib, StatusItems(ss), es.head, room) == if x.Some? then Some(StatusItems(ss + [x.value])) else None;
      assert es.head in Listed(es) && forall j | j in Listed(es.tail) :: j in Listed(es);
      if x.Some? {
        StatusesTaken(lib, ss + [x.value], es.tail, room);
      }
    }
  }

  lemma {:induction false} RidsTaken(lib: FloatLib, rs: seq<string>, es: Elems, room: nat)
    ensures var r, js := TakeElems(lib, RidItems(rs), es, room), Listed(es);
            && (r.Some? <==> forall j | j in js :: j.JStr?)
            && (r.Some? ==> r.value.RidItems? && |r.value.rids| == |rs| + |js| && rs <= r.value.rids
                            && forall i | 0 <= i < |js| :: js[i] == JStr(r.value.rids[|rs| + i]))
    decreases es
  {
    if es.Elem? {
      var x := StringOf(es.head);
      assert TakeElem(lib, RidItems(rs), es.head, room) == if x.Some? then Some(RidItems(rs + [x.value])) else None;
      assert es.head in Listed(es) && forall j | j in Listed(es.tail) :: j in Listed(es);
      if x.Some? {
        RidsTaken(lib, rs + [x.value], es.tail, room);
      }
    }
  }

  /** The lists of a batch, of a cancel and of a result: each element in its place. */
  lemma ListsMean(lib: FloatLib, es: Elems, room: nat)
    ensures var js := Listed(es);
      && var w := WritesOf(lib, JArr(es), room);
         && (w.Some? <==> forall j | j in js :: WriteItemOf(lib, j, room).Some?)
         && (w.Some? ==> |w.value| == |js| && forall i | 0 <= i < |js| :: WriteItemOf(lib, js[i], room) == Some(w.value[i]))
    ensures var js := Listed(es);
      && var r := RidsOf(lib, JArr(es), room);
         && (r.Some? <==> forall j | j in js :: j.JStr?)
         && (r.Some? ==> |r.value| == |js| && forall i | 0 <= i < |js| :: js[i] == JStr(r.value[i]))
    ensures var js := Listed(es);
      && var r := ResultOf(lib, JArr(es), room);
         && (r.Some? <==> forall j | j in js :: StatusOf(lib, j, room).Some?)
         && (r.Some? ==> && r.value.StatusBatch? && |r.value.items| == |js|
                         && forall i | 0 <= i < |js| :: StatusOf(lib, js[i], room) == Some(r.value.items[i]))
  {
    hide TakeElems, WriteItemOf, StatusOf;
    WritesTaken(lib, [], es, room);
    RidsTaken(lib, [], es, room);
    StatusesTaken(lib, [], es, room);
  }

  lemma OnlyArraysMean(lib: FloatLib, j: Json, room: nat)
    requires !j.JArr?
    ensures RingOf(lib, j, room).None? && WritesOf(lib, j, room).None? && RidsOf(lib, j, room).None?
    ensures ResultOf(lib, j, room) == if Height(j) <= room then Some(Omi.SingleResult(Omi.NullPayload)) else None
  {
    hide Height;
  }
}
