/** Unknown members and the order of members do not matter to what an object means. */
module JsonOrder {
  import opened Wrappers
  import opened Floats
  import opened JsonGrammar
  import opened JsonMeaning
  import Omi

  /** The keys each object parser looks for; in a map of named parts every key counts. */
  predicate KnownKey(f: Fields, key: string) {
    match f
    case ValueFields(_) => key in {"v", "t"}
    case InfoFields(_) => key in {"type", "desc", "meta", "values"}
    case ObjectFields(_) => key in {"id", "type", "desc", "items", "objects"}
    case ReadFields(_) =>
      key in {"path", "rid", "newest", "oldest", "begin", "end", "depth", "interval", "callback"}
    case WriteFields(_) => key in {"path", "v", "t", "items", "objects"}
    case WriteItemFields(_) => key in {"path", "v", "t"}
    case DeleteFields(_) => key == "path"
    case CancelFields(_) => key == "rid"
    case ResponseFields(_) => key in {"status", "rid", "desc", "result"}
    case StatusFields(_) => key in {"path", "status", "desc"}
    case EnvelopeFields(_) => key in OPERATIONS || key in {"omi", "ttl"}
    case _ => true
  }

  function InsertAt(ms: Members, n: nat, key: string, val: Json): Members {
    if n == 0 || ms.NoMembers? then Member(key, val, ms) else ms.(tail := InsertAt(ms.tail, n - 1, key, val))
  }

  lemma UnknownTaken(lib: FloatLib, f: Fields, key: string, val: Json, room: nat)
    requires !KnownKey(f, key)
    ensures Take(lib, f, key, val, room) == if Height(val) <= room then Some(f) else None
  {
  }

  /** A member with an unknown key, anywhere in the object, changes nothing if its value
      fits in the remaining depth, and makes the object unreadable if it does not. */
  lemma {:induction false} UnknownInserted(lib: FloatLib, f: Fields, ms: Members, n: nat, key: string, val: Json, room: nat)
    requires !KnownKey(f, key)
    ensures TakeAll(lib, f, InsertAt(ms, n, key, val), room) ==
            if Height(val) <= room then TakeAll(lib, f, ms, room) else None
    decreases ms
  {
    hide Take, Height;
    if n == 0 || ms.NoMembers? {
      UnknownTaken(lib, f, key, val, room);
    } else {
      var g := Take(lib, f, ms.key, ms.val, room);
      if g.Some? {
        SameKnown(f, g.value, key);
        UnknownInserted(lib, g.value, ms.tail, n - 1, key, val, room);
      }
    }
  }

  lemma SameKnown(f: Fields, g: Fields, key: string)
    requires SameKind(f, g)
    ensures KnownKey(f, key) <==> KnownKey(g, key)
  {
  }

  // ----- order -----

  predicate HasKey(ms: Members, key: string) {
    ms.Member? && (ms.key == key || HasKey(ms.tail, key))
  }

  predicate Distinct(ms: Members) {
    ms.Member? ==> !HasKey(ms.tail, ms.key) && Distinct(ms.tail)
  }

  function AsMap(ms: Members): map<string, Json> {
    if ms.NoMembers? then map[] else AsMap(ms.tail)[ms.key := ms.val]
  }

  /** Equal, or two envelopes that have both seen several operations and will both be refused. */
  predicate Same(f: Fields, g: Fields) {
    f == g ||
    (f.EnvelopeFields? && g.EnvelopeFields? && |f.envelope.seen| > 1
     && f.envelope.(operation := None) == g.envelope.(operation := None))
  }

  predicate SameResult(f: Option<Fields>, g: Option<Fields>) {
    f.Some? == g.Some? && (f.Some? ==> Same(f.value, g.value))
  }

  function Then(lib: FloatLib, f: Option<Fields>, key: string, val: Json, room: nat): Option<Fields> {
    if f.None? then None else Take(lib, f.value, key, val, room)
  }

  // A member either fails whatever was read before it, or sets one field to a value
  // that depends on the member alone.

  lemma ValueSets(lib: FloatLib, l: ValueLocals, k: string, v: Json, room: nat)
    ensures var x := Take(lib, ValueFields(l), k, v, room);
            && (x.Some? <==> TakeOfValue(lib, ValueLocals(None, None), k, v, room).Some?)
            && (x.Some? ==> x.value == ValueFields(ValueLocals(
                      if k == "v" then OmiOf(lib, v, room) else l.v,
                      if k == "t" && !v.JNull? then F64Of(lib, v) else l.t)))
  {
    hide F64Of, OmiOf, Skip;
    var y := TakeOfValue(lib, l, k, v, room);
    assert Take(lib, ValueFields(l), k, v, room) == if y.Some? then Some(ValueFields(y.value)) else None;
  }

  lemma SwapValue(lib: FloatLib, f: Fields, k: string, v: Json, l: string, w: Json, room: nat)
    requires k != l && f.ValueFields?
    ensures Then(lib, Take(lib, f, k, v, room), l, w, room) == Then(lib, Take(lib, f, l, w, room), k, v, room)
  {
    hide Take, TakeOfValue, F64Of, OmiOf;
    ValueSets(lib, f.value, k, v, room);
    ValueSets(lib, f.value, l, w, room);
    var x, y := Take(lib, f, k, v, room), Take(lib, f, l, w, room);
    if x.Some? && y.Some? {
      ValueSets(lib, x.value.value, l, w, room);
      ValueSets(lib, y.value.value, k, v, room);
    } else if x.Some? {
      ValueSets(lib, x.value.value, l, w, room);
    } else if y.Some? {
      ValueSets(lib, y.value.value, k, v, room);
    }
  }

  lemma InfoSets(lib: FloatLib, l: InfoLocals, k: string, v: Json, room: nat)
    ensures var x := Take(lib, InfoFields(l), k, v, room);
            && (x.Some? <==> TakeOfInfo(lib, InfoLocals(None, None, None, None), k, v, room).Some?)
            && (x.Some? ==> x.value == InfoFields(InfoLocals(
                      if k == "type" && !v.JNull? then StringOf(v) else l.typeUri,
                      if k == "desc" && !v.JNull? then StringOf(v) else l.desc,
                      if k == "meta" && !v.JNull? then MetaOf(lib, v, room) else l.meta,
                      if k == "values" then RingOf(lib, v, room) else l.values)))
  {
    hide MetaOf, RingOf, StringOf, Skip;
    var y := TakeOfInfo(lib, l, k, v, room);
    assert Take(lib, InfoFields(l), k, v, room) == if y.Some? then Some(InfoFields(y.value)) else None;
  }

  lemma SwapInfo(lib: FloatLib, f: Fields, k: string, v: Json, l: string, w: Json, room: nat)
    requires k != l && f.InfoFields?
    ensures Then(lib, Take(lib, f, k, v, room), l, w, room) == Then(lib, Take(lib, f, l, w, room), k, v, room)
  {
    hide Take, TakeOfInfo, MetaOf, RingOf, StringOf;
    InfoSets(lib, f.info, k, v, room);
    InfoSets(lib, f.info, l, w, room);
    var x, y := Take(lib, f, k, v, room), Take(lib, f, l, w, room);
    if x.Some? && y.Some? {
      InfoSets(lib, x.value.info, l, w, room);
      InfoSets(lib, y.value.info, k, v, room);
    } else if x.Some? {
      InfoSets(lib, x.value.info, l, w, room);
    } else if y.Some? {
      InfoSets(lib, y.value.info, k, v, room);
    }
  }

  lemma ObjectSets(lib: FloatLib, l: ObjectLocals, k: string, v: Json, room: nat)
    ensures var x := Take(lib, ObjectFields(l), k, v, room);
            && (x.Some? <==> TakeOfObject(lib, ObjectLocals(None, None, None, None, None), k, v, room).Some?)
            && (x.Some? ==> x.value == ObjectFields(ObjectLocals(
                      if k == "id" then StringOf(v) else l.id,
                      if k == "type" && !v.JNull? then StringOf(v) else l.typeUri,
                      if k == "desc" && !v.JNull? then StringOf(v) else l.desc,
                      if k == "items" && !v.JNull? then ItemsOf(lib, v, room) else l.items,
                      if k == "objects" && !v.JNull? then ObjectsOf(lib, v, room) else l.objects)))
  {
    hide ItemsOf, ObjectsOf, StringOf, Skip;
    var y := TakeOfObject(lib, l, k, v, room);
    assert Take(lib, ObjectFields(l), k, v, room) == if y.Some? then Some(ObjectFields(y.value)) else None;
  }

  lemma SwapObject(lib: FloatLib, f: Fields, k: string, v: Json, l: string, w: Json, room: nat)
    requires k != l && f.ObjectFields?
    ensures Then(lib, Take(lib, f, k, v, room), l, w, room) == Then(lib, Take(lib, f, l, w, room), k, v, room)
  {
    hide Take, TakeOfObject, ItemsOf, ObjectsOf, StringOf;
    ObjectSets(lib, f.node, k, v, room);
    ObjectSets(lib, f.node, l, w, room);
    var x, y := Take(lib, f, k, v, room), Take(lib, f, l, w, room);
    if x.Some? && y.Some? {
      ObjectSets(lib, x.value.node, l, w, room);
      ObjectSets(lib, y.value.node, k, v, room);
    } else if x.Some? {
      ObjectSets(lib, x.value.node, l, w, room);
    } else if y.Some? {
      ObjectSets(lib, y.value.node, k, v, room);
    }
  }

  function ReadSet(lib: FloatLib, l: Omi.ReadOp, k: string, v: Json): Omi.ReadOp {
    Omi.ReadOp(
      if k == "path" then StringOf(v) else l.path,
      if k == "rid" then StringOf(v) else l.rid,
      if k == "newest" then U64Of(lib, v) else l.newest,
      if k == "oldest" then U64Of(lib, v) else l.oldest,
      if k == "begin" then F64Of(lib, v) else l.begin,
      if k == "end" then F64Of(lib, v) else l.end,
      if k == "depth" then U64Of(lib, v) else l.depth,
      if k == "interval" then F64Of(lib, v) else l.interval,
      if k == "callback" then StringOf(v) else l.callback)
  }

  lemma ReadSetsCommute(lib: FloatLib, f: Omi.ReadOp, k: string, v: Json, l: string, w: Json)
    requires k != l
    ensures ReadSet(lib, ReadSet(lib, f, k, v), l, w) == ReadSet(lib, ReadSet(lib, f, l, w), k, v)
  {
    hide F64Of, StringOf, U64Of;
  }

  lemma ReadSets(lib: FloatLib, l: Omi.ReadOp, k: string, v: Json, room: nat)
    ensures var x := Take(lib, ReadFields(l), k, v, room);
            && (x.Some? <==> TakeOfRead(lib, NO_READ.read, k, v, room).Some?)
            && (x.Some? ==> x.value == ReadFields(ReadSet(lib, l, k, v)))
  {
    hide F64Of, StringOf, U64Of, Skip;
    var y := TakeOfRead(lib, l, k, v, room);
    assert Take(lib, ReadFields(l), k, v, room) == if y.Some? then Some(ReadFields(y.value)) else None;
  }

  lemma SwapRead(lib: FloatLib, f: Fields, k: string, v: Json, l: string, w: Json, room: nat)
    requires k != l && f.ReadFields?
    ensures Then(lib, Take(lib, f, k, v, room), l, w, room) == Then(lib, Take(lib, f, l, w, room), k, v, room)
  {
    hide Take, TakeOfRead, ReadSet;
    ReadSetsCommute(lib, f.read, k, v, l, w);
    ReadSets(lib, f.read, k, v, room);
    ReadSets(lib, f.read, l, w, room);
    var x, y := Take(lib, f, k, v, room), Take(lib, f, l, w, room);
    if x.Some? && y.Some? {
      ReadSets(lib, x.value.read, l, w, room);
      ReadSets(lib, y.value.read, k, v, room);
    } else if x.Some? {
      ReadSets(lib, x.value.read, l, w, room);
    } else if y.Some? {
      ReadSets(lib, y.value.read, k, v, room);
    }
  }

  function WriteSet(lib: FloatLib, l: WriteLocals, k: string, v: Json, room: nat): WriteLocals {
    WriteLocals(
      if k == "path" then StringOf(v) else l.path,
      if k == "v" then OmiOf(lib, v, room) else l.v,
      if k == "t" then F64Of(lib, v) else l.t,
      if k == "items" then WritesOf(lib, v, room) else l.items,
      if k == "objects" then ObjectsOf(lib, v, room) else l.objects)
  }

  lemma WriteSetsCommute(lib: FloatLib, f: WriteLocals, k: string, v: Json, l: string, w: Json, room: nat)
    requires k != l
    ensures WriteSet(lib, WriteSet(lib, f, k, v, room), l, w, room) == WriteSet(lib, WriteSet(lib, f, l, w, room), k, v, room)
  {
    hide F64Of, ObjectsOf, OmiOf, StringOf, WritesOf;
  }

  lemma WriteSets(lib: FloatLib, l: WriteLocals, k: string, v: Json, room: nat)
    ensures var x := Take(lib, WriteFields(l), k, v, room);
            && (x.Some? <==> TakeOfWrite(lib, WriteLocals(None, None, None, None, None), k, v, room).Some?)
            && (x.Some? ==> x.value == WriteFields(WriteSet(lib, l, k, v, room)))
  {
    hide F64Of, ObjectsOf, OmiOf, StringOf, WritesOf, Skip;
    var y := TakeOfWrite(lib, l, k, v, room);
    assert Take(lib, WriteFields(l), k, v, room) == if y.Some? then Some(WriteFields(y.value)) else None;
  }

  lemma SwapWrite(lib: FloatLib, f: Fields, k: string, v: Json, l: string, w: Json, room: nat)
    requires k != l && f.WriteFields?
    ensures Then(lib, Take(lib, f, k, v, room), l, w, room) == Then(lib, Take(lib, f, l, w, room), k, v, room)
  {
    hide Take, TakeOfWrite, WriteSet;
    WriteSetsCommute(lib, f.write, k, v, l, w, room);
    WriteSets(lib, f.write, k, v, room);
    WriteSets(lib, f.write, l, w, room);
    var x, y := Take(lib, f, k, v, room), Take(lib, f, l, w, room);
    if x.Some? && y.Some? {
      WriteSets(lib, x.value.write, l, w, room);
      WriteSets(lib, y.value.write, k, v, room);
    } else if x.Some? {
      WriteSets(lib, x.value.write, l, w, room);
    } else if y.Some? {
      WriteSets(lib, y.value.write, k, v, room);
    }
  }

  lemma WriteItemSets(lib: FloatLib, l: WriteItemLocals, k: string, v: Json, room: nat)
    ensures var x := Take(lib, WriteItemFields(l), k, v, room);
            && (x.Some? <==> TakeOfWriteItem(lib, WriteItemLocals(None, None, None), k, v, room).Some?)
            && (x.Some? ==> x.value == WriteItemFields(WriteItemLocals(
                      if k == "path" then StringOf(v) else l.path,
                      if k == "v" then OmiOf(lib, v, room) else l.v,
                      if k == "t" then F64Of(lib, v) else l.t)))
  {
    hide F64Of, OmiOf, StringOf, Skip;
    var y := TakeOfWriteItem(lib, l, k, v, room);
    assert Take(lib, WriteItemFields(l), k, v, room) == if y.Some? then Some(WriteItemFields(y.value)) else None;
  }

  lemma SwapWriteItem(lib: FloatLib, f: Fields, k: string, v: Json, l: string, w: Json, room: nat)
    requires k != l && f.WriteItemFields?
    ensures Then(lib, Take(lib, f, k, v, room), l, w, room) == Then(lib, Take(lib, f, l, w, room), k, v, room)
  {
    hide Take, TakeOfWriteItem, F64Of, OmiOf, StringOf;
    WriteItemSets(lib, f.item, k, v, room);
    WriteItemSets(lib, f.item, l, w, room);
    var x, y := Take(lib, f, k, v, room), Take(lib, f, l, w, room);
    if x.Some? && y.Some? {
      WriteItemSets(lib, x.value.item, l, w, room);
      WriteItemSets(lib, y.value.item, k, v, room);
    } else if x.Some? {
      WriteItemSets(lib, x.value.item, l, w, room);
    } else if y.Some? {
      WriteItemSets(lib, y.value.item, k, v, room);
    }
  }

  lemma ResponseSets(lib: FloatLib, l: ResponseLocals, k: string, v: Json, room: nat)
    ensures var x := Take(lib, ResponseFields(l), k, v, room);
            && (x.Some? <==> TakeOfResponse(lib, ResponseLocals(None, None, None, None), k, v, room).Some?)
            && (x.Some? ==> x.value == ResponseFields(ResponseLocals(
                      if k == "status" then U16Of(lib, v) else l.status,
                      if k == "rid" then StringOf(v) else l.rid,
                      if k == "desc" then StringOf(v) else l.desc,
                      if k == "result" then ResultOf(lib, v, room) else l.result)))
  {
    hide ResultOf, StringOf, U16Of, Skip;
    var y := TakeOfResponse(lib, l, k, v, room);
    assert Take(lib, ResponseFields(l), k, v, room) == if y.Some? then Some(ResponseFields(y.value)) else None;
  }

  lemma SwapResponse(lib: FloatLib, f: Fields, k: string, v: Json, l: string, w: Json, room: nat)
    requires k != l && f.ResponseFields?
    ensures Then(lib, Take(lib, f, k, v, room), l, w, room) == Then(lib, Take(lib, f, l, w, room), k, v, room)
  {
    hide Take, TakeOfResponse, ResultOf, StringOf, U16Of;
    ResponseSets(lib, f.response, k, v, room);
    ResponseSets(lib, f.response, l, w, room);
    var x, y := Take(lib, f, k, v, room), Take(lib, f, l, w, room);
    if x.Some? && y.Some? {
      ResponseSets(lib, x.value.response, l, w, room);
      ResponseSets(lib, y.value.response, k, v, room);
    } else if x.Some? {
      ResponseSets(lib, x.value.response, l, w, room);
    } else if y.Some? {
      ResponseSets(lib, y.value.response, k, v, room);
    }
  }

  lemma StatusSets(lib: FloatLib, l: StatusLocals, k: string, v: Json, room: nat)
    ensures var x := Take(lib, StatusFields(l), k, v, room);
            && (x.Some? <==> TakeOfStatus(lib, StatusLocals(None, None, None), k, v, room).Some?)
            && (x.Some? ==> x.value == StatusFields(StatusLocals(
                      if k == "path" then StringOf(v) else l.path,
                      if k == "status" then U16Of(lib, v) else l.status,
                      if k == "desc" then StringOf(v) else l.desc)))
  {
    hide StringOf, U16Of, Skip;
    var y := TakeOfStatus(lib, l, k, v, room);
    assert Take(lib, StatusFields(l), k, v, room) == if y.Some? then Some(StatusFields(y.value)) else None;
  }

  lemma SwapStatus(lib: FloatLib, f: Fields, k: string, v: Json, l: string, w: Json, room: nat)
    requires k != l && f.StatusFields?
    ensures Then(lib, Take(lib, f, k, v, room), l, w, room) == Then(lib, Take(lib, f, l, w, room), k, v, room)
  {
    hide Take, TakeOfStatus, StringOf, U16Of;
    StatusSets(lib, f.status, k, v, room);
    StatusSets(lib, f.status, l, w, room);
    var x, y := Take(lib, f, k, v, room), Take(lib, f, l, w, room);
    if x.Some? && y.Some? {
      StatusSets(lib, x.value.status, l, w, room);
      StatusSets(lib, y.value.status, k, v, room);
    } else if x.Some? {
      StatusSets(lib, x.value.status, l, w, room);
    } else if y.Some? {
      StatusSets(lib, y.value.status, k, v, room);
    }
  }

  lemma OneKeySets(lib: FloatLib, f: Fields, k: string, v: Json, room: nat)
    requires f.DeleteFields? || f.CancelFields?
    ensures var x := Take(lib, f, k, v, room);
            x == if f.DeleteFields? then
                   if k == "path" then (if StringOf(v).Some? then Some(DeleteFields(StringOf(v))) else None)
                   else if Skip(v, room).Some? then Some(f) else None
                 else if k == "rid" then (if RidsOf(lib, v, room).Some? then Some(CancelFields(RidsOf(lib, v, room))) else None)
                 else if Skip(v, room).Some? then Some(f) else None
  {
    hide RidsOf, StringOf, Skip;
    if f.CancelFields? {
      var y := TakeOfCancel(lib, f.rids, k, v, room);
      assert Take(lib, f, k, v, room) == if y.Some? then Some(CancelFields(y.value)) else None;
    }
  }

  lemma SwapOneKey(lib: FloatLib, f: Fields, k: string, v: Json, l: string, w: Json, room: nat)
    requires k != l && (f.DeleteFields? || f.CancelFields?)
    ensures Then(lib, Take(lib, f, k, v, room), l, w, room) == Then(lib, Take(lib, f, l, w, room), k, v, room)
  {
    hide Take, RidsOf, StringOf, Skip;
    OneKeySets(lib, f, k, v, room);
    OneKeySets(lib, f, l, w, room);
    var x, y := Take(lib, f, k, v, room), Take(lib, f, l, w, room);
    if x.Some? {
      OneKeySets(lib, x.value, l, w, room);
    }
    if y.Some? {
      OneKeySets(lib, y.value, k, v, room);
    }
  }

  lemma SwapUpdates<T>(m: map<string, T>, k: string, x: T, l: string, y: T)
    requires k != l
    ensures m[k := x][l := y] == m[l := y][k := x]
  {
  }

  lemma SwapMeta(lib: FloatLib, f: Fields, k: string, v: Json, l: string, w: Json, room: nat)
    requires k != l && f.MetaFields?
    ensures Then(lib, Take(lib, f, k, v, room), l, w, room) == Then(lib, Take(lib, f, l, w, room), k, v, room)
  {
    hide OmiOf;
    var x, y := OmiOf(lib, v, room), OmiOf(lib, w, room);
    if x.Some? && y.Some? {
      SwapUpdates(f.entries, k, x.value, l, y.value);
    }
  }

  lemma SwapItems(lib: FloatLib, f: Fields, k: string, v: Json, l: string, w: Json, room: nat)
    requires k != l && f.ItemsFields?
    ensures Then(lib, Take(lib, f, k, v, room), l, w, room) == Then(lib, Take(lib, f, l, w, room), k, v, room)
  {
    hide InfoOf;
    var x, y := InfoOf(lib, v, room), InfoOf(lib, w, room);
    if x.Some? && y.Some? {
      SwapUpdates(f.items, k, x.value, l, y.value);
    }
  }

  lemma SwapObjects(lib: FloatLib, f: Fields, k: string, v: Json, l: string, w: Json, room: nat)
    requires k != l && f.ObjectsFields?
    ensures Then(lib, Take(lib, f, k, v, room), l, w, room) == Then(lib, Take(lib, f, l, w, room), k, v, room)
  {
    hide ObjectOf;
    var x, y := ObjectOf(lib, v, room), ObjectOf(lib, w, room);
    if x.Some? && y.Some? {
      SwapUpdates(f.objects, k, x.value, l, y.value);
    }
  }

  lemma EnvelopeSets(lib: FloatLib, e: EnvelopeLocals, k: string, v: Json, room: nat)
    ensures var x := Take(lib, EnvelopeFields(e), k, v, room);
            && (x.Some? <==> TakeOfEnvelope(lib, EnvelopeLocals(None, None, None, {}), k, v, room).Some?)
            && (x.Some? ==> x.value == EnvelopeFields(EnvelopeLocals(
                      if k == "omi" then StringOf(v) else e.version,
                      if k == "ttl" then I64Of(lib, v) else e.ttl,
                      if k in OPERATIONS then OperationOf(lib, k, v, room) else e.operation,
                      if k in OPERATIONS then e.seen + {k} else e.seen)))
  {
    hide I64Of, StringOf, OperationOf, Skip;
    var y := TakeOfEnvelope(lib, e, k, v, room);
    assert Take(lib, EnvelopeFields(e), k, v, room) == if y.Some? then Some(EnvelopeFields(y.value)) else None;
  }

  lemma SwapEnvelope(lib: FloatLib, f: Fields, k: string, v: Json, l: string, w: Json, room: nat)
    requires k != l && f.EnvelopeFields?
    ensures SameResult(Then(lib, Take(lib, f, k, v, room), l, w, room), Then(lib, Take(lib, f, l, w, room), k, v, room))
  {
    hide Take, TakeOfEnvelope, I64Of, StringOf, OperationOf;
    var s := f.envelope.seen;
    EnvelopeSets(lib, f.envelope, k, v, room);
    EnvelopeSets(lib, f.envelope, l, w, room);
    var x, y := Take(lib, f, k, v, room), Take(lib, f, l, w, room);
    if x.Some? {
      EnvelopeSets(lib, x.value.envelope, l, w, room);
    }
    if y.Some? {
      EnvelopeSets(lib, y.value.envelope, k, v, room);
    }
    assert s + {k} + {l} == s + {l} + {k};
    TwoElements(k, l, s + {k} + {l});
  }

  lemma TwoElements(k: string, l: string, s: set<string>)
    requires k != l && {k, l} <= s
    ensures |s| > 1
  {
    assert s == (s - {k, l}) + {k, l};
  }

  lemma Swap(lib: FloatLib, f: Fields, k: string, v: Json, l: string, w: Json, room: nat)
    requires k != l
    ensures SameResult(Then(lib, Take(lib, f, k, v, room), l, w, room), Then(lib, Take(lib, f, l, w, room), k, v, room))
  {
    hide Then, Take;
    match f
    case EnvelopeFields(_) => SwapEnvelope(lib, f, k, v, l, w, room);
    case ValueFields(_) => SwapValue(lib, f, k, v, l, w, room);
    case InfoFields(_) => SwapInfo(lib, f, k, v, l, w, room);
    case ObjectFields(_) => SwapObject(lib, f, k, v, l, w, room);
    case MetaFields(_) => SwapMeta(lib, f, k, v, l, w, room);
    case ItemsFields(_) => SwapItems(lib, f, k, v, l, w, room);
    case ObjectsFields(_) => SwapObjects(lib, f, k, v, l, w, room);
    case ReadFields(_) => SwapRead(lib, f, k, v, l, w, room);
    case WriteFields(_) => SwapWrite(lib, f, k, v, l, w, room);
    case WriteItemFields(_) => SwapWriteItem(lib, f, k, v, l, w, room);
    case ResponseFields(_) => SwapResponse(lib, f, k, v, l, w, room);
    case StatusFields(_) => SwapStatus(lib, f, k, v, l, w, room);
    case DeleteFields(_) => SwapOneKey(lib, f, k, v, l, w, room);
    case CancelFields(_) => SwapOneKey(lib, f, k, v, l, w, room);
  }

  lemma SameTake(lib: FloatLib, f: Fields, g: Fields, key: string, val: Json, room: nat)
    requires Same(f, g)
    ensures SameResult(Take(lib, f, key, val, room), Take(lib, g, key, val, room))
  {
    hide I64Of, StringOf, OperationOf, Skip;
    if f != g {
      var s := f.envelope.seen;
      assert |s| <= |s + {key}| by {
        assert s + {key} == s + ({key} - s);
      }
    }
  }

  lemma {:induction false} SameTakeAll(lib: FloatLib, f: Fields, g: Fields, ms: Members, room: nat)
    requires Same(f, g)
    ensures SameResult(TakeAll(lib, f, ms, room), TakeAll(lib, g, ms, room))
    decreases ms
  {
    hide Take, Same;
    if ms.Member? {
      SameTake(lib, f, g, ms.key, ms.val, room);
      var x, y := Take(lib, f, ms.key, ms.val, room), Take(lib, g, ms.key, ms.val, room);
      if x.Some? {
        SameTakeAll(lib, x.value, y.value, ms.tail, room);
      }
    } else {
      assert TakeAll(lib, f, ms, room) == Some(f) && TakeAll(lib, g, ms, room) == Some(g);
    }
  }

  lemma SameResultTransitive(a: Option<Fields>, b: Option<Fields>, c: Option<Fields>)
    requires SameResult(a, b) && SameResult(b, c)
    ensures SameResult(a, c)
  {
  }

  lemma SameResultSymmetric(a: Option<Fields>, b: Option<Fields>)
    requires SameResult(a, b)
    ensures SameResult(b, a)
  {
  }

  function Without(ms: Members, key: string): Members {
    if ms.NoMembers? then ms
    else if ms.key == key then ms.tail
    else ms.(tail := Without(ms.tail, key))
  }

  /** The value a key has in distinct members, and the members that remain without it. */
  lemma {:induction false} WithoutIs(ms: Members, key: string)
    requires Distinct(ms) && HasKey(ms, key)
    ensures Distinct(Without(ms, key)) && !HasKey(Without(ms, key), key)
    ensures AsMap(Without(ms, key)) == AsMap(ms) - {key} && key in AsMap(ms)
    ensures forall k :: HasKey(Without(ms, key), k) ==> HasKey(ms, k)
    decreases ms
  {
    KeysAreMap(ms);
    KeysAreMap(ms.tail);
    if ms.key != key {
      WithoutIs(ms.tail, key);
    }
  }

  lemma {:induction false} KeysAreMap(ms: Members)
    ensures forall k :: HasKey(ms, k) <==> k in AsMap(ms)
  {
    if ms.Member? {
      KeysAreMap(ms.tail);
    }
  }

  /** Moving one member to the front changes nothing. */
  lemma {:induction false} ToFront(lib: FloatLib, f: Fields, ms: Members, key: string, room: nat)
    requires Distinct(ms) && HasKey(ms, key) && key in AsMap(ms)
    ensures SameResult(TakeAll(lib, f, ms, room), TakeAll(lib, f, Member(key, AsMap(ms)[key], Without(ms, key)), room))
    decreases ms
  {
    hide Take, Same;
    if ms.key != key {
      KeysAreMap(ms.tail);
      var val, rest := AsMap(ms)[key], Without(ms.tail, key);
      var x, y := Take(lib, f, ms.key, ms.val, room), Take(lib, f, key, val, room);
      if x.Some? {
        ToFront(lib, x.value, ms.tail, key, room);
      }
      Swap(lib, f, ms.key, ms.val, key, val, room);
      var xy, yx := Then(lib, x, key, val, room), Then(lib, y, ms.key, ms.val, room);
      if xy.Some? {
        SameTakeAll(lib, xy.value, yx.value, rest, room);
        SameResultTransitive(TakeAll(lib, f, ms, room), TakeAll(lib, xy.value, rest, room), TakeAll(lib, yx.value, rest, room));
      }
    } else {
      SameRefl(TakeAll(lib, f, ms, room));
    }
  }

  lemma SameRefl(r: Option<Fields>)
    ensures SameResult(r, r)
  {
  }

  lemma OnlyEmptyIsEmpty(ms: Members)
    ensures AsMap(ms) == map[] <==> ms.NoMembers?
  {
    if ms.Member? {
      assert ms.key in AsMap(ms);
    }
  }

  /** Members with the same distinct keys and values, in any order, mean the same. */
  lemma {:induction false} OrderIrrelevant(lib: FloatLib, f: Fields, ms: Members, ns: Members, room: nat)
    requires Distinct(ms) && Distinct(ns) && AsMap(ms) == AsMap(ns)
    ensures SameResult(TakeAll(lib, f, ms, room), TakeAll(lib, f, ns, room))
    decreases ms
  {
    hide Take, Same;
    KeysAreMap(ms);
    KeysAreMap(ns);
    if ms.NoMembers? {
      assert !HasKey(ms, "") && AsMap(ns) == map[];
      OnlyEmptyIsEmpty(ns);
      SameRefl(TakeAll(lib, f, ms, room));
    } else {
      var key := ms.key;
      assert HasKey(ns, key);
      ToFront(lib, f, ns, key, room);
      WithoutIs(ns, key);
      KeysAreMap(ms.tail);
      assert AsMap(ms.tail) == AsMap(ms) - {key};
      var g := Take(lib, f, key, ms.val, room);
      if g.Some? {
        OrderIrrelevant(lib, g.value, ms.tail, Without(ns, key), room);
        SameResultSymmetric(TakeAll(lib, f, ns, room), TakeAll(lib, g.value, Without(ns, key), room));
        SameResultTransitive(TakeAll(lib, f, ms, room), TakeAll(lib, g.value, Without(ns, key), room), TakeAll(lib, f, ns, room));
      }
    }
  }

  /** What messages, objects, items and values mean does not depend on member order. */
  lemma MeaningIgnoresOrder(lib: FloatLib, ms: Members, ns: Members, room: nat)
    requires Distinct(ms) && Distinct(ns) && AsMap(ms) == AsMap(ns)
    ensures MessageOf(lib, JObj(ms)) == MessageOf(lib, JObj(ns))
    ensures ObjectOf(lib, JObj(ms), room) == ObjectOf(lib, JObj(ns), room)
    ensures InfoOf(lib, JObj(ms), room) == InfoOf(lib, JObj(ns), room)
    ensures ValueOf(lib, JObj(ms), room) == ValueOf(lib, JObj(ns), room)
  {
    hide TakeAll;
    OrderIrrelevant(lib, NO_ENVELOPE, ms, ns, MAX_DEPTH);
    if room > 0 {
      OrderIrrelevant(lib, NO_OBJECT, ms, ns, room - 1);
      OrderIrrelevant(lib, NO_INFO, ms, ns, room - 1);
      OrderIrrelevant(lib, NO_VALUE, ms, ns, room - 1);
    }
  }

  lemma MeaningIgnoresUnknown(lib: FloatLib, ms: Members, n: nat, key: string, val: Json, room: nat)
    requires Height(val) < room <= MAX_DEPTH
    ensures !KnownKey(NO_ENVELOPE, key) ==>
      MessageOf(lib, JObj(InsertAt(ms, n, key, val))) == MessageOf(lib, JObj(ms))
    ensures !KnownKey(NO_OBJECT, key) ==>
      ObjectOf(lib, JObj(InsertAt(ms, n, key, val)), room) == ObjectOf(lib, JObj(ms), room)
    ensures !KnownKey(NO_INFO, key) ==>
      InfoOf(lib, JObj(InsertAt(ms, n, key, val)), room) == InfoOf(lib, JObj(ms), room)
    ensures !KnownKey(NO_VALUE, key) ==>
      ValueOf(lib, JObj(InsertAt(ms, n, key, val)), room) == ValueOf(lib, JObj(ms), room)
  {
    hide TakeAll, KnownKey, InsertAt;
    if !KnownKey(NO_ENVELOPE, key) {
      UnknownInserted(lib, NO_ENVELOPE, ms, n, key, val, MAX_DEPTH);
    }
    if !KnownKey(NO_OBJECT, key) {
      UnknownInserted(lib, NO_OBJECT, ms, n, key, val, room - 1);
    }
    if !KnownKey(NO_INFO, key) {
      UnknownInserted(lib, NO_INFO, ms, n, key, val, room - 1);
    }
    if !KnownKey(NO_VALUE, key) {
      UnknownInserted(lib, NO_VALUE, ms, n, key, val, room - 1);
    }
  }
}
