/** Messages: parsing what was serialised gives the same message back, exactly when
    the message satisfies the conditions below. */
module RoundTrip {
  import opened Wrappers
  import opened Floats
  import opened JsonLexis
  import opened JsonGrammar
  import opened JsonMeaning
  import opened JsonPrint
  import opened JsonWriter
  import opened JsonDocs
  import opened RoundTripOdf
  import opened Odf
  import Omi

  // ----- the conditions -----

  predicate Small(n: Option<U64>) { n.Some? ==> n.value <= I64_MAX }

  predicate ReturnsRead(op: Omi.ReadOp) {
    && (op.path.Some? <==> op.rid.None?)
    && Small(op.newest) && Small(op.oldest) && Small(op.depth)
    && FiniteTime(op.begin) && FiniteTime(op.end) && FiniteTime(op.interval)
  }

  predicate ReturnsItem(w: Omi.WriteItem) { FiniteOmi(w.v) && FiniteTime(w.t) }

  predicate ReturnsWrite(op: Omi.WriteOp) {
    match op
    case Single(path, v, t) => ReturnsItem(Omi.WriteItem(path, v, t))
    case Batch(items) => items != [] && forall w | w in items :: ReturnsItem(w)
    case Tree(_, objects) => WithinDepth(objects, Omi.MAX_OBJECT_DEPTH) && ReturnsObjects(objects, MAX_DEPTH)
  }

  /** A read result is parsed as an empty payload. */
  predicate ReturnsResponse(b: Omi.ResponseBody) {
    b.result.Some? && b.result.value.SingleResult? ==> b.result.value.payload.NullPayload?
  }

  predicate ReturnsOperation(op: Omi.Operation) {
    match op
    case Read(r) => ReturnsRead(r)
    case Write(w) => ReturnsWrite(w)
    case Delete(path) => |path| > 1 && path[0] == '/'
    case Cancel(rids) => |rids| > 0
    case Response(b) => ReturnsResponse(b)
  }

  predicate ReturnsMessage(m: Omi.OmiMessage) {
    m.version == "1.0" && ReturnsOperation(m.operation)
  }

  /** The same message, with the histories of a tree write refitted. */
  function RefitMessage(m: Omi.OmiMessage): Omi.OmiMessage {
    if m.operation.Write? && m.operation.write.Tree? then
      var w := m.operation.write;
      m.(operation := Omi.Write(Omi.Tree(w.path, RefitObjects(TruncateMap(w.objects, UNLIMITED), UNLIMITED + 1))))
    else m
  }

  // ----- read -----

  lemma U64Returns(lib: FloatLib, n: U64)
    ensures U64Of(lib, Meant(lib, IntDoc(n))) == Some(n) <==> n <= I64_MAX
  {
    IntMeant(lib, n);
  }

  lemma F64Returns(lib: FloatLib, x: F64)
    requires Lawful(lib)
    ensures F64Of(lib, Meant(lib, FloatDoc(lib, x))) == if IsFinite(x) then Some(x) else None
  {
    FloatMeant(lib, x);
  }

  ghost function PutStr(r: Option<Omi.ReadOp>, key: string, s: Option<string>): Option<Omi.ReadOp> {
    if s.None? || r.None? then r
    else if key == "path" then Some(r.value.(path := s))
    else if key == "rid" then Some(r.value.(rid := s))
    else Some(r.value.(callback := s))
  }

  ghost function PutU64(lib: FloatLib, r: Option<Omi.ReadOp>, key: string, n: Option<U64>): Option<Omi.ReadOp> {
    if n.None? || r.None? then r
    else
      var x := U64Of(lib, Meant(lib, IntDoc(n.value)));
      if x.None? then None
      else if key == "newest" then Some(r.value.(newest := x))
      else if key == "oldest" then Some(r.value.(oldest := x))
      else Some(r.value.(depth := x))
  }

  ghost function PutF64(lib: FloatLib, r: Option<Omi.ReadOp>, key: string, n: Option<F64>): Option<Omi.ReadOp> {
    if n.None? || r.None? then r
    else
      var x := F64Of(lib, Meant(lib, FloatDoc(lib, n.value)));
      if x.None? then None
      else if key == "begin" then Some(r.value.(begin := x))
      else if key == "end" then Some(r.value.(end := x))
      else Some(r.value.(interval := x))
  }

  ghost predicate SoFar(lib: FloatLib, ms: DocMembers, room: nat, r: Option<Omi.ReadOp>) {
    Taken(lib, NO_READ, ms, room) == if r.Some? then Some(ReadFields(r.value)) else None
  }

  lemma StrStep(lib: FloatLib, ms: DocMembers, key: string, s: Option<string>, room: nat, r: Option<Omi.ReadOp>)
    requires key in {"path", "rid", "callback"} && SoFar(lib, ms, room, r)
    ensures SoFar(lib, AddStr(ms, key, s), room, PutStr(r, key, s))
  {
    hide Meant, TakeAll;
    if s.Some? {
      TakenAdd(lib, NO_READ, ms, key, DStr(s.value), room);
      StrMeant(lib, s.value);
    }
  }

  lemma U64Step(lib: FloatLib, ms: DocMembers, key: string, n: Option<U64>, room: nat, r: Option<Omi.ReadOp>)
    requires key in {"newest", "oldest", "depth"} && SoFar(lib, ms, room, r)
    ensures SoFar(lib, AddU64(ms, key, n), room, PutU64(lib, r, key, n))
  {
    hide Meant, TakeAll, U64Of;
    if n.Some? {
      TakenAdd(lib, NO_READ, ms, key, IntDoc(n.value), room);
    }
  }

  lemma F64Step(lib: FloatLib, ms: DocMembers, key: string, x: Option<F64>, room: nat, r: Option<Omi.ReadOp>)
    requires key in {"begin", "end", "interval"} && SoFar(lib, ms, room, r)
    ensures SoFar(lib, AddF64(lib, ms, key, x), room, PutF64(lib, r, key, x))
  {
    hide Meant, TakeAll, F64Of;
    if x.Some? {
      TakenAdd(lib, NO_READ, ms, key, FloatDoc(lib, x.value), room);
    }
  }

  lemma ReadOpTaken(lib: FloatLib, op: Omi.ReadOp, room: nat) returns (r: Option<Omi.ReadOp>)
    ensures SoFar(lib, ReadOpMembers(lib, op), room, r)
    ensures r == PutStr(PutF64(lib, PutU64(lib, PutF64(lib, PutF64(lib, PutU64(lib, PutU64(lib,
                 PutStr(PutStr(Some(NO_READ.read), "path", op.path), "rid", op.rid),
                 "newest", op.newest), "oldest", op.oldest), "begin", op.begin), "end", op.end),
                 "depth", op.depth), "interval", op.interval), "callback", op.callback)
  {
    hide Taken, PutStr, PutU64, PutF64, AddStr, AddU64, AddF64;
    r := Some(NO_READ.read);
    var ms := NoDocMembers;
    assert SoFar(lib, ms, room, r) by {
      TakenAdd(lib, NO_READ, ms, "", DNull, room);
    }
    StrStep(lib, ms, "path", op.path, room, r);
    ms, r := AddStr(ms, "path", op.path), PutStr(r, "path", op.path);
    StrStep(lib, ms, "rid", op.rid, room, r);
    ms, r := AddStr(ms, "rid", op.rid), PutStr(r, "rid", op.rid);
    U64Step(lib, ms, "newest", op.newest, room, r);
    ms, r := AddU64(ms, "newest", op.newest), PutU64(lib, r, "newest", op.newest);
    U64Step(lib, ms, "oldest", op.oldest, room, r);
    ms, r := AddU64(ms, "oldest", op.oldest), PutU64(lib, r, "oldest", op.oldest);
    F64Step(lib, ms, "begin", op.begin, room, r);
    ms, r := AddF64(lib, ms, "begin", op.begin), PutF64(lib, r, "begin", op.begin);
    F64Step(lib, ms, "end", op.end, room, r);
    ms, r := AddF64(lib, ms, "end", op.end), PutF64(lib, r, "end", op.end);
    U64Step(lib, ms, "depth", op.depth, room, r);
    ms, r := AddU64(ms, "depth", op.depth), PutU64(lib, r, "depth", op.depth);
    F64Step(lib, ms, "interval", op.interval, room, r);
    ms, r := AddF64(lib, ms, "interval", op.interval), PutF64(lib, r, "interval", op.interval);
    StrStep(lib, ms, "callback", op.callback, room, r);
    ms, r := AddStr(ms, "callback", op.callback), PutStr(r, "callback", op.callback);
  }

  lemma ReadFieldsReturn(lib: FloatLib, op: Omi.ReadOp, r: Option<Omi.ReadOp>)
    requires Lawful(lib)
    requires r == PutStr(PutF64(lib, PutU64(lib, PutF64(lib, PutF64(lib, PutU64(lib, PutU64(lib,
                  PutStr(PutStr(Some(NO_READ.read), "path", op.path), "rid", op.rid),
                  "newest", op.newest), "oldest", op.oldest), "begin", op.begin), "end", op.end),
                  "depth", op.depth), "interval", op.interval), "callback", op.callback)
    ensures r == Some(op) <==> Small(op.newest) && Small(op.oldest) && Small(op.depth)
                               && FiniteTime(op.begin) && FiniteTime(op.end) && FiniteTime(op.interval)
  {
    hide Meant, U64Of, F64Of, FloatDoc, IntDoc;
    if op.newest.Some? { U64Returns(lib, op.newest.value); }
    if op.oldest.Some? { U64Returns(lib, op.oldest.value); }
    if op.depth.Some? { U64Returns(lib, op.depth.value); }
    if op.begin.Some? { F64Returns(lib, op.begin.value); }
    if op.end.Some? { F64Returns(lib, op.end.value); }
    if op.interval.Some? { F64Returns(lib, op.interval.value); }
  }

  lemma ReadReturns(lib: FloatLib, op: Omi.ReadOp, room: nat)
    requires Lawful(lib)
    ensures OperationOf(lib, "read", Meant(lib, DObj(ReadOpMembers(lib, op))), room) == Some(Omi.Read(op))
       <==> ReturnsRead(op)
  {
    hide Meant, TakeAll, ReadOpMembers, PutStr, PutU64, PutF64, Small, FiniteTime;
    UnfoldObj(lib, ReadOpMembers(lib, op));
    var r := ReadOpTaken(lib, op, room);
    ReadFieldsReturn(lib, op, r);
  }

  // ----- write -----

  /** path, v and t of a write, after the members that hold them. */
  lemma WriteItemTaken(lib: FloatLib, w: Omi.WriteItem, room: nat)
    requires Lawful(lib)
    ensures Taken(lib, NO_WRITE_ITEM, WriteItemMembers(lib, w), room) ==
            if FiniteTime(w.t)
            then Some(WriteItemFields(WriteItemLocals(Some(w.path), Some(if FiniteOmi(w.v) then w.v else OmiNull), w.t)))
            else None
    ensures Taken(lib, NO_WRITE, WriteItemMembers(lib, w), room) ==
            if FiniteTime(w.t)
            then Some(WriteFields(WriteLocals(Some(w.path), Some(if FiniteOmi(w.v) then w.v else OmiNull), w.t, None, None)))
            else None
  {
    hide Meant, TakeAll, OmiOf, F64Of, OmiDoc, FloatDoc;
    var a := Add(NoDocMembers, "path", DStr(w.path));
    var b := Add(a, "v", OmiDoc(lib, w.v));
    StrMeant(lib, w.path);
    OmiReturns(lib, w.v, room);
    TakenAdd(lib, NO_WRITE_ITEM, NoDocMembers, "path", DStr(w.path), room);
    TakenAdd(lib, NO_WRITE, NoDocMembers, "path", DStr(w.path), room);
    TakenAdd(lib, NO_WRITE_ITEM, a, "v", OmiDoc(lib, w.v), room);
    TakenAdd(lib, NO_WRITE, a, "v", OmiDoc(lib, w.v), room);
    if w.t.Some? {
      TakenAdd(lib, NO_WRITE_ITEM, b, "t", FloatDoc(lib, w.t.value), room);
      TakenAdd(lib, NO_WRITE, b, "t", FloatDoc(lib, w.t.value), room);
      F64Returns(lib, w.t.value);
    }
  }

  lemma WriteItemReturns(lib: FloatLib, w: Omi.WriteItem, room: nat)
    requires Lawful(lib)
    ensures WriteItemOf(lib, Meant(lib, DObj(WriteItemMembers(lib, w))), room) == Some(w) <==> ReturnsItem(w)
  {
    hide Meant, TakeAll, WriteItemMembers;
    UnfoldObj(lib, WriteItemMembers(lib, w));
    WriteItemTaken(lib, w, room);
  }

  lemma {:induction false} WriteItemsReturn(lib: FloatLib, ws: seq<Omi.WriteItem>, room: nat)
    requires Lawful(lib)
    ensures var r := TakenElems(lib, WriteItems([]), WriteItemDocs(lib, ws), room);
            && (r.Some? ==> r.value.WriteItems? && |r.value.writes| == |ws|)
            && (r == Some(WriteItems(ws)) <==> forall w | w in ws :: ReturnsItem(w))
  {
    hide Meant, WriteItemOf, WriteItemMembers, ReturnsItem;
    if ws == [] {
      TakenElemsAdd(lib, WriteItems([]), NoDocs, DNull, room);
    } else {
      var before, last := ws[..|ws| - 1], ws[|ws| - 1];
      var d := DObj(WriteItemMembers(lib, last));
      WriteItemsReturn(lib, before, room);
      WriteItemReturns(lib, last, room);
      TakenElemsAdd(lib, WriteItems([]), WriteItemDocs(lib, before), d, room);
      assert ws == before + [last];
      var b := TakenElems(lib, WriteItems([]), WriteItemDocs(lib, before), room);
      var x := WriteItemOf(lib, Meant(lib, d), room);
      assert TakenElems(lib, WriteItems([]), WriteItemDocs(lib, ws), room) ==
             if b.Some? && x.Some? then Some(WriteItems(b.value.writes + [x.value])) else None;
      if b.Some? && x.Some? {
        assert (b.value.writes + [x.value])[..|before|] == b.value.writes;
        assert (b.value.writes + [x.value])[|before|] == x.value;
      }
    }
  }

  lemma BatchReturns(lib: FloatLib, items: seq<Omi.WriteItem>, room: nat)
    requires Lawful(lib)
    ensures OperationOf(lib, "write", Meant(lib, DObj(WriteMembers(lib, Omi.Batch(items)))), room)
         == Some(Omi.Write(Omi.Batch(items)))
       <==> ReturnsWrite(Omi.Batch(items))
  {
    hide Meant, TakeAll, TakeElems, WriteItemDocs, ReturnsItem;
    var d := DArr(WriteItemDocs(lib, items));
    UnfoldObj(lib, Add(NoDocMembers, "items", d));
    UnfoldArr(lib, WriteItemDocs(lib, items));
    TakenAdd(lib, NO_WRITE, NoDocMembers, "items", d, room);
    WriteItemsReturn(lib, items, room);
    var t := TakenElems(lib, WriteItems([]), WriteItemDocs(lib, items), room);
    assert WritesOf(lib, Meant(lib, d), room) == if t.Some? then Some(t.value.writes) else None;
  }

  /** Nothing of a tree that the parser accepts is cut off by the writer. */
  lemma WholeTree(m: Objects)
    requires WithinDepth(m, Omi.MAX_OBJECT_DEPTH)
    ensures TruncateMap(m, UNLIMITED) == m
  {
    WithinMore(m, Omi.MAX_OBJECT_DEPTH, UNLIMITED);
    forall k | k in m
      ensures Truncate(m[k], UNLIMITED) == m[k]
    {
      TruncateAll(m[k], UNLIMITED);
    }
  }

  lemma {:induction false} WithinMore(m: Objects, n: nat, d: nat)
    requires WithinDepth(m, n) && n <= d
    ensures WithinDepth(m, d)
    decreases n
  {
    forall k | k in m && m[k].objects.Some?
      ensures d > 0 && WithinDepth(m[k].objects.value, d - 1)
    {
      WithinMore(m[k].objects.value, n - 1, d - 1);
    }
  }

  /** The children of a truncated and refitted object. */
  lemma RefitChildren(o: Object, depth: nat)
    requires depth > 0
    ensures RefitObject(Truncate(o, depth), depth).objects ==
            if o.objects.None? then None
            else Some(RefitObjects(TruncateMap(o.objects.value, depth - 1), depth))
  {
    if o.objects.Some? {
      assert Truncate(o, depth).objects.value == TruncateMap(o.objects.value, depth - 1);
    }
  }

  lemma {:induction false} RefitWithin(m: Objects, depth: nat, n: nat)
    requires depth > n + 1
    ensures WithinDepth(RefitObjects(TruncateMap(m, depth - 1), depth), n) <==> WithinDepth(m, n)
    decreases n
  {
    hide RefitObject, Truncate, Shallow;
    var r := RefitObjects(TruncateMap(m, depth - 1), depth);
    assert r.Keys == m.Keys;
    forall k | k in m
      ensures m[k].objects.Some? ==> r[k].objects.Some?
      ensures n > 0 && m[k].objects.Some? ==>
        (WithinDepth(r[k].objects.value, n - 1) <==> WithinDepth(m[k].objects.value, n - 1))
      ensures m[k].objects.None? ==> r[k].objects.None?
    {
      RefitChildren(m[k], depth - 1);
      assert r[k] == RefitObject(TruncateMap(m, depth - 1)[k], depth - 1);
      if n > 0 && m[k].objects.Some? {
        RefitWithin(m[k].objects.value, depth - 1, n - 1);
      }
    }
  }

  lemma TreeReturns(lib: FloatLib, path: string, m: Objects)
    requires Lawful(lib)
    ensures OperationOf(lib, "write", Meant(lib, DObj(WriteMembers(lib, Omi.Tree(path, m)))), MAX_DEPTH)
         == Some(Omi.Write(Omi.Tree(path, RefitObjects(TruncateMap(m, UNLIMITED), UNLIMITED + 1))))
       <==> ReturnsWrite(Omi.Tree(path, m))
  {
    hide Meant, TakeAll, ObjectsOf, ObjectsDoc, WithinDepth, ReturnsObjects, RefitObjects;
    var t := TruncateMap(m, UNLIMITED);
    var a := Add(NoDocMembers, "path", DStr(path));
    var d := ObjectsDoc(lib, t, UNLIMITED + 1);
    UnfoldObj(lib, Add(a, "objects", d));
    StrMeant(lib, path);
    TakenAdd(lib, NO_WRITE, NoDocMembers, "path", DStr(path), MAX_DEPTH);
    TakenAdd(lib, NO_WRITE, a, "objects", d, MAX_DEPTH);
    ObjectsReturn(lib, t, UNLIMITED + 1, MAX_DEPTH);
    RefitWithin(m, UNLIMITED + 1, Omi.MAX_OBJECT_DEPTH);
    if WithinDepth(m, Omi.MAX_OBJECT_DEPTH) {
      WholeTree(m);
    }
  }

  lemma SingleReturns(lib: FloatLib, w: Omi.WriteItem, room: nat)
    requires Lawful(lib)
    ensures OperationOf(lib, "write", Meant(lib, DObj(WriteItemMembers(lib, w))), room)
         == Some(Omi.Write(Omi.Single(w.path, w.v, w.t)))
       <==> ReturnsItem(w)
  {
    hide Meant, TakeAll, WriteItemMembers;
    UnfoldObj(lib, WriteItemMembers(lib, w));
    WriteItemTaken(lib, w, room);
  }

  // ----- delete, cancel, response -----

  lemma DeleteReturns(lib: FloatLib, path: string, room: nat)
    ensures OperationOf(lib, "delete", Meant(lib, DObj(Add(NoDocMembers, "path", DStr(path)))), room)
         == if |path| > 1 && path[0] == '/' then Some(Omi.Delete(path)) else None
  {
    hide Meant, TakeAll;
    UnfoldObj(lib, Add(NoDocMembers, "path", DStr(path)));
    TakenAdd(lib, DeleteFields(None), NoDocMembers, "path", DStr(path), room);
    StrMeant(lib, path);
  }

  lemma {:induction false} RidsReturn(lib: FloatLib, rids: seq<string>, room: nat)
    ensures TakenElems(lib, RidItems([]), RidDocs(rids), room) == Some(RidItems(rids))
  {
    hide Meant;
    if rids == [] {
      TakenElemsAdd(lib, RidItems([]), NoDocs, DNull, room);
    } else {
      var before, last := rids[..|rids| - 1], rids[|rids| - 1];
      RidsReturn(lib, before, room);
      TakenElemsAdd(lib, RidItems([]), RidDocs(before), DStr(last), room);
      StrMeant(lib, last);
      assert rids == before + [last];
    }
  }

  lemma CancelReturns(lib: FloatLib, rids: seq<string>, room: nat)
    ensures OperationOf(lib, "cancel", Meant(lib, DObj(Add(NoDocMembers, "rid", DArr(RidDocs(rids))))), room)
         == if |rids| > 0 then Some(Omi.Cancel(rids)) else None
  {
    hide Meant, TakeAll, TakeElems, RidDocs;
    UnfoldObj(lib, Add(NoDocMembers, "rid", DArr(RidDocs(rids))));
    UnfoldArr(lib, RidDocs(rids));
    TakenAdd(lib, CancelFields(None), NoDocMembers, "rid", DArr(RidDocs(rids)), room);
    RidsReturn(lib, rids, room);
    assert RidsOf(lib, Meant(lib, DArr(RidDocs(rids))), room) == Some(rids);
  }

  lemma U16Returns(lib: FloatLib, n: U16)
    ensures U16Of(lib, Meant(lib, IntDoc(n))) == Some(n)
  {
    IntMeant(lib, n);
  }

  lemma StatusReturns(lib: FloatLib, s: Omi.ItemStatus, room: nat)
    ensures StatusOf(lib, Meant(lib, DObj(StatusMembers(s))), room) == Some(s)
  {
    hide Meant, TakeAll, U16Of, IntDoc;
    var a := Add(NoDocMembers, "path", DStr(s.path));
    var b := Add(a, "status", IntDoc(s.status));
    UnfoldObj(lib, StatusMembers(s));
    StrMeant(lib, s.path);
    U16Returns(lib, s.status);
    TakenAdd(lib, NO_STATUS, NoDocMembers, "path", DStr(s.path), room);
    TakenAdd(lib, NO_STATUS, a, "status", IntDoc(s.status), room);
    if s.desc.Some? {
      StrMeant(lib, s.desc.value);
      TakenAdd(lib, NO_STATUS, b, "desc", DStr(s.desc.value), room);
    }
  }

  lemma {:induction false} StatusesReturn(lib: FloatLib, ss: seq<Omi.ItemStatus>, room: nat)
    ensures TakenElems(lib, StatusItems([]), StatusDocs(ss), room) == Some(StatusItems(ss))
  {
    hide Meant, StatusOf, StatusMembers;
    if ss == [] {
      TakenElemsAdd(lib, StatusItems([]), NoDocs, DNull, room);
    } else {
      var before, last := ss[..|ss| - 1], ss[|ss| - 1];
      StatusesReturn(lib, before, room);
      TakenElemsAdd(lib, StatusItems([]), StatusDocs(before), DObj(StatusMembers(last)), room);
      StatusReturns(lib, last, room);
      assert ss == before + [last];
    }
  }

  lemma ResultReturns(lib: FloatLib, r: Omi.ResponseResult, room: nat)
    ensures ResultOf(lib, Meant(lib, ResultDoc(lib, r)), room) == Some(r)
       <==> (r.SingleResult? ==> r.payload.NullPayload?)
  {
    hide TakeElems, StatusDocs;
    if r.StatusBatch? {
      UnfoldArr(lib, StatusDocs(r.items));
      StatusesReturn(lib, r.items, room);
    }
  }

  lemma ResponseReturns(lib: FloatLib, b: Omi.ResponseBody, room: nat)
    ensures OperationOf(lib, "response", Meant(lib, DObj(ResponseMembers(lib, b))), room) == Some(Omi.Response(b))
       <==> ReturnsResponse(b)
  {
    hide Meant, TakeAll, U16Of, IntDoc, ResultOf, ResultDoc;
    var s := Add(NoDocMembers, "status", IntDoc(b.status));
    var i := AddStr(s, "rid", b.rid);
    var d := AddStr(i, "desc", b.desc);
    UnfoldObj(lib, ResponseMembers(lib, b));
    U16Returns(lib, b.status);
    TakenAdd(lib, NO_RESPONSE, NoDocMembers, "status", IntDoc(b.status), room);
    if b.rid.Some? {
      StrMeant(lib, b.rid.value);
      TakenAdd(lib, NO_RESPONSE, s, "rid", DStr(b.rid.value), room);
    }
    if b.desc.Some? {
      StrMeant(lib, b.desc.value);
      TakenAdd(lib, NO_RESPONSE, i, "desc", DStr(b.desc.value), room);
    }
    if b.result.Some? {
      ResultReturns(lib, b.result.value, room);
      TakenAdd(lib, NO_RESPONSE, d, "result", ResultDoc(lib, b.result.value), room);
    }
  }

  // ----- messages -----

  lemma OperationReturns(lib: FloatLib, m: Omi.OmiMessage)
    requires Lawful(lib)
    ensures OperationKey(m.operation) in OPERATIONS
    ensures OperationOf(lib, OperationKey(m.operation), Meant(lib, DObj(OperationMembers(lib, m.operation))), MAX_DEPTH)
         == Some(RefitMessage(m).operation)
       <==> ReturnsOperation(m.operation)
  {
    hide Meant, OperationOf, ReadOpMembers, WriteItemMembers, ReturnsRead, ReturnsItem, ResponseMembers,
      RefitObjects, ObjectsDoc, WithinDepth, ReturnsObjects;
    match m.operation
    case Read(r) => ReadReturns(lib, r, MAX_DEPTH);
    case Write(Single(path, v, t)) => SingleReturns(lib, Omi.WriteItem(path, v, t), MAX_DEPTH);
    case Write(Batch(items)) => BatchReturns(lib, items, MAX_DEPTH);
    case Write(Tree(path, objects)) => TreeReturns(lib, path, objects);
    case Delete(path) => DeleteReturns(lib, path, MAX_DEPTH);
    case Cancel(rids) => CancelReturns(lib, rids, MAX_DEPTH);
    case Response(b) => ResponseReturns(lib, b, MAX_DEPTH);
  }

  lemma MessageReturns(lib: FloatLib, m: Omi.OmiMessage)
    requires Lawful(lib)
    ensures MessageOf(lib, Meant(lib, MessageDoc(lib, m))) == Some(RefitMessage(m)) <==> ReturnsMessage(m)
  {
    hide Meant, TakeAll, OperationOf, OperationMembers, IntDoc, RefitObjects, OperationKey, ReturnsOperation;
    var key, d := OperationKey(m.operation), DObj(OperationMembers(lib, m.operation));
    var a := Add(NoDocMembers, "omi", DStr(m.version));
    var b := Add(a, "ttl", IntDoc(m.ttl));
    UnfoldObj(lib, MessageMembers(lib, m));
    StrMeant(lib, m.version);
    IntMeant(lib, m.ttl);
    OperationReturns(lib, m);
    TakenAdd(lib, NO_ENVELOPE, NoDocMembers, "omi", DStr(m.version), MAX_DEPTH);
    TakenAdd(lib, NO_ENVELOPE, a, "ttl", IntDoc(m.ttl), MAX_DEPTH);
    TakenAdd(lib, NO_ENVELOPE, b, key, d, MAX_DEPTH);
    assert {} + {key} == {key};
  }
}
