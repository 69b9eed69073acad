/** Reordering members, and inserting members that are not looked for, at any depth of a
    message changes nothing: an induction over what is read, from trees to bytes. */
module JsonAlike {
  import opened Wrappers
  import opened Floats
  import opened Odf
  import opened JsonGrammar
  import opened JsonMeaning
  import opened JsonOrder
  import Omi

  /** How a value is read, as far as its members can matter. */
  datatype Kind =
    | Plain                               // a string or a number
    | AnyValue                            // a scalar, or a container that is skipped
    | ResultKind                          // an array of statuses, or anything that is skipped
    | Node(start: Fields, deeper: bool)   // an object, one level deeper or not
    | List(items: Items, deeper: bool)    // an array

  function ChildKind(f: Fields, key: string): Kind {
    match f
    case ValueFields(_) => if key == "v" then AnyValue else Plain
    case MetaFields(_) => AnyValue
    case InfoFields(_) =>
      if key == "meta" then Node(MetaFields(map[]), true) else if key == "values" then List(ValueItems([]), true) else Plain
    case ItemsFields(_) => Node(NO_INFO, true)
    case ObjectFields(_) =>
      if key == "items" then Node(ItemsFields(map[]), true)
      else if key == "objects" then Node(ObjectsFields(map[]), true) else Plain
    case ObjectsFields(_) => Node(NO_OBJECT, true)
    case WriteFields(_) =>
      if key == "v" then AnyValue else if key == "items" then List(WriteItems([]), false)
      else if key == "objects" then Node(ObjectsFields(map[]), true) else Plain
    case WriteItemFields(_) => if key == "v" then AnyValue else Plain
    case CancelFields(_) => List(RidItems([]), false)
    case ResponseFields(_) => if key == "result" then ResultKind else Plain
    case EnvelopeFields(_) => if key in OPERATIONS then Node(OperationFields(key), false) else Plain
    case _ => Plain
  }

  function ElemKind(f: Items): Kind {
    match f
    case ValueItems(_) => Node(NO_VALUE, true)
    case WriteItems(_) => Node(NO_WRITE_ITEM, false)
    case StatusItems(_) => Node(NO_STATUS, false)
    case RidItems(_) => Plain
  }

  predicate Container(j: Json) { j.JArr? || j.JObj? }

  predicate FitAlike(a: Json, b: Json, room: nat) { Height(a) <= room <==> Height(b) <= room }

  /** The members that `f` looks for. */
  function Known(f: Fields, ms: Members): Members {
    if ms.NoMembers? then ms
    else if KnownKey(f, ms.key) then ms.(tail := Known(f, ms.tail))
    else Known(f, ms.tail)
  }

  /** Every other member fits in the depth. */
  predicate OthersFit(f: Fields, ms: Members, room: nat) {
    ms.Member? ==> (KnownKey(f, ms.key) || Height(ms.val) <= room) && OthersFit(f, ms.tail, room)
  }

  /** Two values that are read alike. Members that are looked for have distinct keys, come
      in any order and are alike one by one; the others only have to fit. */
  ghost predicate Alike(k: Kind, a: Json, b: Json, room: nat)
    decreases a, 1
  {
    a == b ||
    match k
    case Plain => Container(a) && Container(b)
    case AnyValue => Container(a) && Container(b) && FitAlike(a, b, room)
    case ResultKind =>
      if a.JArr? && b.JArr? then AlikeElems(StatusItems([]), a.elems, b.elems, room)
      else !a.JArr? && !b.JArr? && FitAlike(a, b, room)
    case Node(f, deeper) =>
      if a.JObj? && b.JObj? then
        (deeper && room == 0) || AlikeMembers(f, a.members, b.members, if deeper then room - 1 else room)
      else Container(a) && Container(b) && !a.JObj? && !b.JObj?
    case List(f, deeper) =>
      if a.JArr? && b.JArr? then
        (deeper && room == 0) || AlikeElems(f, a.elems, b.elems, if deeper then room - 1 else room)
      else Container(a) && Container(b) && !a.JArr? && !b.JArr?
  }

  ghost predicate AlikeElems(f: Items, es: Elems, ds: Elems, room: nat)
    decreases es, 0
  {
    && es.Elem? == ds.Elem?
    && (es.Elem? ==> Alike(ElemKind(f), es.head, ds.head, room) && AlikeElems(f, es.tail, ds.tail, room))
  }

  ghost predicate AlikeMembers(f: Fields, ms: Members, ns: Members, room: nat)
    decreases ms, 1
  {
    if OthersFit(f, ms, room) && OthersFit(f, ns, room) then
      && Distinct(Known(f, ms)) && Distinct(Known(f, ns))
      && AsMap(Known(f, ms)).Keys == AsMap(Known(f, ns)).Keys
      && EachAlike(f, ms, AsMap(Known(f, ns)), room)
    else !OthersFit(f, ms, room) && !OthersFit(f, ns, room)
  }

  ghost predicate EachAlike(f: Fields, ms: Members, m: map<string, Json>, room: nat)
    decreases ms, 0
  {
    ms.Member? ==>
      && (KnownKey(f, ms.key) ==> ms.key in m && Alike(ChildKind(f, ms.key), ms.val, m[ms.key], room))
      && EachAlike(f, ms.tail, m, room)
  }

  // ----- only the kind of the fields matters -----

  lemma {:induction false} KindDecides(f: Fields, g: Fields, ms: Members, room: nat)
    requires SameKind(f, g)
    ensures Known(f, ms) == Known(g, ms) && OthersFit(f, ms, room) == OthersFit(g, ms, room)
    decreases ms
  {
    hide KnownKey;
    if ms.Member? {
      SameKnown(f, g, ms.key);
      KindDecides(f, g, ms.tail, room);
    }
  }

  lemma SameChildKind(f: Fields, g: Fields, key: string)
    requires SameKind(f, g)
    ensures ChildKind(f, key) == ChildKind(g, key)
  {
  }

  lemma {:induction false} KindDecidesEach(f: Fields, g: Fields, ms: Members, m: map<string, Json>, room: nat)
    requires SameKind(f, g)
    ensures EachAlike(f, ms, m, room) == EachAlike(g, ms, m, room)
    decreases ms
  {
    hide KnownKey, ChildKind, Alike;
    if ms.Member? {
      SameKnown(f, g, ms.key);
      SameChildKind(f, g, ms.key);
      KindDecidesEach(f, g, ms.tail, m, room);
    }
  }

  lemma SameKindRefl(f: Fields)
    ensures SameKind(f, f)
  {
  }

  lemma SameKindTransitive(f: Fields, g: Fields, h: Fields)
    requires SameKind(f, g) && SameKind(g, h)
    ensures SameKind(f, h) && SameKind(g, f)
  {
  }

  // ----- members that are not looked for -----

  lemma {:induction false} OthersDropped(lib: FloatLib, f: Fields, ms: Members, room: nat)
    ensures TakeAll(lib, f, ms, room) == if OthersFit(f, ms, room) then TakeAll(lib, f, Known(f, ms), room) else None
    decreases ms
  {
    hide Take, KnownKey, Height, SameKind;
    if ms.Member? {
      if KnownKey(f, ms.key) {
        var g := Take(lib, f, ms.key, ms.val, room);
        if g.Some? {
          KindDecides(f, g.value, ms.tail, room);
          OthersDropped(lib, g.value, ms.tail, room);
        }
      } else {
        UnknownTaken(lib, f, ms.key, ms.val, room);
        OthersDropped(lib, f, ms.tail, room);
      }
    }
  }

  // ----- the same members with alike values -----

  predicate Within(ms: Members, m: map<string, Json>) { ms.Member? ==> ms.key in m && Within(ms.tail, m) }

  /** The same keys with the values of a map. */
  function Replaced(ms: Members, m: map<string, Json>): Members
    requires Within(ms, m)
  {
    if ms.NoMembers? then ms else Member(ms.key, m[ms.key], Replaced(ms.tail, m))
  }

  lemma {:induction false} EachWithin(f: Fields, ms: Members, m: map<string, Json>, room: nat)
    requires EachAlike(f, ms, m, room)
    ensures Within(Known(f, ms), m)
    decreases ms
  {
    hide KnownKey, Alike;
    if ms.Member? {
      EachWithin(f, ms.tail, m, room);
    }
  }

  lemma {:induction false} ReplacedIs(ms: Members, m: map<string, Json>)
    requires Distinct(ms) && Within(ms, m)
    ensures Distinct(Replaced(ms, m)) && AsMap(Replaced(ms, m)).Keys == AsMap(ms).Keys
    ensures forall k | k in AsMap(ms) :: k in m && AsMap(Replaced(ms, m))[k] == m[k]
    decreases ms
  {
    if ms.Member? {
      ReplacedIs(ms.tail, m);
      KeysAreMap(ms.tail);
      KeysAreMap(Replaced(ms.tail, m));
    }
  }

  // ----- what is read alike is read the same -----

  /** What reading a value of a kind gives. */
  ghost predicate ReadSame(lib: FloatLib, k: Kind, a: Json, b: Json, room: nat) {
    match k
    case Plain => a == b || (Container(a) && Container(b))
    case AnyValue => OmiOf(lib, a, room) == OmiOf(lib, b, room)
    case ResultKind => ResultOf(lib, a, room) == ResultOf(lib, b, room)
    case Node(f, deeper) =>
      && (a.JNull? <==> b.JNull?)
      && ((deeper && room == 0) ||
          var r := if deeper then room - 1 else room;
          SameResult(FieldsOf(lib, f, a, r), FieldsOf(lib, f, b, r)))
    case List(f, deeper) =>
      (deeper && room == 0) ||
      var r := if deeper then room - 1 else room;
      ItemsIn(lib, f, a, r) == ItemsIn(lib, f, b, r)
  }

  lemma {:induction false} AlikeRead(lib: FloatLib, k: Kind, a: Json, b: Json, room: nat)
    requires Alike(k, a, b, room)
    ensures ReadSame(lib, k, a, b, room)
    decreases a, 2
  {
    hide TakeAll, TakeElems, AlikeMembers, AlikeElems, Height, SameResult;
    if a == b {
      if k.Node? && !(k.deeper && room == 0) {
        SameRefl(FieldsOf(lib, k.start, a, if k.deeper then room - 1 else room));
      }
      return;
    }
    match k {
      case Node(f, deeper) =>
        if !(deeper && room == 0) {
          var r := if deeper then room - 1 else room;
          if a.JObj? && b.JObj? {
            MembersRead(lib, f, a.members, b.members, r);
          } else {
            SameRefl(None);
          }
        }
      case List(f, deeper) =>
        if a.JArr? && b.JArr? && !(deeper && room == 0) {
          ElemsRead(lib, f, f, a.elems, b.elems, if deeper then room - 1 else room);
        }
      case ResultKind =>
        if a.JArr? && b.JArr? {
          ElemsRead(lib, StatusItems([]), StatusItems([]), a.elems, b.elems, room);
          ResultRead(lib, a, b, room);
        }
      case _ =>
    }
  }

  lemma ResultRead(lib: FloatLib, a: Json, b: Json, room: nat)
    requires a.JArr? && b.JArr?
    requires TakeElems(lib, StatusItems([]), a.elems, room) == TakeElems(lib, StatusItems([]), b.elems, room)
    ensures ResultOf(lib, a, room) == ResultOf(lib, b, room)
  {
    hide TakeElems;
    assert ItemsIn(lib, StatusItems([]), a, room) == ItemsIn(lib, StatusItems([]), b, room);
  }

  lemma {:induction false} ElemsRead(lib: FloatLib, f: Items, g: Items, es: Elems, ds: Elems, room: nat)
    requires SameItems(f, g) && AlikeElems(f, es, ds, room)
    ensures TakeElems(lib, g, es, room) == TakeElems(lib, g, ds, room)
    decreases es, 0
  {
    hide TakeElem, Alike, ReadSame;
    if es.Elem? {
      AlikeRead(lib, ElemKind(f), es.head, ds.head, room);
      ElemRead(lib, f, g, es.head, ds.head, room);
      var x := TakeElem(lib, g, es.head, room);
      if x.Some? {
        ElemsRead(lib, f, x.value, es.tail, ds.tail, room);
      }
    }
  }

  lemma ElemRead(lib: FloatLib, f: Items, g: Items, a: Json, b: Json, room: nat)
    requires SameItems(f, g) && ReadSame(lib, ElemKind(f), a, b, room)
    ensures TakeElem(lib, g, a, room) == TakeElem(lib, g, b, room)
  {
    hide ValueOf, WriteItemOf, StatusOf, StringOf, ReadSame;
    match g
    case ValueItems(_) => ValueRead(lib, a, b, room);
    case WriteItems(_) => WriteItemRead(lib, a, b, room);
    case StatusItems(_) => StatusRead(lib, a, b, room);
    case RidItems(_) => PlainRead(lib, a, b, room);
  }

  lemma WriteItemRead(lib: FloatLib, a: Json, b: Json, room: nat)
    requires ReadSame(lib, Node(NO_WRITE_ITEM, false), a, b, room)
    ensures WriteItemOf(lib, a, room) == WriteItemOf(lib, b, room)
  {
    hide FieldsOf;
  }

  lemma StatusRead(lib: FloatLib, a: Json, b: Json, room: nat)
    requires ReadSame(lib, Node(NO_STATUS, false), a, b, room)
    ensures StatusOf(lib, a, room) == StatusOf(lib, b, room)
  {
    hide FieldsOf;
  }

  // One member that is looked for, kind by kind.

  lemma ScalarRead(lib: FloatLib, a: Json, b: Json)
    requires a == b || (Container(a) && Container(b))
    ensures StringOf(a) == StringOf(b) && F64Of(lib, a) == F64Of(lib, b) && I64Of(lib, a) == I64Of(lib, b)
    ensures U64Of(lib, a) == U64Of(lib, b) && U16Of(lib, a) == U16Of(lib, b)
    ensures forall was :: StringOr(was, a) == StringOr(was, b)
    ensures a.JNull? <==> b.JNull?
  {
  }

  lemma MemberRead(lib: FloatLib, f: Fields, key: string, a: Json, b: Json, room: nat)
    requires KnownKey(f, key) && ReadSame(lib, ChildKind(f, key), a, b, room)
    ensures Take(lib, f, key, a, room) == Take(lib, f, key, b, room)
  {
    hide TakeOfValue, TakeOfInfo, TakeOfObject, TakeOfRead, TakeOfWrite, TakeOfWriteItem, TakeOfDelete;
    hide TakeOfCancel, TakeOfResponse, TakeOfStatus, TakeOfEnvelope, InfoOf, ObjectOf, OmiOf, ReadSame;
    match f
    case ValueFields(l) => MemberOfValue(lib, l, key, a, b, room);
    case MetaFields(_) => assert OmiOf(lib, a, room) == OmiOf(lib, b, room) by { EntryRead(lib, a, b, room); }
    case InfoFields(l) => MemberOfInfo(lib, l, key, a, b, room);
    case ItemsFields(_) => InfoRead(lib, a, b, room);
    case ObjectFields(l) => MemberOfObject(lib, l, key, a, b, room);
    case ObjectsFields(_) => ObjectRead(lib, a, b, room);
    case ReadFields(l) => MemberOfRead(lib, l, key, a, b, room);
    case WriteFields(l) => MemberOfWrite(lib, l, key, a, b, room);
    case WriteItemFields(l) => MemberOfWriteItem(lib, l, key, a, b, room);
    case DeleteFields(l) => MemberOfDelete(lib, l, key, a, b, room);
    case CancelFields(l) => MemberOfCancel(lib, l, key, a, b, room);
    case ResponseFields(l) => MemberOfResponse(lib, l, key, a, b, room);
    case StatusFields(l) => MemberOfStatus(lib, l, key, a, b, room);
    case EnvelopeFields(l) => MemberOfEnvelope(lib, l, key, a, b, room);
  }

  lemma EntryRead(lib: FloatLib, a: Json, b: Json, room: nat)
    requires ReadSame(lib, AnyValue, a, b, room)
    ensures OmiOf(lib, a, room) == OmiOf(lib, b, room)
  {
    hide OmiOf;
  }

  lemma MemberOfValue(lib: FloatLib, l: ValueLocals, key: string, a: Json, b: Json, room: nat)
    requires KnownKey(ValueFields(l), key) && ReadSame(lib, ChildKind(ValueFields(l), key), a, b, room)
    ensures TakeOfValue(lib, l, key, a, room) == TakeOfValue(lib, l, key, b, room)
  {
    hide OmiOf, F64Of;
    if key != "v" {
      ScalarRead(lib, a, b);
    }
  }

  lemma MemberOfInfo(lib: FloatLib, l: InfoLocals, key: string, a: Json, b: Json, room: nat)
    requires KnownKey(InfoFields(l), key) && ReadSame(lib, ChildKind(InfoFields(l), key), a, b, room)
    ensures TakeOfInfo(lib, l, key, a, room) == TakeOfInfo(lib, l, key, b, room)
  {
    hide MetaOf, RingOf, StringOr, ReadSame;
    if key == "meta" {
      NodeNull(lib, MetaFields(map[]), true, a, b, room);
      MetaRead(lib, a, b, room);
    } else if key == "values" {
      RingRead(lib, a, b, room);
    } else {
      PlainRead(lib, a, b, room);
    }
  }

  lemma PlainRead(lib: FloatLib, a: Json, b: Json, room: nat)
    requires ReadSame(lib, Plain, a, b, room)
    ensures StringOf(a) == StringOf(b) && F64Of(lib, a) == F64Of(lib, b) && I64Of(lib, a) == I64Of(lib, b)
    ensures U64Of(lib, a) == U64Of(lib, b) && U16Of(lib, a) == U16Of(lib, b)
    ensures forall was :: StringOr(was, a) == StringOr(was, b)
    ensures a.JNull? <==> b.JNull?
  {
    ScalarRead(lib, a, b);
  }

  lemma NodeNull(lib: FloatLib, f: Fields, deeper: bool, a: Json, b: Json, room: nat)
    requires ReadSame(lib, Node(f, deeper), a, b, room)
    ensures a.JNull? <==> b.JNull?
  {
    hide FieldsOf, SameResult;
  }

  lemma MetaRead(lib: FloatLib, a: Json, b: Json, room: nat)
    requires ReadSame(lib, Node(MetaFields(map[]), true), a, b, room)
    ensures MetaOf(lib, a, room) == MetaOf(lib, b, room)
  {
    hide FieldsOf;
  }

  lemma InfoRead(lib: FloatLib, a: Json, b: Json, room: nat)
    requires ReadSame(lib, Node(NO_INFO, true), a, b, room)
    ensures InfoOf(lib, a, room) == InfoOf(lib, b, room)
  {
    hide FieldsOf;
  }

  lemma ItemsRead(lib: FloatLib, a: Json, b: Json, room: nat)
    requires ReadSame(lib, Node(ItemsFields(map[]), true), a, b, room)
    ensures ItemsOf(lib, a, room) == ItemsOf(lib, b, room)
  {
    hide FieldsOf;
  }

  lemma ObjectRead(lib: FloatLib, a: Json, b: Json, room: nat)
    requires ReadSame(lib, Node(NO_OBJECT, true), a, b, room)
    ensures ObjectOf(lib, a, room) == ObjectOf(lib, b, room)
  {
    hide FieldsOf;
  }

  lemma ObjectsRead(lib: FloatLib, a: Json, b: Json, room: nat)
    requires ReadSame(lib, Node(ObjectsFields(map[]), true), a, b, room)
    ensures ObjectsOf(lib, a, room) == ObjectsOf(lib, b, room)
  {
    hide FieldsOf;
  }

  lemma ValueRead(lib: FloatLib, a: Json, b: Json, room: nat)
    requires ReadSame(lib, Node(NO_VALUE, true), a, b, room)
    ensures ValueOf(lib, a, room) == ValueOf(lib, b, room)
  {
    hide FieldsOf;
  }

  lemma RingRead(lib: FloatLib, a: Json, b: Json, room: nat)
    requires ReadSame(lib, List(ValueItems([]), true), a, b, room)
    ensures RingOf(lib, a, room) == RingOf(lib, b, room)
  {
    hide ItemsIn;
  }

  lemma MemberOfObject(lib: FloatLib, l: ObjectLocals, key: string, a: Json, b: Json, room: nat)
    requires KnownKey(ObjectFields(l), key) && ReadSame(lib, ChildKind(ObjectFields(l), key), a, b, room)
    ensures TakeOfObject(lib, l, key, a, room) == TakeOfObject(lib, l, key, b, room)
  {
    hide ItemsOf, ObjectsOf, StringOr, StringOf, ReadSame;
    if key == "items" {
      NodeNull(lib, ItemsFields(map[]), true, a, b, room);
      ItemsRead(lib, a, b, room);
    } else if key == "objects" {
      NodeNull(lib, ObjectsFields(map[]), true, a, b, room);
      ObjectsRead(lib, a, b, room);
    } else {
      PlainRead(lib, a, b, room);
    }
  }

  lemma MemberOfRead(lib: FloatLib, l: Omi.ReadOp, key: string, a: Json, b: Json, room: nat)
    requires KnownKey(ReadFields(l), key) && ReadSame(lib, ChildKind(ReadFields(l), key), a, b, room)
    ensures TakeOfRead(lib, l, key, a, room) == TakeOfRead(lib, l, key, b, room)
  {
    hide StringOf, U64Of, F64Of, ReadSame;
    PlainRead(lib, a, b, room);
  }

  lemma MemberOfWrite(lib: FloatLib, l: WriteLocals, key: string, a: Json, b: Json, room: nat)
    requires KnownKey(WriteFields(l), key) && ReadSame(lib, ChildKind(WriteFields(l), key), a, b, room)
    ensures TakeOfWrite(lib, l, key, a, room) == TakeOfWrite(lib, l, key, b, room)
  {
    hide StringOf, OmiOf, F64Of, WritesOf, ObjectsOf, ReadSame;
    if key == "v" {
      EntryRead(lib, a, b, room);
    } else if key == "items" {
      WritesRead(lib, a, b, room);
    } else if key == "objects" {
      ObjectsRead(lib, a, b, room);
    } else {
      PlainRead(lib, a, b, room);
    }
  }

  lemma WritesRead(lib: FloatLib, a: Json, b: Json, room: nat)
    requires ReadSame(lib, List(WriteItems([]), false), a, b, room)
    ensures WritesOf(lib, a, room) == WritesOf(lib, b, room)
  {
    hide ItemsIn;
  }

  lemma RidsRead(lib: FloatLib, a: Json, b: Json, room: nat)
    requires ReadSame(lib, List(RidItems([]), false), a, b, room)
    ensures RidsOf(lib, a, room) == RidsOf(lib, b, room)
  {
    hide ItemsIn;
  }

  lemma MemberOfWriteItem(lib: FloatLib, l: WriteItemLocals, key: string, a: Json, b: Json, room: nat)
    requires KnownKey(WriteItemFields(l), key) && ReadSame(lib, ChildKind(WriteItemFields(l), key), a, b, room)
    ensures TakeOfWriteItem(lib, l, key, a, room) == TakeOfWriteItem(lib, l, key, b, room)
  {
    hide StringOf, OmiOf, F64Of, ReadSame;
    if key == "v" {
      EntryRead(lib, a, b, room);
    } else {
      PlainRead(lib, a, b, room);
    }
  }

  lemma MemberOfDelete(lib: FloatLib, l: Option<string>, key: string, a: Json, b: Json, room: nat)
    requires KnownKey(DeleteFields(l), key) && ReadSame(lib, ChildKind(DeleteFields(l), key), a, b, room)
    ensures TakeOfDelete(l, key, a, room) == TakeOfDelete(l, key, b, room)
  {
    hide StringOf, ReadSame;
    PlainRead(lib, a, b, room);
  }

  lemma MemberOfCancel(lib: FloatLib, l: Option<seq<string>>, key: string, a: Json, b: Json, room: nat)
    requires KnownKey(CancelFields(l), key) && ReadSame(lib, ChildKind(CancelFields(l), key), a, b, room)
    ensures TakeOfCancel(lib, l, key, a, room) == TakeOfCancel(lib, l, key, b, room)
  {
    hide RidsOf, ReadSame;
    RidsRead(lib, a, b, room);
  }

  lemma MemberOfResponse(lib: FloatLib, l: ResponseLocals, key: string, a: Json, b: Json, room: nat)
    requires KnownKey(ResponseFields(l), key) && ReadSame(lib, ChildKind(ResponseFields(l), key), a, b, room)
    ensures TakeOfResponse(lib, l, key, a, room) == TakeOfResponse(lib, l, key, b, room)
  {
    hide ResultOf, StringOf, U16Of;
    if key != "result" {
      PlainRead(lib, a, b, room);
    }
  }

  lemma MemberOfStatus(lib: FloatLib, l: StatusLocals, key: string, a: Json, b: Json, room: nat)
    requires KnownKey(StatusFields(l), key) && ReadSame(lib, ChildKind(StatusFields(l), key), a, b, room)
    ensures TakeOfStatus(lib, l, key, a, room) == TakeOfStatus(lib, l, key, b, room)
  {
    hide StringOf, U16Of, ReadSame;
    PlainRead(lib, a, b, room);
  }

  lemma OperationRead(lib: FloatLib, key: string, a: Json, b: Json, room: nat)
    requires key in OPERATIONS && ReadSame(lib, Node(OperationFields(key), false), a, b, room)
    ensures OperationOf(lib, key, a, room) == OperationOf(lib, key, b, room)
  {
    hide FieldsOf, EndOperation;
  }

  lemma MemberOfEnvelope(lib: FloatLib, l: EnvelopeLocals, key: string, a: Json, b: Json, room: nat)
    requires KnownKey(EnvelopeFields(l), key) && ReadSame(lib, ChildKind(EnvelopeFields(l), key), a, b, room)
    ensures TakeOfEnvelope(lib, l, key, a, room) == TakeOfEnvelope(lib, l, key, b, room)
  {
    hide OperationOf, StringOf, I64Of, ReadSame;
    if key in OPERATIONS {
      OperationRead(lib, key, a, b, room);
    } else {
      PlainRead(lib, a, b, room);
    }
  }

  lemma {:induction false} KnownRead(lib: FloatLib, f: Fields, ms: Members, m: map<string, Json>, room: nat)
    requires EachAlike(f, ms, m, room) && Within(Known(f, ms), m)
    ensures TakeAll(lib, f, Known(f, ms), room) == TakeAll(lib, f, Replaced(Known(f, ms), m), room)
    decreases ms, 0
  {
    hide Take, KnownKey, ChildKind, Alike, ReadSame, SameKind;
    if ms.Member? {
      if KnownKey(f, ms.key) {
        AlikeRead(lib, ChildKind(f, ms.key), ms.val, m[ms.key], room);
        MemberRead(lib, f, ms.key, ms.val, m[ms.key], room);
        var g := Take(lib, f, ms.key, ms.val, room);
        if g.Some? {
          KindDecides(f, g.value, ms.tail, room);
          KindDecidesEach(f, g.value, ms.tail, m, room);
          KnownRead(lib, g.value, ms.tail, m, room);
        }
      } else {
        KnownRead(lib, f, ms.tail, m, room);
      }
    }
  }

  lemma {:induction false} MembersRead(lib: FloatLib, f: Fields, ms: Members, ns: Members, room: nat)
    requires AlikeMembers(f, ms, ns, room)
    ensures SameResult(TakeAll(lib, f, ms, room), TakeAll(lib, f, ns, room))
    decreases ms, 1
  {
    hide TakeAll, Known, OthersFit, EachAlike, SameResult, Distinct, AsMap;
    OthersDropped(lib, f, ms, room);
    OthersDropped(lib, f, ns, room);
    if OthersFit(f, ms, room) {
      var p, q := Known(f, ms), Known(f, ns);
      EachWithin(f, ms, AsMap(q), room);
      KnownRead(lib, f, ms, AsMap(q), room);
      ReplacedIs(p, AsMap(q));
      assert AsMap(Replaced(p, AsMap(q))) == AsMap(q);
      OrderIrrelevant(lib, f, Replaced(p, AsMap(q)), q, room);
    } else {
      SameRefl(None);
    }
  }

  lemma MessageRead(lib: FloatLib, a: Json, b: Json)
    requires ReadSame(lib, Node(NO_ENVELOPE, false), a, b, MAX_DEPTH)
    ensures MessageOf(lib, a) == MessageOf(lib, b)
  {
    hide FieldsOf;
  }

  /** Alike trees mean the same message, object, item, value or map of objects. */
  lemma AlikeMeansSame(lib: FloatLib, j: Json, k: Json, room: nat)
    ensures Alike(Node(NO_ENVELOPE, false), j, k, MAX_DEPTH) ==> MessageOf(lib, j) == MessageOf(lib, k)
    ensures Alike(Node(NO_OBJECT, true), j, k, room) ==> ObjectOf(lib, j, room) == ObjectOf(lib, k, room)
    ensures Alike(Node(ObjectsFields(map[]), true), j, k, room) ==> ObjectsOf(lib, j, room) == ObjectsOf(lib, k, room)
    ensures Alike(Node(NO_INFO, true), j, k, room) ==> InfoOf(lib, j, room) == InfoOf(lib, k, room)
    ensures Alike(Node(NO_VALUE, true), j, k, room) ==> ValueOf(lib, j, room) == ValueOf(lib, k, room)
    ensures Alike(List(ValueItems([]), true), j, k, room) ==> RingOf(lib, j, room) == RingOf(lib, k, room)
  {
    hide MessageOf, ObjectOf, ObjectsOf, InfoOf, ValueOf, RingOf, ReadSame, Alike;
    if Alike(Node(NO_ENVELOPE, false), j, k, MAX_DEPTH) {
      AlikeRead(lib, Node(NO_ENVELOPE, false), j, k, MAX_DEPTH);
      MessageRead(lib, j, k);
    }
    if Alike(Node(NO_OBJECT, true), j, k, room) {
      AlikeRead(lib, Node(NO_OBJECT, true), j, k, room);
      ObjectRead(lib, j, k, room);
    }
    if Alike(Node(ObjectsFields(map[]), true), j, k, room) {
      AlikeRead(lib, Node(ObjectsFields(map[]), true), j, k, room);
      ObjectsRead(lib, j, k, room);
    }
    if Alike(Node(NO_INFO, true), j, k, room) {
      AlikeRead(lib, Node(NO_INFO, true), j, k, room);
      InfoRead(lib, j, k, room);
    }
    if Alike(Node(NO_VALUE, true), j, k, room) {
      AlikeRead(lib, Node(NO_VALUE, true), j, k, room);
      ValueRead(lib, j, k, room);
    }
    if Alike(List(ValueItems([]), true), j, k, room) {
      AlikeRead(lib, List(ValueItems([]), true), j, k, room);
      RingRead(lib, j, k, room);
    }
  }

  // ----- reordering alone, at every level, whatever is read -----

  /** The same tree up to the order of members, all of distinct keys. */
  ghost predicate Shuffled(a: Json, b: Json)
    decreases a, 1
  {
    match a
    case JArr(es) => b.JArr? && ShuffledElems(es, b.elems)
    case JObj(ms) =>
      && b.JObj? && Distinct(ms) && Distinct(b.members)
      && AsMap(ms).Keys == AsMap(b.members).Keys && EachShuffled(ms, AsMap(b.members))
    case _ => a == b
  }

  ghost predicate ShuffledElems(es: Elems, ds: Elems)
    decreases es, 0
  {
    es.Elem? == ds.Elem? && (es.Elem? ==> Shuffled(es.head, ds.head) && ShuffledElems(es.tail, ds.tail))
  }

  ghost predicate EachShuffled(ms: Members, m: map<string, Json>)
    decreases ms, 0
  {
    ms.Member? ==> ms.key in m && Shuffled(ms.val, m[ms.key]) && EachShuffled(ms.tail, m)
  }

  /** No value in the members is higher than `h`. */
  lemma {:induction false} HeightsAre(ms: Members, h: nat)
    requires Distinct(ms)
    ensures MembersHeight(ms) <= h <==> forall k | k in AsMap(ms) :: Height(AsMap(ms)[k]) <= h
    decreases ms
  {
    hide Height;
    if ms.Member? {
      HeightsAre(ms.tail, h);
      KeysAreMap(ms.tail);
      var m, tail := AsMap(ms), AsMap(ms.tail);
      assert m[ms.key] == ms.val && ms.key !in tail;
      assert MembersHeight(ms) <= h <==> Height(ms.val) <= h && MembersHeight(ms.tail) <= h;
      if MembersHeight(ms) <= h {
        forall k | k in m ensures Height(m[k]) <= h {
          assert k == ms.key || k in tail;
        }
      } else if Height(m[ms.key]) <= h {
        var k :| k in tail && Height(tail[k]) > h;
        assert k in m && Height(m[k]) > h;
      } else {
        assert ms.key in m;
      }
    }
  }

  lemma SameHeights(ms: Members, ns: Members)
    requires Distinct(ms) && Distinct(ns) && AsMap(ms).Keys == AsMap(ns).Keys
    requires forall k | k in AsMap(ms) :: k in AsMap(ns) && Height(AsMap(ms)[k]) == Height(AsMap(ns)[k])
    ensures MembersHeight(ms) == MembersHeight(ns)
  {
    hide Height, MembersHeight, AsMap, Distinct;
    assert forall k | k in AsMap(ns) :: k in AsMap(ms).Keys;
    HeightsAre(ms, MembersHeight(ms));
    HeightsAre(ms, MembersHeight(ns));
    HeightsAre(ns, MembersHeight(ms));
    HeightsAre(ns, MembersHeight(ns));
  }

  lemma {:induction false} ShuffledHeight(a: Json, b: Json)
    requires Shuffled(a, b)
    ensures Height(a) == Height(b)
    decreases a, 1
  {
    match a {
      case JArr(es) => ShuffledElemsHeight(es, b.elems);
      case JObj(ms) =>
        EachShuffledHeight(ms, AsMap(b.members));
        SameHeights(ms, b.members);
      case _ =>
    }
  }

  lemma {:induction false} ShuffledElemsHeight(es: Elems, ds: Elems)
    requires ShuffledElems(es, ds)
    ensures ElemsHeight(es) == ElemsHeight(ds)
    decreases es, 0
  {
    if es.Elem? {
      ShuffledHeight(es.head, ds.head);
      ShuffledElemsHeight(es.tail, ds.tail);
    }
  }

  lemma {:induction false} EachShuffledHeight(ms: Members, m: map<string, Json>)
    requires EachShuffled(ms, m)
    ensures forall k | k in AsMap(ms) :: k in m && Height(AsMap(ms)[k]) == Height(m[k])
    decreases ms, 0
  {
    hide Height, Shuffled;
    if ms.Member? {
      ShuffledHeight(ms.val, m[ms.key]);
      EachShuffledHeight(ms.tail, m);
    }
  }

  lemma {:induction false} KnownOf(f: Fields, ms: Members)
    requires Distinct(ms)
    ensures Distinct(Known(f, ms))
    ensures forall k :: k in AsMap(Known(f, ms)) <==> k in AsMap(ms) && KnownKey(f, k)
    ensures forall k | k in AsMap(Known(f, ms)) :: AsMap(Known(f, ms))[k] == AsMap(ms)[k]
    decreases ms
  {
    hide KnownKey;
    if ms.Member? {
      KnownOf(f, ms.tail);
      KeysAreMap(ms.tail);
      KeysAreMap(Known(f, ms.tail));
    }
  }

  lemma {:induction false} OthersFitIs(f: Fields, ms: Members, room: nat)
    requires Distinct(ms)
    ensures OthersFit(f, ms, room) <==> forall k | k in AsMap(ms) && !KnownKey(f, k) :: Height(AsMap(ms)[k]) <= room
    decreases ms
  {
    hide KnownKey, Height;
    if ms.Member? {
      OthersFitIs(f, ms.tail, room);
      KeysAreMap(ms.tail);
    }
  }

  /** A shuffled tree is alike for every way of reading it. */
  lemma {:induction false} ShuffledIsAlike(k: Kind, a: Json, b: Json, room: nat)
    requires Shuffled(a, b)
    ensures Alike(k, a, b, room)
    decreases a, 2
  {
    hide Height, AlikeMembers, AlikeElems;
    ShuffledHeight(a, b);
    match k {
      case Node(f, deeper) =>
        if a.JObj? && !(deeper && room == 0) {
          ShuffledMembersAlike(f, a.members, b.members, if deeper then room - 1 else room);
        }
      case List(f, deeper) =>
        if a.JArr? && !(deeper && room == 0) {
          ShuffledElemsAlike(f, a.elems, b.elems, if deeper then room - 1 else room);
        }
      case ResultKind =>
        if a.JArr? {
          ShuffledElemsAlike(StatusItems([]), a.elems, b.elems, room);
        }
      case _ =>
    }
  }

  lemma {:induction false} ShuffledElemsAlike(f: Items, es: Elems, ds: Elems, room: nat)
    requires ShuffledElems(es, ds)
    ensures AlikeElems(f, es, ds, room)
    decreases es, 0
  {
    hide Alike, Shuffled;
    if es.Elem? {
      ShuffledIsAlike(ElemKind(f), es.head, ds.head, room);
      ShuffledElemsAlike(f, es.tail, ds.tail, room);
    }
  }

  lemma {:induction false} ShuffledMembersAlike(f: Fields, ms: Members, ns: Members, room: nat)
    requires Distinct(ms) && Distinct(ns) && AsMap(ms).Keys == AsMap(ns).Keys && EachShuffled(ms, AsMap(ns))
    ensures AlikeMembers(f, ms, ns, room)
    decreases ms, 1
  {
    hide KnownKey, Height, Known, OthersFit, EachAlike, EachShuffled, AsMap, Distinct;
    KnownOf(f, ms);
    KnownOf(f, ns);
    OthersFitIs(f, ms, room);
    OthersFitIs(f, ns, room);
    EachShuffledHeight(ms, AsMap(ns));
    assert AsMap(Known(f, ms)).Keys == AsMap(Known(f, ns)).Keys;
    EachShuffledAlike(f, ms, AsMap(ns), AsMap(Known(f, ns)), room);
  }

  lemma {:induction false} EachShuffledAlike(f: Fields, ms: Members, m: map<string, Json>, known: map<string, Json>, room: nat)
    requires EachShuffled(ms, m)
    requires forall k :: k in known <==> k in m && KnownKey(f, k)
    requires forall k | k in known :: known[k] == m[k]
    ensures EachAlike(f, ms, known, room)
    decreases ms, 0
  {
    hide KnownKey, ChildKind, Alike, Shuffled;
    if ms.Member? {
      if KnownKey(f, ms.key) {
        ShuffledIsAlike(ChildKind(f, ms.key), ms.val, m[ms.key], room);
      }
      EachShuffledAlike(f, ms.tail, m, known, room);
    }
  }

  /** The order of members matters at no level of a message, an object, an item, a value. */
  lemma ShuffledMeansSame(lib: FloatLib, j: Json, k: Json, room: nat)
    requires Shuffled(j, k)
    ensures MessageOf(lib, j) == MessageOf(lib, k)
    ensures ObjectOf(lib, j, room) == ObjectOf(lib, k, room) && ObjectsOf(lib, j, room) == ObjectsOf(lib, k, room)
    ensures InfoOf(lib, j, room) == InfoOf(lib, k, room) && ValueOf(lib, j, room) == ValueOf(lib, k, room)
    ensures RingOf(lib, j, room) == RingOf(lib, k, room)
  {
    hide Alike, Shuffled, MessageOf, ObjectOf, ObjectsOf, InfoOf, ValueOf, RingOf;
    ShuffledIsAlike(Node(NO_ENVELOPE, false), j, k, MAX_DEPTH);
    ShuffledIsAlike(Node(NO_OBJECT, true), j, k, room);
    ShuffledIsAlike(Node(ObjectsFields(map[]), true), j, k, room);
    ShuffledIsAlike(Node(NO_INFO, true), j, k, room);
    ShuffledIsAlike(Node(NO_VALUE, true), j, k, room);
    ShuffledIsAlike(List(ValueItems([]), true), j, k, room);
    AlikeMeansSame(lib, j, k, room);
  }
}
