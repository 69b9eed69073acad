/** Serialising O-DF data and parsing the text back: exactly when the same data
    returns. What cannot return: NaN and infinities (written as null), an empty
    history (not written, but required), nesting beyond the parser's depth. Ring
    capacity is never kept. */
module RoundTripOdf {
  import opened Wrappers
  import opened Floats
  import opened JsonGrammar
  import opened JsonMeaning
  import opened JsonPrint
  import opened JsonWriter
  import opened JsonDocs
  import opened Odf
  import SortedMap

  // ----- the conditions -----

  predicate FiniteOmi(v: OmiValue) { v.OmiNumber? ==> IsFinite(v.n) }

  predicate FiniteTime(t: Option<F64>) { t.Some? ==> IsFinite(t.value) }

  predicate ReturnsValue(v: Value, room: nat) {
    room > 0 && FiniteOmi(v.v) && FiniteTime(v.t)
  }

  predicate ReturnsRing(r: Ring, room: nat) {
    room > 0 && forall v | v in r.vals :: ReturnsValue(v, room - 1)
  }

  predicate ReturnsMeta(m: map<string, OmiValue>, room: nat) {
    room > 0 && forall k | k in m :: FiniteOmi(m[k])
  }

  predicate ReturnsInfo(i: InfoItem, room: nat) {
    && room > 0
    && (i.meta.Some? ==> ReturnsMeta(i.meta.value, room - 1))
    && i.values.vals != [] && ReturnsRing(i.values, room - 1)
  }

  predicate ReturnsItems(m: map<string, InfoItem>, room: nat) {
    room > 0 && forall k | k in m :: ReturnsInfo(m[k], room - 1)
  }

  predicate ReturnsObject(o: Object, room: nat)
    decreases room
  {
    && room > 0
    && (o.items.Some? ==> ReturnsItems(o.items.value, room - 1))
    && (o.objects.Some? ==> ReturnsObjects(o.objects.value, room - 1))
  }

  predicate ReturnsObjects(m: Objects, room: nat)
    decreases room
  {
    room > 0 && forall k | k in m :: ReturnsObject(m[k], room - 1)
  }

  // ----- what returns: the same data with histories of their own size -----

  function RefitRing(r: Ring): Ring {
    r.(capacity := if r.vals == [] then 1 else |r.vals|)
  }

  function RefitInfo(i: InfoItem): InfoItem { i.(values := RefitRing(i.values)) }

  function RefitItems(m: map<string, InfoItem>): (r: map<string, InfoItem>) {
    map k | k in m :: RefitInfo(m[k])
  }

  function RefitObject(o: Object, depth: nat): Object
    requires Shallow(o, depth)
    decreases depth, 1
  {
    o.(items := if o.items.Some? then Some(RefitItems(o.items.value)) else None,
       objects := if o.objects.Some? then Some(RefitObjects(o.objects.value, depth)) else None)
  }

  function RefitObjects(m: Objects, depth: nat): (r: Objects)
    requires forall k | k in m :: depth > 0 && Shallow(m[k], depth - 1)
    decreases depth, 0
  {
    map k | k in m :: RefitObject(m[k], depth - 1)
  }

  // ----- members one at a time -----

  ghost function Taken(lib: FloatLib, f: Fields, ms: DocMembers, room: nat): Option<Fields> {
    TakeAll(lib, f, MeantMembers(lib, ms), room)
  }

  lemma {:induction false} TakenAdd(lib: FloatLib, f: Fields, ms: DocMembers, key: string, d: Doc, room: nat)
    ensures Taken(lib, f, NoDocMembers, room) == Some(f)
    ensures Taken(lib, f, Add(ms, key, d), room) ==
            match Taken(lib, f, ms, room)
            case None => None
            case Some(g) => Take(lib, g, key, Meant(lib, d), room)
    decreases ms
  {
    hide Take;
    if ms.DocMember? {
      var g := Take(lib, f, ms.key, Meant(lib, ms.val), room);
      if g.Some? {
        TakenAdd(lib, g.value, ms.tail, key, d, room);
      }
    } else {
      var one := MeantMembers(lib, Add(ms, key, d));
      assert MeantMembers(lib, NoDocMembers) == NoMembers;
      assert one == Member(key, Meant(lib, d), NoMembers);
      assert forall g :: TakeAll(lib, g, NoMembers, room) == Some(g);
    }
  }

  ghost function TakenElems(lib: FloatLib, f: Items, es: Docs, room: nat): Option<Items> {
    TakeElems(lib, f, MeantElems(lib, es), room)
  }

  lemma {:induction false} TakenElemsAdd(lib: FloatLib, f: Items, es: Docs, d: Doc, room: nat)
    ensures TakenElems(lib, f, NoDocs, room) == Some(f)
    ensures TakenElems(lib, f, AddElem(es, d), room) ==
            match TakenElems(lib, f, es, room)
            case None => None
            case Some(g) => TakeElem(lib, g, Meant(lib, d), room)
    decreases es
  {
    hide TakeElem;
    if es.DocElem? {
      var g := TakeElem(lib, f, Meant(lib, es.head), room);
      if g.Some? {
        TakenElemsAdd(lib, g.value, es.tail, d, room);
      }
    } else {
      var one := MeantElems(lib, AddElem(es, d));
      assert MeantElems(lib, NoDocs) == NoElems;
      assert one == Elem(Meant(lib, d), NoElems);
      assert forall g :: TakeElems(lib, g, NoElems, room) == Some(g);
    }
  }

  // ----- scalars -----

  lemma FloatMeant(lib: FloatLib, x: F64)
    requires Lawful(lib)
    ensures Meant(lib, FloatDoc(lib, x)) == if IsFinite(x) then JNum(x) else JNull
  {
    if IsFinite(x) {
      FloatTextIsFloat(lib, x);
    }
  }

  lemma IntMeant(lib: FloatLib, i: int)
    ensures I64_MIN <= i <= I64_MAX ==> Meant(lib, IntDoc(i)) == JInt(i)
    ensures !(I64_MIN <= i <= I64_MAX) ==> Meant(lib, IntDoc(i)).JNum?
  {
    IntegerTextValue(i);
  }

  lemma OmiReturns(lib: FloatLib, v: OmiValue, room: nat)
    requires Lawful(lib)
    ensures OmiOf(lib, Meant(lib, OmiDoc(lib, v)), room) == Some(if FiniteOmi(v) then v else OmiNull)
  {
    if v.OmiNumber? {
      FloatMeant(lib, v.n);
    }
  }

  // ----- values and histories -----

  lemma ValueReturns(lib: FloatLib, v: Value, room: nat)
    requires Lawful(lib)
    ensures var r := ValueOf(lib, Meant(lib, ValueDoc(lib, v)), room);
            (r == Some(v) <==> ReturnsValue(v, room)) && (r.Some? <==> room > 0)
  {
    hide TakeAll, Meant, OmiOf;
    if room > 0 {
      var ms := Add(NoDocMembers, "v", OmiDoc(lib, v.v));
      assert Meant(lib, ValueDoc(lib, v)) == JObj(MeantMembers(lib, ValueMembers(lib, v))) by {
        UnfoldObj(lib, ValueMembers(lib, v));
      }
      TakenAdd(lib, NO_VALUE, NoDocMembers, "v", OmiDoc(lib, v.v), room - 1);
      OmiReturns(lib, v.v, room - 1);
      if v.t.Some? {
        TakenAdd(lib, NO_VALUE, ms, "t", FloatDoc(lib, v.t.value), room - 1);
        FloatMeant(lib, v.t.value);
      }
    }
  }

  lemma UnfoldObj(lib: FloatLib, ms: DocMembers)
    ensures Meant(lib, DObj(ms)) == JObj(MeantMembers(lib, ms))
  {
  }

  lemma UnfoldArr(lib: FloatLib, es: Docs)
    ensures Meant(lib, DArr(es)) == JArr(MeantElems(lib, es))
  {
  }

  lemma {:induction false} ValuesReturn(lib: FloatLib, vs: seq<Value>, room: nat)
    requires Lawful(lib)
    ensures var r := TakenElems(lib, ValueItems([]), ValueDocs(lib, vs), room);
            && (r.Some? ==> r.value.ValueItems? && |r.value.values| == |vs|)
            && (r == Some(ValueItems(vs)) <==> forall v | v in vs :: ReturnsValue(v, room))
  {
    hide Meant, ValueOf, ReturnsValue;
    if vs == [] {
      TakenElemsAdd(lib, ValueItems([]), NoDocs, DNull, room);
    } else {
      var before, last := vs[..|vs| - 1], vs[|vs| - 1];
      ValuesReturn(lib, before, room);
      ValueReturns(lib, last, room);
      TakenElemsAdd(lib, ValueItems([]), ValueDocs(lib, before), ValueDoc(lib, last), room);
      assert vs == before + [last];
      var b := TakenElems(lib, ValueItems([]), ValueDocs(lib, before), room);
      var x := ValueOf(lib, Meant(lib, ValueDoc(lib, last)), room);
      assert TakenElems(lib, ValueItems([]), ValueDocs(lib, vs), room) ==
             if b.Some? && x.Some? then Some(ValueItems(b.value.values + [x.value])) else None;
      if b.Some? && x.Some? {
        assert (b.value.values + [x.value])[..|before|] == b.value.values;
        assert (b.value.values + [x.value])[|before|] == x.value;
      }
    }
  }

  lemma {:induction false} ReverseAppend<T>(s: seq<T>, x: T)
    ensures Reverse(s + [x]) == [x] + Reverse(s)
  {
    if s != [] {
      assert (s + [x])[1..] == s[1..] + [x];
      ReverseAppend(s[1..], x);
    }
  }

  lemma {:induction false} ReverseTwice<T>(s: seq<T>)
    ensures Reverse(Reverse(s)) == s && |Reverse(s)| == |s|
    ensures forall x :: x in Reverse(s) <==> x in s
  {
    if s != [] {
      ReverseTwice(s[1..]);
      ReverseAppend(Reverse(s[1..]), s[0]);
      assert s == [s[0]] + s[1..];
    }
  }

  lemma EndRingIs(newestFirst: seq<Value>)
    ensures EndRing(newestFirst) == RefitRing(Ring(0, Reverse(newestFirst)))
  {
    ReverseTwice(newestFirst);
    PushAllFits(NewRing(if newestFirst == [] then 1 else |newestFirst|), Reverse(newestFirst));
    assert [] + Reverse(newestFirst) == Reverse(newestFirst);
  }

  lemma RingReturns(lib: FloatLib, r: Ring, room: nat)
    requires Lawful(lib)
    ensures RingOf(lib, Meant(lib, RingDoc(lib, r)), room) == Some(RefitRing(r)) <==> ReturnsRing(r, room)
  {
    hide Meant, TakeElems, PushAll, ReturnsValue;
    if room > 0 {
      var rev := Reverse(r.vals);
      UnfoldArr(lib, ValueDocs(lib, rev));
      ValuesReturn(lib, rev, room - 1);
      ReverseTwice(r.vals);
      var t := TakenElems(lib, ValueItems([]), ValueDocs(lib, rev), room - 1);
      if t.Some? {
        var xs := t.value.values;
        EndRingIs(xs);
        ReverseTwice(xs);
        assert Reverse(xs) == r.vals <==> xs == rev;
      }
    }
  }

  // ----- maps -----

  function FiniteMeta(m: map<string, OmiValue>, keys: seq<string>): map<string, OmiValue>
    requires forall k | k in keys :: k in m
  {
    map k | k in keys :: if FiniteOmi(m[k]) then m[k] else OmiNull
  }

  lemma {:induction false} MetaReturns(lib: FloatLib, m: map<string, OmiValue>, keys: seq<string>, room: nat)
    requires Lawful(lib) && forall k | k in keys :: k in m
    ensures Taken(lib, MetaFields(map[]), MetaMembers(lib, m, keys), room)
         == Some(MetaFields(FiniteMeta(m, keys)))
  {
    hide Meant, OmiOf, OmiDoc, TakeAll;
    if keys == [] {
      TakenAdd(lib, MetaFields(map[]), NoDocMembers, "", DNull, room);
      assert FiniteMeta(m, keys) == map[];
    } else {
      var before, last := keys[..|keys| - 1], keys[|keys| - 1];
      assert keys == before + [last];
      MetaReturns(lib, m, before, room);
      OmiReturns(lib, m[last], room);
      var x := if FiniteOmi(m[last]) then m[last] else OmiNull;
      TakenAdd(lib, MetaFields(map[]), MetaMembers(lib, m, before), last, OmiDoc(lib, m[last]), room);
      assert FiniteMeta(m, before)[last := x] == FiniteMeta(m, keys);
    }
  }

  lemma MetaDocReturns(lib: FloatLib, m: map<string, OmiValue>, room: nat)
    requires Lawful(lib)
    ensures MetaOf(lib, Meant(lib, MetaDoc(lib, m)), room) == Some(m) <==> ReturnsMeta(m, room)
  {
    hide Meant, TakeAll, MetaMembers;
    if room > 0 {
      var keys := Keys(m);
      UnfoldObj(lib, MetaMembers(lib, m, keys));
      MetaReturns(lib, m, keys, room - 1);
      assert FiniteMeta(m, keys) == m <==> forall k | k in m :: FiniteOmi(m[k]) by {
        if FiniteMeta(m, keys) == m {
          forall k | k in m
            ensures FiniteOmi(m[k])
          {
            assert k in keys && FiniteMeta(m, keys)[k] == m[k];
          }
        }
      }
    }
  }

  lemma KeysDistinct<T>(m: map<string, T>)
    ensures forall i, j | 0 <= i < j < |Keys(m)| :: Keys(m)[i] != Keys(m)[j]
  {
    SortedMap.SortedKeysAscend(m.Keys);
    forall i, j | 0 <= i < j < |Keys(m)|
      ensures Keys(m)[i] != Keys(m)[j]
    {
      SortedMap.LessTotal(Keys(m)[i], Keys(m)[j]);
    }
  }

  // ----- items -----

  lemma InfoReturns(lib: FloatLib, i: InfoItem, room: nat)
    requires Lawful(lib)
    ensures InfoOf(lib, Meant(lib, InfoDoc(lib, i)), room) == Some(RefitInfo(i)) <==> ReturnsInfo(i, room)
  {
    hide Meant, TakeAll, MetaOf, RingOf, ReturnsMeta, ReturnsRing, RefitRing, RingDoc, MetaDoc;
    if room > 0 {
      UnfoldObj(lib, InfoMembers(lib, i));
      var ms := AddStr(AddStr(NoDocMembers, "type", i.typeUri), "desc", i.desc);
      InfoHeadReturns(lib, i, room - 1);
      var ns := ms;
      if i.meta.Some? {
        ns := Add(ms, "meta", MetaDoc(lib, i.meta.value));
        TakenAdd(lib, NO_INFO, ms, "meta", MetaDoc(lib, i.meta.value), room - 1);
        MetaDocReturns(lib, i.meta.value, room - 1);
        UnfoldMeta(lib, i.meta.value);
      }
      if i.values.vals != [] {
        TakenAdd(lib, NO_INFO, ns, "values", RingDoc(lib, i.values), room - 1);
        RingReturns(lib, i.values, room - 1);
      }
    }
  }

  lemma UnfoldMeta(lib: FloatLib, m: map<string, OmiValue>)
    ensures Meant(lib, MetaDoc(lib, m)).JObj?
  {
  }

  lemma StrMeant(lib: FloatLib, s: string)
    ensures Meant(lib, DStr(s)) == JStr(s)
  {
  }

  lemma InfoHeadReturns(lib: FloatLib, i: InfoItem, room: nat)
    ensures Taken(lib, NO_INFO, AddStr(AddStr(NoDocMembers, "type", i.typeUri), "desc", i.desc), room)
         == Some(InfoFields(InfoLocals(i.typeUri, i.desc, None, None)))
  {
    hide Meant, TakeAll, MetaOf, RingOf;
    TakenAdd(lib, NO_INFO, NoDocMembers, "type", DNull, room);
    var ms := AddStr(NoDocMembers, "type", i.typeUri);
    if i.typeUri.Some? {
      TakenAdd(lib, NO_INFO, NoDocMembers, "type", DStr(i.typeUri.value), room);
      StrMeant(lib, i.typeUri.value);
    }
    if i.desc.Some? {
      TakenAdd(lib, NO_INFO, ms, "desc", DStr(i.desc.value), room);
      StrMeant(lib, i.desc.value);
    }
  }

  function ItemsAmong(m: map<string, InfoItem>, keys: seq<string>): map<string, InfoItem>
    requires forall k | k in keys :: k in m
  {
    map k | k in keys :: RefitInfo(m[k])
  }

  lemma ItemsStep(lib: FloatLib, m: map<string, InfoItem>, keys: seq<string>, room: nat)
    requires keys != [] && forall k | k in keys :: k in m
    ensures var last := keys[|keys| - 1];
            var b := Taken(lib, ItemsFields(map[]), ItemsMembers(lib, m, keys[..|keys| - 1]), room);
            var x := InfoOf(lib, Meant(lib, InfoDoc(lib, m[last])), room);
            (b.Some? ==> b.value.ItemsFields?) &&
            Taken(lib, ItemsFields(map[]), ItemsMembers(lib, m, keys), room) ==
            if b.Some? && x.Some? then Some(ItemsFields(b.value.items[last := x.value])) else None
  {
    hide Meant, InfoOf, InfoDoc, TakeAll;
    var last := keys[|keys| - 1];
    TakenAdd(lib, ItemsFields(map[]), ItemsMembers(lib, m, keys[..|keys| - 1]), last, InfoDoc(lib, m[last]), room);
  }

  lemma {:induction false} ItemsReturn(lib: FloatLib, m: map<string, InfoItem>, keys: seq<string>, room: nat)
    requires Lawful(lib) && forall k | k in keys :: k in m
    requires forall i, j | 0 <= i < j < |keys| :: keys[i] != keys[j]
    ensures var r := Taken(lib, ItemsFields(map[]), ItemsMembers(lib, m, keys), room);
            && (r.Some? ==> r.value.ItemsFields? && r.value.items.Keys == set k | k in keys)
            && (r == Some(ItemsFields(ItemsAmong(m, keys))) <==> forall k | k in keys :: ReturnsInfo(m[k], room))
  {
    hide Meant, InfoOf, InfoDoc, Taken, ItemsMembers, ReturnsInfo, RefitInfo;
    if keys == [] {
      ItemsNone(lib, m, room);
    } else {
      var before, last := keys[..|keys| - 1], keys[|keys| - 1];
      assert keys == before + [last];
      ItemsReturn(lib, m, before, room);
      InfoReturns(lib, m[last], room);
      ItemsStep(lib, m, keys, room);
      var b := Taken(lib, ItemsFields(map[]), ItemsMembers(lib, m, before), room);
      var x := InfoOf(lib, Meant(lib, InfoDoc(lib, m[last])), room);
      if b.Some? && x.Some? {
        OneMore(b.value.items, ItemsAmong(m, before), ItemsAmong(m, keys), last, x.value, RefitInfo(m[last]));
      }
    }
  }

  lemma ItemsNone(lib: FloatLib, m: map<string, InfoItem>, room: nat)
    ensures Taken(lib, ItemsFields(map[]), ItemsMembers(lib, m, []), room) == Some(ItemsFields(map[]))
    ensures ItemsAmong(m, []) == map[]
  {
    TakenAdd(lib, ItemsFields(map[]), NoDocMembers, "", DNull, room);
  }

  /** Adding a fresh key keeps maps equal only if they were, and the values are. */
  lemma OneMore<T>(a: map<string, T>, b: map<string, T>, c: map<string, T>, k: string, x: T, y: T)
    requires k !in a && k !in b && c == b[k := y]
    ensures a[k := x] == c <==> a == b && x == y
  {
    if a[k := x] == c {
      assert a[k := x][k] == c[k];
      assert a == a[k := x] - {k} && b == c - {k};
    }
  }

  lemma ItemsDocReturns(lib: FloatLib, m: map<string, InfoItem>, room: nat)
    requires Lawful(lib)
    ensures ItemsOf(lib, Meant(lib, ItemsDoc(lib, m)), room) == Some(RefitItems(m)) <==> ReturnsItems(m, room)
  {
    hide Meant, TakeAll, ItemsMembers;
    if room > 0 {
      KeysDistinct(m);
      UnfoldObj(lib, ItemsMembers(lib, m, Keys(m)));
      ItemsReturn(lib, m, Keys(m), room - 1);
      assert ItemsAmong(m, Keys(m)) == RefitItems(m);
    }
  }

  // ----- objects -----

  lemma HeadReturns(lib: FloatLib, o: Object, room: nat)
    ensures Taken(lib, NO_OBJECT, HeadMembers(o), room)
         == Some(ObjectFields(ObjectLocals(Some(o.id), o.typeUri, o.desc, None, None)))
  {
    hide Meant, TakeAll, ItemsOf, ObjectsOf;
    TakenAdd(lib, NO_OBJECT, NoDocMembers, "id", DStr(o.id), room);
    StrMeant(lib, o.id);
    var ms := Add(NoDocMembers, "id", DStr(o.id));
    if o.typeUri.Some? {
      TakenAdd(lib, NO_OBJECT, ms, "type", DStr(o.typeUri.value), room);
      StrMeant(lib, o.typeUri.value);
    }
    if o.desc.Some? {
      TakenAdd(lib, NO_OBJECT, AddStr(ms, "type", o.typeUri), "desc", DStr(o.desc.value), room);
      StrMeant(lib, o.desc.value);
    }
  }

  /** An object without children that were not yet taken. */
  lemma ItemsPartReturns(lib: FloatLib, o: Object, room: nat)
    requires Lawful(lib)
    ensures var ms := HeadMembers(o);
            var ns := if o.items.Some? then Add(ms, "items", ItemsDoc(lib, o.items.value)) else ms;
            var r := Taken(lib, NO_OBJECT, ns, room);
            var i := if o.items.Some? then ItemsOf(lib, Meant(lib, ItemsDoc(lib, o.items.value)), room) else None;
            r == if o.items.Some? && i.None? then None
                 else Some(ObjectFields(ObjectLocals(Some(o.id), o.typeUri, o.desc, i, None)))
  {
    hide Meant, TakeAll, ItemsOf, ObjectsOf, ItemsDoc, HeadMembers;
    HeadReturns(lib, o, room);
    if o.items.Some? {
      TakenAdd(lib, NO_OBJECT, HeadMembers(o), "items", ItemsDoc(lib, o.items.value), room);
      UnfoldItems(lib, o.items.value);
    }
  }

  lemma UnfoldItems(lib: FloatLib, m: map<string, InfoItem>)
    ensures Meant(lib, ItemsDoc(lib, m)).JObj?
  {
  }

  lemma ObjectParts(lib: FloatLib, o: Object, depth: nat, room: nat)
    requires Lawful(lib) && Shallow(o, depth) && room > 0
    ensures var i := if o.items.Some? then ItemsOf(lib, Meant(lib, ItemsDoc(lib, o.items.value)), room - 1) else None;
            var c := if o.objects.Some? then ObjectsOf(lib, Meant(lib, ObjectsDoc(lib, o.objects.value, depth)), room - 1) else None;
            ObjectOf(lib, Meant(lib, ObjectDoc(lib, o, depth)), room) ==
            if (o.items.Some? && i.None?) || (o.objects.Some? && c.None?) then None
            else Some(Object(o.id, o.typeUri, o.desc, i, c))
  {
    hide Meant, TakeAll, ItemsOf, ObjectsOf, ItemsDoc, HeadMembers, ObjectsDoc;
    var ms := HeadMembers(o);
    var ns := if o.items.Some? then Add(ms, "items", ItemsDoc(lib, o.items.value)) else ms;
    ItemsPartReturns(lib, o, room - 1);
    if o.objects.Some? {
      var d := ObjectsDoc(lib, o.objects.value, depth);
      TakenAdd(lib, NO_OBJECT, ns, "objects", d, room - 1);
      UnfoldObjects(lib, o.objects.value, depth);
      UnfoldObj(lib, Add(ns, "objects", d));
    } else {
      UnfoldObj(lib, ns);
    }
  }

  lemma UnfoldObjects(lib: FloatLib, m: Objects, depth: nat)
    requires depth > 0 && forall k | k in m :: Shallow(m[k], depth - 1)
    ensures Meant(lib, ObjectsDoc(lib, m, depth)).JObj?
  {
  }

  /** An object comes back from its text exactly when every part of it can. */
  lemma {:induction false} ObjectReturns(lib: FloatLib, o: Object, depth: nat, room: nat)
    requires Lawful(lib) && Shallow(o, depth)
    ensures ObjectOf(lib, Meant(lib, ObjectDoc(lib, o, depth)), room) == Some(RefitObject(o, depth))
       <==> ReturnsObject(o, room)
    decreases depth, 1
  {
    hide Meant, ItemsOf, ObjectsOf, ItemsDoc, ObjectsDoc, ObjectDoc, RefitItems, RefitObjects, ReturnsItems, ReturnsObjects;
    if room > 0 {
      ObjectParts(lib, o, depth, room);
      if o.items.Some? {
        ItemsDocReturns(lib, o.items.value, room - 1);
      }
      if o.objects.Some? {
        ObjectsReturn(lib, o.objects.value, depth, room - 1);
      }
    } else {
      NoRoom(lib, Meant(lib, ObjectDoc(lib, o, depth)));
    }
  }

  lemma NoRoom(lib: FloatLib, j: Json)
    ensures ObjectOf(lib, j, 0) == None && ObjectsOf(lib, j, 0) == None
  {
  }

  function ObjectsAmong(m: Objects, keys: seq<string>, depth: nat): Objects
    requires depth > 0 && forall k | k in m :: Shallow(m[k], depth - 1)
    requires forall k | k in keys :: k in m
  {
    map k | k in keys :: RefitObject(m[k], depth - 1)
  }

  lemma ObjectsStep(lib: FloatLib, m: Objects, keys: seq<string>, depth: nat, room: nat)
    requires depth > 0 && forall k | k in m :: Shallow(m[k], depth - 1)
    requires keys != [] && forall k | k in keys :: k in m
    ensures var last := keys[|keys| - 1];
            var b := Taken(lib, ObjectsFields(map[]), ObjectsMembers(lib, m, keys[..|keys| - 1], depth), room);
            var x := ObjectOf(lib, Meant(lib, ObjectDoc(lib, m[last], depth - 1)), room);
            (b.Some? ==> b.value.ObjectsFields?) &&
            Taken(lib, ObjectsFields(map[]), ObjectsMembers(lib, m, keys, depth), room) ==
            if b.Some? && x.Some? then Some(ObjectsFields(b.value.objects[last := x.value])) else None
  {
    hide Meant, ObjectOf, ObjectDoc, TakeAll, Shallow;
    var last := keys[|keys| - 1];
    TakenAdd(lib, ObjectsFields(map[]), ObjectsMembers(lib, m, keys[..|keys| - 1], depth), last,
             ObjectDoc(lib, m[last], depth - 1), room);
  }

  lemma ObjectsNone(lib: FloatLib, m: Objects, depth: nat, room: nat)
    requires depth > 0 && forall k | k in m :: Shallow(m[k], depth - 1)
    ensures Taken(lib, ObjectsFields(map[]), ObjectsMembers(lib, m, [], depth), room) == Some(ObjectsFields(map[]))
    ensures ObjectsAmong(m, [], depth) == map[]
  {
    TakenAdd(lib, ObjectsFields(map[]), NoDocMembers, "", DNull, room);
  }

  lemma {:induction false} ChildrenReturn(lib: FloatLib, m: Objects, keys: seq<string>, depth: nat, room: nat)
    requires Lawful(lib) && depth > 0 && forall k | k in m :: Shallow(m[k], depth - 1)
    requires forall k | k in keys :: k in m
    requires forall i, j | 0 <= i < j < |keys| :: keys[i] != keys[j]
    ensures var r := Taken(lib, ObjectsFields(map[]), ObjectsMembers(lib, m, keys, depth), room);
            && (r.Some? ==> r.value.ObjectsFields? && r.value.objects.Keys == set k | k in keys)
            && (r == Some(ObjectsFields(ObjectsAmong(m, keys, depth))) <==> forall k | k in keys :: ReturnsObject(m[k], room))
    decreases depth, 0, |keys|
  {
    hide Meant, ObjectOf, ObjectDoc, Taken, ObjectsMembers, ReturnsObject, RefitObject, Shallow;
    if keys == [] {
      ObjectsNone(lib, m, depth, room);
    } else {
      var before, last := keys[..|keys| - 1], keys[|keys| - 1];
      assert keys == before + [last];
      ChildrenReturn(lib, m, before, depth, room);
      ObjectReturns(lib, m[last], depth - 1, room);
      ObjectsStep(lib, m, keys, depth, room);
      var b := Taken(lib, ObjectsFields(map[]), ObjectsMembers(lib, m, before, depth), room);
      var x := ObjectOf(lib, Meant(lib, ObjectDoc(lib, m[last], depth - 1)), room);
      if b.Some? && x.Some? {
        OneMore(b.value.objects, ObjectsAmong(m, before, depth), ObjectsAmong(m, keys, depth), last,
                x.value, RefitObject(m[last], depth - 1));
      }
    }
  }

  lemma {:induction false} ObjectsReturn(lib: FloatLib, m: Objects, depth: nat, room: nat)
    requires Lawful(lib) && depth > 0 && forall k | k in m :: Shallow(m[k], depth - 1)
    ensures ObjectsOf(lib, Meant(lib, ObjectsDoc(lib, m, depth)), room) == Some(RefitObjects(m, depth))
       <==> ReturnsObjects(m, room)
    decreases depth, 0, |Keys(m)| + 1
  {
    hide Meant, TakeAll, ObjectsMembers, ReturnsObject, RefitObject, Shallow;
    if room > 0 {
      KeysDistinct(m);
      UnfoldObj(lib, ObjectsMembers(lib, m, Keys(m), depth));
      ChildrenReturn(lib, m, Keys(m), depth, room - 1);
      assert ObjectsAmong(m, Keys(m), depth) == RefitObjects(m, depth);
    } else {
      NoRoom(lib, Meant(lib, ObjectsDoc(lib, m, depth)));
    }
  }
}
