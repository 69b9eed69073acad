/** What the writer says and the parser does not take back: the values of a read, and an
    item without a history. Both are read here member by member. */
module ReadResults {
  import opened Wrappers
  import opened Floats
  import opened Odf
  import opened JsonLexis
  import opened JsonGrammar
  import opened JsonMeaning
  import opened JsonPrint
  import opened JsonWriter
  import opened JsonDocs
  import opened JsonByName
  import R = RoundTripOdf
  import RoundTripText
  import Omi

  /** What JSON can hold of a value: other numbers are null, and no timestamp. */
  function AsJson(v: OmiValue): OmiValue { if v.OmiNumber? && !IsFinite(v.n) then OmiNull else v }

  function ValueAsJson(v: Value): Value {
    Value(AsJson(v.v), if v.t.Some? && !IsFinite(v.t.value) then None else v.t)
  }

  // ----- the members of a written object -----

  lemma {:induction false} LastAdd(lib: FloatLib, ms: DocMembers, key: string, d: Doc, k: string)
    ensures Last(MeantMembers(lib, NoDocMembers), k) == None
    ensures Last(MeantMembers(lib, Add(ms, key, d)), k) ==
            if k == key then Some(Meant(lib, d)) else Last(MeantMembers(lib, ms), k)
    decreases ms
  {
    hide Meant;
    assert MeantMembers(lib, NoDocMembers) == NoMembers;
    if ms.DocMember? {
      LastAdd(lib, ms.tail, key, d, k);
    } else {
      assert MeantMembers(lib, Add(ms, key, d)) == Member(key, Meant(lib, d), NoMembers);
    }
  }

  lemma LastAddStr(lib: FloatLib, ms: DocMembers, key: string, s: Option<string>, k: string)
    ensures Last(MeantMembers(lib, AddStr(ms, key, s)), k) ==
            if k == key && s.Some? then Some(JStr(s.value)) else Last(MeantMembers(lib, ms), k)
  {
    hide Last;
    if s.Some? {
      LastAdd(lib, ms, key, DStr(s.value), k);
    }
  }

  // ----- values, in their order -----

  lemma ValueWritten(lib: FloatLib, v: Value, room: nat)
    requires Lawful(lib) && room > 0
    ensures ValueOf(lib, Meant(lib, ValueDoc(lib, v)), room) == Some(ValueAsJson(v))
  {
    hide Meant, TakeAll, OmiOf;
    R.UnfoldObj(lib, ValueMembers(lib, v));
    R.TakenAdd(lib, NO_VALUE, NoDocMembers, "v", OmiDoc(lib, v.v), room - 1);
    R.OmiReturns(lib, v.v, room - 1);
    if v.t.Some? {
      R.TakenAdd(lib, NO_VALUE, Add(NoDocMembers, "v", OmiDoc(lib, v.v)), "t", FloatDoc(lib, v.t.value), room - 1);
      R.FloatMeant(lib, v.t.value);
    }
  }

  lemma {:induction false} ListedAdd(lib: FloatLib, es: Docs, d: Doc)
    ensures Listed(MeantElems(lib, NoDocs)) == []
    ensures Listed(MeantElems(lib, AddElem(es, d))) == Listed(MeantElems(lib, es)) + [Meant(lib, d)]
    decreases es
  {
    hide Meant;
    assert MeantElems(lib, NoDocs) == NoElems;
    if es.DocElem? {
      ListedAdd(lib, es.tail, d);
    } else {
      assert MeantElems(lib, AddElem(es, d)) == Elem(Meant(lib, d), NoElems);
    }
  }

  lemma {:induction false} ValuesWritten(lib: FloatLib, vs: seq<Value>, room: nat)
    requires Lawful(lib) && room > 0
    ensures var js := Listed(MeantElems(lib, ValueDocs(lib, vs)));
            |js| == |vs| && forall i | 0 <= i < |vs| :: ValueOf(lib, js[i], room) == Some(ValueAsJson(vs[i]))
    decreases |vs|
  {
    hide Meant, ValueOf, ValueDoc, Listed, MeantElems, ValueAsJson;
    if vs == [] {
      ListedAdd(lib, NoDocs, DNull);
    } else {
      var before, last := vs[..|vs| - 1], vs[|vs| - 1];
      ValuesWritten(lib, before, room);
      ValueWritten(lib, last, room);
      ListedAdd(lib, ValueDocs(lib, before), ValueDoc(lib, last));
    }
  }

  lemma MetaWritten(lib: FloatLib, m: map<string, OmiValue>, room: nat)
    requires Lawful(lib) && room > 0
    ensures MetaOf(lib, Meant(lib, MetaDoc(lib, m)), room) == Some(map k | k in m :: AsJson(m[k]))
  {
    hide Meant, TakeAll, MetaMembers;
    R.UnfoldObj(lib, MetaMembers(lib, m, Keys(m)));
    R.MetaReturns(lib, m, Keys(m), room - 1);
    assert R.FiniteMeta(m, Keys(m)) == map k | k in m :: AsJson(m[k]);
  }

  // ----- the answer to a read -----

  /** An object that holds the path, all the values in their order, and the metadata. */
  ghost predicate Holds(lib: FloatLib, j: Option<Json>, path: string, values: seq<Value>, meta: Option<map<string, OmiValue>>) {
    && j.Some? && j.value.JObj?
    && var ms := j.value.members;
       && Last(ms, "path") == Some(JStr(path))
       && Last(ms, "values").Some? && Last(ms, "values").value.JArr?
       && (var js := Listed(Last(ms, "values").value.elems);
           |js| == |values| && forall i | 0 <= i < |js| :: ValueOf(lib, js[i], 1) == Some(ValueAsJson(values[i])))
       && if meta.Some? && |meta.value| > 0
          then Last(ms, "meta").Some? && MetaOf(lib, Last(ms, "meta").value, 1) == Some(map k | k in meta.value :: AsJson(meta.value[k]))
          else Last(ms, "meta").None?
  }

  lemma PayloadWritten(lib: FloatLib, path: string, values: seq<Value>, meta: Option<map<string, OmiValue>>)
    requires Lawful(lib)
    ensures Holds(lib, Some(Meant(lib, PayloadDoc(lib, Omi.ReadValues(path, values, meta)))), path, values, meta)
  {
    hide Meant, Last, Listed, ValueOf, MetaOf, ValueDocs, MetaDoc;
    var ms := Add(NoDocMembers, "path", DStr(path));
    var ns := if meta.Some? && meta.value != map[] then Add(ms, "meta", MetaDoc(lib, meta.value)) else ms;
    var d := DArr(ValueDocs(lib, values));
    R.UnfoldObj(lib, Add(ns, "values", d));
    R.UnfoldArr(lib, ValueDocs(lib, values));
    R.StrMeant(lib, path);
    ValuesWritten(lib, values, 1);
    assert PayloadDoc(lib, Omi.ReadValues(path, values, meta)) == DObj(Add(ns, "values", d));
    forall k
      ensures Last(MeantMembers(lib, Add(ns, "values", d)), k) ==
              if k == "values" then Some(Meant(lib, d))
              else if k == "meta" && ns != ms then Some(Meant(lib, MetaDoc(lib, meta.value)))
              else if k == "path" then Some(JStr(path)) else None
    {
      LastAdd(lib, NoDocMembers, "path", DStr(path), k);
      if ns != ms {
        LastAdd(lib, ms, "meta", MetaDoc(lib, meta.value), k);
      }
      LastAdd(lib, ns, "values", d, k);
    }
    var x := MeantMembers(lib, Add(ns, "values", d));
    assert Last(x, "path") == Some(JStr(path)) && Last(x, "values") == Some(Meant(lib, d));
    if ns != ms {
      MetaWritten(lib, meta.value, 1);
      assert Last(x, "meta") == Some(Meant(lib, MetaDoc(lib, meta.value)));
    } else {
      LongerAdd(ms, "meta", if meta.Some? then MetaDoc(lib, meta.value) else DNull);
      assert Last(x, "meta") == None;
    }
  }

  lemma {:induction false} LongerAdd(ms: DocMembers, key: string, d: Doc)
    ensures Add(ms, key, d) != ms
    decreases ms
  {
    if ms.DocMember? {
      LongerAdd(ms.tail, key, d);
    }
  }

  function MemberAt(j: Option<Json>, key: string): Option<Json> {
    if j.Some? && j.value.JObj? then Last(j.value.members, key) else None
  }

  lemma ResponseWritten(lib: FloatLib, b: Omi.ResponseBody, k: string)
    ensures MemberAt(Some(Meant(lib, DObj(ResponseMembers(lib, b)))), k) ==
            if k == "result" && b.result.Some? then Some(Meant(lib, ResultDoc(lib, b.result.value)))
            else if k == "desc" && b.desc.Some? then Some(JStr(b.desc.value))
            else if k == "rid" && b.rid.Some? then Some(JStr(b.rid.value))
            else if k == "status" then Some(JInt(b.status)) else None
  {
    hide Meant, Last, ResultDoc, IntDoc, AddStr;
    R.UnfoldObj(lib, ResponseMembers(lib, b));
    R.IntMeant(lib, b.status);
    var s := Add(NoDocMembers, "status", IntDoc(b.status));
    LastAdd(lib, NoDocMembers, "status", IntDoc(b.status), k);
    LastAddStr(lib, s, "rid", b.rid, k);
    LastAddStr(lib, AddStr(s, "rid", b.rid), "desc", b.desc, k);
    if b.result.Some? {
      LastAdd(lib, AddStr(AddStr(s, "rid", b.rid), "desc", b.desc), "result", ResultDoc(lib, b.result.value), k);
    }
  }

  lemma MessageWritten(lib: FloatLib, m: Omi.OmiMessage, k: string)
    ensures MemberAt(Some(Meant(lib, MessageDoc(lib, m))), k) ==
            if k == OperationKey(m.operation) then Some(Meant(lib, DObj(OperationMembers(lib, m.operation))))
            else if k == "ttl" then Some(JInt(m.ttl))
            else if k == "omi" then Some(JStr(m.version)) else None
  {
    hide Meant, Last, IntDoc, OperationMembers;
    R.UnfoldObj(lib, MessageMembers(lib, m));
    R.IntMeant(lib, m.ttl);
    R.StrMeant(lib, m.version);
    var a := Add(NoDocMembers, "omi", DStr(m.version));
    LastAdd(lib, NoDocMembers, "omi", DStr(m.version), k);
    LastAdd(lib, a, "ttl", IntDoc(m.ttl), k);
    LastAdd(lib, Add(a, "ttl", IntDoc(m.ttl)), OperationKey(m.operation), DObj(OperationMembers(lib, m.operation)), k);
  }

  /** The bytes of the answer to a read hold its status, path, metadata and all its values,
      in their order, for any reader that looks members up by name. */
  lemma AnswerHolds(lib: FloatLib, m: Omi.OmiMessage, path: string, values: seq<Value>, meta: Option<map<string, OmiValue>>)
    requires Lawful(lib) && m.operation.Response?
    requires m.operation.body.result == Some(Omi.SingleResult(Omi.ReadValues(path, values, meta)))
    ensures var r := JsonGrammar.Read(Tokens(lib, Print(MessageDoc(lib, m))));
            && r.Some? && r.value.1 == End
            && var response := MemberAt(Some(r.value.0), "response");
               && MemberAt(response, "status") == Some(JInt(m.operation.body.status))
               && Holds(lib, MemberAt(response, "result"), path, values, meta)
  {
    hide Meant, MemberAt, Holds, MessageDoc, Tokens, JsonGrammar.Read, Print, ResponseMembers, PayloadDoc;
    RoundTripText.MessageTextRead(lib, m);
    MessageWritten(lib, m, "response");
    ResponseWritten(lib, m.operation.body, "status");
    ResponseWritten(lib, m.operation.body, "result");
    PayloadWritten(lib, path, values, meta);
  }

  // ----- items and their histories -----

  /** Every member of a written item. The history comes newest first, and is left out when
      it is empty. */
  lemma InfoWritten(lib: FloatLib, i: InfoItem)
    requires Lawful(lib)
    ensures var j := Some(Meant(lib, InfoDoc(lib, i)));
            && MemberAt(j, "type") == (if i.typeUri.Some? then Some(JStr(i.typeUri.value)) else None)
            && MemberAt(j, "desc") == (if i.desc.Some? then Some(JStr(i.desc.value)) else None)
            && (MemberAt(j, "meta").Some? <==> i.meta.Some?)
            && (i.meta.Some? ==> MetaOf(lib, MemberAt(j, "meta").value, 1) == Some(map k | k in i.meta.value :: AsJson(i.meta.value[k])))
            && (MemberAt(j, "values").Some? <==> i.values.vals != [])
            && (i.values.vals != [] ==>
                 var n := |i.values.vals|;
                 && MemberAt(j, "values").value.JArr?
                 && var js := Listed(MemberAt(j, "values").value.elems);
                    |js| == n && forall k | 0 <= k < n :: ValueOf(lib, js[n - 1 - k], 1) == Some(ValueAsJson(i.values.vals[k])))
  {
    hide Meant, Last, Listed, ValueOf, MetaOf, ValueDocs, MetaDoc, AddStr, RingDoc;
    R.UnfoldObj(lib, InfoMembers(lib, i));
    forall k ensures Last(MeantMembers(lib, InfoMembers(lib, i)), k) == InfoMember(lib, i, k) {
      InfoMemberIs(lib, i, k);
    }
    if i.meta.Some? {
      MetaWritten(lib, i.meta.value, 1);
    }
    RingWritten(lib, i.values);
  }

  ghost function InfoMember(lib: FloatLib, i: InfoItem, k: string): Option<Json> {
    if k == "type" && i.typeUri.Some? then Some(JStr(i.typeUri.value))
    else if k == "desc" && i.desc.Some? then Some(JStr(i.desc.value))
    else if k == "meta" && i.meta.Some? then Some(Meant(lib, MetaDoc(lib, i.meta.value)))
    else if k == "values" && i.values.vals != [] then Some(Meant(lib, RingDoc(lib, i.values)))
    else None
  }

  lemma InfoMemberIs(lib: FloatLib, i: InfoItem, k: string)
    ensures Last(MeantMembers(lib, InfoMembers(lib, i)), k) == InfoMember(lib, i, k)
  {
    hide Meant, Last, MetaDoc, RingDoc, AddStr;
    LastAdd(lib, NoDocMembers, "", DNull, k);
    LastAddStr(lib, NoDocMembers, "type", i.typeUri, k);
    var ms := AddStr(AddStr(NoDocMembers, "type", i.typeUri), "desc", i.desc);
    LastAddStr(lib, AddStr(NoDocMembers, "type", i.typeUri), "desc", i.desc, k);
    var ns := if i.meta.Some? then Add(ms, "meta", MetaDoc(lib, i.meta.value)) else ms;
    if i.meta.Some? {
      LastAdd(lib, ms, "meta", MetaDoc(lib, i.meta.value), k);
    }
    if i.values.vals != [] {
      LastAdd(lib, ns, "values", RingDoc(lib, i.values), k);
    }
  }

  lemma RingWritten(lib: FloatLib, r: Ring)
    requires Lawful(lib)
    ensures var j := Meant(lib, RingDoc(lib, r));
            && j.JArr?
            && var js, n := Listed(j.elems), |r.vals|;
               |js| == n && forall k | 0 <= k < n :: ValueOf(lib, js[n - 1 - k], 1) == Some(ValueAsJson(r.vals[k]))
  {
    hide Meant, Listed, ValueOf, ValueDocs;
    var rev := Reverse(r.vals);
    R.UnfoldArr(lib, ValueDocs(lib, rev));
    ReversedAt(r.vals);
    ValuesWritten(lib, rev, 1);
  }
}
