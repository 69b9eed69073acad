/** The event-style writer. Its comma machine is specified call by call; every
    sequence of calls that spells a tree is proved to write that tree's text. */
module JsonWriter {
  import opened Wrappers
  import opened Floats
  import opened JsonLexis
  import opened JsonPrint
  import Utf8

  /** `first` has one entry per open container: true until its first element. */
  datatype Pen = Pen(buf: seq<byte>, first: seq<bool>, afterKey: bool)

  datatype Call = BeginObject | EndObject | BeginArray | EndArray | Key(k: string) | Scalar(text: seq<byte>)

  function PreValue(p: Pen): Pen {
    if p.afterKey then p.(afterKey := false)
    else if p.first == [] then p
    else
      var top := |p.first| - 1;
      p.(buf := if p.first[top] then p.buf else p.buf + [0x2C], first := p.first[top := false])
  }

  function Pop(first: seq<bool>): seq<bool> {
    if first == [] then [] else first[..|first| - 1]
  }

  function Write(p: Pen, text: seq<byte>): Pen { p.(buf := p.buf + text) }

  function Step(p: Pen, c: Call): Pen {
    match c
    case BeginObject => var q := Write(PreValue(p), [0x7B]); q.(first := q.first + [true])
    case BeginArray => var q := Write(PreValue(p), [0x5B]); q.(first := q.first + [true])
    case EndObject => Write(p.(first := Pop(p.first)), [0x7D])
    case EndArray => Write(p.(first := Pop(p.first)), [0x5D])
    case Key(k) => Write(PreValue(p), Quoted(k) + [0x3A]).(afterKey := true)
    case Scalar(text) => Write(PreValue(p), text)
  }

  function Run(p: Pen, cs: seq<Call>): Pen
    decreases |cs|
  {
    if cs == [] then p else Run(Step(p, cs[0]), cs[1..])
  }

  /** The state after one whole value. */
  function Put(p: Pen, d: Doc): Pen { Write(PreValue(p), Print(d)) }

  // ----- the calls that spell a tree -----

  function Calls(d: Doc): seq<Call> {
    match d
    case DArr(es) => [BeginArray] + ElemCalls(es) + [EndArray]
    case DObj(ms) => [BeginObject] + MemberCalls(ms) + [EndObject]
    case _ => [Scalar(Print(d))]
  }

  function ElemCalls(es: Docs): seq<Call> {
    if es.NoDocs? then [] else Calls(es.head) + ElemCalls(es.tail)
  }

  function MemberCalls(ms: DocMembers): seq<Call> {
    if ms.NoDocMembers? then [] else [Key(ms.key)] + Calls(ms.val) + MemberCalls(ms.tail)
  }

  lemma {:induction false} RunAppend(p: Pen, a: seq<Call>, b: seq<Call>)
    ensures Run(p, a + b) == Run(Run(p, a), b)
    decreases |a|
  {
    if a == [] {
      assert a + b == b;
    } else {
      assert (a + b)[1..] == a[1..] + b;
      RunAppend(Step(p, a[0]), a[1..], b);
    }
  }

  /** An open container whose text so far is `text`. */
  function Inside(p: Pen, opening: byte, text: seq<byte>, empty: bool): Pen {
    var q := PreValue(p);
    Pen(q.buf + [opening] + text, q.first + [empty], false)
  }

  function Comma(empty: bool): seq<byte> { if empty then [] else [0x2C] }

  lemma SeparatorInside(p: Pen, opening: byte, text: seq<byte>, empty: bool)
    ensures PreValue(Inside(p, opening, text, empty)) == Inside(p, opening, text + Comma(empty), false)
  {
    var q := Inside(p, opening, text, empty);
    assert PreValue(q).first == PreValue(p).first + [false];
    assert PreValue(q).buf == PreValue(p).buf + [opening] + (text + Comma(empty));
  }

  lemma WriteInside(p: Pen, opening: byte, text: seq<byte>, more: seq<byte>)
    ensures Write(Inside(p, opening, text, false), more) == Inside(p, opening, text + more, false)
  {
    assert PreValue(p).buf + [opening] + text + more == PreValue(p).buf + [opening] + (text + more);
  }

  lemma ValueInside(p: Pen, opening: byte, text: seq<byte>, empty: bool, d: Doc)
    ensures Put(Inside(p, opening, text, empty), d)
         == Inside(p, opening, text + Comma(empty) + Print(d), false)
  {
    SeparatorInside(p, opening, text, empty);
    WriteInside(p, opening, text + Comma(empty), Print(d));
  }

  lemma MemberInside(p: Pen, text: seq<byte>, empty: bool, key: string, d: Doc)
    ensures Put(Step(Inside(p, 0x7B, text, empty), Key(key)), d)
         == Inside(p, 0x7B, text + Comma(empty) + PrintMember(key, Print(d)), false)
  {
    hide Inside, Quoted, Print;
    var t := text + Comma(empty);
    SeparatorInside(p, 0x7B, text, empty);
    WriteInside(p, 0x7B, t, Quoted(key) + [0x3A]);
    AfterKey(Inside(p, 0x7B, text, empty), key, d);
    WriteInside(p, 0x7B, t + (Quoted(key) + [0x3A]), Print(d));
    assert t + (Quoted(key) + [0x3A]) + Print(d) == t + PrintMember(key, Print(d));
  }

  lemma AfterKey(q: Pen, key: string, d: Doc)
    requires !PreValue(q).afterKey
    ensures Put(Step(q, Key(key)), d) == Write(Write(PreValue(q), Quoted(key) + [0x3A]), Print(d))
  {
  }

  lemma CloseContainer(p: Pen, d: Doc, empty: bool)
    ensures d.DArr? ==> Step(Inside(p, 0x5B, PrintElems(d.elems), empty), EndArray) == Put(p, d)
    ensures d.DObj? ==> Step(Inside(p, 0x7B, PrintMembers(d.members), empty), EndObject) == Put(p, d)
  {
    assert Pop(PreValue(p).first + [empty]) == PreValue(p).first;
  }

  /** Every call sequence that spells a tree writes its text, with a comma in front
      exactly when the tree is not the first in its container. */
  lemma {:induction false} CallsWrite(p: Pen, d: Doc)
    ensures Run(p, Calls(d)) == Put(p, d)
    decreases d
  {
    match d
    case DArr(es) => ArrayCallsWrite(p, es);
    case DObj(ms) => ObjectCallsWrite(p, ms);
    case _ =>
  }

  lemma RunFirst(p: Pen, c: Call, cs: seq<Call>)
    ensures Run(p, [c] + cs) == Run(Step(p, c), cs)
  {
    assert ([c] + cs)[1..] == cs;
  }

  lemma RunLast(p: Pen, c: Call)
    ensures Run(p, [c]) == Step(p, c)
  {
    assert [c][1..] == [];
  }

  lemma NothingPrinted()
    ensures PrintElems(NoDocs) == [] && PrintMembers(NoDocMembers) == []
  {
  }

  lemma {:induction false} ArrayCallsWrite(p: Pen, es: Docs)
    ensures Run(p, Calls(DArr(es))) == Put(p, DArr(es))
    decreases es, 1
  {
    hide Put, Inside, Step, Print, Run, PrintElems;
    assert Calls(DArr(es)) == [BeginArray] + (ElemCalls(es) + [EndArray]);
    RunFirst(p, BeginArray, ElemCalls(es) + [EndArray]);
    Opened(p);
    ElemCallsWrite(p, es, [], true);
    RunAppend(Inside(p, 0x5B, [], true), ElemCalls(es), [EndArray]);
    RunLast(Run(Inside(p, 0x5B, [], true), ElemCalls(es)), EndArray);
    NothingPrinted();
    assert [] + Comma(true) + PrintElems(es) == PrintElems(es);
    CloseContainer(p, DArr(es), es.NoDocs?);
  }

  lemma {:induction false} ObjectCallsWrite(p: Pen, ms: DocMembers)
    ensures Run(p, Calls(DObj(ms))) == Put(p, DObj(ms))
    decreases ms, 1
  {
    hide Put, Inside, Step, Print, Run, PrintMembers;
    assert Calls(DObj(ms)) == [BeginObject] + (MemberCalls(ms) + [EndObject]);
    RunFirst(p, BeginObject, MemberCalls(ms) + [EndObject]);
    Opened(p);
    MemberCallsWrite(p, ms, [], true);
    RunAppend(Inside(p, 0x7B, [], true), MemberCalls(ms), [EndObject]);
    RunLast(Run(Inside(p, 0x7B, [], true), MemberCalls(ms)), EndObject);
    NothingPrinted();
    assert [] + Comma(true) + PrintMembers(ms) == PrintMembers(ms);
    CloseContainer(p, DObj(ms), ms.NoDocMembers?);
  }

  lemma Opened(p: Pen)
    ensures Step(p, BeginObject) == Inside(p, 0x7B, [], true)
    ensures Step(p, BeginArray) == Inside(p, 0x5B, [], true)
  {
  }

  lemma {:induction false} ElemCallsWrite(p: Pen, es: Docs, text: seq<byte>, empty: bool)
    ensures Run(Inside(p, 0x5B, text, empty), ElemCalls(es)) ==
            if es.NoDocs? then Inside(p, 0x5B, text, empty)
            else Inside(p, 0x5B, text + Comma(empty) + PrintElems(es), false)
    decreases es, 0
  {
    hide Put, Inside, Step, Print;
    if es.DocElem? {
      var q := Inside(p, 0x5B, text, empty);
      var text' := text + Comma(empty) + Print(es.head);
      CallsWrite(q, es.head);
      RunAppend(q, Calls(es.head), ElemCalls(es.tail));
      ValueInside(p, 0x5B, text, empty, es.head);
      ElemCallsWrite(p, es.tail, text', false);
      if es.tail.DocElem? {
        assert text' + [0x2C] + PrintElems(es.tail) == text + Comma(empty) + PrintElems(es);
      }
    }
  }

  lemma {:induction false} MemberCallsWrite(p: Pen, ms: DocMembers, text: seq<byte>, empty: bool)
    ensures Run(Inside(p, 0x7B, text, empty), MemberCalls(ms)) ==
            if ms.NoDocMembers? then Inside(p, 0x7B, text, empty)
            else Inside(p, 0x7B, text + Comma(empty) + PrintMembers(ms), false)
    decreases ms, 0
  {
    hide Put, Inside, Step, Print, PrintMember;
    if ms.DocMember? {
      var q := Inside(p, 0x7B, text, empty);
      var k := Step(q, Key(ms.key));
      var text' := text + Comma(empty) + PrintMember(ms.key, Print(ms.val));
      assert MemberCalls(ms)[1..] == Calls(ms.val) + MemberCalls(ms.tail);
      CallsWrite(k, ms.val);
      RunAppend(k, Calls(ms.val), MemberCalls(ms.tail));
      MemberInside(p, text, empty, ms.key, ms.val);
      MemberCallsWrite(p, ms.tail, text', false);
      if ms.tail.DocMember? {
        assert text' + [0x2C] + PrintMembers(ms.tail) == text + Comma(empty) + PrintMembers(ms);
      }
    }
  }

  // ----- which call sequences spell a tree -----

  /** What is open: a value to come, an array, or an object between members. */
  datatype Slot = ValueSlot | ArraySlot | ObjectSlot

  function Top(open: seq<Slot>): Option<Slot> { if open == [] then None else Some(open[|open| - 1]) }

  function Popped(open: seq<Slot>): seq<Slot> { if open == [] then [] else open[..|open| - 1] }

  predicate TakesValue(open: seq<Slot>) { Top(open) == Some(ValueSlot) || Top(open) == Some(ArraySlot) }

  /** The stack behind a value: an array stays open for more. */
  function SlotFilled(open: seq<Slot>): seq<Slot> { if Top(open) == Some(ValueSlot) then Popped(open) else open }

  /** The calls from here on close exactly what is open, in order. */
  predicate Disciplined(open: seq<Slot>, cs: seq<Call>)
    decreases |cs|
  {
    if cs == [] then open == []
    else
      match cs[0]
      case Scalar(_) => TakesValue(open) && Disciplined(SlotFilled(open), cs[1..])
      case BeginArray => TakesValue(open) && Disciplined(SlotFilled(open) + [ArraySlot], cs[1..])
      case BeginObject => TakesValue(open) && Disciplined(SlotFilled(open) + [ObjectSlot], cs[1..])
      case Key(_) => Top(open) == Some(ObjectSlot) && Disciplined(open + [ValueSlot], cs[1..])
      case EndArray => Top(open) == Some(ArraySlot) && Disciplined(Popped(open), cs[1..])
      case EndObject => Top(open) == Some(ObjectSlot) && Disciplined(Popped(open), cs[1..])
  }

  /** One value, with every container closed in turn and every key followed by a value. */
  predicate Balanced(cs: seq<Call>) { Disciplined([ValueSlot], cs) }

  lemma DisciplinedFirst(open: seq<Slot>, c: Call, cs: seq<Call>)
    ensures Disciplined(open, [c] + cs) <==>
      match c
      case Scalar(_) => TakesValue(open) && Disciplined(SlotFilled(open), cs)
      case BeginArray => TakesValue(open) && Disciplined(SlotFilled(open) + [ArraySlot], cs)
      case BeginObject => TakesValue(open) && Disciplined(SlotFilled(open) + [ObjectSlot], cs)
      case Key(_) => Top(open) == Some(ObjectSlot) && Disciplined(open + [ValueSlot], cs)
      case EndArray => Top(open) == Some(ArraySlot) && Disciplined(Popped(open), cs)
      case EndObject => Top(open) == Some(ObjectSlot) && Disciplined(Popped(open), cs)
  {
    assert ([c] + cs)[1..] == cs;
  }

  lemma PushPop(open: seq<Slot>, slot: Slot)
    ensures Top(open + [slot]) == Some(slot) && Popped(open + [slot]) == open
  {
    assert (open + [slot])[..|open|] == open;
  }

  lemma {:induction false} TreeDisciplined(open: seq<Slot>, d: Doc, rest: seq<Call>)
    requires TakesValue(open) && Disciplined(SlotFilled(open), rest)
    ensures Disciplined(open, Calls(d) + rest)
    decreases d, 1
  {
    hide Disciplined, TakesValue;
    match d
    case DArr(es) =>
      PushPop(SlotFilled(open), ArraySlot);
      DisciplinedFirst(SlotFilled(open) + [ArraySlot], EndArray, rest);
      ElemsDisciplined(SlotFilled(open), es, [EndArray] + rest);
      DisciplinedFirst(open, BeginArray, ElemCalls(es) + ([EndArray] + rest));
      assert Calls(d) + rest == [BeginArray] + (ElemCalls(es) + ([EndArray] + rest));
    case DObj(ms) =>
      PushPop(SlotFilled(open), ObjectSlot);
      DisciplinedFirst(SlotFilled(open) + [ObjectSlot], EndObject, rest);
      MembersDisciplined(SlotFilled(open), ms, [EndObject] + rest);
      DisciplinedFirst(open, BeginObject, MemberCalls(ms) + ([EndObject] + rest));
      assert Calls(d) + rest == [BeginObject] + (MemberCalls(ms) + ([EndObject] + rest));
    case _ => DisciplinedFirst(open, Scalar(Print(d)), rest);
  }

  lemma {:induction false} ElemsDisciplined(open: seq<Slot>, es: Docs, rest: seq<Call>)
    requires Disciplined(open + [ArraySlot], rest)
    ensures Disciplined(open + [ArraySlot], ElemCalls(es) + rest)
    decreases es, 0
  {
    hide Disciplined;
    PushPop(open, ArraySlot);
    if es.NoDocs? {
      assert [] + rest == rest;
    } else {
      ElemsDisciplined(open, es.tail, rest);
      TreeDisciplined(open + [ArraySlot], es.head, ElemCalls(es.tail) + rest);
      assert ElemCalls(es) + rest == Calls(es.head) + (ElemCalls(es.tail) + rest);
    }
  }

  lemma {:induction false} MembersDisciplined(open: seq<Slot>, ms: DocMembers, rest: seq<Call>)
    requires Disciplined(open + [ObjectSlot], rest)
    ensures Disciplined(open + [ObjectSlot], MemberCalls(ms) + rest)
    decreases ms, 0
  {
    hide Disciplined;
    var inside := open + [ObjectSlot];
    PushPop(open, ObjectSlot);
    PushPop(inside, ValueSlot);
    if ms.NoDocMembers? {
      assert [] + rest == rest;
    } else {
      MembersDisciplined(open, ms.tail, rest);
      TreeDisciplined(inside + [ValueSlot], ms.val, MemberCalls(ms.tail) + rest);
      DisciplinedFirst(inside, Key(ms.key), Calls(ms.val) + (MemberCalls(ms.tail) + rest));
      assert MemberCalls(ms) + rest == [Key(ms.key)] + (Calls(ms.val) + (MemberCalls(ms.tail) + rest));
    }
  }

  /** A call that begins a value. */
  predicate Begins(c: Call) { c.Scalar? || c.BeginArray? || c.BeginObject? }

  lemma {:induction false} TreeFound(open: seq<Slot>, cs: seq<Call>) returns (d: Doc, rest: seq<Call>)
    requires Disciplined(open, cs) && cs != [] && Begins(cs[0])
    ensures cs == Calls(d) + rest && Disciplined(SlotFilled(open), rest) && |rest| < |cs|
    decreases |cs|, 0
  {
    hide Disciplined, SlotFilled;
    assert cs == [cs[0]] + cs[1..];
    DisciplinedFirst(open, cs[0], cs[1..]);
    match cs[0] {
      case Scalar(text) =>
        d, rest := DNum(text), cs[1..];
      case BeginArray =>
        var es;
        es, rest := ElemsFound(SlotFilled(open), cs[1..]);
        d := DArr(es);
      case BeginObject =>
        var ms;
        ms, rest := MembersFound(SlotFilled(open), cs[1..]);
        d := DObj(ms);
    }
  }

  lemma {:induction false} ElemsFound(open: seq<Slot>, cs: seq<Call>) returns (es: Docs, rest: seq<Call>)
    requires Disciplined(open + [ArraySlot], cs)
    ensures cs == ElemCalls(es) + [EndArray] + rest && Disciplined(open, rest) && |rest| < |cs|
    decreases |cs|, 1
  {
    hide Disciplined;
    PushPop(open, ArraySlot);
    StillOpen(open + [ArraySlot], cs);
    assert cs == [cs[0]] + cs[1..];
    DisciplinedFirst(open + [ArraySlot], cs[0], cs[1..]);
    if cs[0].EndArray? {
      es, rest := NoDocs, cs[1..];
    } else {
      var d, more := TreeFound(open + [ArraySlot], cs);
      var tail;
      tail, rest := ElemsFound(open, more);
      es := DocElem(d, tail);
    }
  }

  lemma StillOpen(open: seq<Slot>, cs: seq<Call>)
    requires Disciplined(open, cs) && open != []
    ensures cs != []
  {
  }

  lemma {:induction false} MembersFound(open: seq<Slot>, cs: seq<Call>) returns (ms: DocMembers, rest: seq<Call>)
    requires Disciplined(open + [ObjectSlot], cs)
    ensures cs == MemberCalls(ms) + [EndObject] + rest && Disciplined(open, rest) && |rest| < |cs|
    decreases |cs|, 1
  {
    hide Disciplined;
    var inside := open + [ObjectSlot];
    PushPop(open, ObjectSlot);
    StillOpen(inside, cs);
    assert cs == [cs[0]] + cs[1..];
    DisciplinedFirst(inside, cs[0], cs[1..]);
    if cs[0].EndObject? {
      ms, rest := NoDocMembers, cs[1..];
    } else {
      var after := cs[1..];
      PushPop(inside, ValueSlot);
      StillOpen(inside + [ValueSlot], after);
      assert after == [after[0]] + after[1..];
      DisciplinedFirst(inside + [ValueSlot], after[0], after[1..]);
      var d, more := TreeFound(inside + [ValueSlot], after);
      var tail;
      tail, rest := MembersFound(open, more);
      ms := DocMember(cs[0].k, d, tail);
      assert cs == [Key(cs[0].k)] + (Calls(d) + (MemberCalls(tail) + [EndObject] + rest));
    }
  }

  lemma NothingOpen(cs: seq<Call>)
    ensures Disciplined([], cs) <==> cs == []
  {
  }

  /** The balanced sequences are exactly those that spell a tree. */
  lemma BalancedIsTree(cs: seq<Call>)
    ensures Balanced(cs) <==> exists d :: cs == Calls(d)
  {
    hide Disciplined, Calls;
    NothingOpen([]);
    assert [] + [ValueSlot] == [ValueSlot];
    PushPop([], ValueSlot);
    if Balanced(cs) {
      StillOpen([ValueSlot], cs);
      assert cs == [cs[0]] + cs[1..];
      DisciplinedFirst([ValueSlot], cs[0], cs[1..]);
      var d, rest := TreeFound([ValueSlot], cs);
      NothingOpen(rest);
      assert cs == Calls(d) by { assert Calls(d) + [] == Calls(d); }
    }
    if exists d :: cs == Calls(d) {
      var d :| cs == Calls(d);
      TreeDisciplined([ValueSlot], d, []);
      assert Calls(d) + [] == Calls(d);
    }
  }

  /** So every balanced sequence writes the text of a tree, wherever the writer stands. */
  lemma BalancedWrites(p: Pen, cs: seq<Call>) returns (d: Doc)
    requires Balanced(cs)
    ensures cs == Calls(d) && Run(p, cs) == Put(p, d)
  {
    hide Run, Put, Calls, Balanced;
    BalancedIsTree(cs);
    d :| cs == Calls(d);
    CallsWrite(p, d);
  }

  // ----- writing a container piece by piece -----

  function Add(ms: DocMembers, key: string, val: Doc): DocMembers {
    if ms.NoDocMembers? then DocMember(key, val, NoDocMembers) else ms.(tail := Add(ms.tail, key, val))
  }

  function AddElem(es: Docs, d: Doc): Docs {
    if es.NoDocs? then DocElem(d, NoDocs) else es.(tail := AddElem(es.tail, d))
  }

  lemma {:induction false} PrintAdd(ms: DocMembers, key: string, val: Doc)
    ensures Add(ms, key, val).DocMember?
    ensures PrintMembers(Add(ms, key, val)) ==
            PrintMembers(ms) + Comma(ms.NoDocMembers?) + PrintMember(key, Print(val))
  {
    if ms.DocMember? {
      PrintAdd(ms.tail, key, val);
    }
  }

  lemma {:induction false} PrintAddElem(es: Docs, d: Doc)
    ensures AddElem(es, d).DocElem?
    ensures PrintElems(AddElem(es, d)) == PrintElems(es) + Comma(es.NoDocs?) + Print(d)
  {
    if es.DocElem? {
      PrintAddElem(es.tail, d);
    }
  }

  /** After `{` and the members `ms`. */
  function InObject(p: Pen, ms: DocMembers): Pen {
    Inside(p, 0x7B, PrintMembers(ms), ms.NoDocMembers?)
  }

  function InArray(p: Pen, es: Docs): Pen {
    Inside(p, 0x5B, PrintElems(es), es.NoDocs?)
  }

  lemma OpenContainer(p: Pen)
    ensures Step(p, BeginObject) == InObject(p, NoDocMembers)
    ensures Step(p, BeginArray) == InArray(p, NoDocs)
  {
    Opened(p);
  }

  lemma MemberAdded(p: Pen, ms: DocMembers, key: string, val: Doc)
    ensures Put(Step(InObject(p, ms), Key(key)), val) == InObject(p, Add(ms, key, val))
  {
    PrintAdd(ms, key, val);
    MemberInside(p, PrintMembers(ms), ms.NoDocMembers?, key, val);
  }

  lemma ElemAdded(p: Pen, es: Docs, d: Doc)
    ensures Put(InArray(p, es), d) == InArray(p, AddElem(es, d))
  {
    PrintAddElem(es, d);
    ValueInside(p, 0x5B, PrintElems(es), es.NoDocs?, d);
  }

  lemma Closed(p: Pen, ms: DocMembers, es: Docs)
    ensures Step(InObject(p, ms), EndObject) == Put(p, DObj(ms))
    ensures Step(InArray(p, es), EndArray) == Put(p, DArr(es))
  {
    CloseContainer(p, DObj(ms), ms.NoDocMembers?);
    CloseContainer(p, DArr(es), es.NoDocs?);
  }

  // ----- the writer -----

  function Backwards(s: seq<byte>): seq<byte> {
    if s == [] then [] else Backwards(s[1..]) + [s[0]]
  }

  lemma {:induction false} BackwardsAppend(s: seq<byte>, b: byte)
    ensures Backwards(s + [b]) == [b] + Backwards(s)
  {
    if s != [] {
      assert (s + [b])[1..] == s[1..] + [b];
      BackwardsAppend(s[1..], b);
    }
  }

  class JsonWriter {
    const lib: FloatLib
    var buf: seq<byte>
    var first: seq<bool>
    var afterKey: bool

    constructor (lib: FloatLib)
      ensures State() == Pen([], [], false) && this.lib == lib
    {
      this.lib := lib;
      buf, first, afterKey := [], [], false;
    }

    function State(): Pen
      reads this
    {
      Pen(buf, first, afterKey)
    }

    method EmitSeparator()
      modifies this
      ensures State() == PreValue(old(State()))
    {
      if afterKey {
        afterKey := false;
        return;
      }
      if first != [] {
        var top := |first| - 1;
        if !first[top] {
          buf := buf + [0x2C];
        }
        first := first[top := false];
      }
    }

    method BeginObject()
      modifies this
      ensures State() == Step(old(State()), Call.BeginObject)
    {
      EmitSeparator();
      buf := buf + [0x7B];
      first := first + [true];
    }

    method EndObject()
      modifies this
      ensures State() == Step(old(State()), Call.EndObject)
    {
      first := Pop(first);
      buf := buf + [0x7D];
    }

    method BeginArray()
      modifies this
      ensures State() == Step(old(State()), Call.BeginArray)
    {
      EmitSeparator();
      buf := buf + [0x5B];
      first := first + [true];
    }

    method EndArray()
      modifies this
      ensures State() == Step(old(State()), Call.EndArray)
    {
      first := Pop(first);
      buf := buf + [0x5D];
    }

    method Key(k: string)
      modifies this
      ensures State() == Step(old(State()), Call.Key(k))
    {
      EmitSeparator();
      WriteEscaped(k);
      buf := buf + [0x3A];
      afterKey := true;
      assert buf == PreValue(old(State())).buf + (Quoted(k) + [0x3A]);
    }

    method NullVal()
      modifies this
      ensures State() == Put(old(State()), DNull)
    {
      EmitSeparator();
      buf := buf + NULL;
    }

    method BoolVal(b: bool)
      modifies this
      ensures State() == Put(old(State()), DBool(b))
    {
      EmitSeparator();
      buf := buf + if b then TRUE else FALSE;
    }

    method I64Val(n: I64)
      modifies this
      ensures State() == Put(old(State()), DNum(IntegerText(n)))
    {
      EmitSeparator();
      if n < 0 {
        buf := buf + [MINUS];
      }
      ghost var was := buf;
      var m: int := n;
      WriteU64(if m < 0 then -m else m);
      assert n < 0 ==> buf == PreValue(old(State())).buf + IntegerText(n);
    }

    method U64Val(n: U64)
      modifies this
      ensures State() == Put(old(State()), DNum(IntegerText(n)))
    {
      EmitSeparator();
      WriteU64(n);
    }

    method F64Val(x: F64)
      modifies this
      ensures State() == Put(old(State()), if IsFinite(x) then DNum(FloatText(lib, x)) else DNull)
    {
      EmitSeparator();
      if !IsFinite(x) {
        buf := buf + NULL;
        return;
      }
      var s := lib.format(x);
      buf := buf + s;
      if !FloatMark(s) {
        buf := buf + [POINT, ZERO_DIGIT];
      }
      assert buf == PreValue(old(State())).buf + FloatText(lib, x);
    }

    method StringVal(s: string)
      modifies this
      ensures State() == Put(old(State()), DStr(s))
    {
      EmitSeparator();
      WriteEscaped(s);
    }

    /** Pushes the digits in reverse, then turns them round in place. */
    method WriteU64(n: U64)
      modifies this`buf
      ensures buf == old(buf) + DecimalDigits(n)
    {
      if n == 0 {
        buf := buf + [ZERO_DIGIT];
        return;
      }
      var start := |buf|;
      var val: nat := n;
      while val > 0
        invariant start == |old(buf)| <= |buf| && buf[..start] == old(buf)
        invariant val <= n
        invariant val == 0 ==> Backwards(buf[start..]) == DecimalDigits(n)
        invariant val > 0 ==> DecimalDigits(val) + Backwards(buf[start..]) == DecimalDigits(n)
      {
        ghost var tail := buf[start..];
        var digit: byte := ZERO_DIGIT + val % 10;
        buf := buf + [digit];
        assert buf[start..] == tail + [digit];
        BackwardsAppend(tail, digit);
        val := val / 10;
      }
      buf := buf[..start] + Backwards(buf[start..]);
    }

    method WriteEscaped(s: string)
      modifies this`buf
      ensures buf == old(buf) + Quoted(s)
    {
      buf := buf + [QUOTE];
      WriteEscapedBytes(Utf8.Encode(s));
      buf := buf + [QUOTE];
    }

    method WriteEscapedBytes(bs: seq<byte>)
      modifies this`buf
      ensures buf == old(buf) + EscapeBytes(bs)
    {
      hide EscapeByte;
      ghost var written := [];
      var i := 0;
      assert bs[0..] == bs;
      while i < |bs|
        invariant 0 <= i <= |bs|
        invariant buf == old(buf) + written
        invariant written + EscapeBytes(bs[i..]) == EscapeBytes(bs)
      {
        assert bs[i..][1..] == bs[i + 1..];
        var e := EscapeByte(bs[i]);
        buf := buf + e;
        written := written + e;
        i := i + 1;
      }
      assert written == EscapeBytes(bs);
    }
  }
}
