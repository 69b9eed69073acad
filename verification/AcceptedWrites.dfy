/** What an accepted write does, said of the tree before and after it: the value it adds,
    the event and the tree its script sees, and what the writes of the script come to. */
module AcceptedWrites {
  import opened Wrappers
  import opened Floats
  import opened Odf
  import opened Paths
  import opened Tree
  import opened ObjectTree
  import opened Cascade
  import Engine
  import RingBuffer
  import Omi

  /** An item's metadata under a key. */
  function MetaIn(item: Option<InfoItem>, key: string): Option<OmiValue> {
    if item.Some? && item.value.meta.Some? && key in item.value.meta.value then Some(item.value.meta.value[key]) else None
  }

  /** A number on an item with a numeric duty limit is cut to [0, limit], unless it is nearly
      there; every other value is stored as it is. */
  function ToStore(env: Env, was: Option<InfoItem>, v: OmiValue): OmiValue {
    match (v, MetaIn(was, "max_duty"))
    case (OmiNumber(n), Some(OmiNumber(max))) =>
      var cut := if Less(max, if Less(n, ZERO) then ZERO else n) then max else if Less(n, ZERO) then ZERO else n;
      if env.far(cut, n) then OmiNumber(cut) else v
    case _ => v
  }

  /** A history with one more value; a full one loses its oldest. */
  predicate OneMoreValue(was: Ring, now: Ring, v: Value) {
    && now.capacity == was.capacity
    && now.vals == (if |was.vals| >= was.capacity && was.vals != [] then was.vals[1..] else was.vals) + [v]
  }

  /** The tree `m'` is `m` with one more value of the item at `p`, which may be new. */
  ghost predicate Appended(m: Objects, m': Objects, p: seq<string>, capacity: nat, v: Value) {
    var was, now := ItemAt(m, p), ItemAt(m', p);
    && now.Some? && MetaIn(now, "writable") == Some(OmiBool(true))
    && OneMoreValue(if was.Some? then was.value.values else Ring(capacity, []), now.value.values, v)
    && (was.Some? ==> now.value.(values := was.value.values) == was.value)
    && (was.None? ==> now.value.typeUri.None? && now.value.desc.None? && now.value.meta == Some(map["writable" := OmiBool(true)]))
    && (forall q | q != p :: ItemAt(m', q) == ItemAt(m, q))
    && (forall q :: LabelAt(m', q) ==
          if LabelAt(m, q).None? && Ancestor(q, p) then Some(Label(q[|q| - 1], None, None)) else LabelAt(m, q))
  }

  lemma StoredAppends(m: Objects, path: string, capacity: nat, v: Value)
    requires Refusing(m, path).None?
    ensures ValuePath(path).Ok? && Appended(m, Stored(m, path, capacity, v), ValuePath(path).value, capacity, v)
  {
    hide ItemAt, PutItem, ValuePath, Refusing, LabelAt;
    AcceptedIsWritable(m, path);
    var p := ValuePath(path).value;
    var item := NewItemWith(ItemAt(m, p), capacity, v);
    var put := if ItemAt(m, p).None? then Marked(item) else item;
    forall q ensures ItemAt(PutItem(m, p, put), q) == if q == p then Some(put) else ItemAt(m, q) {
      PutItemItems(m, p, put, q);
    }
    forall q
      ensures LabelAt(PutItem(m, p, put), q) ==
              if LabelAt(m, q).None? && Ancestor(q, p) then Some(Label(q[|q| - 1], None, None)) else LabelAt(m, q)
    {
      PutItemLabels(m, p, put, q);
    }
  }

  /** The text an item runs when it is written. */
  function ScriptOf(item: Option<InfoItem>): Option<string> {
    match MetaIn(item, "onwrite")
    case Some(OmiStr(text)) => Some(text)
    case _ => None
  }

  /** What happens after the value is stored in `stored`: the script of the item, if it has
      one and the depth is below four, sees this value, this stamp and this very tree; its
      writes follow, and then subscribers are told the newest value. */
  ghost predicate Follows(env: Env, capacity: nat, stored: Objects, path: string, p: seq<string>, v: OmiValue, t: Option<F64>,
                          now: F64, depth: nat, o: Outcome, warning: Option<string>)
    requires depth <= MAX_SCRIPT_DEPTH
  {
    var text := ScriptOf(ItemAt(stored, p));
    var told := if ItemAt(o.tree, p).Some? then [Notice(path, Newest(ItemAt(o.tree, p).value.values))] else [];
    if depth == 4 || text.None? then
      o.tree == stored && o.notices == told && o.writes == 1 && warning.None?
    else
      var (pending, failed) := env.script(Event(text.value, path, v, t, depth), stored);
      var b := RunPending(env, capacity, stored, pending, t, now, depth);
      o.tree == b.tree && o.notices == b.notices + told && o.writes == 1 + b.writes && warning == failed
  }

  lemma NotifiedIs(m: Objects, path: string)
    requires ValuePath(path).Ok? && ItemAt(m, ValuePath(path).value).Some?
    ensures Notified(m, path) == [Notice(path, Newest(ItemAt(m, ValuePath(path).value).value.values))]
  {
    hide ItemAt, ValuePath, RingBuffer.QueryOf;
    ResolvedItem(m, path);
    NewestQueried(ItemAt(m, ValuePath(path).value).value.values);
  }

  lemma MetaAtIs(m: Objects, path: string, key: string)
    requires ValuePath(path).Ok?
    ensures MetaAt(m, path, key) == MetaIn(ItemAt(m, ValuePath(path).value), key)
  {
    hide ItemAt, ParsePath;
    ResolvedItem(m, path);
  }

  lemma ScriptFollows(env: Env, capacity: nat, m: Objects, path: string, v: OmiValue, t: Option<F64>, now: F64, depth: nat, o: Outcome)
    requires depth <= MAX_SCRIPT_DEPTH && ValuePath(path).Ok? && ItemAt(m, ValuePath(path).value).Some?
    requires var b := RunScript(env, capacity, m, path, v, t, now, depth);
             o.tree == b.tree && o.notices == b.notices + Notified(b.tree, path) && o.writes == 1 + b.writes
    ensures Follows(env, capacity, m, path, ValuePath(path).value, v, t, now, depth, o,
                    RunScript(env, capacity, m, path, v, t, now, depth).warning)
    ensures ItemAt(o.tree, ValuePath(path).value).Some?
  {
    hide ItemAt, ValuePath, RunPending, MetaAt, Notified;
    MetaAtIs(m, path, "onwrite");
    ScriptKeeps(env, capacity, m, path, v, t, now, depth);
    var p := ValuePath(path).value;
    assert KeptAt(ItemAt(m, p), ItemAt(o.tree, p));
    NotifiedIs(o.tree, path);
  }

  /** An accepted write, whatever its script does. */
  lemma WriteStores(env: Env, capacity: nat, m: Objects, path: string, v: OmiValue, t: Option<F64>, now: F64, depth: nat)
    returns (stored: Objects, warning: Option<string>)
    requires depth <= MAX_SCRIPT_DEPTH
    requires !Write(env, capacity, m, path, v, t, now, depth).response.Refused?
    ensures ParsePath(path).Ok? && |ParsePath(path).value| >= 2
    ensures var o := Write(env, capacity, m, path, v, t, now, depth);
            var p := ParsePath(path).value;
            var x, stamp := ToStore(env, ItemAt(m, p), v), Some(if t.Some? then t.value else now);
            && Appended(m, stored, p, capacity, Value(x, stamp))
            && Follows(env, capacity, stored, path, p, x, stamp, now, depth, o, warning)
            && o.response == if warning.Some? then OkWarning(warning.value)
                             else if ItemAt(m, p).None? then Created else OkNull
  {
    hide ItemAt, ParsePath, RunScript, Notified, Refusing, Stored, Appended, Follows, MetaAt;
    assert Refusing(m, path).None?;
    AcceptedIsWritable(m, path);
    var p, stamp := ValuePath(path).value, if t.Some? then t else Some(now);
    MetaAtIs(m, path, "max_duty");
    var x := Clamped(env, m, path, v);
    assert x == ToStore(env, ItemAt(m, p), v);
    StoredAppends(m, path, capacity, Value(x, stamp));
    stored := Stored(m, path, capacity, Value(x, stamp));
    warning := RunScript(env, capacity, stored, path, x, stamp, now, depth).warning;
    AppendedThere(m, stored, p, capacity, Value(x, stamp));
    ScriptFollows(env, capacity, stored, path, x, stamp, now, depth, Write(env, capacity, m, path, v, t, now, depth));
  }

  lemma AppendedThere(m: Objects, m': Objects, p: seq<string>, capacity: nat, v: Value)
    requires Appended(m, m', p, capacity, v)
    ensures ItemAt(m', p).Some? && Newest(ItemAt(m', p).value.values) == [v]
  {
    hide ItemAt, LabelAt;
  }

  /** An accepted batch item: its own value and timestamp, and an answer that says both
      whether the item is new and what the script complained of. */
  lemma BatchItemStores(env: Env, capacity: nat, m: Objects, w: Omi.WriteItem, now: F64)
    returns (stored: Objects, warning: Option<string>)
    requires !Engine.WriteBatchItem(env, capacity, m, w, now).response.Refused?
    ensures ParsePath(w.path).Ok? && |ParsePath(w.path).value| >= 2
    ensures var o, p := Engine.WriteBatchItem(env, capacity, m, w, now), ParsePath(w.path).value;
            && Appended(m, stored, p, capacity, Value(w.v, w.t))
            && Follows(env, capacity, stored, w.path, p, w.v, w.t, now, 0, o, warning)
            && o.response == if ItemAt(m, p).None? then (if warning.Some? then CreatedWarning(warning.value) else Created)
                             else if warning.Some? then OkWarning(warning.value) else OkNull
  {
    hide ItemAt, ParsePath, RunScript, Notified, Refusing, Stored, Appended, Follows;
    AcceptedIsWritable(m, w.path);
    StoredAppends(m, w.path, capacity, Value(w.v, w.t));
    stored := Stored(m, w.path, capacity, Value(w.v, w.t));
    warning := RunScript(env, capacity, stored, w.path, w.v, w.t, now, 0).warning;
    AppendedThere(m, stored, ValuePath(w.path).value, capacity, Value(w.v, w.t));
    ScriptFollows(env, capacity, stored, w.path, w.v, w.t, now, 0, Engine.WriteBatchItem(env, capacity, m, w, now));
  }

  /** Why a write is refused, in the order in which the reasons are looked for. */
  lemma WhyRefused(env: Env, capacity: nat, m: Objects, path: string, v: OmiValue, t: Option<F64>, now: F64, depth: nat)
    requires depth <= MAX_SCRIPT_DEPTH
    ensures var r, p := Write(env, capacity, m, path, v, t, now, depth).response, ParsePath(path);
            if p.Err? then r == Refused(BadPath(p.error))
            else if p.value == [] then r == Refused(NotAnItem)
            else if ItemAt(m, p.value).Some? then
              (r == Refused(NotWritable) <==> MetaIn(ItemAt(m, p.value), "writable") != Some(OmiBool(true)))
              && (r.Refused? ==> r == Refused(NotWritable))
            else if ObjAt(m, p.value).Some? then r == Refused(NotAnItem)
            else if |p.value| == 1 then r == Refused(BadPath(InvalidPath))
            else !r.Refused?
  {
    hide ItemAt, ObjAt, RunScript, Notified, Clamped, Stored;
    ParseErrors(path);
    SomeItemIsDeep(m, ParsePath(path));
  }

  lemma ParseErrors(path: string)
    ensures ParsePath(path) != Err(NotFound)
  {
  }

  lemma SomeItemIsDeep(m: Objects, p: Result<seq<string>, TreeError>)
    ensures p.Ok? && ItemAt(m, p.value).Some? ==> |p.value| >= 2
  {
  }

  // ----- writes whose script asks for nothing -----

  /** No script runs, or the one that runs asks for no write. */
  ghost predicate Silent(env: Env, stored: Objects, path: string, p: seq<string>, v: OmiValue, t: Option<F64>, depth: nat) {
    var text := ScriptOf(ItemAt(stored, p));
    depth == 4 || text.None? || env.script(Event(text.value, path, v, t, depth), stored).0 == []
  }

  /** Then the one new value is all that happened, and subscribers are told just that. */
  lemma SilentWrite(env: Env, capacity: nat, m: Objects, stored: Objects, path: string, p: seq<string>, v: OmiValue, t: Option<F64>,
                    now: F64, depth: nat, o: Outcome, warning: Option<string>)
    requires depth <= MAX_SCRIPT_DEPTH && Appended(m, stored, p, capacity, Value(v, t))
    requires Follows(env, capacity, stored, path, p, v, t, now, depth, o, warning)
    requires Silent(env, stored, path, p, v, t, depth)
    ensures Appended(m, o.tree, p, capacity, Value(v, t)) && o.writes == 1
    ensures o.notices == [Notice(path, [Value(v, t)])]
  {
    hide ItemAt, Appended;
    AppendedThere(m, stored, p, capacity, Value(v, t));
  }

  // ----- the writes of a script, one after the other -----

  /** The value of a script's write: decoded if it has an encoding, is a text and can be. */
  function Meaning(env: Env, pw: Pending): OmiValue {
    match (pw.encoding, pw.value)
    case (Some(e), OmiStr(s)) => (match env.decode(e, s) case Some(d) => OmiStr(d) case None => pw.value)
    case _ => pw.value
  }

  /** The tree with the encoding noted on the item that was addressed, if there is one. */
  ghost predicate Noted(m: Objects, m': Objects, pw: Pending) {
    && (forall q :: LabelAt(m', q) == LabelAt(m, q))
    && forall q ::
         if pw.encoding.Some? && ParsePath(pw.path) == Ok(q) && ItemAt(m, q).Some? then
           var item := ItemAt(m, q).value;
           ItemAt(m', q) == Some(item.(meta := Some((if item.meta.Some? then item.meta.value else map[])
                                                    ["tx_encoding" := OmiStr(pw.encoding.value)])))
         else ItemAt(m', q) == ItemAt(m, q)
  }

  lemma HintNotes(m: Objects, pw: Pending)
    ensures Noted(m, Hinted(m, pw), pw)
  {
    hide ItemAt, PutItem, ParsePath, LabelAt, ValuePath;
    ResolvedItem(m, pw.path);
    ItemIsResolved(m, pw.path);
    var t := ResolvePath(m, pw.path);
    if pw.encoding.Some? && t.Ok? && t.value.AtItem? {
      var p, item := ParsePath(pw.path).value, t.value.item;
      var put := item.(meta := Some(Meta(item)["tx_encoding" := OmiStr(pw.encoding.value)]));
      forall q
        ensures ItemAt(PutItem(m, p, put), q) == if q == p then Some(put) else ItemAt(m, q)
      {
        PutItemItems(m, p, put, q);
      }
      forall q
        ensures LabelAt(PutItem(m, p, put), q) == LabelAt(m, q)
      {
        PutItemLabels(m, p, put, q);
        if Ancestor(q, p) {
          AboveItem(m, p, q);
        }
      }
    }
  }

  lemma {:induction false} AboveItem(m: Objects, p: seq<string>, q: seq<string>)
    requires ItemAt(m, p).Some? && Ancestor(q, p)
    ensures LabelAt(m, q).Some?
    decreases |p|
  {
    assert q[0] == p[0];
    if |q| > 1 {
      assert q[1..] < p[1..];
      AboveItem(Kids(m[p[0]]), p[1..], q[1..]);
    }
  }

  /** One write of a script: with the timestamp of the event, one level deeper, and then its hint. */
  ghost predicate OneWrite(env: Env, capacity: nat, before: Objects, pw: Pending, t: Option<F64>, now: F64, depth: nat,
                           told: seq<Notice>, after: Objects)
    requires depth < MAX_SCRIPT_DEPTH
  {
    var o := Write(env, capacity, before, pw.path, Meaning(env, pw), t, now, depth + 1);
    told == o.notices && Noted(o.tree, after, pw)
  }

  /** Each write of a script sees the tree that the ones in front of it left. */
  lemma {:induction false} ScriptWrites(env: Env, capacity: nat, m: Objects, pending: seq<Pending>, t: Option<F64>, now: F64, depth: nat)
    returns (trees: seq<Objects>, told: seq<seq<Notice>>)
    requires depth < MAX_SCRIPT_DEPTH
    ensures var b := RunPending(env, capacity, m, pending, t, now, depth);
            && |trees| == |pending| + 1 && trees[0] == m && trees[|pending|] == b.tree
            && |told| == |pending| && b.notices == Flat(told)
    ensures forall i | 0 <= i < |pending| :: OneWrite(env, capacity, trees[i], pending[i], t, now, depth, told[i], trees[i + 1])
    decreases |pending|
  {
    hide Write, Noted, Hinted, OneWrite;
    if pending == [] {
      trees, told := [m], [];
    } else {
      var o := Write(env, capacity, m, pending[0].path, Meaning(env, pending[0]), t, now, depth + 1);
      assert Decoded(env, pending[0]) == Meaning(env, pending[0]);
      var next := Hinted(o.tree, pending[0]);
      var rest, later := ScriptWrites(env, capacity, next, pending[1..], t, now, depth);
      FirstWrite(env, capacity, m, pending[0], t, now, depth);
      trees, told := [m] + rest, [o.notices] + later;
      forall i | 0 <= i < |pending|
        ensures OneWrite(env, capacity, trees[i], pending[i], t, now, depth, told[i], trees[i + 1])
      {
        assert trees[i + 1] == rest[i];
        if i > 0 {
          assert trees[i] == rest[i - 1] && pending[i] == pending[1..][i - 1] && told[i] == later[i - 1];
        }
      }
    }
  }

  lemma FirstWrite(env: Env, capacity: nat, m: Objects, pw: Pending, t: Option<F64>, now: F64, depth: nat)
    requires depth < MAX_SCRIPT_DEPTH
    ensures var o := Write(env, capacity, m, pw.path, Meaning(env, pw), t, now, depth + 1);
            OneWrite(env, capacity, m, pw, t, now, depth, o.notices, Hinted(o.tree, pw))
  {
    hide Write, Noted, Hinted;
    HintNotes(Write(env, capacity, m, pw.path, Meaning(env, pw), t, now, depth + 1).tree, pw);
  }

  function Flat<T>(s: seq<seq<T>>): seq<T> { if s == [] then [] else s[0] + Flat(s[1..]) }

  ghost predicate OneItem(env: Env, capacity: nat, before: Objects, w: Omi.WriteItem, now: F64, told: seq<Notice>,
                          answer: Engine.ItemAnswer, after: Objects)
  {
    var o := Engine.WriteBatchItem(env, capacity, before, w, now);
    after == o.tree && told == o.notices && answer == Engine.ItemAnswer(w.path, o.response)
  }

  /** The items of a batch one after the other, each on the tree that those in front of it
      left, each with its own answer. */
  lemma {:induction false} BatchInOrder(env: Env, capacity: nat, m: Objects, items: seq<Omi.WriteItem>, now: F64)
    returns (trees: seq<Objects>, told: seq<seq<Notice>>)
    ensures var b := Engine.WriteBatch(env, capacity, m, items, now);
            && |trees| == |items| + 1 && trees[0] == m && trees[|items|] == b.tree
            && |told| == |items| == |b.answers| && b.notices == Flat(told)
            && forall i | 0 <= i < |items| ::
                 OneItem(env, capacity, trees[i], items[i], now, told[i], b.answers[i], trees[i + 1])
    decreases |items|
  {
    hide Engine.WriteBatchItem, OneItem;
    if items == [] {
      trees, told := [m], [];
    } else {
      var o := Engine.WriteBatchItem(env, capacity, m, items[0], now);
      var rest, later := BatchInOrder(env, capacity, o.tree, items[1..], now);
      trees, told := [m] + rest, [o.notices] + later;
      var b := Engine.WriteBatch(env, capacity, m, items, now);
      forall i | 0 <= i < |items|
        ensures OneItem(env, capacity, trees[i], items[i], now, told[i], b.answers[i], trees[i + 1])
      {
        assert trees[i + 1] == rest[i];
        if i == 0 {
          FirstItem(env, capacity, m, items[0], now);
        } else {
          assert trees[i] == rest[i - 1] && items[i] == items[1..][i - 1] && told[i] == later[i - 1];
        }
      }
    }
  }

  lemma FirstItem(env: Env, capacity: nat, m: Objects, w: Omi.WriteItem, now: F64)
    ensures var o := Engine.WriteBatchItem(env, capacity, m, w, now);
            OneItem(env, capacity, m, w, now, o.notices, Engine.ItemAnswer(w.path, o.response), o.tree)
  {
    hide Engine.WriteBatchItem;
  }
}
