/** Writes and the onwrite scripts they set off. A script is any function from the event
    and the tree to a list of further writes; nothing is assumed about it. */
module Cascade {
  import opened Wrappers
  import opened Floats
  import opened Odf
  import opened Paths
  import opened Tree
  import opened ObjectTree
  import opened RingBuffer

  const MAX_SCRIPT_DEPTH := 4

  datatype Pending = Pending(path: string, value: OmiValue, encoding: Option<string>)

  datatype Event = Event(source: string, path: string, value: OmiValue, t: Option<F64>, depth: nat)

  /** What the engine calls into: a script run, the hex and base64 decoders, and whether two
      numbers differ by more than f64::EPSILON. */
  datatype Env = Env(
    script: (Event, Objects) -> (seq<Pending>, Option<string>),
    decode: (string, string) -> Option<string>,
    far: (F64, F64) -> bool
  )

  /** A single write that creates its item loses that answer to a warning; a batch item keeps both. */
  datatype Response =
    | OkNull
    | OkWarning(text: string)
    | Created
    | CreatedWarning(text: string)
    | Refused(reason: Refusal)

  datatype Refusal = NotWritable | NotAnItem | BadPath(error: TreeError)

  /** Subscribers of a path are handed the newest value there. */
  datatype Notice = Notice(path: string, values: seq<Value>)

  /** `writes` counts the writes attempted, this one and all that scripts set off. */
  datatype Outcome = Outcome(tree: Objects, response: Response, notices: seq<Notice>, writes: nat)

  datatype Batch = Batch(tree: Objects, notices: seq<Notice>, warning: Option<string>, writes: nat)

  // ----- the pieces of one write -----

  function Refusing(m: Objects, path: string): Option<Refusal> {
    match ResolvePath(m, path)
    case Ok(AtItem(item)) => if IsWritable(item) then None else Some(NotWritable)
    case Ok(_) => Some(NotAnItem)
    case Err(e) => if e != NotFound then Some(BadPath(e)) else if ValuePath(path).Err? then Some(BadPath(ValuePath(path).error)) else None
  }

  function Meta(item: InfoItem): map<string, OmiValue> { if item.meta.Some? then item.meta.value else map[] }

  function MetaAt(m: Objects, path: string, key: string): Option<OmiValue> {
    var t := ResolvePath(m, path);
    if t.Ok? && t.value.AtItem? && key in Meta(t.value.item) then Some(Meta(t.value.item)[key]) else None
  }

  function Clamped(env: Env, m: Objects, path: string, v: OmiValue): OmiValue {
    var max := MetaAt(m, path, "max_duty");
    if v.OmiNumber? && max.Some? && max.value.OmiNumber? then
      var clamped := Clamp(v.n, ZERO, max.value.n);
      if env.far(clamped, v.n) then OmiNumber(clamped) else v
    else v
  }

  predicate InRange(x: F64, max: F64) { AtMost(ZERO, x) && AtMost(x, max) }

  /** With a limit that the clamp accepts, a number is in range afterwards exactly if it was,
      or is one that lies farther out than the tolerance. What is not a number stays. */
  lemma ClampedInRange(env: Env, m: Objects, path: string, n: F64, max: F64)
    requires MetaAt(m, path, "max_duty") == Some(OmiNumber(max)) && AtMost(ZERO, max)
    ensures var r := Clamped(env, m, path, OmiNumber(n));
            && r.OmiNumber?
            && (InRange(n, max) ==> r.n == n)
            && (InRange(r.n, max) <==> InRange(n, max) || (!IsNaN(n) && env.far(Clamp(n, ZERO, max), n)))
  {
    hide MetaAt;
  }

  /** The value appended, and the item marked writable if it is new. */
  function Stored(m: Objects, path: string, capacity: nat, v: Value): Objects
    requires ValuePath(path).Ok?
  {
    var p := ValuePath(path).value;
    var item := NewItemWith(ItemAt(m, p), capacity, v);
    PutItem(m, p, if ItemAt(m, p).None? then Marked(item) else item)
  }

  function Notified(m: Objects, path: string): seq<Notice> {
    var t := ResolvePath(m, path);
    if t.Ok? && t.value.AtItem? then [Notice(path, QueryOf(t.value.item.values.vals, Some(1), None, None, None))] else []
  }

  /** The newest value of a history, if it is not empty. */
  function Newest(r: Ring): seq<Value> { if r.vals == [] then [] else [r.vals[|r.vals| - 1]] }

  lemma NewestQueried(r: Ring)
    ensures QueryOf(r.vals, Some(1), None, None, None) == Newest(r)
  {
    if r.vals != [] {
      assert LastN(r.vals, 1) == [r.vals[|r.vals| - 1]];
      assert Reversed([r.vals[|r.vals| - 1]]) == [r.vals[|r.vals| - 1]];
    }
  }

  function Decoded(env: Env, pw: Pending): OmiValue {
    if pw.encoding.None? || !pw.value.OmiStr? then pw.value
    else
      var d := env.decode(pw.encoding.value, pw.value.s);
      if d.Some? then OmiStr(d.value) else pw.value
  }

  /** The encoding hint is stored whether or not the write it came with was accepted. */
  function Hinted(m: Objects, pw: Pending): Objects {
    var t := ResolvePath(m, pw.path);
    if pw.encoding.None? || t.Err? || !t.value.AtItem? then m
    else
      var item := t.value.item;
      PutItem(m, ParsePath(pw.path).value, item.(meta := Some(Meta(item)["tx_encoding" := OmiStr(pw.encoding.value)])))
  }

  // ----- one write and its cascade -----

  function Write(env: Env, capacity: nat, m: Objects, path: string, v: OmiValue, t: Option<F64>, now: F64, depth: nat): Outcome
    requires depth <= MAX_SCRIPT_DEPTH
    decreases MAX_SCRIPT_DEPTH - depth, 2, 0
  {
    var no := Refusing(m, path);
    if no.Some? then Outcome(m, Refused(no.value), [], 1)
    else
      var v' := Clamped(env, m, path, v);
      var t' := if t.Some? then t else Some(now);
      var created := ItemAt(m, ValuePath(path).value).None?;
      var b := RunScript(env, capacity, Stored(m, path, capacity, Value(v', t')), path, v', t', now, depth);
      Outcome(b.tree,
              if b.warning.Some? then OkWarning(b.warning.value) else if created then Created else OkNull,
              b.notices + Notified(b.tree, path),
              1 + b.writes)
  }

  function RunScript(env: Env, capacity: nat, m: Objects, path: string, v: OmiValue, t: Option<F64>, now: F64, depth: nat): Batch
    requires depth <= MAX_SCRIPT_DEPTH
    decreases MAX_SCRIPT_DEPTH - depth, 1, 0
  {
    if depth >= MAX_SCRIPT_DEPTH then Batch(m, [], None, 0)
    else
      var source := MetaAt(m, path, "onwrite");
      if source.None? || !source.value.OmiStr? then Batch(m, [], None, 0)
      else
        var (pending, warning) := env.script(Event(source.value.s, path, v, t, depth), m);
        RunPending(env, capacity, m, pending, t, now, depth).(warning := warning)
  }

  function RunPending(env: Env, capacity: nat, m: Objects, pending: seq<Pending>, t: Option<F64>, now: F64, depth: nat): Batch
    requires depth < MAX_SCRIPT_DEPTH
    decreases MAX_SCRIPT_DEPTH - depth, 0, |pending|
  {
    if pending == [] then Batch(m, [], None, 0)
    else
      var pw := pending[0];
      var o := Write(env, capacity, m, pw.path, Decoded(env, pw), t, now, depth + 1);
      var rest := RunPending(env, capacity, Hinted(o.tree, pw), pending[1..], t, now, depth);
      Batch(rest.tree, o.notices + rest.notices, None, o.writes + rest.writes)
  }

  // ----- what no cascade changes -----

  /** Items stay; one that is not writable keeps its history and stays so. */
  predicate KeptAt(a: Option<InfoItem>, b: Option<InfoItem>) {
    a.Some? ==> b.Some? && (!IsWritable(a.value) ==> !IsWritable(b.value) && b.value.values == a.value.values)
  }

  ghost predicate Kept(m: Objects, m': Objects) {
    forall q :: KeptAt(ItemAt(m, q), ItemAt(m', q))
  }

  lemma KeptTrans(a: Objects, b: Objects, c: Objects)
    requires Kept(a, b) && Kept(b, c)
    ensures Kept(a, c)
  {
    forall q
      ensures KeptAt(ItemAt(a, q), ItemAt(c, q))
    {
      assert KeptAt(ItemAt(a, q), ItemAt(b, q)) && KeptAt(ItemAt(b, q), ItemAt(c, q));
    }
  }

  lemma PutKeeps(m: Objects, p: seq<string>, item: InfoItem)
    requires |p| >= 2
    requires KeptAt(ItemAt(m, p), Some(item))
    ensures Kept(m, PutItem(m, p, item))
  {
    hide ItemAt, PutItem;
    forall q
      ensures KeptAt(ItemAt(m, q), ItemAt(PutItem(m, p, item), q))
    {
      PutItemItems(m, p, item, q);
    }
  }

  lemma ResolvedItem(m: Objects, path: string)
    ensures var t := ResolvePath(m, path);
            && (t.Ok? && t.value.AtItem? ==>
                  ParsePath(path).Ok? && |ParsePath(path).value| >= 2
                  && ItemAt(m, ParsePath(path).value) == Some(t.value.item) && ValuePath(path) == ParsePath(path))
            && (ValuePath(path).Ok? && ItemAt(m, ValuePath(path).value).Some? ==>
                  t == Ok(AtItem(ItemAt(m, ValuePath(path).value).value)))
  {
  }

  /** A write goes ahead only on an item that is absent or writable. */
  lemma AcceptedIsWritable(m: Objects, path: string)
    requires Refusing(m, path).None?
    ensures ValuePath(path).Ok?
    ensures var a := ItemAt(m, ValuePath(path).value); a.Some? ==> IsWritable(a.value)
  {
    ResolvedItem(m, path);
  }

  lemma StoredKeeps(m: Objects, path: string, capacity: nat, v: Value)
    requires Refusing(m, path).None?
    ensures ValuePath(path).Ok? && Kept(m, Stored(m, path, capacity, v))
  {
    hide ItemAt, PutItem, ValuePath, Refusing;
    AcceptedIsWritable(m, path);
    var p := ValuePath(path).value;
    var item := NewItemWith(ItemAt(m, p), capacity, v);
    PutKeeps(m, p, if ItemAt(m, p).None? then Marked(item) else item);
  }

  lemma HintedKeeps(m: Objects, pw: Pending)
    ensures Kept(m, Hinted(m, pw))
  {
    hide ItemAt, PutItem, ParsePath, ResolvePath, ValuePath;
    ResolvedItem(m, pw.path);
    var t := ResolvePath(m, pw.path);
    if pw.encoding.Some? && t.Ok? && t.value.AtItem? {
      var item := t.value.item;
      PutKeeps(m, ParsePath(pw.path).value, item.(meta := Some(Meta(item)["tx_encoding" := OmiStr(pw.encoding.value)])));
    }
  }

  /** No script, however it behaves, gets around the writable check. */
  lemma {:induction false} WriteKeeps(env: Env, capacity: nat, m: Objects, path: string, v: OmiValue, t: Option<F64>, now: F64, depth: nat)
    requires depth <= MAX_SCRIPT_DEPTH
    ensures Kept(m, Write(env, capacity, m, path, v, t, now, depth).tree)
    decreases MAX_SCRIPT_DEPTH - depth, 2, 0
  {
    hide Refusing, Clamped, Notified, Kept, KeptAt, ValuePath;
    if Refusing(m, path).Some? {
      KeptSame(m);
    } else {
      var v' := Clamped(env, m, path, v);
      var t' := if t.Some? then t else Some(now);
      StoredKeeps(m, path, capacity, Value(v', t'));
      var m' := Stored(m, path, capacity, Value(v', t'));
      ScriptKeeps(env, capacity, m', path, v', t', now, depth);
      KeptTrans(m, m', RunScript(env, capacity, m', path, v', t', now, depth).tree);
    }
  }

  lemma KeptSame(m: Objects)
    ensures Kept(m, m)
  {
  }

  lemma {:induction false} ScriptKeeps(env: Env, capacity: nat, m: Objects, path: string, v: OmiValue, t: Option<F64>, now: F64, depth: nat)
    requires depth <= MAX_SCRIPT_DEPTH
    ensures Kept(m, RunScript(env, capacity, m, path, v, t, now, depth).tree)
    decreases MAX_SCRIPT_DEPTH - depth, 1, 0
  {
    hide Kept, MetaAt;
    KeptSame(m);
    if depth < MAX_SCRIPT_DEPTH {
      var source := MetaAt(m, path, "onwrite");
      if source.Some? && source.value.OmiStr? {
        PendingKeeps(env, capacity, m, env.script(Event(source.value.s, path, v, t, depth), m).0, t, now, depth);
      }
    }
  }

  lemma {:induction false} PendingKeeps(env: Env, capacity: nat, m: Objects, pending: seq<Pending>, t: Option<F64>, now: F64, depth: nat)
    requires depth < MAX_SCRIPT_DEPTH
    ensures Kept(m, RunPending(env, capacity, m, pending, t, now, depth).tree)
    decreases MAX_SCRIPT_DEPTH - depth, 0, |pending|
  {
    hide Kept, Hinted, Decoded, Write;
    KeptSame(m);
    if pending != [] {
      var pw := pending[0];
      var o := Write(env, capacity, m, pw.path, Decoded(env, pw), t, now, depth + 1);
      WriteKeeps(env, capacity, m, pw.path, Decoded(env, pw), t, now, depth + 1);
      HintedKeeps(o.tree, pw);
      KeptTrans(m, o.tree, Hinted(o.tree, pw));
      PendingKeeps(env, capacity, Hinted(o.tree, pw), pending[1..], t, now, depth);
      KeptTrans(m, Hinted(o.tree, pw), RunPending(env, capacity, Hinted(o.tree, pw), pending[1..], t, now, depth).tree);
    }
  }

  /** A refused write changes nothing, at any depth of the cascade, and exactly the writes
      to a non-writable item, to an object or to a bad path are refused. */
  lemma RefusedChangesNothing(env: Env, capacity: nat, m: Objects, path: string, v: OmiValue, t: Option<F64>, now: F64, depth: nat)
    requires depth <= MAX_SCRIPT_DEPTH
    ensures var o := Write(env, capacity, m, path, v, t, now, depth);
            && (o.response.Refused? ==> o.tree == m && o.notices == [] && o.writes == 1)
            && (o.response.Refused? <==>
                  || ValuePath(path).Err?
                  || (ItemAt(m, ValuePath(path).value).Some? && !IsWritable(ItemAt(m, ValuePath(path).value).value))
                  || (ItemAt(m, ValuePath(path).value).None? && ObjAt(m, ValuePath(path).value).Some?))
  {
    hide RunScript, Notified, Clamped, ItemAt, ObjAt;
    ResolvedItem(m, path);
  }

  // ----- the hint that comes with a refused write -----

  /** Nothing to store: no encoding, no item at the path, or an item that has the hint. */
  predicate HintIdle(m: Objects, pw: Pending) {
    || pw.encoding.None?
    || ParsePath(pw.path).Err?
    || ItemAt(m, ParsePath(pw.path).value).None?
    || (var item := ItemAt(m, ParsePath(pw.path).value).value;
        item.meta.Some? && "tx_encoding" in item.meta.value && item.meta.value["tx_encoding"] == OmiStr(pw.encoding.value))
  }

  lemma {:induction false} PutSame(m: Objects, p: seq<string>, item: InfoItem)
    requires |p| >= 2 && ItemAt(m, p) == Some(item)
    ensures PutItem(m, p, item) == m
    decreases |p|
  {
    var o := m[p[0]];
    if |p| > 2 {
      PutSame(Kids(o), p[1..], item);
    } else {
      assert Items(o)[p[1] := item] == Items(o);
    }
  }

  lemma HintChanges(m: Objects, pw: Pending)
    ensures Hinted(m, pw) == m <==> HintIdle(m, pw)
  {
    hide ItemAt, PutItem, ParsePath, ValuePath;
    ResolvedItem(m, pw.path);
    ItemIsResolved(m, pw.path);
    var t := ResolvePath(m, pw.path);
    if pw.encoding.Some? && t.Ok? && t.value.AtItem? {
      var p, item := ParsePath(pw.path).value, t.value.item;
      var hinted := item.(meta := Some(Meta(item)["tx_encoding" := OmiStr(pw.encoding.value)]));
      PutItemItems(m, p, hinted, p);
      if HintIdle(m, pw) {
        assert Meta(item)["tx_encoding" := OmiStr(pw.encoding.value)] == Meta(item);
        PutSame(m, p, item);
      } else {
        assert hinted != item by { HintIsNew(item, pw.encoding.value); }
      }
    }
  }

  lemma HintIsNew(item: InfoItem, encoding: string)
    ensures var hinted := item.(meta := Some(Meta(item)["tx_encoding" := OmiStr(encoding)]));
            hinted == item ==>
              item.meta.Some? && "tx_encoding" in item.meta.value && item.meta.value["tx_encoding"] == OmiStr(encoding)
  {
  }

  lemma ItemIsResolved(m: Objects, path: string)
    ensures ParsePath(path).Ok? && ItemAt(m, ParsePath(path).value).Some? ==>
              ResolvePath(m, path) == Ok(AtItem(ItemAt(m, ParsePath(path).value).value))
  {
  }

  /** A script write that is refused leaves the tree as it was exactly when its hint has
      nothing to store; otherwise the hint is stored on the item that refused it. */
  lemma RefusedScriptWrite(env: Env, capacity: nat, m: Objects, pw: Pending, t: Option<F64>, now: F64, depth: nat)
    requires depth < MAX_SCRIPT_DEPTH
    ensures var o := Write(env, capacity, m, pw.path, Decoded(env, pw), t, now, depth + 1);
            o.response.Refused? ==> (Hinted(o.tree, pw) == m <==> HintIdle(m, pw))
  {
    hide Write, Hinted, HintIdle, Decoded, ValuePath, ItemAt, ObjAt;
    RefusedChangesNothing(env, capacity, m, pw.path, Decoded(env, pw), t, now, depth + 1);
    HintChanges(m, pw);
  }

  /** An item that is not writable refuses the value and takes the hint. */
  lemma HintOnRefusingItem(env: Env, capacity: nat, t: Option<F64>, now: F64, depth: nat)
    requires depth < MAX_SCRIPT_DEPTH
    ensures var m: Objects := map["A" := Object("A", None, None, Some(map["i" := NewItem(1)]), None)];
            var pw := Pending("/A/i", OmiNull, Some("hex"));
            var o := Write(env, capacity, m, pw.path, Decoded(env, pw), t, now, depth + 1);
            && o.response == Refused(NotWritable) && o.tree == m
            && Hinted(o.tree, pw) != m
            && ItemAt(Hinted(o.tree, pw), ["A", "i"]) == Some(NewItem(1).(meta := Some(map["tx_encoding" := OmiStr("hex")])))
  {
    hide Decoded;
    var m: Objects := map["A" := Object("A", None, None, Some(map["i" := NewItem(1)]), None)];
    var pw := Pending("/A/i", OmiNull, Some("hex"));
    PathOfItem();
    assert ItemAt(m, ["A", "i"]) == Some(NewItem(1));
    assert ResolvePath(m, pw.path) == Ok(AtItem(NewItem(1)));
    RefusedByItem(env, capacity, m, pw.path, Decoded(env, pw), t, now, depth + 1);
    var hinted := NewItem(1).(meta := Some(map["tx_encoding" := OmiStr("hex")]));
    PutItemItems(m, ["A", "i"], hinted, ["A", "i"]);
  }

  lemma RefusedByItem(env: Env, capacity: nat, m: Objects, path: string, v: OmiValue, t: Option<F64>, now: F64, depth: nat)
    requires depth <= MAX_SCRIPT_DEPTH && Refusing(m, path) == Some(NotWritable)
    ensures Write(env, capacity, m, path, v, t, now, depth) == Outcome(m, Refused(NotWritable), [], 1)
  {
  }

  lemma PathOfItem()
    ensures ParsePath("/A/i") == Ok(["A", "i"])
  {
    hide ParsePath;
    assert Slashed(["i"]) == "/i" + Slashed([]) && Spell(["A", "i"]) == "/A/i";
    assert GoodSegment("A") && GoodSegment("i");
    SpelledIsParsed(["A", "i"]);
  }

  // ----- how large a cascade gets -----

  function Pow(b: nat, k: nat): nat { if k == 0 then 1 else b * Pow(b, k - 1) }

  /** 1 + b + ... + b^k */
  function PowerSum(b: nat, k: nat): nat { if k == 0 then 1 else PowerSum(b, k - 1) + Pow(b, k) }

  lemma {:induction false} PowerSumGrows(b: nat, k: nat)
    requires k > 0
    ensures PowerSum(b, k) == 1 + b * PowerSum(b, k - 1)
    decreases k
  {
    if k > 1 {
      PowerSumGrows(b, k - 1);
      assert b * (PowerSum(b, k - 2) + Pow(b, k - 1)) == b * PowerSum(b, k - 2) + b * Pow(b, k - 1);
    } else {
      assert Pow(b, 1) == b * Pow(b, 0) == b;
    }
  }

  /** No script run asks for more than `b` writes. */
  ghost predicate AtMostEach(env: Env, b: nat) {
    forall e, m :: |env.script(e, m).0| <= b
  }

  lemma {:induction false} WriteBounded(env: Env, b: nat, capacity: nat, m: Objects, path: string, v: OmiValue, t: Option<F64>, now: F64, depth: nat)
    requires depth <= MAX_SCRIPT_DEPTH && AtMostEach(env, b)
    ensures Write(env, capacity, m, path, v, t, now, depth).writes <= PowerSum(b, MAX_SCRIPT_DEPTH - depth)
    decreases MAX_SCRIPT_DEPTH - depth, 1, 0
  {
    hide Refusing, Stored, Clamped, Notified, AtMostEach, PowerSum;
    PowerSumPositive(b, MAX_SCRIPT_DEPTH - depth);
    if Refusing(m, path).None? {
      var v' := Clamped(env, m, path, v);
      var t' := if t.Some? then t else Some(now);
      AcceptedIsWritable(m, path);
      var m' := Stored(m, path, capacity, Value(v', t'));
      var source := MetaAt(m', path, "onwrite");
      if depth < MAX_SCRIPT_DEPTH && source.Some? && source.value.OmiStr? {
        var e := Event(source.value.s, path, v', t', depth);
        EachBounded(env, b, e, m');
        PendingBounded(env, b, capacity, m', env.script(e, m').0, t', now, depth);
        PowerSumGrows(b, MAX_SCRIPT_DEPTH - depth);
        Monotone(|env.script(e, m').0|, b, PowerSum(b, MAX_SCRIPT_DEPTH - depth - 1));
      }
    }
  }

  lemma Monotone(x: nat, b: nat, y: nat)
    requires x <= b
    ensures x * y <= b * y
  {
  }

  lemma {:induction false} PowerSumPositive(b: nat, k: nat)
    ensures PowerSum(b, k) >= 1
    decreases k
  {
    if k > 0 {
      PowerSumPositive(b, k - 1);
    }
  }

  lemma EachBounded(env: Env, b: nat, e: Event, m: Objects)
    requires AtMostEach(env, b)
    ensures |env.script(e, m).0| <= b
  {
  }

  lemma {:induction false} PendingBounded(env: Env, b: nat, capacity: nat, m: Objects, pending: seq<Pending>, t: Option<F64>, now: F64, depth: nat)
    requires depth < MAX_SCRIPT_DEPTH && AtMostEach(env, b)
    ensures RunPending(env, capacity, m, pending, t, now, depth).writes <= |pending| * PowerSum(b, MAX_SCRIPT_DEPTH - depth - 1)
    decreases MAX_SCRIPT_DEPTH - depth, 0, |pending|
  {
    hide Hinted, Decoded, Write, AtMostEach, PowerSum;
    if pending != [] {
      var pw := pending[0];
      var o := Write(env, capacity, m, pw.path, Decoded(env, pw), t, now, depth + 1);
      WriteBounded(env, b, capacity, m, pw.path, Decoded(env, pw), t, now, depth + 1);
      PendingBounded(env, b, capacity, Hinted(o.tree, pw), pending[1..], t, now, depth);
      OneMore(|pending|, PowerSum(b, MAX_SCRIPT_DEPTH - depth - 1));
    }
  }

  lemma OneMore(n: nat, y: nat)
    requires n > 0
    ensures y + (n - 1) * y == n * y
  {
  }

  /** From a user's write the cascade is at most 1 + b + b^2 + b^3 + b^4 writes. */
  lemma CascadeBounded(env: Env, b: nat, capacity: nat, m: Objects, path: string, v: OmiValue, t: Option<F64>, now: F64)
    requires AtMostEach(env, b)
    ensures Write(env, capacity, m, path, v, t, now, 0).writes <= 1 + b * (1 + b * (1 + b * (1 + b)))
  {
    hide Write, AtMostEach;
    WriteBounded(env, b, capacity, m, path, v, t, now, 0);
    FourPowers(b);
  }

  lemma FourPowers(b: nat)
    ensures PowerSum(b, MAX_SCRIPT_DEPTH) == 1 + b * (1 + b * (1 + b * (1 + b)))
  {
    hide PowerSum;
    PowerSumGrows(b, 4);
    PowerSumGrows(b, 3);
    PowerSumGrows(b, 2);
    PowerSumGrows(b, 1);
    PowerSumNone(b);
  }

  lemma PowerSumNone(b: nat)
    ensures PowerSum(b, 0) == 1
  {
  }
}
