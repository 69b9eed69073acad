/** The engine's write operations, changing the tree in place. */
module Engine {
  import opened Wrappers
  import opened Floats
  import opened Odf
  import opened Paths
  import opened Tree
  import opened Merge
  import opened WriteTree
  import opened ItemPaths
  import opened ObjectTree
  import RingBuffer
  import opened Cascade
  import Omi

  datatype ItemAnswer = ItemAnswer(path: string, response: Response)

  datatype BatchOutcome = BatchOutcome(tree: Objects, answers: seq<ItemAnswer>, notices: seq<Notice>)

  /** One item of a batch: neither clamped nor given a timestamp. */
  function WriteBatchItem(env: Env, capacity: nat, m: Objects, w: Omi.WriteItem, now: F64): Outcome {
    var no := Refusing(m, w.path);
    if no.Some? then Outcome(m, Refused(no.value), [], 1)
    else
      var created := ItemAt(m, ValuePath(w.path).value).None?;
      var b := RunScript(env, capacity, Stored(m, w.path, capacity, Value(w.v, w.t)), w.path, w.v, w.t, now, 0);
      Outcome(b.tree, BatchAnswer(created, b.warning), b.notices + Notified(b.tree, w.path), 1 + b.writes)
  }

  /** The status says whether the item is new, the description holds the warning. */
  function BatchAnswer(created: bool, warning: Option<string>): Response {
    if created then (if warning.Some? then CreatedWarning(warning.value) else Created)
    else if warning.Some? then OkWarning(warning.value) else OkNull
  }

  function WriteBatch(env: Env, capacity: nat, m: Objects, items: seq<Omi.WriteItem>, now: F64): BatchOutcome
    decreases |items|
  {
    if items == [] then BatchOutcome(m, [], [])
    else
      var o := WriteBatchItem(env, capacity, m, items[0], now);
      var rest := WriteBatch(env, capacity, o.tree, items[1..], now);
      BatchOutcome(rest.tree, [ItemAnswer(items[0].path, o.response)] + rest.answers, o.notices + rest.notices)
  }

  /** A batch item that carries its timestamp and is under no duty limit is the single
      write of the same item, on every tree and whatever the scripts do, but for its answer:
      a warning does not hide that the item is new. */
  lemma BatchItemIsSingle(env: Env, capacity: nat, m: Objects, w: Omi.WriteItem, now: F64)
    requires w.t.Some? && Clamped(env, m, w.path, w.v) == w.v
    ensures var one, single := WriteBatchItem(env, capacity, m, w, now), Write(env, capacity, m, w.path, w.v, w.t, now, 0);
            && one.tree == single.tree && one.notices == single.notices && one.writes == single.writes
            && one.response == if single.response.OkWarning? && ItemAt(m, ValuePath(w.path).value).None?
                               then CreatedWarning(single.response.text) else single.response
  {
    hide Refusing, Stored, RunScript, Notified, Clamped;
  }

  lemma BatchItemKeeps(env: Env, capacity: nat, m: Objects, w: Omi.WriteItem, now: F64)
    ensures Kept(m, WriteBatchItem(env, capacity, m, w, now).tree)
  {
    hide Refusing, Stored, RunScript, Notified, Kept, ValuePath;
    if Refusing(m, w.path).Some? {
      KeptSame(m);
    } else {
      StoredKeeps(m, w.path, capacity, Value(w.v, w.t));
      var m' := Stored(m, w.path, capacity, Value(w.v, w.t));
      ScriptKeeps(env, capacity, m', w.path, w.v, w.t, now, 0);
      KeptTrans(m, m', RunScript(env, capacity, m', w.path, w.v, w.t, now, 0).tree);
    }
  }

  /** Over a whole batch too, items stay and no item that was not writable is written. */
  lemma {:induction false} BatchKeeps(env: Env, capacity: nat, m: Objects, items: seq<Omi.WriteItem>, now: F64)
    ensures Kept(m, WriteBatch(env, capacity, m, items, now).tree)
    ensures |WriteBatch(env, capacity, m, items, now).answers| == |items|
    decreases |items|
  {
    hide Kept, WriteBatchItem;
    KeptSame(m);
    if items != [] {
      var o := WriteBatchItem(env, capacity, m, items[0], now);
      BatchItemKeeps(env, capacity, m, items[0], now);
      BatchKeeps(env, capacity, o.tree, items[1..], now);
      KeptTrans(m, o.tree, WriteBatch(env, capacity, o.tree, items[1..], now).tree);
    }
  }

  function WithHint(hint: string): InfoItem -> InfoItem {
    (item: InfoItem) => item.(meta := Some(Meta(item)["tx_encoding" := OmiStr(hint)]))
  }

  class Engine {
    const tree: ObjectTree
    const env: Env

    constructor (tree: ObjectTree, env: Env)
      ensures this.tree == tree && this.env == env
    {
      this.tree, this.env := tree, env;
    }

    /** One write, with the scripts it sets off, at a depth. */
    method WriteSingleInner(path: string, v: OmiValue, t: Option<F64>, now: F64, depth: nat)
      returns (response: Response, notices: seq<Notice>)
      requires depth <= MAX_SCRIPT_DEPTH
      modifies tree
      ensures var o := Write(env, tree.defaultCapacity, old(tree.objects), path, v, t, now, depth);
              tree.objects == o.tree && response == o.response && notices == o.notices
      decreases MAX_SCRIPT_DEPTH - depth, 2, 0
    {
      hide RunScript, ItemAt, ObjAt, PutItem, ParsePath, Ancestor, LabelAt;
      ResolvedItem(tree.objects, path);
      var target := tree.Resolve(path);
      match target {
        case Ok(AtItem(item)) =>
          if !IsWritable(item) {
            return Refused(NotWritable), [];
          }
        case Ok(_) => return Refused(NotAnItem), [];
        case Err(e) =>
          if e != NotFound {
            return Refused(BadPath(e)), [];
          }
      }
      var value := ClampIfConstrained(path, v);
      var stamp := if t.Some? then t else Some(now);
      var created := tree.WriteValue(path, value, stamp);
      if created.Err? {
        return Refused(BadPath(created.error)), [];
      }
      StoredIs(old(tree.objects), path, tree.defaultCapacity, Value(value, stamp));
      if created.value {
        tree.MarkWritable(path);
      }
      var warning;
      notices, warning := RunOnwriteScript(path, value, stamp, now, depth);
      var told := NotifyWriteEvent(path);
      notices := notices + told;
      response := if warning.Some? then OkWarning(warning.value) else if created.value then Created else OkNull;
    }

    method ClampIfConstrained(path: string, v: OmiValue) returns (r: OmiValue)
      ensures r == Clamped(env, tree.objects, path, v)
    {
      hide ResolvePath;
      if v.OmiNumber? {
        var target := tree.Resolve(path);
        if target.Ok? && target.value.AtItem? && target.value.item.meta.Some? {
          var meta := target.value.item.meta.value;
          if "max_duty" in meta && meta["max_duty"].OmiNumber? {
            var clamped := Clamp(v.n, ZERO, meta["max_duty"].n);
            if env.far(clamped, v.n) {
              return OmiNumber(clamped);
            }
          }
        }
      }
      return v;
    }

    method NotifyWriteEvent(path: string) returns (r: seq<Notice>)
      ensures r == Notified(tree.objects, path)
    {
      hide ResolvePath, RingBuffer.QueryOf;
      var target := tree.Resolve(path);
      if target.Ok? && target.value.AtItem? {
        return [Notice(path, RingBuffer.QueryOf(target.value.item.values.vals, Some(1), None, None, None))];
      }
      return [];
    }

    method RunOnwriteScript(path: string, v: OmiValue, t: Option<F64>, now: F64, depth: nat)
      returns (notices: seq<Notice>, warning: Option<string>)
      requires depth <= MAX_SCRIPT_DEPTH
      modifies tree
      ensures var b := RunScript(env, tree.defaultCapacity, old(tree.objects), path, v, t, now, depth);
              tree.objects == b.tree && notices == b.notices && warning == b.warning
      decreases MAX_SCRIPT_DEPTH - depth, 1, 0
    {
      hide ResolvePath, Write, Hinted;
      if depth >= MAX_SCRIPT_DEPTH {
        return [], None;
      }
      var target := tree.Resolve(path);
      if target.Err? || !target.value.AtItem? || "onwrite" !in Meta(target.value.item) {
        return [], None;
      }
      var source := Meta(target.value.item)["onwrite"];
      if !source.OmiStr? {
        return [], None;
      }
      var (pending, scriptError) := env.script(Event(source.s, path, v, t, depth), tree.objects);
      notices := ProcessPending(pending, t, now, depth);
      warning := scriptError;
    }

    /** The loop over the writes a script has asked for. */
    method ProcessPending(pending: seq<Pending>, t: Option<F64>, now: F64, depth: nat) returns (notices: seq<Notice>)
      requires depth < MAX_SCRIPT_DEPTH
      modifies tree
      ensures var b := RunPending(env, tree.defaultCapacity, old(tree.objects), pending, t, now, depth);
              tree.objects == b.tree && notices == b.notices
      decreases MAX_SCRIPT_DEPTH - depth, 0, 0
    {
      hide Write, Hinted, Decoded, RunPending;
      notices := [];
      assert pending[0..] == pending && pending[|pending|..] == [];
      for i := 0 to |pending|
        invariant var all := RunPending(env, tree.defaultCapacity, old(tree.objects), pending, t, now, depth);
                  var rest := RunPending(env, tree.defaultCapacity, tree.objects, pending[i..], t, now, depth);
                  all.tree == rest.tree && all.notices == notices + rest.notices
      {
        var pw := pending[i];
        PendingStep(env, tree.defaultCapacity, tree.objects, pending, i, t, now, depth);
        var _, told := WriteSingleInner(pw.path, Decoded(env, pw), t, now, depth + 1);
        notices := notices + told;
        StoreHint(pw);
      }
      PendingDone(env, tree.defaultCapacity, tree.objects, t, now, depth);
    }

    method StoreHint(pw: Pending)
      modifies tree
      ensures tree.objects == Hinted(old(tree.objects), pw)
    {
      hide ParsePath, PutItem, ItemAt, ObjAt, EditAt;
      ResolvedItem(tree.objects, pw.path);
      ItemIsResolved(tree.objects, pw.path);
      if pw.encoding.Some? && ParsePath(pw.path).Ok? {
        var p, edit := ParsePath(pw.path).value, WithHint(pw.encoding.value);
        ResolveMutAgrees(tree.objects, p, edit);
        tree.objects := EditAt(tree.objects, p, edit).0;
      }
    }

    method ProcessWriteBatch(items: seq<Omi.WriteItem>, now: F64) returns (answers: seq<ItemAnswer>, notices: seq<Notice>)
      modifies tree
      ensures var b := WriteBatch(env, tree.defaultCapacity, old(tree.objects), items, now);
              tree.objects == b.tree && answers == b.answers && notices == b.notices
    {
      hide WriteBatchItem;
      answers, notices := [], [];
      for i := 0 to |items|
        invariant var all := WriteBatch(env, tree.defaultCapacity, old(tree.objects), items, now);
                  var rest := WriteBatch(env, tree.defaultCapacity, tree.objects, items[i..], now);
                  all.tree == rest.tree && all.answers == answers + rest.answers && all.notices == notices + rest.notices
      {
        assert items[i..][1..] == items[i + 1..];
        var answer, told := ProcessBatchItem(items[i], now);
        answers := answers + [ItemAnswer(items[i].path, answer)];
        notices := notices + told;
      }
    }

    method ProcessBatchItem(w: Omi.WriteItem, now: F64) returns (response: Response, notices: seq<Notice>)
      modifies tree
      ensures var o := WriteBatchItem(env, tree.defaultCapacity, old(tree.objects), w, now);
              tree.objects == o.tree && response == o.response && notices == o.notices
    {
      hide RunScript, ItemAt, ObjAt, PutItem, ParsePath, Ancestor, LabelAt;
      ResolvedItem(tree.objects, w.path);
      var target := tree.Resolve(w.path);
      match target {
        case Ok(AtItem(item)) =>
          if !IsWritable(item) {
            return Refused(NotWritable), [];
          }
        case Ok(_) => return Refused(NotAnItem), [];
        case Err(e) =>
          if e != NotFound {
            return Refused(BadPath(e)), [];
          }
      }
      var created := tree.WriteValue(w.path, w.v, w.t);
      if created.Err? {
        return Refused(BadPath(created.error)), [];
      }
      StoredIs(old(tree.objects), w.path, tree.defaultCapacity, Value(w.v, w.t));
      if created.value {
        tree.MarkWritable(w.path);
      }
      var warning;
      notices, warning := RunOnwriteScript(w.path, w.v, w.t, now, 0);
      var told := NotifyWriteEvent(w.path);
      notices := notices + told;
      if created.value {
        response := if warning.Some? then CreatedWarning(warning.value) else Created;
      } else {
        response := if warning.Some? then OkWarning(warning.value) else OkNull;
      }
    }

    /** A tree write: no writable check, and the notices of every path it reports. */
    method ProcessWriteTree(path: string, objects: Objects, n: nat)
      returns (r: Result<seq<Notice>, TreeError>)
      requires WithinDepth(objects, n + 1)
      modifies tree
      ensures AllFit(InOrder(objects), n)
      ensures r.Err? ==> ParsePath(path) == Err(r.error) && tree.objects == old(tree.objects)
      ensures r.Ok? ==> ParsePath(path).Ok?
      ensures r.Ok? ==> tree.objects == WriteTreeAt(old(tree.objects), ParsePath(path).value, InOrder(objects), n)
      ensures r.Ok? ==> r.value == NotifiedAll(tree.objects, CollectItemPaths(path, InOrder(objects), n))
    {
      hide ResolvePath, ParsePath, WriteTreeAt, InOrder, Notified, WithinDepth, MergeEach, CollectItemPaths;
      InOrderFits(objects, n);
      var paths := CollectItemPaths(path, InOrder(objects), n);
      var written := tree.WriteTree(path, objects, n);
      if written.Err? {
        return Err(written.error);
      }
      var notices: seq<Notice> := [];
      for i := 0 to |paths|
        invariant notices + NotifiedAll(tree.objects, paths[i..]) == NotifiedAll(tree.objects, paths)
        invariant tree.objects == WriteTreeAt(old(tree.objects), ParsePath(path).value, InOrder(objects), n)
      {
        assert paths[i..][1..] == paths[i + 1..];
        var told := NotifyWriteEvent(paths[i]);
        notices := notices + told;
      }
      return Ok(notices);
    }
  }

  function NotifiedAll(m: Objects, paths: seq<string>): seq<Notice> {
    if paths == [] then [] else Notified(m, paths[0]) + NotifiedAll(m, paths[1..])
  }

  /** A notice that carries the newest value of the item at a path. */
  ghost predicate Tells(m: Objects, path: string, told: Notice) {
    && told.path == path
    && ParsePath(path).Ok?
    && ItemAt(m, ParsePath(path).value).Some?
    && told.values == Newest(ItemAt(m, ParsePath(path).value).value.values)
  }

  lemma NotifiedOnce(m: Objects, p: seq<string>, s: seq<Object>, n: nat, path: string)
    requires AllFit(s, n)
    ensures var told := Notified(WriteTreeAt(m, p, s, n), path);
            && |told| == (if ResolvesIn(m, p, s, n, path) then 1 else 0)
            && (told != [] ==> Tells(WriteTreeAt(m, p, s, n), path, told[0]))
  {
    hide WriteTreeAt, ParsePath, Resolve, AllFit;
    if ParsePath(path).Ok? {
      ResolveIs(WriteTreeAt(m, p, s, n), ParsePath(path).value);
      var told := Notified(WriteTreeAt(m, p, s, n), path);
      if told != [] {
        NewestQueried(ItemAt(WriteTreeAt(m, p, s, n), ParsePath(path).value).value.values);
      }
    }
  }

  lemma {:induction false} NotifiedCount(m: Objects, p: seq<string>, s: seq<Object>, n: nat, paths: seq<string>)
    requires AllFit(s, n)
    ensures var told := NotifiedAll(WriteTreeAt(m, p, s, n), paths);
            && |told| <= |paths|
            && (|told| == |paths| <==> forall path | path in paths :: ResolvesIn(m, p, s, n, path))
            && (|told| == |paths| ==> forall i | 0 <= i < |paths| :: Tells(WriteTreeAt(m, p, s, n), paths[i], told[i]))
    decreases |paths|
  {
    hide WriteTreeAt, ResolvesIn, Notified, AllFit, Tells;
    if paths != [] {
      NotifiedOnce(m, p, s, n, paths[0]);
      NotifiedCount(m, p, s, n, paths[1..]);
      assert paths == [paths[0]] + paths[1..];
    }
  }

  /** One notice for each path, in order, with the newest value there. */
  ghost predicate EachTold(m: Objects, p: seq<string>, s: seq<Object>, n: nat, paths: seq<string>)
    requires AllFit(s, n)
  {
    var told := NotifiedAll(WriteTreeAt(m, p, s, n), paths);
    |told| == |paths| && forall i | 0 <= i < |paths| :: Tells(WriteTreeAt(m, p, s, n), paths[i], told[i])
  }

  /** A tree write gives one notice for each path, whatever the tree was before, exactly
      when every path lands in the batch. */
  lemma EachToldIffLands(p: seq<string>, s: seq<Object>, n: nat, paths: seq<string>)
    requires AllFit(s, n)
    ensures (forall m :: EachTold(m, p, s, n, paths)) <==> forall path | path in paths :: LandsInBatch(p, s, n, path)
  {
    hide NotifiedAll, ResolvesIn, LandsInBatch, AllFit, Tells;
    forall m
      ensures EachTold(m, p, s, n, paths) <==> forall path | path in paths :: ResolvesIn(m, p, s, n, path)
    {
      NotifiedCount(m, p, s, n, paths);
    }
    forall path | path in paths
      ensures (forall m :: ResolvesIn(m, p, s, n, path)) <==> LandsInBatch(p, s, n, path)
    {
      ResolvesIffLands(p, s, n, path);
    }
    if forall m :: EachTold(m, p, s, n, paths) {
      forall path | path in paths
        ensures forall m :: ResolvesIn(m, p, s, n, path)
      {
        forall m
          ensures ResolvesIn(m, p, s, n, path)
        {
          assert EachTold(m, p, s, n, paths);
        }
      }
    }
  }

  /** With addressable names, and ids for keys below the top, every reported path is told. */
  lemma EveryPathNotified(m: Objects, base: string, s: seq<Object>, n: nat)
    requires AllFit(s, n) && (forall o | o in s :: WellNamed(o, n)) && ParsePath(base).Ok?
    ensures EachTold(m, ParsePath(base).value, s, n, CollectItemPaths(base, s, n))
  {
    hide EachTold, CollectItemPaths, LandsInBatch, ParsePath, WellNamed, AllFit;
    var p, paths := ParsePath(base).value, CollectItemPaths(base, s, n);
    forall path | path in paths
      ensures LandsInBatch(p, s, n, path)
    {
      ReportedPathsLand(base, s, n, path);
    }
    EachToldIffLands(p, s, n, paths);
  }

  /** write_value and mark_writable together are the store step of the cascade. */
  lemma StoredIs(m: Objects, path: string, capacity: nat, v: Value)
    requires ValuePath(path).Ok?
    ensures var p := ValuePath(path).value;
            var item := NewItemWith(ItemAt(m, p), capacity, v);
            && ParsePath(path) == Ok(p)
            && ItemAt(PutItem(m, p, item), p) == Some(item)
            && Stored(m, path, capacity, v) ==
               if ItemAt(m, p).None? then PutItem(PutItem(m, p, item), p, Marked(item)) else PutItem(m, p, item)
  {
    hide ItemAt, ParsePath;
    var p := ValuePath(path).value;
    var item := NewItemWith(ItemAt(m, p), capacity, v);
    PutItemItems(m, p, item, p);
    PutTwice(m, p, item, Marked(item));
  }

  lemma {:induction false} PutTwice(m: Objects, p: seq<string>, a: InfoItem, b: InfoItem)
    requires |p| >= 2
    ensures PutItem(PutItem(m, p, a), p, b) == PutItem(m, p, b)
    decreases |p|
  {
    var o := if p[0] in m then m[p[0]] else NewObject(p[0]);
    if |p| > 2 {
      PutTwice(Kids(o), p[1..], a, b);
    } else {
      assert Items(o)[p[1] := a][p[1] := b] == Items(o)[p[1] := b];
    }
  }

  lemma PendingStep(env: Env, capacity: nat, m: Objects, pending: seq<Pending>, i: nat, t: Option<F64>, now: F64, depth: nat)
    requires depth < MAX_SCRIPT_DEPTH && i < |pending|
    ensures var o := Write(env, capacity, m, pending[i].path, Decoded(env, pending[i]), t, now, depth + 1);
            var rest := RunPending(env, capacity, Hinted(o.tree, pending[i]), pending[i + 1..], t, now, depth);
            var all := RunPending(env, capacity, m, pending[i..], t, now, depth);
            all.tree == rest.tree && all.notices == o.notices + rest.notices
  {
    hide Write, Hinted, Decoded;
    assert pending[i..][1..] == pending[i + 1..];
  }

  lemma PendingDone(env: Env, capacity: nat, m: Objects, t: Option<F64>, now: F64, depth: nat)
    requires depth < MAX_SCRIPT_DEPTH
    ensures RunPending(env, capacity, m, [], t, now, depth) == Batch(m, [], None, 0)
  {
  }
}
