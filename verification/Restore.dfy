/** Surviving a restart: collect, serialise, load, replay. */
module Restore {
  import opened Wrappers
  import opened Floats
  import opened Odf
  import opened Paths
  import opened Tree
  import opened Merge
  import opened ItemPaths
  import opened ObjectTree
  import opened Collect
  import opened SavedCodec

  /** One round of the restore loop. */
  function ReplayOne(m: Objects, s: SavedItem, capacity: nat): Objects {
    if ValuePath(s.path).Err? then m
    else
      var p := ValuePath(s.path).value;
      var m' := PutItem(m, p, NewItemWith(ItemAt(m, p), capacity, Value(s.v, s.t)));
      if ItemAt(m', p).Some? then PutItem(m', p, Marked(ItemAt(m', p).value)) else m'
  }

  function Replayed(m: Objects, saved: seq<SavedItem>, capacity: nat): Objects
    decreases |saved|
  {
    if saved == [] then m else Replayed(ReplayOne(m, saved[0], capacity), saved[1..], capacity)
  }

  method ReplaySaved(tree: ObjectTree, saved: seq<SavedItem>)
    modifies tree
    ensures tree.objects == Replayed(old(tree.objects), saved, tree.defaultCapacity)
  {
    hide PutItem, ParsePath, ItemAt;
    for i := 0 to |saved|
      invariant Replayed(old(tree.objects), saved, tree.defaultCapacity) ==
                Replayed(tree.objects, saved[i..], tree.defaultCapacity)
    {
      assert saved[i..][1..] == saved[i + 1..];
      var r := tree.WriteValue(saved[i].path, saved[i].v, saved[i].t);
      if r.Err? {
        continue;
      }
      tree.MarkWritable(saved[i].path);
    }
  }

  lemma ReplayOneItems(m: Objects, s: SavedItem, capacity: nat, q: seq<string>)
    ensures ItemAt(ReplayOne(m, s, capacity), q) ==
            if ValuePath(s.path) == Ok(q) then Some(Marked(NewItemWith(ItemAt(m, q), capacity, Value(s.v, s.t))))
            else ItemAt(m, q)
  {
    hide PutItem, ItemAt, ValuePath;
    if ValuePath(s.path).Ok? {
      var p := ValuePath(s.path).value;
      var item := NewItemWith(ItemAt(m, p), capacity, Value(s.v, s.t));
      PutItemItems(m, p, item, q);
      PutItemItems(m, p, item, p);
      PutItemItems(PutItem(m, p, item), p, Marked(item), q);
    }
  }

  lemma FoundPath(p: seq<string>)
    requires GoodPath(p) && |p| >= 2
    ensures ValuePath(Slashed([] + p)) == Ok(p)
  {
    assert [] + p == p;
    GoodIsParsed(p);
  }

  /** The value listed for a path. */
  function Listed(l: seq<Found>, p: seq<string>): Option<Value> {
    if l == [] then None else if l[0].path == p then Some(l[0].value) else Listed(l[1..], p)
  }

  ghost predicate Good(l: seq<Found>) { forall f | f in l :: GoodPath(f.path) && |f.path| >= 2 }

  /** Replaying a list whose names can be addressed puts each value at its own path, as a
      writable item, and touches no other item. */
  lemma {:induction false} ReplayedItems(m: Objects, l: seq<Found>, capacity: nat, q: seq<string>)
    requires Good(l) && Ascending(l)
    ensures ItemAt(Replayed(m, SavedFrom([], l), capacity), q) ==
            if Listed(l, q).Some? then Some(Marked(NewItemWith(ItemAt(m, q), capacity, Listed(l, q).value)))
            else ItemAt(m, q)
    decreases |l|
  {
    hide ItemAt, ReplayOne, ValuePath, Before, GoodPath, Marked, NewItemWith, Slashed;
    if l != [] {
      var s := SavedFrom([], l);
      assert s[1..] == SavedFrom([], l[1..]);
      assert l[0] in l && forall f | f in l[1..] :: f in l;
      FoundPath(l[0].path);
      ReplayOneItems(m, s[0], capacity, q);
      ReplayedItems(ReplayOne(m, s[0], capacity), l[1..], capacity, q);
      if l[0].path == q {
        NotListedAgain(l);
      }
    }
  }

  lemma NotListedAgain(l: seq<Found>)
    requires l != [] && Ascending(l)
    ensures Listed(l[1..], l[0].path) == None
  {
    if Listed(l[1..], l[0].path).Some? {
      var j := ListedAt(l[1..], l[0].path);
      assert Before(l[0].path, l[j + 1].path);
      BeforeOnce(l[0].path, l[0].path);
    }
  }

  lemma {:induction false} ListedAt(l: seq<Found>, p: seq<string>) returns (j: nat)
    requires Listed(l, p).Some?
    ensures j < |l| && l[j] == Found(p, Listed(l, p).value)
    decreases |l|
  {
    if l[0].path == p {
      j := 0;
    } else {
      j := ListedAt(l[1..], p);
      j := j + 1;
    }
  }

  lemma {:induction false} ListedIn(l: seq<Found>, f: Found)
    requires Ascending(l)
    ensures f in l <==> Listed(l, f.path) == Some(f.value)
    decreases |l|
  {
    hide Before;
    if l != [] {
      TailHas(l, f);
      ListedIn(l[1..], f);
      NotListedAgain(l);
      assert l == [l[0]] + l[1..];
    }
  }

  lemma FoundAscends(m: Objects, n: nat)
    requires WithinDepth(m, n)
    ensures Ascending(FoundAll(m, n))
  {
    SortedRises(m.Keys);
    FoundUnderAscends(m, Sorted(m.Keys), n);
  }

  lemma ListedIs(m: Objects, n: nat, p: seq<string>)
    requires WithinDepth(m, n)
    ensures Listed(FoundAll(m, n), p) == SavingAt(m, p)
  {
    hide FoundAll, SavingAt, Ascending, WithinDepth;
    var l := FoundAll(m, n);
    FoundAscends(m, n);
    if Listed(l, p).Some? {
      ListedIn(l, Found(p, Listed(l, p).value));
      FoundAllIs(m, n, Found(p, Listed(l, p).value));
    }
    if SavingAt(m, p).Some? {
      FoundAllIs(m, n, Found(p, SavingAt(m, p).value));
      ListedIn(l, Found(p, SavingAt(m, p).value));
    }
  }

  /** Every name on the way to a saved item can be addressed by a path. */
  ghost predicate Addressable(m: Objects) {
    forall p | SavingAt(m, p).Some? :: GoodPath(p)
  }

  lemma SavedPathsGood(m: Objects, n: nat)
    requires WithinDepth(m, n) && Addressable(m)
    ensures Good(FoundAll(m, n))
  {
    hide FoundAll, WithinDepth;
    forall f | f in FoundAll(m, n)
      ensures GoodPath(f.path) && |f.path| >= 2
    {
      FoundAllIs(m, n, f);
    }
  }

  lemma SavingMarked(o: Option<InfoItem>, capacity: nat, v: Value)
    ensures Saving(Marked(NewItemWith(o, capacity, v))) == Some(v)
  {
  }

  /** Whatever the tree held before the replay: each saved item is there again, writable,
      with its newest value and timestamp; no other item is touched. */
  lemma RestoresEach(saved: Objects, n: nat, before: Objects, capacity: nat, p: seq<string>)
    requires WithinDepth(saved, n) && Addressable(saved)
    ensures var after := Replayed(before, SavedFrom([], FoundAll(saved, n)), capacity);
            if SavingAt(saved, p).Some? then SavingAt(after, p) == SavingAt(saved, p)
            else ItemAt(after, p) == ItemAt(before, p)
  {
    hide FoundAll, Replayed, NewItemWith, Marked, Saving, ItemAt, WithinDepth;
    SavedPathsGood(saved, n);
    FoundAscends(saved, n);
    ReplayedItems(before, FoundAll(saved, n), capacity, p);
    ListedIs(saved, n, p);
    if SavingAt(saved, p).Some? {
      SavingMarked(ItemAt(before, p), capacity, SavingAt(saved, p).value);
    }
  }

  /** Nothing that a replay creates lies under a name that cannot be addressed. */
  lemma {:induction false} ReplayedAreGood(m: Objects, saved: seq<SavedItem>, capacity: nat, q: seq<string>)
    requires ItemAt(m, q).None? && ItemAt(Replayed(m, saved, capacity), q).Some?
    ensures GoodPath(q)
    decreases |saved|
  {
    hide ItemAt, ReplayOne, GoodPath, ParsePath;
    if saved != [] {
      ReplayOneItems(m, saved[0], capacity, q);
      if ItemAt(ReplayOne(m, saved[0], capacity), q).None? {
        ReplayedAreGood(ReplayOne(m, saved[0], capacity), saved[1..], capacity, q);
      }
    }
  }

  /** A device that restarts empty collects the same list again if and only if every name
      on the way to a saved item can be addressed. */
  lemma CollectsAgain(saved: Objects, n: nat, capacity: nat, n': nat)
    requires WithinDepth(saved, n)
    requires WithinDepth(Replayed(map[], SavedFrom([], FoundAll(saved, n)), capacity), n')
    ensures FoundAll(Replayed(map[], SavedFrom([], FoundAll(saved, n)), capacity), n') == FoundAll(saved, n)
       <==> Addressable(saved)
  {
    hide FoundAll, Replayed, GoodPath, ItemAt, WithinDepth;
    var after := Replayed(map[], SavedFrom([], FoundAll(saved, n)), capacity);
    if Addressable(saved) {
      forall p
        ensures SavingAt(saved, p) == SavingAt(after, p)
      {
        RestoresEach(saved, n, map[], capacity, p);
        EmptyHasNone(p);
      }
      SameItemsSameList(after, n', saved, n);
    }
    if FoundAll(after, n') == FoundAll(saved, n) {
      forall p | SavingAt(saved, p).Some?
        ensures GoodPath(p)
      {
        ListedIs(saved, n, p);
        ListedIs(after, n', p);
        EmptyHasNone(p);
        ReplayedAreGood(map[], SavedFrom([], FoundAll(saved, n)), capacity, p);
      }
    }
  }

  lemma EmptyHasNone(p: seq<string>)
    ensures ItemAt(map[], p) == None
  {
  }

  // ----- the replayed tree is no deeper -----

  lemma {:induction false} PutItemDepth(m: Objects, p: seq<string>, item: InfoItem, n: nat)
    requires 2 <= |p| <= n + 1 && WithinDepth(m, n)
    ensures WithinDepth(PutItem(m, p, item), n)
    decreases |p|
  {
    var o := if p[0] in m then m[p[0]] else NewObject(p[0]);
    NoneIsShallow(n - 1);
    if |p| > 2 {
      PutItemDepth(Kids(o), p[1..], item, n - 1);
    }
  }

  lemma {:induction false} ItemDepth(m: Objects, n: nat, p: seq<string>)
    requires WithinDepth(m, n) && ItemAt(m, p).Some?
    ensures |p| <= n + 1
    decreases |p|
  {
    if |p| > 2 {
      NoneIsShallow(n - 1);
      ItemDepth(Kids(m[p[0]]), n - 1, p[1..]);
    }
  }

  lemma {:induction false} ReplayedDepth(m: Objects, l: seq<Found>, capacity: nat, n: nat)
    requires Good(l) && WithinDepth(m, n) && forall f | f in l :: |f.path| <= n + 1
    ensures WithinDepth(Replayed(m, SavedFrom([], l), capacity), n)
    decreases |l|
  {
    hide WithinDepth, GoodPath, PutItem, ItemAt, ValuePath, Marked, NewItemWith;
    if l != [] {
      var s := SavedFrom([], l);
      assert s[1..] == SavedFrom([], l[1..]);
      assert l[0] in l && forall f | f in l[1..] :: f in l;
      var p := l[0].path;
      FoundPath(p);
      var m' := PutItem(m, p, NewItemWith(ItemAt(m, p), capacity, Value(s[0].v, s[0].t)));
      PutItemDepth(m, p, NewItemWith(ItemAt(m, p), capacity, Value(s[0].v, s[0].t)), n);
      if ItemAt(m', p).Some? {
        PutItemDepth(m', p, Marked(ItemAt(m', p).value), n);
      }
      ReplayedDepth(ReplayOne(m, s[0], capacity), l[1..], capacity, n);
    }
  }

  /** A whole restart. */
  method Restart(before: Objects, ghost n: nat) returns (r: Result<(ObjectTree, seq<SavedItem>), SaveError>)
    requires WithinDepth(before, n) && Addressable(before)
    ensures r.Err? ==> Serialized(SavedFrom([], FoundAll(before, n))) == Err(r.error)
    ensures r.Ok? ==> r.value.1 == SavedFrom([], FoundAll(before, n))
    ensures r.Ok? ==> forall p :: SavingAt(r.value.0.objects, p) == SavingAt(before, p)
    ensures r.Ok? ==> WithinDepth(r.value.0.objects, n) && FoundAll(r.value.0.objects, n) == FoundAll(before, n)
  {
    hide FoundAll, Serialized, Loaded, Replayed, WithinDepth, ItemAt, GoodPath;
    var items := CollectWritableItems(before, n);
    var blob :- SerializeSavedItems(items);
    LoadedIsSaved(items, []);
    assert blob + [] == blob;
    var loaded := DeserializeSavedItems(blob);
    var tree := new ObjectTree(DEFAULT_ITEM_CAPACITY);
    ReplaySaved(tree, loaded.value);
    forall p
      ensures SavingAt(tree.objects, p) == SavingAt(before, p)
    {
      RestoresEach(before, n, map[], DEFAULT_ITEM_CAPACITY, p);
      EmptyHasNone(p);
    }
    RestartDepth(before, n);
    SameItemsSameList(tree.objects, n, before, n);
    return Ok((tree, items));
  }

  lemma RestartDepth(before: Objects, n: nat)
    requires WithinDepth(before, n) && Addressable(before)
    ensures WithinDepth(Replayed(map[], SavedFrom([], FoundAll(before, n)), DEFAULT_ITEM_CAPACITY), n)
  {
    hide FoundAll, WithinDepth, GoodPath;
    SavedPathsGood(before, n);
    NoneIsShallow(n);
    forall f | f in FoundAll(before, n)
      ensures |f.path| <= n + 1
    {
      FoundAllIs(before, n, f);
      ItemDepth(before, n, f.path);
    }
    ReplayedDepth(map[], FoundAll(before, n), DEFAULT_ITEM_CAPACITY, n);
  }
}
