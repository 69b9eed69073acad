/** Collecting the newest value of every writable item, in the order the maps are walked.
    The list is determined by what lies at each path, not by how the tree was built. */
module Collect {
  import opened Wrappers
  import opened Floats
  import opened Odf
  import opened Paths
  import opened Tree
  import opened Merge
  import opened ItemPaths
  import opened RingBuffer
  import SortedMap

  datatype SavedItem = SavedItem(path: string, v: OmiValue, t: Option<F64>)

  /** A collected item with its path still in segments, relative to where the walk began. */
  datatype Found = Found(path: seq<string>, value: Value)

  function Newest(r: Ring): Option<Value> {
    if r.vals == [] then None else Some(r.vals[|r.vals| - 1])
  }

  /** The value to save for an item: none unless it is writable and has a history. */
  function Saving(item: InfoItem): Option<Value> {
    if IsWritable(item) then Newest(item.values) else None
  }

  function SavingAt(m: Objects, p: seq<string>): Option<Value> {
    if ItemAt(m, p).Some? then Saving(ItemAt(m, p).value) else None
  }

  // ----- the walk -----

  function FoundItems(items: map<string, InfoItem>, names: seq<string>): seq<Found>
    requires forall n | n in names :: n in items
  {
    if names == [] then []
    else
      assert names[0] in names;
      var s := Saving(items[names[0]]);
      (if s.Some? then [Found([names[0]], s.value)] else []) + FoundItems(items, names[1..])
  }

  function Under(k: string, l: seq<Found>): (r: seq<Found>)
    ensures |r| == |l| && forall i | 0 <= i < |l| :: r[i] == Found([k] + l[i].path, l[i].value)
  {
    if l == [] then [] else [Found([k] + l[0].path, l[0].value)] + Under(k, l[1..])
  }

  function FoundIn(o: Object, n: nat): seq<Found>
    requires WithinDepth(Kids(o), n)
    decreases n, 1, 0
  {
    FoundItems(Items(o), Sorted(Items(o).Keys)) + FoundUnder(Kids(o), Sorted(Kids(o).Keys), n)
  }

  function FoundUnder(m: Objects, keys: seq<string>, n: nat): seq<Found>
    requires WithinDepth(m, n) && forall k | k in keys :: k in m
    decreases n, 0, |keys|
  {
    if keys == [] then []
    else
      assert keys[0] in keys;
      NoneIsShallow(n - 1);
      Under(keys[0], FoundIn(m[keys[0]], n - 1)) + FoundUnder(m, keys[1..], n)
  }

  function FoundAll(m: Objects, n: nat): seq<Found>
    requires WithinDepth(m, n)
  {
    FoundUnder(m, Sorted(m.Keys), n)
  }

  function SavedFrom(segs: seq<string>, l: seq<Found>): (r: seq<SavedItem>)
    ensures |r| == |l| && forall i | 0 <= i < |l| :: r[i] == SavedItem(Slashed(segs + l[i].path), l[i].value.v, l[i].value.t)
  {
    if l == [] then []
    else [SavedItem(Slashed(segs + l[0].path), l[0].value.v, l[0].value.t)] + SavedFrom(segs, l[1..])
  }

  lemma {:induction false} SavedFromSplit(segs: seq<string>, a: seq<Found>, b: seq<Found>)
    ensures SavedFrom(segs, a + b) == SavedFrom(segs, a) + SavedFrom(segs, b)
  {
  }

  lemma SavedFromUnder(segs: seq<string>, k: string, l: seq<Found>)
    ensures SavedFrom(segs, Under(k, l)) == SavedFrom(segs + [k], l)
  {
    assert forall i | 0 <= i < |l| :: segs + ([k] + l[i].path) == segs + [k] + l[i].path;
  }

  lemma NewestQueried(r: Ring)
    ensures var q := QueryOf(r.vals, Some(1), None, None, None);
            if Newest(r).Some? then q == [Newest(r).value] else q == []
  {
    if r.vals != [] {
      assert LastN(r.vals, 1) == [r.vals[|r.vals| - 1]];
      assert Reversed([Newest(r).value]) == [] + [Newest(r).value];
    }
  }

  /** The two loops of the walk, pushing onto the result. */
  method CollectFromObject(o: Object, prefix: string, result: seq<SavedItem>, ghost segs: seq<string>, ghost n: nat)
    returns (r: seq<SavedItem>)
    requires WithinDepth(Kids(o), n) && prefix == Slashed(segs)
    ensures r == result + SavedFrom(segs, FoundIn(o, n))
    decreases n, 1, 0
  {
    hide WithinDepth, SavedFrom, QueryOf, FoundUnder, FoundItems, Slashed;
    var names := Sorted(Items(o).Keys);
    r := result;
    ghost var found: seq<Found> := [];
    SavedFromNone(segs);
    for i := 0 to |names|
      invariant r == result + SavedFrom(segs, found)
      invariant found + FoundItems(Items(o), names[i..]) == FoundItems(Items(o), names)
    {
      var item := Items(o)[names[i]];
      var path := prefix + "/" + names[i];
      if IsWritable(item) {
        var values := QueryOf(item.values.vals, Some(1), None, None, None);
        NewestQueried(item.values);
        if values != [] {
          r := r + [SavedItem(path, values[0].v, values[0].t)];
          SavedOne(segs, found, names[i], values[0]);
          found := found + [Found([names[i]], values[0])];
        }
      }
      FoundItemsStep(Items(o), names, i);
    }
    NothingFound(Items(o));
    var kids := Sorted(Kids(o).Keys);
    SavedFromSplit(segs, FoundItems(Items(o), names), FoundUnder(Kids(o), kids, n));
    r := CollectFromObjects(Kids(o), kids, prefix, r, segs, n);
  }

  lemma NothingFound(items: map<string, InfoItem>)
    ensures FoundItems(items, []) == []
  {
  }

  lemma SavedFromNone(segs: seq<string>)
    ensures SavedFrom(segs, []) == []
  {
  }

  lemma FoundItemsStep(items: map<string, InfoItem>, names: seq<string>, i: nat)
    requires i < |names| && forall n | n in names :: n in items
    ensures var s := Saving(items[names[i]]);
            FoundItems(items, names[i..]) ==
            (if s.Some? then [Found([names[i]], s.value)] else []) + FoundItems(items, names[i + 1..])
  {
    assert names[i..][1..] == names[i + 1..];
  }

  lemma SavedOne(segs: seq<string>, found: seq<Found>, name: string, value: Value)
    ensures SavedFrom(segs, found + [Found([name], value)]) ==
            SavedFrom(segs, found) + [SavedItem(Slashed(segs) + "/" + name, value.v, value.t)]
  {
    SavedFromSplit(segs, found, [Found([name], value)]);
    SlashedAppend(segs, [name]);
    SlashedOne(name);
    assert Slashed(segs) + ("/" + name) == Slashed(segs) + "/" + name;
    assert SavedFrom(segs, [Found([name], value)]) == [SavedItem(Slashed(segs + [name]), value.v, value.t)];
  }

  method CollectFromObjects(m: Objects, keys: seq<string>, prefix: string, result: seq<SavedItem>,
                            ghost segs: seq<string>, ghost n: nat)
    returns (r: seq<SavedItem>)
    requires WithinDepth(m, n) && prefix == Slashed(segs) && forall k | k in keys :: k in m
    ensures r == result + SavedFrom(segs, FoundUnder(m, keys, n))
    decreases n, 0, |keys|
  {
    hide SavedFrom, FoundUnder, FoundIn, WithinDepth, Slashed, Under;
    r := result;
    ghost var found: seq<Found> := [];
    FoundUnderEnds(m, keys, n);
    for i := 0 to |keys|
      invariant r == result + SavedFrom(segs, found)
      invariant found + FoundUnder(m, keys[i..], n) == FoundUnder(m, keys, n)
    {
      var k := keys[i];
      SlashedAppend(segs, [k]);
      SlashedOne(k);
      assert Slashed(segs) + ("/" + k) == prefix + "/" + k;
      FoundUnderStep(m, keys, i, n);
      r := CollectFromObject(m[k], prefix + "/" + k, r, segs + [k], n - 1);
      ghost var more, rest := Under(k, FoundIn(m[k], n - 1)), FoundUnder(m, keys[i + 1..], n);
      assert found + more + rest == found + (more + rest);
      SavedFromUnder(segs, k, FoundIn(m[k], n - 1));
      SavedFromSplit(segs, found, more);
      found := found + more;
    }
  }

  lemma FoundUnderStep(m: Objects, keys: seq<string>, i: nat, n: nat)
    requires WithinDepth(m, n) && i < |keys| && forall k | k in keys :: k in m
    ensures NoneFits(m, keys[i], n)
    ensures FoundUnder(m, keys[i..], n) == Under(keys[i], FoundIn(m[keys[i]], n - 1)) + FoundUnder(m, keys[i + 1..], n)
  {
    NoneIsShallow(n - 1);
    assert keys[i] in keys && keys[i..][1..] == keys[i + 1..];
  }

  lemma FoundUnderEnds(m: Objects, keys: seq<string>, n: nat)
    requires WithinDepth(m, n) && forall k | k in keys :: k in m
    ensures [] + FoundUnder(m, keys[0..], n) == FoundUnder(m, keys, n)
    ensures FoundUnder(m, keys[|keys|..], n) == []
  {
    assert keys[0..] == keys;
  }

  method CollectWritableItems(m: Objects, ghost n: nat) returns (r: seq<SavedItem>)
    requires WithinDepth(m, n)
    ensures r == SavedFrom([], FoundAll(m, n))
  {
    r := CollectFromObjects(m, Sorted(m.Keys), "", [], [], n);
  }

  // ----- what is found -----

  lemma {:induction false} FoundItemsAre(items: map<string, InfoItem>, names: seq<string>, f: Found)
    requires forall n | n in names :: n in items
    ensures f in FoundItems(items, names) <==>
            |f.path| == 1 && f.path[0] in names && Saving(items[f.path[0]]) == Some(f.value)
    decreases |names|
  {
    if names != [] {
      FoundItemsAre(items, names[1..], f);
      assert |f.path| == 1 ==> f.path == [f.path[0]];
      assert names == [names[0]] + names[1..];
    }
  }

  lemma UnderHas(k: string, l: seq<Found>, f: Found)
    ensures f in Under(k, l) <==> f.path != [] && f.path[0] == k && Found(f.path[1..], f.value) in l
  {
    if f in Under(k, l) {
      var i :| 0 <= i < |l| && Under(k, l)[i] == f;
      assert f.path[1..] == l[i].path && l[i] in l;
    }
    if f.path != [] && f.path[0] == k && Found(f.path[1..], f.value) in l {
      var i :| 0 <= i < |l| && l[i] == Found(f.path[1..], f.value);
      assert f.path == [k] + f.path[1..];
      assert Under(k, l)[i] == f;
    }
  }

  lemma {:induction false} FoundInIs(o: Object, n: nat, f: Found)
    requires WithinDepth(Kids(o), n)
    ensures f in FoundIn(o, n) <==>
            f.path != [] && SavingAt(map["" := o], [""] + f.path) == Some(f.value)
    decreases n, 1, 0
  {
    hide WithinDepth, Saving;
    SortedMap.SortedKeysCover(Items(o).Keys);
    SortedMap.SortedKeysCover(Kids(o).Keys);
    FoundItemsAre(Items(o), Sorted(Items(o).Keys), f);
    FoundUnderIs(Kids(o), Sorted(Kids(o).Keys), n, f);
    if f.path != [] {
      SavingBelow(o, f.path);
    }
  }

  lemma SavingBelow(o: Object, path: seq<string>)
    requires path != []
    ensures SavingAt(map["" := o], [""] + path) ==
            if |path| > 1 then SavingAt(Kids(o), path)
            else if path[0] in Items(o) then Saving(Items(o)[path[0]]) else None
  {
    var p := [""] + path;
    assert p[1..] == path && p[1] == path[0];
  }

  lemma {:induction false} FoundUnderIs(m: Objects, keys: seq<string>, n: nat, f: Found)
    requires WithinDepth(m, n) && forall k | k in keys :: k in m
    ensures f in FoundUnder(m, keys, n) <==>
            f.path != [] && f.path[0] in keys && SavingAt(m, f.path) == Some(f.value)
    decreases n, 0, |keys|
  {
    hide Saving;
    if keys != [] {
      var k := keys[0];
      assert k in keys && keys == [k] + keys[1..];
      NoneIsShallow(n - 1);
      UnderHas(k, FoundIn(m[k], n - 1), f);
      FoundUnderIs(m, keys[1..], n, f);
      if f.path != [] {
        FoundInIs(m[k], n - 1, Found(f.path[1..], f.value));
        if f.path[0] == k {
          SameBelow(m, k, f.path);
        }
      }
    }
  }

  lemma SameBelow(m: Objects, k: string, p: seq<string>)
    requires k in m && p != [] && p[0] == k
    ensures |p| == 1 ==> SavingAt(m, p) == None
    ensures SavingAt(m, p) == SavingAt(map["" := m[k]], [""] + p[1..])
  {
    var q := [""] + p[1..];
    assert q[1..] == p[1..] && (|p| > 1 ==> q[1] == p[1]);
  }

  /** Exactly the writable items with a history are found, each with its newest value. */
  lemma FoundAllIs(m: Objects, n: nat, f: Found)
    requires WithinDepth(m, n)
    ensures f in FoundAll(m, n) <==> SavingAt(m, f.path) == Some(f.value)
  {
    SortedMap.SortedKeysCover(m.Keys);
    FoundUnderIs(m, Sorted(m.Keys), n, f);
  }

  // ----- in which order -----

  /** Items before children, both by name. */
  predicate Before(p: seq<string>, q: seq<string>)
    decreases |p|
  {
    && p != [] && q != []
    && if |p| == 1 then |q| > 1 || SortedMap.Less(p[0], q[0])
       else |q| > 1 && (SortedMap.Less(p[0], q[0]) || (p[0] == q[0] && Before(p[1..], q[1..])))
  }

  ghost predicate Ascending(l: seq<Found>) {
    forall i, j | 0 <= i < j < |l| :: Before(l[i].path, l[j].path)
  }

  lemma {:induction false} BeforeOnce(p: seq<string>, q: seq<string>)
    ensures !(Before(p, q) && Before(q, p)) && !Before(p, p)
    decreases |p|
  {
    if p != [] && q != [] {
      SortedMap.LessTotal(p[0], q[0]);
      SortedMap.LessTotal(p[0], p[0]);
      BeforeOnce(p[1..], q[1..]);
    } else if p != [] {
      SortedMap.LessTotal(p[0], p[0]);
      BeforeOnce(p[1..], p[1..]);
    }
  }

  /** Two ascending lists of the same elements are the same list. */
  lemma {:induction false} AscendingUnique(a: seq<Found>, b: seq<Found>)
    requires Ascending(a) && Ascending(b) && forall f :: f in a <==> f in b
    ensures a == b
    decreases |a|
  {
    hide Before;
    assert |b| > 0 ==> b[0] in b;
    if a != [] {
      assert a[0] in b && b != [] && b[0] in a;
      var i :| 0 <= i < |b| && b[i] == a[0];
      var j :| 0 <= j < |a| && a[j] == b[0];
      BeforeOnce(a[0].path, b[0].path);
      assert a[0] == b[0];
      forall f
        ensures f in a[1..] <==> f in b[1..]
      {
        BeforeOnce(a[0].path, a[0].path);
        TailHas(a, f);
        TailHas(b, f);
      }
      AscendingUnique(a[1..], b[1..]);
      assert a == [a[0]] + a[1..] && b == [b[0]] + b[1..];
    }
  }

  lemma TailHas(a: seq<Found>, f: Found)
    requires a != [] && Ascending(a)
    ensures f in a[1..] <==> f in a && f != a[0]
  {
    hide Before;
    BeforeOnce(a[0].path, a[0].path);
    assert a == [a[0]] + a[1..];
  }

  lemma AscendingJoined(a: seq<Found>, b: seq<Found>)
    requires Ascending(a) && Ascending(b)
    requires forall f, g | f in a && g in b :: Before(f.path, g.path)
    ensures Ascending(a + b)
  {
    hide Before;
    var c := a + b;
    forall i, j | 0 <= i < j < |c|
      ensures Before(c[i].path, c[j].path)
    {
      if i < |a| && j >= |a| {
        assert c[i] in a && c[j] in b;
      }
    }
  }

  lemma UnderAscends(k: string, l: seq<Found>)
    requires Ascending(l) && forall f | f in l :: f.path != []
    ensures Ascending(Under(k, l))
  {
    var u := Under(k, l);
    forall i, j | 0 <= i < j < |u|
      ensures Before(u[i].path, u[j].path)
    {
      assert u[i].path[1..] == l[i].path && u[j].path[1..] == l[j].path;
      assert l[i] in l && l[j] in l;
    }
  }

  ghost predicate Rising(keys: seq<string>) {
    forall i, j | 0 <= i < j < |keys| :: SortedMap.Less(keys[i], keys[j])
  }

  lemma {:induction false} FoundItemsAscend(items: map<string, InfoItem>, names: seq<string>)
    requires (forall n | n in names :: n in items) && Rising(names)
    ensures Ascending(FoundItems(items, names))
    decreases |names|
  {
    if names != [] {
      var s := Saving(items[names[0]]);
      var head := if s.Some? then [Found([names[0]], s.value)] else [];
      var rest := FoundItems(items, names[1..]);
      FoundItemsAscend(items, names[1..]);
      forall f, g | f in head && g in rest
        ensures Before(f.path, g.path)
      {
        FoundItemsAre(items, names[1..], g);
        var j :| 0 <= j < |names[1..]| && names[1..][j] == g.path[0];
        assert names[j + 1] == g.path[0];
      }
      AscendingJoined(head, rest);
    }
  }

  lemma SortedRises(s: set<string>)
    ensures Rising(Sorted(s))
  {
    SortedMap.SortedKeysAscend(s);
  }

  lemma {:induction false} FoundInAscends(o: Object, n: nat)
    requires WithinDepth(Kids(o), n)
    ensures Ascending(FoundIn(o, n))
    decreases n, 1, 0
  {
    hide WithinDepth, Saving;
    var a, b := FoundItems(Items(o), Sorted(Items(o).Keys)), FoundUnder(Kids(o), Sorted(Kids(o).Keys), n);
    SortedRises(Items(o).Keys);
    SortedRises(Kids(o).Keys);
    FoundItemsAscend(Items(o), Sorted(Items(o).Keys));
    FoundUnderAscends(Kids(o), Sorted(Kids(o).Keys), n);
    forall f, g | f in a && g in b
      ensures Before(f.path, g.path)
    {
      FoundItemsAre(Items(o), Sorted(Items(o).Keys), f);
      FoundUnderIs(Kids(o), Sorted(Kids(o).Keys), n, g);
      assert |g.path| >= 2;
    }
    AscendingJoined(a, b);
  }

  lemma {:induction false} FoundUnderAscends(m: Objects, keys: seq<string>, n: nat)
    requires WithinDepth(m, n) && (forall k | k in keys :: k in m) && Rising(keys)
    ensures Ascending(FoundUnder(m, keys, n))
    decreases n, 0, |keys|
  {
    hide Saving, Ascending;
    if keys == [] {
      NothingAscends();
    } else {
      var k := keys[0];
      assert k in keys;
      NoneIsShallow(n - 1);
      var a, b := Under(k, FoundIn(m[k], n - 1)), FoundUnder(m, keys[1..], n);
      FoundInAscends(m[k], n - 1);
      forall f | f in FoundIn(m[k], n - 1)
        ensures f.path != []
      {
        FoundInIs(m[k], n - 1, f);
      }
      UnderAscends(k, FoundIn(m[k], n - 1));
      FoundUnderAscends(m, keys[1..], n);
      forall f, g | f in a && g in b
        ensures Before(f.path, g.path)
      {
        OneBefore(m, keys, n, f, g);
      }
      AscendingJoined(a, b);
    }
  }

  lemma NothingAscends()
    ensures Ascending([])
  {
  }

  lemma OneBefore(m: Objects, keys: seq<string>, n: nat, f: Found, g: Found)
    requires WithinDepth(m, n) && (forall k | k in keys :: k in m) && Rising(keys) && keys != []
    requires NoneFits(m, keys[0], n) && f in Under(keys[0], FoundIn(m[keys[0]], n - 1)) && g in FoundUnder(m, keys[1..], n)
    ensures Before(f.path, g.path)
  {
    hide Saving, WithinDepth;
    var k := keys[0];
    UnderHas(k, FoundIn(m[k], n - 1), f);
    FoundInIs(m[k], n - 1, Found(f.path[1..], f.value));
    FoundUnderIs(m, keys[1..], n, g);
    var j :| 0 <= j < |keys[1..]| && keys[1..][j] == g.path[0];
    assert keys[j + 1] == g.path[0];
  }

  predicate NoneFits(m: Objects, k: string, n: nat) { n > 0 && k in m && WithinDepth(Kids(m[k]), n - 1) }

  /** The list of a tree depends only on what there is to save at each path. */
  lemma SameItemsSameList(m: Objects, n: nat, m': Objects, n': nat)
    requires WithinDepth(m, n) && WithinDepth(m', n')
    requires forall p :: SavingAt(m, p) == SavingAt(m', p)
    ensures FoundAll(m, n) == FoundAll(m', n')
  {
    hide WithinDepth, SavingAt, FoundUnder, Ascending;
    SortedRises(m.Keys);
    SortedRises(m'.Keys);
    FoundUnderAscends(m, Sorted(m.Keys), n);
    FoundUnderAscends(m', Sorted(m'.Keys), n');
    forall f
      ensures f in FoundAll(m, n) <==> f in FoundAll(m', n')
    {
      FoundAllIs(m, n, f);
      FoundAllIs(m', n', f);
    }
    AscendingUnique(FoundAll(m, n), FoundAll(m', n'));
  }
}
