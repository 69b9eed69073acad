/** write_tree: merging a batch of objects, keyed by their own ids, under a path; and the
    item paths that the engine reports for it. */
module WriteTree {
  import opened Wrappers
  import opened Odf
  import opened Paths
  import opened Tree
  import opened Merge
  import SortedMap

  predicate AllFit(s: seq<Object>, n: nat) {
    forall o | o in s :: WithinDepth(Kids(o), n)
  }

  /** One object after the other, each merged into the one of the same id or inserted. */
  function MergeEach(m: Objects, s: seq<Object>, n: nat): Objects
    requires AllFit(s, n)
    decreases |s|
  {
    if s == [] then m
    else
      var o := s[0];
      MergeEach(m[o.id := if o.id in m then MergeObject(m[o.id], o, n) else o], s[1..], n)
  }

  function ValuesOf(m: Objects, keys: seq<string>): (s: seq<Object>)
    requires forall k | k in keys :: k in m
    ensures |s| == |keys| && forall i | 0 <= i < |keys| :: s[i] == m[keys[i]]
  {
    if keys == [] then [] else [m[keys[0]]] + ValuesOf(m, keys[1..])
  }

  /** The values of a BTreeMap in iteration order. */
  function InOrder(m: Objects): seq<Object> {
    SortedMap.SortedKeysCover(m.Keys);
    ValuesOf(m, SortedMap.SortedKeys(m.Keys))
  }

  lemma InOrderFits(m: Objects, n: nat)
    requires WithinDepth(m, n + 1)
    ensures AllFit(InOrder(m), n)
  {
    SortedMap.SortedKeysCover(m.Keys);
    NoneIsShallow(n);
    var keys := SortedMap.SortedKeys(m.Keys);
    forall o | o in InOrder(m)
      ensures WithinDepth(Kids(o), n)
    {
      var i :| 0 <= i < |keys| && InOrder(m)[i] == o;
      assert keys[i] in keys;
    }
  }

  /** The walk of write_tree: missing objects are created on the way down. */
  function WriteTreeAt(m: Objects, p: seq<string>, s: seq<Object>, n: nat): Objects
    requires AllFit(s, n)
    decreases |p|
  {
    if p == [] then MergeEach(m, s, n)
    else
      var o := if p[0] in m then m[p[0]] else NewObject(p[0]);
      m[p[0] := if |p| > 1 then o.(objects := Some(WriteTreeAt(Kids(o), p[1..], s, n)))
                else if s == [] then o
                else o.(objects := Some(MergeEach(Kids(o), s, n)))]
  }

  // ----- the batch as one tree -----

  /** What the batch is by itself: its objects keyed by id. */
  function Incoming(s: seq<Object>, n: nat): Objects
    requires AllFit(s, n)
  {
    MergeEach(map[], s, n)
  }

  function One(o: Object): Objects { map[o.id := o] }

  lemma OneStep(m: Objects, o: Object, n: nat)
    requires WithinDepth(Kids(o), n)
    ensures WithinDepth(One(o), n + 1)
    ensures MergeAll(m, One(o), n + 1) == m[o.id := if o.id in m then MergeObject(m[o.id], o, n) else o]
  {
  }

  /** Merging the batch into a tree is merging the batch as one tree. */
  lemma {:induction false} MergeEachIs(a: Objects, x: Objects, s: seq<Object>, n: nat)
    requires AllFit(s, n) && WithinDepth(x, n + 1)
    ensures WithinDepth(MergeEach(x, s, n), n + 1)
    ensures MergeEach(MergeAll(a, x, n + 1), s, n) == MergeAll(a, MergeEach(x, s, n), n + 1)
    decreases |s|
  {
    if s != [] {
      hide MergeAll, WithinDepth, MergeObject;
      var o := s[0];
      assert forall y | y in s[1..] :: y in s;
      OneStep(x, o, n);
      OneStep(MergeAll(a, x, n + 1), o, n);
      MergeKeepsDepth(x, One(o), n + 1);
      MergeAssociative(a, x, One(o), n + 1);
      MergeEachIs(a, MergeAll(x, One(o), n + 1), s[1..], n);
    }
  }

  lemma IncomingIs(a: Objects, s: seq<Object>, n: nat)
    requires AllFit(s, n)
    ensures WithinDepth(Incoming(s, n), n + 1)
    ensures MergeEach(a, s, n) == MergeAll(a, Incoming(s, n), n + 1)
  {
    NoneIsShallow(n + 1);
    MergeEachIs(a, map[], s, n);
    assert MergeAll(a, map[], n + 1) == a;
  }

  function Part(m: Objects, keys: seq<string>): Objects
    requires forall k | k in keys :: k in m
  {
    map k | k in keys :: m[k]
  }

  lemma PartStep(x: Objects, m: Objects, keys: seq<string>)
    requires keys != [] && forall k | k in keys :: k in m
    requires keys[0] !in keys[1..]
    ensures x[keys[0] := m[keys[0]]] + Part(m, keys[1..]) == x + Part(m, keys)
  {
    assert keys == [keys[0]] + keys[1..];
  }

  predicate Fresh(x: Objects, m: Objects, keys: seq<string>) {
    forall k | k in keys :: k in m && k !in x && m[k].id == k
  }

  predicate Distinct(keys: seq<string>) { keys == [] || (keys[0] !in keys[1..] && Distinct(keys[1..])) }

  lemma {:induction false} MergeDistinct(x: Objects, m: Objects, keys: seq<string>, n: nat)
    requires Fresh(x, m, keys) && Distinct(keys)
    requires AllFit(ValuesOf(m, keys), n)
    ensures MergeEach(x, ValuesOf(m, keys), n) == x + Part(m, keys)
    decreases |keys|
  {
    hide MergeObject, WithinDepth;
    if keys != [] {
      var k, rest := keys[0], keys[1..];
      var s := ValuesOf(m, keys);
      assert s[1..] == ValuesOf(m, rest);
      assert forall y | y in s[1..] :: y in s;
      assert k in keys && forall k' | k' in rest :: k' in keys && k' != k;
      MergeDistinct(x[k := m[k]], m, rest, n);
      PartStep(x, m, keys);
    } else {
      assert x + Part(m, keys) == x;
    }
  }

  lemma {:induction false} AscendingDistinct(keys: seq<string>)
    requires forall i, j | 0 <= i < j < |keys| :: SortedMap.Less(keys[i], keys[j])
    ensures Distinct(keys)
    decreases |keys|
  {
    if keys != [] {
      forall j | 1 <= j < |keys|
        ensures keys[j] != keys[0]
      {
        SortedMap.LessTotal(keys[0], keys[j]);
      }
      AscendingDistinct(keys[1..]);
    }
  }

  /** A map whose keys are the ids of its objects is its own batch. */
  lemma KeyedById(m: Objects, n: nat)
    requires WithinDepth(m, n + 1) && forall k | k in m :: m[k].id == k
    ensures AllFit(InOrder(m), n) && Incoming(InOrder(m), n) == m
  {
    InOrderFits(m, n);
    var keys := SortedMap.SortedKeys(m.Keys);
    SortedMap.SortedKeysCover(m.Keys);
    SortedMap.SortedKeysAscend(m.Keys);
    AscendingDistinct(keys);
    MergeDistinct(map[], m, keys, n);
    assert map[] + Part(m, keys) == m;
  }

  // ----- path by path -----

  lemma {:induction false} WriteTreeItems(m: Objects, p: seq<string>, s: seq<Object>, n: nat, q: seq<string>)
    requires AllFit(s, n)
    ensures ItemAt(WriteTreeAt(m, p, s, n), q) ==
            if p <= q then Override(ItemAt(m, q), ItemAt(Incoming(s, n), q[|p|..])) else ItemAt(m, q)
    decreases |p|
  {
    hide MergeAll, MergeEach, WithinDepth;
    IncomingIs(m, s, n);
    if p == [] {
      MergedItems(m, Incoming(s, n), n + 1, q);
      assert q[0..] == q;
    } else if q != [] && p[0] == q[0] {
      var o := if p[0] in m then m[p[0]] else NewObject(p[0]);
      assert q == [q[0]] + q[1..] && p == [p[0]] + p[1..];
      assert p <= q <==> p[1..] <= q[1..];
      assert p <= q ==> q[|p|..] == q[1..][|p| - 1..];
      NothingBelowEmpty(q[1..]);
      if |p| > 1 {
        WriteTreeItems(Kids(o), p[1..], s, n, q[1..]);
      } else {
        IncomingIs(Kids(o), s, n);
        MergedItems(Kids(o), Incoming(s, n), n + 1, q[1..]);
        EmptyBatch(s, n, q[1..]);
      }
    } else {
      assert !(p <= q);
    }
  }

  lemma EmptyBatch(s: seq<Object>, n: nat, q: seq<string>)
    requires AllFit(s, n)
    ensures s == [] ==> ItemAt(Incoming(s, n), q) == None && LabelAt(Incoming(s, n), q) == None
  {
    NothingBelowEmpty(q);
  }

  /** The labels on the way down exist afterwards; below, the incoming ones win. */
  lemma {:induction false} WriteTreeLabels(m: Objects, p: seq<string>, s: seq<Object>, n: nat, q: seq<string>)
    requires AllFit(s, n)
    ensures LabelAt(WriteTreeAt(m, p, s, n), q) ==
            if p <= q && p != q then MergeLabels(LabelAt(m, q), LabelAt(Incoming(s, n), q[|p|..]))
            else if q != [] && q <= p && LabelAt(m, q).None? then Some(Label(q[|q| - 1], None, None))
            else LabelAt(m, q)
    decreases |p|
  {
    hide MergeAll, MergeEach, WithinDepth;
    IncomingIs(m, s, n);
    if p == [] {
      MergedLabels(m, Incoming(s, n), n + 1, q);
      assert q[0..] == q;
    } else if q != [] && p[0] == q[0] {
      var o := if p[0] in m then m[p[0]] else NewObject(p[0]);
      assert q == [q[0]] + q[1..] && p == [p[0]] + p[1..];
      NothingBelowEmpty(q[1..]);
      if |q| > 1 {
        assert p <= q <==> p[1..] <= q[1..];
        assert q <= p <==> q[1..] <= p[1..];
        assert p <= q ==> q[|p|..] == q[1..][|p| - 1..];
        LabelBelow(m, q);
        LabelBelow(WriteTreeAt(m, p, s, n), q);
        if |p| > 1 {
          WriteTreeLabels(Kids(o), p[1..], s, n, q[1..]);
        } else {
          IncomingIs(Kids(o), s, n);
          MergedLabels(Kids(o), Incoming(s, n), n + 1, q[1..]);
          EmptyBatch(s, n, q[1..]);
        }
      }
    } else {
      assert q != [] ==> !(p <= q) && !(q <= p);
    }
  }

  lemma LabelBelow(m: Objects, q: seq<string>)
    requires |q| > 1
    ensures LabelAt(m, q) == if q[0] in m then LabelAt(Kids(m[q[0]]), q[1..]) else None
  {
  }
}
