/** Merging trees: path by path the incoming side wins, so merging is idempotent and
    associative. `n` bounds the depth of the incoming side and changes no result. */
module Merge {
  import opened Wrappers
  import opened Odf
  import opened Paths
  import opened Tree

  function Override<T>(a: Option<T>, b: Option<T>): Option<T> { if b.Some? then b else a }

  function MergeItems(a: Option<map<string, InfoItem>>, b: Option<map<string, InfoItem>>): Option<map<string, InfoItem>> {
    if b.None? then a else Some((if a.Some? then a.value else map[]) + b.value)
  }

  function MergeObject(a: Object, b: Object, n: nat): (r: Object)
    requires WithinDepth(Kids(b), n)
    decreases n, 1
  {
    Object(
      a.id,
      Override(a.typeUri, b.typeUri),
      Override(a.desc, b.desc),
      MergeItems(a.items, b.items),
      if b.objects.None? then a.objects else Some(MergeAll(Kids(a), b.objects.value, n)))
  }

  function MergeAll(a: Objects, b: Objects, n: nat): (r: Objects)
    requires WithinDepth(b, n)
    ensures r.Keys == a.Keys + b.Keys
    decreases n, 0
  {
    map k | k in a.Keys + b.Keys ::
      if k !in b then a[k] else if k !in a then b[k] else MergeObject(a[k], b[k], n - 1)
  }

  lemma {:induction false} DepthGrows(m: Objects, n: nat)
    requires WithinDepth(m, n)
    ensures WithinDepth(m, n + 1)
    decreases n
  {
    forall k | k in m && m[k].objects.Some?
      ensures WithinDepth(m[k].objects.value, n)
    {
      DepthGrows(m[k].objects.value, n - 1);
    }
  }

  lemma {:induction false} MergeKeepsDepth(a: Objects, b: Objects, n: nat)
    requires WithinDepth(a, n) && WithinDepth(b, n)
    ensures WithinDepth(MergeAll(a, b, n), n)
    decreases n
  {
    var r := MergeAll(a, b, n);
    forall k | k in r
      ensures n > 0 && WithinDepth(Kids(r[k]), n - 1)
    {
      NoneIsShallow(n - 1);
      if k in a && k in b {
        MergeKids(a[k], b[k], n - 1);
        MergeKeepsDepth(Kids(a[k]), Kids(b[k]), n - 1);
      }
    }
  }

  lemma NoneIsShallow(n: nat)
    ensures WithinDepth(map[], n)
  {
  }

  /** The bound is only there for termination. */
  lemma {:induction false} BoundIrrelevant(a: Objects, b: Objects, n: nat, n': nat)
    requires WithinDepth(b, n) && WithinDepth(b, n')
    ensures MergeAll(a, b, n) == MergeAll(a, b, n')
    decreases n
  {
    forall k | k in a && k in b
      ensures MergeObject(a[k], b[k], n - 1) == MergeObject(a[k], b[k], n' - 1)
    {
      NoneIsShallow(n - 1);
      NoneIsShallow(n' - 1);
      BoundIrrelevant(Kids(a[k]), Kids(b[k]), n - 1, n' - 1);
    }
  }

  lemma MergeKids(a: Object, b: Object, n: nat)
    requires WithinDepth(Kids(b), n)
    ensures Kids(MergeObject(a, b, n)) == MergeAll(Kids(a), Kids(b), n)
    ensures Items(MergeObject(a, b, n)) == Items(a) + Items(b)
  {
    hide WithinDepth, MergeAll, MergeItems;
    ItemsMerged(a, b);
    if b.objects.None? {
      MergeNone(Kids(a), n);
    }
  }

  lemma ItemsMerged(a: Object, b: Object)
    ensures var items := MergeItems(a.items, b.items);
            (if items.Some? then items.value else map[]) == Items(a) + Items(b)
  {
    if b.items.None? {
      assert Items(a) + map[] == Items(a);
    }
  }

  lemma MergeNone(a: Objects, n: nat)
    requires WithinDepth(map[], n)
    ensures MergeAll(a, map[], n) == a
  {
  }

  // ----- path by path -----

  lemma {:induction false} MergedItems(a: Objects, b: Objects, n: nat, p: seq<string>)
    requires WithinDepth(b, n)
    ensures ItemAt(MergeAll(a, b, n), p) == Override(ItemAt(a, p), ItemAt(b, p))
    decreases |p|
  {
    if |p| >= 2 && p[0] in a && p[0] in b {
      MergeKids(a[p[0]], b[p[0]], n - 1);
      if |p| > 2 {
        MergedItems(Kids(a[p[0]]), Kids(b[p[0]]), n - 1, p[1..]);
      }
    }
  }

  function MergeLabels(a: Option<Label>, b: Option<Label>): Option<Label> {
    if a.None? then b
    else if b.None? then a
    else Some(Label(a.value.id, Override(a.value.typeUri, b.value.typeUri), Override(a.value.desc, b.value.desc)))
  }

  lemma {:induction false} MergedLabels(a: Objects, b: Objects, n: nat, p: seq<string>)
    requires WithinDepth(b, n)
    ensures LabelAt(MergeAll(a, b, n), p) == MergeLabels(LabelAt(a, p), LabelAt(b, p))
    decreases |p|
  {
    if p != [] && p[0] in a && p[0] in b {
      MergeKids(a[p[0]], b[p[0]], n - 1);
      if |p| > 1 {
        MergedLabels(Kids(a[p[0]]), Kids(b[p[0]]), n - 1, p[1..]);
      }
    }
  }

  // ----- idempotent and associative -----

  lemma {:induction false} MergeSelf(b: Objects, n: nat)
    requires WithinDepth(b, n)
    ensures MergeAll(b, b, n) == b
    decreases n
  {
    forall k | k in b
      ensures MergeObject(b[k], b[k], n - 1) == b[k]
    {
      if b[k].objects.Some? {
        MergeSelf(b[k].objects.value, n - 1);
      }
      assert b[k].items.Some? ==> b[k].items.value + b[k].items.value == b[k].items.value;
    }
  }

  lemma {:induction false} MergeIdempotent(a: Objects, b: Objects, n: nat)
    requires WithinDepth(b, n)
    ensures MergeAll(MergeAll(a, b, n), b, n) == MergeAll(a, b, n)
    decreases n, 0
  {
    var r := MergeAll(a, b, n);
    MergeSelf(b, n);
    forall k | k in a && k in b
      ensures MergeObject(r[k], b[k], n - 1) == r[k]
    {
      MergeAgain(a[k], b[k], n - 1);
    }
    assert forall k | k in b && k !in a :: MergeAll(b, b, n)[k] == b[k];
  }

  lemma {:induction false} MergeAgain(a: Object, b: Object, n: nat)
    requires WithinDepth(Kids(b), n)
    ensures MergeObject(MergeObject(a, b, n), b, n) == MergeObject(a, b, n)
    decreases n, 1
  {
    if b.objects.Some? {
      MergeIdempotent(Kids(a), b.objects.value, n);
    }
    assert b.items.Some? ==> Items(a) + b.items.value + b.items.value == Items(a) + b.items.value;
  }

  lemma {:induction false} MergeAssociative(a: Objects, b: Objects, c: Objects, n: nat)
    requires WithinDepth(b, n) && WithinDepth(c, n)
    ensures WithinDepth(MergeAll(b, c, n), n)
    ensures MergeAll(MergeAll(a, b, n), c, n) == MergeAll(a, MergeAll(b, c, n), n)
    decreases n, 0
  {
    MergeKeepsDepth(b, c, n);
    var l, r := MergeAll(MergeAll(a, b, n), c, n), MergeAll(a, MergeAll(b, c, n), n);
    forall k | k in l
      ensures l[k] == r[k]
    {
      if k in a && k in b && k in c {
        MergeObjectsAssociate(a[k], b[k], c[k], n - 1);
      }
    }
  }

  lemma {:induction false} MergeObjectsAssociate(a: Object, b: Object, c: Object, n: nat)
    requires WithinDepth(Kids(b), n) && WithinDepth(Kids(c), n)
    ensures WithinDepth(Kids(MergeObject(b, c, n)), n)
    ensures MergeObject(MergeObject(a, b, n), c, n) == MergeObject(a, MergeObject(b, c, n), n)
    decreases n, 1
  {
    hide MergeAll, WithinDepth, MergeItems;
    MergeKids(b, c, n);
    MergeAssociative(Kids(a), Kids(b), Kids(c), n);
    MergeItemsAssociate(a.items, b.items, c.items);
    if b.objects.None? && c.objects.Some? {
      MergeIntoNone(c.objects.value, n);
    }
  }

  lemma MergeItemsAssociate(a: Option<map<string, InfoItem>>, b: Option<map<string, InfoItem>>, c: Option<map<string, InfoItem>>)
    ensures MergeItems(MergeItems(a, b), c) == MergeItems(a, MergeItems(b, c))
  {
    if b.Some? && c.Some? {
      var x := if a.Some? then a.value else map[];
      assert x + b.value + c.value == x + (b.value + c.value);
    } else if c.Some? {
      assert map[] + c.value == c.value;
    }
  }

  lemma MergeIntoNone(c: Objects, n: nat)
    requires WithinDepth(c, n)
    ensures MergeAll(map[], c, n) == c
  {
  }
}
