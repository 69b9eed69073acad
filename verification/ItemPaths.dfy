/** The item paths the engine reports for a tree write, and where they lead afterwards. */
module ItemPaths {
  import opened Wrappers
  import opened Odf
  import opened Paths
  import opened Tree
  import opened Merge
  import opened WriteTree
  import SortedMap

  function Sorted(s: set<string>): (keys: seq<string>)
    ensures |keys| == |s| && forall k :: k in keys <==> k in s
  {
    SortedMap.SortedKeysCover(s);
    SortedMap.SortedKeys(s)
  }

  function Joined(prefix: string, name: string): string {
    if prefix == "/" then "/" + name else prefix + "/" + name
  }

  function NamePaths(objPath: string, names: seq<string>): seq<string> {
    if names == [] then [] else [objPath + "/" + names[0]] + NamePaths(objPath, names[1..])
  }

  /** The walk over one object: its id, not its key, goes into the path. */
  function WalkObject(prefix: string, o: Object, n: nat): seq<string>
    requires WithinDepth(Kids(o), n)
    decreases n, 1, 0
  {
    var objPath := Joined(prefix, o.id);
    NamePaths(objPath, Sorted(Items(o).Keys)) + WalkKids(objPath, Kids(o), Sorted(Kids(o).Keys), n)
  }

  function WalkKids(prefix: string, m: Objects, keys: seq<string>, n: nat): seq<string>
    requires WithinDepth(m, n) && forall k | k in keys :: k in m
    decreases n, 0, |keys|
  {
    if keys == [] then []
    else
      assert keys[0] in keys;
      NoneIsShallow(n - 1);
      WalkObject(prefix, m[keys[0]], n - 1) + WalkKids(prefix, m, keys[1..], n)
  }

  function CollectItemPaths(base: string, s: seq<Object>, n: nat): seq<string>
    requires AllFit(s, n)
    decreases |s|
  {
    if s == [] then [] else WalkObject(base, s[0], n) + CollectItemPaths(base, s[1..], n)
  }

  /** Every name can be addressed, and below the top each key is its object's id. */
  predicate WellNamed(o: Object, n: nat)
    requires WithinDepth(Kids(o), n)
    decreases n
  {
    && GoodSegment(o.id)
    && (forall name | name in Items(o) :: GoodSegment(name))
    && (forall k | k in Kids(o) :: Kids(o)[k].id == k && Shallower(Kids(o), k, n) && WellNamed(Kids(o)[k], n - 1))
  }

  predicate Shallower(m: Objects, k: string, n: nat)
    requires k in m && WithinDepth(m, n)
  {
    NoneIsShallow(n - 1);
    WithinDepth(Kids(m[k]), n - 1)
  }

  function Below(base: string, r: seq<string>): string { (if base == "/" then "" else base) + Slashed(r) }

  lemma {:induction false} SlashedAppend(a: seq<string>, b: seq<string>)
    ensures Slashed(a + b) == Slashed(a) + Slashed(b)
    decreases |a|
  {
    if a == [] {
      assert a + b == b;
    } else {
      assert (a + b)[1..] == a[1..] + b;
      SlashedAppend(a[1..], b);
    }
  }

  lemma {:induction false} NamePathFound(objPath: string, names: seq<string>, path: string) returns (name: string)
    requires path in NamePaths(objPath, names)
    ensures name in names && path == objPath + "/" + name
    decreases |names|
  {
    if path == objPath + "/" + names[0] {
      name := names[0];
    } else {
      name := NamePathFound(objPath, names[1..], path);
    }
  }

  lemma SlashedOne(name: string)
    ensures Slashed([name]) == "/" + name
  {
    assert Slashed([]) == "";
  }

  lemma BelowJoined(prefix: string, id: string, q: seq<string>)
    ensures Below(prefix, [id] + q) == Joined(prefix, id) + Slashed(q)
  {
    SlashedAppend([id], q);
    SlashedOne(id);
    assert (if prefix == "/" then "" else prefix) + ("/" + id + Slashed(q)) == Joined(prefix, id) + Slashed(q);
  }

  lemma ItemFound(prefix: string, o: Object, path: string) returns (r: seq<string>)
    requires path in NamePaths(Joined(prefix, o.id), Sorted(Items(o).Keys))
    requires GoodSegment(o.id) && forall name | name in Items(o) :: GoodSegment(name)
    ensures path == Below(prefix, r) && GoodPath(r) && ItemAt(One(o), r).Some?
  {
    hide GoodSegment, Slashed, Below, Joined;
    var objPath := Joined(prefix, o.id);
    var name := NamePathFound(objPath, Sorted(Items(o).Keys), path);
    r := [o.id] + [name];
    BelowJoined(prefix, o.id, [name]);
    SlashedOne(name);
    assert objPath + "/" + name == objPath + ("/" + name);
  }

  /** Every reported path spells the place of an item in the object walked. */
  lemma {:induction false} WalkFinds(prefix: string, o: Object, n: nat, path: string) returns (r: seq<string>)
    requires WithinDepth(Kids(o), n) && WellNamed(o, n) && path in WalkObject(prefix, o, n)
    ensures path == Below(prefix, r) && GoodPath(r) && ItemAt(One(o), r).Some?
    decreases n, 1, 0
  {
    hide GoodSegment, WithinDepth, Slashed, Below, Joined;
    var objPath := Joined(prefix, o.id);
    if path in NamePaths(objPath, Sorted(Items(o).Keys)) {
      r := ItemFound(prefix, o, path);
    } else {
      NotEmpty(prefix, o.id);
      var q := KidsFind(objPath, Kids(o), Sorted(Kids(o).Keys), n, path);
      r := [o.id] + q;
      BelowJoined(prefix, o.id, q);
      assert r[1..] == q;
    }
  }

  lemma NotEmpty(prefix: string, s: string)
    requires GoodSegment(s)
    ensures Joined(prefix, s) != "/"
  {
    assert s != "";
    assert |Joined(prefix, s)| >= 1 + |s|;
  }

  lemma {:induction false} KidsFind(prefix: string, m: Objects, keys: seq<string>, n: nat, path: string)
    returns (q: seq<string>)
    requires WithinDepth(m, n) && prefix != "/"
    requires forall k | k in keys :: k in m && m[k].id == k && Shallower(m, k, n) && WellNamed(m[k], n - 1)
    requires path in WalkKids(prefix, m, keys, n)
    ensures path == prefix + Slashed(q) && GoodPath(q) && ItemAt(m, q).Some?
    decreases n, 0, |keys|
  {
    hide GoodSegment;
    var k := keys[0];
    assert k in keys && Shallower(m, k, n);
    if path in WalkObject(prefix, m[k], n - 1) {
      q := WalkFinds(prefix, m[k], n - 1, path);
      assert q[0] == k;
      assert ItemAt(m, q) == ItemAt(One(m[k]), q);
    } else {
      q := KidsFind(prefix, m, keys[1..], n, path);
    }
  }

  // ----- and every item is reported, once -----

  /** The ids of the objects on the way to an item, and its name. */
  function IdsAlong(m: Objects, q: seq<string>): seq<string>
    requires ItemAt(m, q).Some?
    decreases |q|
  {
    [m[q[0]].id] + if |q| == 2 then [q[1]] else IdsAlong(Kids(m[q[0]]), q[1..])
  }

  /** Whatever the keys, an item is reported at the path of the ids that lead to it. */
  lemma {:induction false} WalkReports(prefix: string, o: Object, n: nat, q: seq<string>)
    requires WithinDepth(Kids(o), n) && (o.id != "" || |prefix| >= 2) && ItemAt(One(o), q).Some?
    ensures Below(prefix, IdsAlong(One(o), q)) in WalkObject(prefix, o, n)
    decreases n, 1, 0
  {
    hide WithinDepth, Slashed, Below, Joined, One, IdsAlong;
    OneIs(o, q);
    var objPath := Joined(prefix, o.id);
    if |q| == 2 {
      NameReported(objPath, Sorted(Items(o).Keys), q[1]);
      BelowJoined(prefix, o.id, [q[1]]);
      SlashedOne(q[1]);
      assert objPath + "/" + q[1] == objPath + ("/" + q[1]);
    } else {
      JoinedLong(prefix, o.id);
      assert q[1] in Kids(o);
      KidsReport(objPath, Kids(o), Sorted(Kids(o).Keys), n, q[1..]);
      BelowJoined(prefix, o.id, IdsAlong(Kids(o), q[1..]));
    }
  }

  lemma OneIs(o: Object, q: seq<string>)
    requires ItemAt(One(o), q).Some?
    ensures |q| >= 2 && (|q| == 2 ==> q[1] in Items(o) && IdsAlong(One(o), q) == [o.id] + [q[1]])
    ensures |q| > 2 ==> ItemAt(Kids(o), q[1..]).Some? && IdsAlong(One(o), q) == [o.id] + IdsAlong(Kids(o), q[1..])
  {
  }

  lemma JoinedLong(prefix: string, id: string)
    requires id != "" || |prefix| >= 2
    ensures |Joined(prefix, id)| >= 2
  {
  }

  lemma {:induction false} NameReported(objPath: string, names: seq<string>, name: string)
    requires name in names
    ensures objPath + "/" + name in NamePaths(objPath, names)
    decreases |names|
  {
    if name != names[0] {
      NameReported(objPath, names[1..], name);
    }
  }

  lemma {:induction false} KidsReport(prefix: string, m: Objects, keys: seq<string>, n: nat, q: seq<string>)
    requires WithinDepth(m, n) && |prefix| >= 2 && (forall k | k in keys :: k in m)
    requires ItemAt(m, q).Some? && q[0] in keys
    ensures prefix + Slashed(IdsAlong(m, q)) in WalkKids(prefix, m, keys, n)
    decreases n, 0, |keys|
  {
    hide Slashed, IdsAlong;
    var k := keys[0];
    assert k in keys;
    NoneIsShallow(n - 1);
    if q[0] == k {
      var o := m[k];
      SameAlong(m, q);
      WalkReports(prefix, o, n - 1, [o.id] + q[1..]);
    } else {
      KidsReport(prefix, m, keys[1..], n, q);
    }
  }

  lemma SameAlong(m: Objects, q: seq<string>)
    requires ItemAt(m, q).Some?
    ensures var o := m[q[0]];
            ItemAt(One(o), [o.id] + q[1..]).Some? && IdsAlong(One(o), [o.id] + q[1..]) == IdsAlong(m, q)
  {
    var r := [m[q[0]].id] + q[1..];
    assert |r| == |q| && r[1..] == q[1..] && r[1] == q[1];
  }

  lemma {:induction false} BatchReports(base: string, s: seq<Object>, n: nat, o: Object, q: seq<string>)
    requires AllFit(s, n) && o in s && (o.id != "" || |base| >= 2) && ItemAt(One(o), q).Some?
    ensures Below(base, IdsAlong(One(o), q)) in CollectItemPaths(base, s, n)
    decreases |s|
  {
    hide WithinDepth, Below, One, IdsAlong, WalkObject;
    if o == s[0] {
      WalkReports(base, o, n, q);
    } else {
      BatchReports(base, s[1..], n, o, q);
    }
  }

  function CountItems(o: Object, n: nat): nat
    requires WithinDepth(Kids(o), n)
    decreases n, 1, 0
  {
    |Items(o)| + CountIn(Kids(o), Sorted(Kids(o).Keys), n)
  }

  function CountIn(m: Objects, keys: seq<string>, n: nat): nat
    requires WithinDepth(m, n) && forall k | k in keys :: k in m
    decreases n, 0, |keys|
  {
    if keys == [] then 0
    else
      assert keys[0] in keys;
      NoneIsShallow(n - 1);
      CountItems(m[keys[0]], n - 1) + CountIn(m, keys[1..], n)
  }

  /** As many paths as items. */
  lemma {:induction false} WalkCounts(prefix: string, o: Object, n: nat)
    requires WithinDepth(Kids(o), n)
    ensures |WalkObject(prefix, o, n)| == CountItems(o, n)
    decreases n, 1, 0
  {
    hide WithinDepth, Joined;
    assert |Items(o).Keys| == |Items(o)|;
    NamesCount(Joined(prefix, o.id), Sorted(Items(o).Keys));
    KidsCount(Joined(prefix, o.id), Kids(o), Sorted(Kids(o).Keys), n);
  }

  lemma {:induction false} NamesCount(objPath: string, names: seq<string>)
    ensures |NamePaths(objPath, names)| == |names|
    decreases |names|
  {
    if names != [] {
      NamesCount(objPath, names[1..]);
    }
  }

  lemma {:induction false} KidsCount(prefix: string, m: Objects, keys: seq<string>, n: nat)
    requires WithinDepth(m, n) && forall k | k in keys :: k in m
    ensures |WalkKids(prefix, m, keys, n)| == CountIn(m, keys, n)
    decreases n, 0, |keys|
  {
    if keys != [] {
      assert keys[0] in keys;
      NoneIsShallow(n - 1);
      WalkCounts(prefix, m[keys[0]], n - 1);
      KidsCount(prefix, m, keys[1..], n);
    }
  }

  // ----- parsing what lies below a base -----

  lemma Prefixed(c: char, x: seq<string>, r: seq<string>)
    requires x != []
    ensures [""] + (x + r) == [""] + x + r
    ensures [[c] + (x + r)[0]] + (x + r)[1..] == [[c] + x[0]] + x[1..] + r
  {
  }

  lemma {:induction false} SplitAppend(a: string, r: seq<string>)
    requires forall s | s in r :: '/' !in s
    ensures Split(a + Slashed(r)) == Split(a) + r
    decreases |a|
  {
    hide Slashed;
    if a == "" {
      SplitSlashed("", r);
      assert "" + Slashed(r) == a + Slashed(r);
    } else {
      SplitAppend(a[1..], r);
      Prefixed(a[0], Split(a[1..]), r);
      assert (a + Slashed(r))[1..] == a[1..] + Slashed(r) && (a + Slashed(r))[0] == a[0];
    }
  }

  lemma {:induction false} TrimAllAppend(a: seq<string>, b: seq<string>)
    ensures TrimAll(a + b) == TrimAll(a) + TrimAll(b)
  {
    forall i | 0 <= i < |a| + |b|
      ensures TrimAll(a + b)[i] == (TrimAll(a) + TrimAll(b))[i]
    {
    }
  }

  lemma ParseBelow(base: string, r: seq<string>)
    requires ParsePath(base).Ok? && GoodPath(r) && r != []
    ensures ParsePath(Below(base, r)) == Ok(ParsePath(base).value + r)
  {
    hide TrimAll, Split, GoodSegment, Slashed;
    if base == "/" {
      assert "" + Slashed(r) == Slashed(r) && [] + r == r;
      GoodIsParsed(r);
    } else {
      NamesAreClean(r);
      SplitAppend(base[1..], r);
      assert Below(base, r)[1..] == base[1..] + Slashed(r);
      TrimAllAppend(Split(base[1..]), r);
      TrimAllGood(r);
    }
  }

  lemma NamesAreClean(r: seq<string>)
    requires GoodPath(r)
    ensures forall s | s in r :: '/' !in s
    ensures "" !in r && ".." !in r
  {
    forall s | s in r
      ensures '/' !in s && s != "" && s != ".."
    {
      assert GoodSegment(s);
    }
  }

  lemma {:induction false} InBatch(x: Objects, s: seq<Object>, n: nat, o: Object, r: seq<string>)
    requires AllFit(s, n) && o in s && ItemAt(One(o), r).Some?
    ensures ItemAt(MergeEach(x, s, n), r).Some?
    decreases |s|
  {
    hide MergeAll, MergeObject, WithinDepth;
    assert forall y | y in s[1..] :: y in s;
    OneStep(x, s[0], n);
    var x' := MergeAll(x, One(s[0]), n + 1);
    if o == s[0] {
      MergedItems(x, One(o), n + 1, r);
      IncomingIs(x', s[1..], n);
      MergedItems(x', Incoming(s[1..], n), n + 1, r);
    } else {
      InBatch(x', s[1..], n, o, r);
    }
  }

  lemma {:induction false} CollectedFrom(base: string, s: seq<Object>, n: nat, path: string) returns (o: Object)
    requires AllFit(s, n) && path in CollectItemPaths(base, s, n)
    ensures o in s && path in WalkObject(base, o, n)
    decreases |s|
  {
    if path in WalkObject(base, s[0], n) {
      o := s[0];
    } else {
      assert forall y | y in s[1..] :: y in s;
      o := CollectedFrom(base, s[1..], n, path);
    }
  }

  // ----- exactly when a path leads to an item -----

  /** The path leads to an item once the batch is written below `p` into `m`. */
  ghost predicate ResolvesIn(m: Objects, p: seq<string>, s: seq<Object>, n: nat, path: string)
    requires AllFit(s, n)
  {
    var q := ParsePath(path);
    q.Ok? && var t := Resolve(WriteTreeAt(m, p, s, n), q.value); t.Ok? && t.value.AtItem?
  }

  /** The path parses to a place below `p` at which the batch, merged by itself, has an
      item: this can be looked up before the write. */
  predicate LandsInBatch(p: seq<string>, s: seq<Object>, n: nat, path: string)
    requires AllFit(s, n)
  {
    var q := ParsePath(path);
    q.Ok? && p <= q.value && ItemAt(Incoming(s, n), q.value[|p|..]).Some?
  }

  lemma ResolvesIfItem(m: Objects, p: seq<string>, s: seq<Object>, n: nat, path: string)
    requires AllFit(s, n)
    ensures ResolvesIn(m, p, s, n, path) <==>
            ParsePath(path).Ok?
            && var q := ParsePath(path).value;
               ItemAt(m, q).Some? || LandsInBatch(p, s, n, path)
  {
    hide ParsePath, Resolve, WriteTreeAt, MergeEach, AllFit;
    if ParsePath(path).Ok? {
      var q := ParsePath(path).value;
      ResolveIs(WriteTreeAt(m, p, s, n), q);
      WriteTreeItems(m, p, s, n, q);
    }
  }

  /** A path leads to an item after the write, whatever the tree was before, exactly when
      it lands in the batch. */
  lemma ResolvesIffLands(p: seq<string>, s: seq<Object>, n: nat, path: string)
    requires AllFit(s, n)
    ensures (forall m :: ResolvesIn(m, p, s, n, path)) <==> LandsInBatch(p, s, n, path)
  {
    hide ResolvesIn, LandsInBatch, ParsePath, AllFit;
    forall m
      ensures LandsInBatch(p, s, n, path) ==> ResolvesIn(m, p, s, n, path)
    {
      ResolvesIfItem(m, p, s, n, path);
      LandsParses(p, s, n, path);
    }
    ResolvesIfItem(map[], p, s, n, path);
    if ParsePath(path).Ok? {
      NothingBelowEmpty(ParsePath(path).value);
    }
    assert (forall m :: ResolvesIn(m, p, s, n, path)) ==> ResolvesIn(map[], p, s, n, path);
  }

  lemma LandsParses(p: seq<string>, s: seq<Object>, n: nat, path: string)
    requires AllFit(s, n)
    ensures LandsInBatch(p, s, n, path) ==> ParsePath(path).Ok?
  {
  }

  /** With addressable names, and ids for keys below the top, every reported path lands. */
  lemma ReportedPathsLand(base: string, s: seq<Object>, n: nat, path: string)
    requires AllFit(s, n) && (forall o | o in s :: WellNamed(o, n))
    requires ParsePath(base).Ok? && path in CollectItemPaths(base, s, n)
    ensures LandsInBatch(ParsePath(base).value, s, n, path)
  {
    hide ParsePath, WellNamed, WithinDepth, MergeEach, GoodPath;
    var o := CollectedFrom(base, s, n, path);
    var r := WalkFinds(base, o, n, path);
    ParseBelow(base, r);
    InBatch(map[], s, n, o, r);
    var p := ParsePath(base).value;
    assert (p + r)[|p|..] == r && p <= p + r;
  }

  /** So after a tree write every such path resolves to an item, in every tree. */
  lemma ReportedPathsResolve(m: Objects, base: string, s: seq<Object>, n: nat, path: string)
    requires AllFit(s, n) && (forall o | o in s :: WellNamed(o, n))
    requires ParsePath(base).Ok? && path in CollectItemPaths(base, s, n)
    ensures ResolvesIn(m, ParsePath(base).value, s, n, path)
  {
    hide ResolvesIn, LandsInBatch, WellNamed, CollectItemPaths, AllFit, ParsePath;
    ReportedPathsLand(base, s, n, path);
    ResolvesIffLands(ParsePath(base).value, s, n, path);
  }

  /** A child kept under a key that is not its id is reported where it is not. */
  lemma MiskeyedChildMissed(item: InfoItem)
    ensures var o := Object("A", None, None, None, Some(map["k" := Object("x", None, None, Some(map["i" := item]), None)]));
            && WithinDepth(Kids(o), 1) && AllFit([o], 1)
            && CollectItemPaths("/", [o], 1) == ["/A/x/i"]
            && !LandsInBatch([], [o], 1, "/A/x/i")
            && !(forall m :: ResolvesIn(m, [], [o], 1, "/A/x/i"))
            && LandsInBatch([], [o], 1, "/A/k/i")
  {
    hide WithinDepth, WalkObject, ParsePath, CollectItemPaths, AllFit, Kids, LandsInBatch, ResolvesIn;
    var o := Object("A", None, None, None, Some(map["k" := Object("x", None, None, Some(map["i" := item]), None)]));
    WalkO(item);
    MiskeyedGone(item);
    ResolvesIffLands([], [o], 1, "/A/x/i");
  }

  lemma MiskeyedGone(item: InfoItem)
    ensures var o := Object("A", None, None, None, Some(map["k" := Object("x", None, None, Some(map["i" := item]), None)]));
            && WithinDepth(Kids(o), 1) && AllFit([o], 1)
            && !LandsInBatch([], [o], 1, "/A/x/i") && LandsInBatch([], [o], 1, "/A/k/i")
  {
    hide ParsePath, GoodSegment;
    var o := Object("A", None, None, None, Some(map["k" := Object("x", None, None, Some(map["i" := item]), None)]));
    assert WithinDepth(Kids(o), 1);
    assert Incoming([o], 1) == MergeEach(One(o), [], 1) == One(o) by {
      assert [o][1..] == [];
      assert map["A" := o] == One(o);
    }
    LettersAreGood();
    ParseAxi("x");
    ParseAxi("k");
    assert "/A/" + "x" + "/i" == "/A/x/i" && "/A/" + "k" + "/i" == "/A/k/i";
    ItemsOfO(item, "x");
    ItemsOfO(item, "k");
  }

  lemma ItemsOfO(item: InfoItem, k: string)
    ensures var o := Object("A", None, None, None, Some(map["k" := Object("x", None, None, Some(map["i" := item]), None)]));
            ItemAt(One(o), ["A", k, "i"][0..]) == if k == "k" then Some(item) else None
  {
    var o := Object("A", None, None, None, Some(map["k" := Object("x", None, None, Some(map["i" := item]), None)]));
    var q := ["A", k, "i"];
    assert q[0..] == q && q[1..] == [k, "i"];
  }

  lemma SortedNone()
    ensures Sorted({}) == []
  {
  }

  lemma SortedOne(k: string)
    ensures Sorted({k}) == [k]
  {
    var s := {k};
    assert SortedMap.Least(s) in s;
    assert s - {k} == {};
    SortedNone();
    assert SortedMap.SortedKeys(s) == [k] + SortedMap.SortedKeys({});
  }

  lemma WalkX(item: InfoItem)
    ensures var x := Object("x", None, None, Some(map["i" := item]), None);
            WithinDepth(Kids(x), 0) && WalkObject("/A", x, 0) == ["/A/x/i"]
  {
    var x := Object("x", None, None, Some(map["i" := item]), None);
    SortedOne("i");
    SortedNone();
    assert Items(x).Keys == {"i"} && Kids(x).Keys == {};
    assert Joined("/A", "x") == "/A/x";
    assert NamePaths("/A/x", ["i"]) == ["/A/x" + "/" + "i"] + NamePaths("/A/x", []) by { assert ["i"][1..] == []; }
    assert "/A/x" + "/" + "i" == "/A/x/i";
  }

  lemma WalkO(item: InfoItem)
    ensures var o := Object("A", None, None, None, Some(map["k" := Object("x", None, None, Some(map["i" := item]), None)]));
            && WithinDepth(Kids(o), 1) && AllFit([o], 1) && CollectItemPaths("/", [o], 1) == ["/A/x/i"]
  {
    var x := Object("x", None, None, Some(map["i" := item]), None);
    var o := Object("A", None, None, None, Some(map["k" := x]));
    WalkX(item);
    SortedOne("k");
    SortedNone();
    assert Kids(o).Keys == {"k"} && Items(o).Keys == {};
    assert Joined("/", "A") == "/A";
    assert WithinDepth(Kids(o), 1);
    assert WalkKids("/A", Kids(o), [], 1) == [];
    assert WalkKids("/A", Kids(o), ["k"], 1) == WalkObject("/A", x, 0) + [] by { assert ["k"][1..] == []; }
    assert WalkObject("/", o, 1) == ["/A/x/i"];
    assert [o][1..] == [];
  }

  lemma ParseAxi(k: string)
    requires GoodSegment(k)
    ensures ParsePath("/A/" + k + "/i") == Ok(["A", k, "i"])
  {
    hide ParsePath, GoodSegment;
    assert Slashed(["i"]) == "/i" && Slashed([k, "i"]) == "/" + k + "/i";
    assert Spell(["A", k, "i"]) == "/A/" + k + "/i";
    assert GoodSegment("A") && GoodSegment("i") by { LettersAreGood(); }
    SpelledIsParsed(["A", k, "i"]);
  }

  lemma LettersAreGood()
    ensures GoodSegment("A") && GoodSegment("i") && GoodSegment("x") && GoodSegment("k")
  {
  }
}
