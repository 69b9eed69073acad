/** The discovery subtree: one item for each peer of the last browse, stale ones removed. */
module Discovery {
  import opened Wrappers
  import opened Floats
  import opened Odf
  import opened Paths
  import opened Tree
  import opened Merge
  import opened ItemPaths
  import opened ObjectTree
  import SortedMap

  const ROOT: seq<string> := ["System", "discovery"]
  const PATH_DISCOVERY := "/System/discovery"

  /** A host and its "ip:port". */
  datatype Peer = Peer(hostname: string, address: string)

  function Hosts(peers: seq<Peer>): set<string> { set p | p in peers :: p.hostname }

  function NamesAt(m: Objects): seq<string> {
    var o := TargetAt(m, ROOT);
    if o.Ok? && o.value.AtObject? then Sorted(Items(o.value.obj).Keys) else []
  }

  function PathOf(name: string): Result<seq<string>, TreeError> { ParsePath(PATH_DISCOVERY + "/" + name) }

  // ----- what the two loops do to the tree -----

  function Pruned(m: Objects, names: seq<string>, live: set<string>): (Objects, nat)
    decreases |names|
  {
    if names == [] then (m, 0)
    else if names[0] in live || PathOf(names[0]).Err? then Pruned(m, names[1..], live)
    else
      var (m', r) := DeleteAt(m, PathOf(names[0]).value);
      var (end, n) := Pruned(m', names[1..], live);
      (end, if r.Ok? then n + 1 else n)
  }

  function Told(m: Objects, peers: seq<Peer>, capacity: nat, now: Option<F64>): Objects
    decreases |peers|
  {
    if peers == [] then m
    else
      var p := ValuePath(PATH_DISCOVERY + "/" + peers[0].hostname);
      Told(if peers[0].hostname == "" || p.Err? then m
           else PutItem(m, p.value, NewItemWith(ItemAt(m, p.value), capacity, Value(OmiStr(peers[0].address), now))),
           peers[1..], capacity, now)
  }

  function Updated(m: Objects, peers: seq<Peer>, capacity: nat, now: Option<F64>): Objects {
    Told(Pruned(m, NamesAt(m), Hosts(peers)).0, peers, capacity, now)
  }

  method UpdateDiscoveryTree(tree: ObjectTree, peers: seq<Peer>, now: Option<F64>) returns (removed: nat)
    modifies tree
    ensures tree.objects == Updated(old(tree.objects), peers, tree.defaultCapacity, now)
    ensures removed == Pruned(old(tree.objects), NamesAt(old(tree.objects)), Hosts(peers)).1
  {
    hide DeleteAt, PutItem, ParsePath, ItemAt, TargetAt;
    var root := tree.Resolve(PATH_DISCOVERY);
    RootParses();
    var names := if root.Ok? && root.value.AtObject? then Sorted(Items(root.value.obj).Keys) else [];
    var live := Hosts(peers);
    removed := 0;
    for i := 0 to |names|
      invariant Pruned(old(tree.objects), names, live).0 == Pruned(tree.objects, names[i..], live).0
      invariant Pruned(old(tree.objects), names, live).1 == removed + Pruned(tree.objects, names[i..], live).1
    {
      assert names[i..][1..] == names[i + 1..];
      if names[i] !in live {
        var done := tree.Delete(PATH_DISCOVERY + "/" + names[i]);
        if done.Ok? {
          removed := removed + 1;
        }
      }
    }
    for i := 0 to |peers|
      invariant Told(tree.objects, peers[i..], tree.defaultCapacity, now) == Updated(old(tree.objects), peers, tree.defaultCapacity, now)
    {
      assert peers[i..][1..] == peers[i + 1..];
      if peers[i].hostname == "" {
        continue;
      }
      var _ := tree.WriteValue(PATH_DISCOVERY + "/" + peers[i].hostname, OmiStr(peers[i].address), now);
    }
  }

  lemma RootParses()
    ensures ParsePath(PATH_DISCOVERY) == Ok(ROOT)
  {
    hide ParsePath;
    assert Slashed(["discovery"]) == "/discovery" && Slashed(ROOT) == PATH_DISCOVERY;
    assert GoodSegment("System") && GoodSegment("discovery");
    SpelledIsParsed(ROOT);
  }

  // ----- only below the discovery object -----

  lemma {:induction false} SplitJoined(a: string, b: string)
    ensures Split(a + "/" + b) == Split(a) + Split(b)
    decreases |a|
  {
    if a == "" {
      assert (a + "/" + b)[1..] == b && (a + "/" + b)[0] == '/';
    } else {
      assert (a + "/" + b)[1..] == a[1..] + "/" + b;
      SplitJoined(a[1..], b);
    }
  }

  /** Whatever the name, its path lies below the discovery object. */
  lemma PathIsBelow(name: string)
    ensures PathOf(name).Ok? ==> ROOT < PathOf(name).value && ValuePath(PATH_DISCOVERY + "/" + name) == PathOf(name)
  {
    hide Split, TrimAll;
    var path := PATH_DISCOVERY + "/" + name;
    RootParses();
    assert path[1..] == PATH_DISCOVERY[1..] + "/" + name;
    SplitJoined(PATH_DISCOVERY[1..], name);
    TrimAllAppend(Split(PATH_DISCOVERY[1..]), Split(name));
    assert |path| > 1 && path != "/";
  }

  lemma ValuePathBelow(name: string)
    ensures ValuePath(PATH_DISCOVERY + "/" + name) == PathOf(name)
  {
    hide ParsePath;
    PathIsBelow(name);
  }

  predicate Elsewhere(q: seq<string>) { !(ROOT < q) }

  lemma {:induction false} PrunedElsewhere(m: Objects, names: seq<string>, live: set<string>, q: seq<string>)
    requires Elsewhere(q)
    ensures ItemAt(Pruned(m, names, live).0, q) == ItemAt(m, q)
    decreases |names|
  {
    hide ItemAt, DeleteAt, PathOf;
    if names != [] {
      PathIsBelow(names[0]);
      if names[0] in live || PathOf(names[0]).Err? {
        PrunedElsewhere(m, names[1..], live, q);
      } else {
        var p := PathOf(names[0]).value;
        DeleteItems(m, p, q);
        PrunedElsewhere(DeleteAt(m, p).0, names[1..], live, q);
      }
    }
  }

  lemma {:induction false} ToldElsewhere(m: Objects, peers: seq<Peer>, capacity: nat, now: Option<F64>, q: seq<string>)
    requires Elsewhere(q)
    ensures ItemAt(Told(m, peers, capacity, now), q) == ItemAt(m, q)
    decreases |peers|
  {
    hide ItemAt, PutItem, PathOf, ValuePath;
    if peers != [] {
      var name := peers[0].hostname;
      PathIsBelow(name);
      ValuePathBelow(name);
      var p := ValuePath(PATH_DISCOVERY + "/" + name);
      if name == "" || p.Err? {
        ToldElsewhere(m, peers[1..], capacity, now, q);
      } else {
        var item := NewItemWith(ItemAt(m, p.value), capacity, Value(OmiStr(peers[0].address), now));
        PutItemItems(m, p.value, item, q);
        ToldElsewhere(PutItem(m, p.value, item), peers[1..], capacity, now, q);
      }
    }
  }

  /** No host name, however spelled, reaches an item outside the discovery object. */
  lemma UpdateStaysInside(m: Objects, peers: seq<Peer>, capacity: nat, now: Option<F64>, q: seq<string>)
    requires Elsewhere(q)
    ensures ItemAt(Updated(m, peers, capacity, now), q) == ItemAt(m, q)
  {
    PrunedElsewhere(m, NamesAt(m), Hosts(peers), q);
    ToldElsewhere(Pruned(m, NamesAt(m), Hosts(peers)).0, peers, capacity, now, q);
  }

  // ----- exactly the live peers, when names can be addressed -----

  lemma GoodPathOf(name: string)
    requires GoodSegment(name)
    ensures PathOf(name) == Ok(ROOT + [name]) == ValuePath(PATH_DISCOVERY + "/" + name)
  {
    hide ParsePath, GoodSegment;
    RootParses();
    ValuePathBelow(name);
    assert GoodPath([name]);
    ParseBelow(PATH_DISCOVERY, [name]);
    assert Slashed([name]) == "/" + name + Slashed([]);
    assert Below(PATH_DISCOVERY, [name]) == PATH_DISCOVERY + "/" + name;
  }

  predicate Distinct(names: seq<string>) { names == [] || (names[0] !in names[1..] && Distinct(names[1..])) }

  function Stale(names: seq<string>, live: set<string>): nat {
    if names == [] then 0 else (if names[0] in live then 0 else 1) + Stale(names[1..], live)
  }

  lemma {:induction false} PrunedPeers(m: Objects, names: seq<string>, live: set<string>, h: string)
    requires Distinct(names)
    requires forall n | n in names :: GoodSegment(n) && ItemAt(m, ROOT + [n]).Some?
    ensures Pruned(m, names, live).1 == Stale(names, live)
    ensures ItemAt(Pruned(m, names, live).0, ROOT + [h]) ==
            if h in names && h !in live then None else ItemAt(m, ROOT + [h])
    decreases |names|
  {
    hide ItemAt, DeleteAt, PathOf, ObjAt, GoodSegment;
    if names != [] {
      var n, rest := names[0], names[1..];
      assert n in names && forall x | x in rest :: x in names && x != n;
      GoodPathOf(n);
      if n in live {
        PrunedPeers(m, rest, live, h);
      } else {
        var p := ROOT + [n];
        var m' := DeleteAt(m, p).0;
        DeleteAnswers(m, p);
        forall x | x in rest
          ensures ItemAt(m', ROOT + [x]).Some?
        {
          DeleteItems(m, p, ROOT + [x]);
          assert (ROOT + [x])[2] == x && p[2] == n;
        }
        DeleteItems(m, p, ROOT + [h]);
        assert (ROOT + [h])[2] == h && p[2] == n;
        PrunedPeers(m', rest, live, h);
      }
    }
  }

  function LastAddress(peers: seq<Peer>, h: string): Option<string>
    decreases |peers|
  {
    if peers == [] then None
    else if LastAddress(peers[1..], h).Some? then LastAddress(peers[1..], h)
    else if peers[0].hostname == h then Some(peers[0].address) else None
  }

  function Newest(o: Option<InfoItem>): Option<Value> {
    if o.None? || o.value.values.vals == [] then None else Some(o.value.values.vals[|o.value.values.vals| - 1])
  }

  predicate Writable(o: Option<InfoItem>) { o.Some? && IsWritable(o.value) }

  lemma {:induction false} ToldPeers(m: Objects, peers: seq<Peer>, capacity: nat, now: Option<F64>, h: string)
    requires forall p | p in peers :: p.hostname == "" || GoodSegment(p.hostname)
    requires h != ""
    ensures var end := ItemAt(Told(m, peers, capacity, now), ROOT + [h]);
            match LastAddress(peers, h)
            case None => end == ItemAt(m, ROOT + [h])
            case Some(a) => Newest(end) == Some(Value(OmiStr(a), now)) && (Writable(end) ==> Writable(ItemAt(m, ROOT + [h])))
    decreases |peers|
  {
    hide ItemAt, PutItem, PathOf, ValuePath, GoodSegment;
    if peers != [] {
      var name := peers[0].hostname;
      assert peers[0] in peers && forall x | x in peers[1..] :: x in peers;
      if name == "" {
        ToldPeers(m, peers[1..], capacity, now, h);
      } else {
        GoodPathOf(name);
        var p := ROOT + [name];
        var item := NewItemWith(ItemAt(m, p), capacity, Value(OmiStr(peers[0].address), now));
        PutItemItems(m, p, item, ROOT + [h]);
        assert (ROOT + [h])[2] == h && p[2] == name;
        ToldPeers(PutItem(m, p, item), peers[1..], capacity, now, h);
      }
    }
  }

  lemma {:induction false} LastAddressIs(peers: seq<Peer>, h: string)
    ensures LastAddress(peers, h).Some? <==> h in Hosts(peers)
    decreases |peers|
  {
    if peers != [] {
      LastAddressIs(peers[1..], h);
      assert peers == [peers[0]] + peers[1..];
      assert h in Hosts(peers) <==> peers[0].hostname == h || h in Hosts(peers[1..]);
    }
  }

  lemma {:induction false} RisingDistinct(names: seq<string>)
    requires forall i, j | 0 <= i < j < |names| :: SortedMap.Less(names[i], names[j])
    ensures Distinct(names)
    decreases |names|
  {
    if names != [] {
      forall j | 1 <= j < |names|
        ensures names[j] != names[0]
      {
        SortedMap.LessTotal(names[0], names[j]);
      }
      RisingDistinct(names[1..]);
    }
  }

  lemma NamesAre(m: Objects, h: string)
    requires ItemAt(m, ROOT).None?
    ensures Distinct(NamesAt(m))
    ensures h in NamesAt(m) <==> ItemAt(m, ROOT + [h]).Some?
  {
    var o := ObjAt(m, ROOT);
    assert ROOT[1..] == ["discovery"] && (ROOT + [h])[1..] == ["discovery", h] && ["discovery", h][1..] == [h];
    if o.Some? {
      SortedMap.SortedKeysCover(Items(o.value).Keys);
      SortedMap.SortedKeysAscend(Items(o.value).Keys);
      RisingDistinct(Sorted(Items(o.value).Keys));
    }
  }

  /** When no item hides the discovery object and all names can be addressed: afterwards
      exactly the hosts of the browse have an item, each with its last address newest;
      none has become writable; and the count returned is that of the stale names. */
  lemma ExactlyLivePeers(m: Objects, peers: seq<Peer>, capacity: nat, now: Option<F64>, h: string)
    requires ItemAt(m, ROOT).None?
    requires forall n | n in NamesAt(m) :: GoodSegment(n)
    requires forall p | p in peers :: p.hostname == "" || GoodSegment(p.hostname)
    requires h != ""
    ensures var after := ItemAt(Updated(m, peers, capacity, now), ROOT + [h]);
            && (after.Some? <==> h in Hosts(peers))
            && (h in Hosts(peers) ==>
                  LastAddress(peers, h).Some? && Newest(after) == Some(Value(OmiStr(LastAddress(peers, h).value), now)))
            && (Writable(after) ==> Writable(ItemAt(m, ROOT + [h])))
    ensures Pruned(m, NamesAt(m), Hosts(peers)).1 == Stale(NamesAt(m), Hosts(peers))
  {
    hide ItemAt, Pruned, Told, NamesAt, GoodSegment, Hosts;
    forall n
      ensures n in NamesAt(m) <==> ItemAt(m, ROOT + [n]).Some?
    {
      NamesAre(m, n);
    }
    NamesAre(m, h);
    PrunedPeers(m, NamesAt(m), Hosts(peers), h);
    LastAddressIs(peers, h);
    ToldPeers(Pruned(m, NamesAt(m), Hosts(peers)).0, peers, capacity, now, h);
  }
}
