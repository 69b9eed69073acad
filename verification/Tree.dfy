/** The object tree as nested maps, and what each operation does path by path: the tree
    refines a finite map from item paths to histories. */
module Tree {
  import opened Wrappers
  import opened Odf
  import opened Paths

  function Items(o: Object): map<string, InfoItem> { if o.items.Some? then o.items.value else map[] }

  function Kids(o: Object): Objects { if o.objects.Some? then o.objects.value else map[] }

  // ----- what lies at a path -----

  function ObjAt(m: Objects, p: seq<string>): Option<Object>
    decreases |p|
  {
    if p == [] || p[0] !in m then None
    else if |p| == 1 then Some(m[p[0]])
    else ObjAt(Kids(m[p[0]]), p[1..])
  }

  function ItemAt(m: Objects, p: seq<string>): Option<InfoItem>
    decreases |p|
  {
    if |p| < 2 || p[0] !in m then None
    else if |p| > 2 then ItemAt(Kids(m[p[0]]), p[1..])
    else if p[1] in Items(m[p[0]]) then Some(Items(m[p[0]])[p[1]]) else None
  }

  datatype Label = Label(id: string, typeUri: Option<string>, desc: Option<string>)

  /** An object without its contents. */
  function LabelAt(m: Objects, p: seq<string>): Option<Label> {
    if ObjAt(m, p).None? then None
    else var o := ObjAt(m, p).value; Some(Label(o.id, o.typeUri, o.desc))
  }

  predicate Ancestor(q: seq<string>, p: seq<string>) { q != [] && q < p }

  // ----- resolve -----

  datatype Target = AtRoot(objects: Objects) | AtObject(obj: Object) | AtItem(item: InfoItem)

  function ResolveFrom(o: Object, segs: seq<string>): Result<Target, TreeError>
    decreases |segs|
  {
    if segs == [] then Ok(AtObject(o))
    else if |segs| == 1 then
      if segs[0] in Items(o) then Ok(AtItem(Items(o)[segs[0]]))
      else if segs[0] in Kids(o) then Ok(AtObject(Kids(o)[segs[0]]))
      else Err(NotFound)
    else if segs[0] in Kids(o) then ResolveFrom(Kids(o)[segs[0]], segs[1..])
    else Err(NotFound)
  }

  function Resolve(m: Objects, segs: seq<string>): Result<Target, TreeError> {
    if segs == [] then Ok(AtRoot(m))
    else if segs[0] !in m then Err(NotFound)
    else if |segs| == 1 then Ok(AtObject(m[segs[0]]))
    else ResolveFrom(m[segs[0]], segs[1..])
  }

  /** What a path means: the item there, or else the object there. */
  function TargetAt(m: Objects, p: seq<string>): Result<Target, TreeError> {
    if p == [] then Ok(AtRoot(m))
    else if ItemAt(m, p).Some? then Ok(AtItem(ItemAt(m, p).value))
    else if ObjAt(m, p).Some? then Ok(AtObject(ObjAt(m, p).value))
    else Err(NotFound)
  }

  lemma {:induction false} ResolveFromIs(m: Objects, p: seq<string>)
    requires |p| >= 2 && p[0] in m
    ensures ResolveFrom(m[p[0]], p[1..]) == TargetAt(m, p)
    decreases |p|
  {
    var kids, rest := Kids(m[p[0]]), p[1..];
    assert rest[0] == p[1] && ObjAt(m, p) == ObjAt(kids, rest);
    if |p| == 2 {
      return;
    }
    assert ItemAt(m, p) == ItemAt(kids, rest);
    if p[1] in kids {
      ResolveFromIs(kids, rest);
    }
  }

  /** The walk of resolve finds the item at the path, or else the object there. */
  lemma ResolveIs(m: Objects, p: seq<string>)
    ensures Resolve(m, p) == TargetAt(m, p)
  {
    if |p| > 1 && p[0] in m {
      ResolveFromIs(m, p);
    }
  }

  // ----- putting an item at a path -----

  function NewItemWith(old_: Option<InfoItem>, capacity: nat, v: Value): InfoItem {
    var item := if old_.Some? then old_.value else NewItem(capacity);
    item.(values := Push(item.values, v))
  }

  function PutItem(m: Objects, p: seq<string>, item: InfoItem): Objects
    requires |p| >= 2
    decreases |p|
  {
    var o := if p[0] in m then m[p[0]] else NewObject(p[0]);
    m[p[0] := if |p| == 2 then o.(items := Some(Items(o)[p[1] := item]))
              else o.(objects := Some(PutItem(Kids(o), p[1..], item)))]
  }

  lemma {:induction false} PutItemItems(m: Objects, p: seq<string>, item: InfoItem, q: seq<string>)
    requires |p| >= 2
    ensures ItemAt(PutItem(m, p, item), q) == if q == p then Some(item) else ItemAt(m, q)
    decreases |p|
  {
    if |q| >= 2 && q[0] == p[0] {
      var o := if p[0] in m then m[p[0]] else NewObject(p[0]);
      assert q == [q[0]] + q[1..] && p == [p[0]] + p[1..];
      if |p| > 2 {
        PutItemItems(Kids(o), p[1..], item, q[1..]);
      } else if |q| == 2 {
        assert q[1..] == [q[1]] && p[1..] == [p[1]];
      }
    }
  }

  lemma {:induction false} PutItemLabels(m: Objects, p: seq<string>, item: InfoItem, q: seq<string>)
    requires |p| >= 2
    ensures LabelAt(PutItem(m, p, item), q) ==
            if LabelAt(m, q).None? && Ancestor(q, p) then Some(Label(q[|q| - 1], None, None)) else LabelAt(m, q)
    decreases |p|
  {
    if q != [] && q[0] == p[0] {
      var o := if p[0] in m then m[p[0]] else NewObject(p[0]);
      assert q == [q[0]] + q[1..] && p == [p[0]] + p[1..];
      NothingBelowEmpty(q[1..]);
      if |p| > 2 && |q| > 1 {
        PutItemLabels(Kids(o), p[1..], item, q[1..]);
      }
    }
  }

  // ----- resolve_mut -----

  /** The mutable walk: what it finds, and the tree after an item found has been edited
      through the reference it gives. */
  function EditFrom(o: Object, segs: seq<string>, edit: InfoItem -> InfoItem): (Object, Result<Target, TreeError>)
    decreases |segs|
  {
    if segs == [] then (o, Ok(AtObject(o)))
    else
      var name := segs[0];
      if |segs| == 1 then
        var hasItem, hasChild := name in Items(o), name in Kids(o);
        if hasItem then (o.(items := Some(Items(o)[name := edit(Items(o)[name])])), Ok(AtItem(Items(o)[name])))
        else if hasChild then (o, Ok(AtObject(Kids(o)[name])))
        else (o, Err(NotFound))
      else if name !in Kids(o) then (o, Err(NotFound))
      else
        var (child, r) := EditFrom(Kids(o)[name], segs[1..], edit);
        (o.(objects := Some(Kids(o)[name := child])), r)
  }

  function EditAt(m: Objects, segs: seq<string>, edit: InfoItem -> InfoItem): (Objects, Result<Target, TreeError>) {
    if segs == [] then (m, Ok(AtRoot(m)))
    else if segs[0] !in m then (m, Err(NotFound))
    else if |segs| == 1 then (m, Ok(AtObject(m[segs[0]])))
    else
      var (o, r) := EditFrom(m[segs[0]], segs[1..], edit);
      (m[segs[0] := o], r)
  }

  lemma {:induction false} EditFromIs(o: Object, segs: seq<string>, edit: InfoItem -> InfoItem, m: Objects, key: string)
    requires segs != [] && key in m && m[key] == o
    ensures EditFrom(o, segs, edit).1 == ResolveFrom(o, segs)
    ensures ItemAt(m, [key] + segs).Some? ==>
              m[key := EditFrom(o, segs, edit).0] == PutItem(m, [key] + segs, edit(ItemAt(m, [key] + segs).value))
    ensures ItemAt(m, [key] + segs).None? ==> EditFrom(o, segs, edit).0 == o
    decreases |segs|
  {
    var p := [key] + segs;
    assert p[1..] == segs && p[0] == key && p[1] == segs[0];
    if |segs| > 1 && segs[0] in Kids(o) {
      var child := Kids(o)[segs[0]];
      EditFromIs(child, segs[1..], edit, Kids(o), segs[0]);
      assert segs == [segs[0]] + segs[1..];
      assert ItemAt(m, p) == ItemAt(Kids(o), segs);
      assert Kids(o)[segs[0] := child] == Kids(o);
    }
  }

  /** resolve_mut finds what resolve finds, and editing an item through it changes exactly
      that item; anything else it finds, or an error, leaves the tree as it was. */
  lemma ResolveMutAgrees(m: Objects, p: seq<string>, edit: InfoItem -> InfoItem)
    ensures EditAt(m, p, edit).1 == Resolve(m, p)
    ensures EditAt(m, p, edit).0 ==
            if ItemAt(m, p).Some? then PutItem(m, p, edit(ItemAt(m, p).value)) else m
  {
    if |p| > 1 && p[0] in m {
      EditFromIs(m[p[0]], p[1..], edit, m, p[0]);
      assert p == [p[0]] + p[1..];
      assert m[p[0] := m[p[0]]] == m;
    }
  }

  // ----- write_value -----

  /** The walk of write_value: missing objects and a missing item are created on the way. */
  function WriteValueAt(m: Objects, p: seq<string>, capacity: nat, v: Value): (Objects, bool)
    requires |p| >= 2
    decreases |p|
  {
    var missing := p[0] !in m;
    var o := if missing then NewObject(p[0]) else m[p[0]];
    if |p| == 2 then
      var fresh_ := p[1] !in Items(o);
      var item := if fresh_ then NewItem(capacity) else Items(o)[p[1]];
      (m[p[0] := o.(items := Some(Items(o)[p[1] := item.(values := Push(item.values, v))]))], missing || fresh_)
    else
      var (kids, below) := WriteValueAt(Kids(o), p[1..], capacity, v);
      (m[p[0] := o.(objects := Some(kids))], missing || below)
  }

  lemma {:induction false} NothingBelowEmpty(p: seq<string>)
    ensures ItemAt(map[], p) == None && ObjAt(map[], p) == None
  {
  }

  /** It puts the old history with one more value at the path, and reports creation
      exactly when no item was there. */
  lemma {:induction false} WriteValuePuts(m: Objects, p: seq<string>, capacity: nat, v: Value)
    requires |p| >= 2
    ensures WriteValueAt(m, p, capacity, v) ==
            (PutItem(m, p, NewItemWith(ItemAt(m, p), capacity, v)), ItemAt(m, p).None?)
    decreases |p|
  {
    var o := if p[0] in m then m[p[0]] else NewObject(p[0]);
    if |p| > 2 {
      WriteValuePuts(Kids(o), p[1..], capacity, v);
      NothingBelowEmpty(p[1..]);
    }
  }

  // ----- delete -----

  function RemoveItem(o: Object, name: string): (Object, bool) {
    if o.items.None? then (o, false)
    else
      var rest := o.items.value - {name};
      (o.(items := if rest == map[] then None else Some(rest)), name in o.items.value)
  }

  function RemoveChild(o: Object, name: string): (Object, bool) {
    if o.objects.None? then (o, false)
    else
      var rest := o.objects.value - {name};
      (o.(objects := if rest == map[] then None else Some(rest)), name in o.objects.value)
  }

  /** As an item first, then as a child. */
  function RemoveFrom(o: Object, name: string): (Object, bool) {
    var (o', done) := RemoveItem(o, name);
    if done then (o', true) else RemoveChild(o', name)
  }

  function DeleteAt(m: Objects, p: seq<string>): (Objects, Result<(), TreeError>)
    decreases |p|
  {
    if p == [] then (m, Err(Forbidden))
    else if p[0] !in m then (m, Err(NotFound))
    else if |p| == 1 then (m - {p[0]}, Ok(()))
    else if |p| == 2 then
      var (o, done) := RemoveFrom(m[p[0]], p[1]);
      (m[p[0] := o], if done then Ok(()) else Err(NotFound))
    else
      var (kids, r) := DeleteAt(Kids(m[p[0]]), p[1..]);
      (if m[p[0]].objects.None? then m else m[p[0] := m[p[0]].(objects := Some(kids))], r)
  }

  lemma RemoveFromItems(o: Object, name: string)
    ensures var (o', done) := RemoveFrom(o, name);
            && Items(o') == Items(o) - {name}
            && Kids(o') == (if name in Items(o) then Kids(o) else Kids(o) - {name})
            && done == (name in Items(o) || name in Kids(o))
            && o'.id == o.id && o'.typeUri == o.typeUri && o'.desc == o.desc
  {
    var (o1, done) := RemoveItem(o, name);
    assert Items(o1) == Items(o) - {name};
    if !done {
      assert Kids(RemoveChild(o1, name).0) == Kids(o) - {name};
    }
  }

  /** The result: Ok exactly when something is there. */
  lemma {:induction false} DeleteAnswers(m: Objects, p: seq<string>)
    ensures DeleteAt(m, p).1 ==
            if p == [] then Err(Forbidden) else if TargetAt(m, p).Ok? then Ok(()) else Err(NotFound)
    decreases |p|
  {
    if |p| >= 2 && p[0] in m {
      if |p| == 2 {
        RemoveFromItems(m[p[0]], p[1]);
        assert p[1..] == [p[1]] && p[1..][0] == p[1];
        assert ObjAt(m, p) == ObjAt(Kids(m[p[0]]), p[1..]);
      } else {
        DeleteAnswers(Kids(m[p[0]]), p[1..]);
      }
    }
  }

  /** Whether deleting `p` takes `q` away with it. */
  predicate Gone(m: Objects, p: seq<string>, q: seq<string>) {
    p != [] && ItemAt(m, p).None? && p <= q
  }

  lemma {:induction false} DeleteItems(m: Objects, p: seq<string>, q: seq<string>)
    ensures ItemAt(DeleteAt(m, p).0, q) ==
            if q == p || Gone(m, p, q) then None else ItemAt(m, q)
    decreases |p|
  {
    if p != [] && p[0] in m && |q| >= 2 {
      assert q == [q[0]] + q[1..] && p == [p[0]] + p[1..];
      if q[0] == p[0] {
        if |p| == 2 {
          RemoveFromItems(m[p[0]], p[1]);
          assert p[1..] == [p[1]];
          assert p <= q <==> q[1] == p[1];
          assert |q| == 2 ==> q[1..] == [q[1]];
        } else if |p| > 2 {
          DeleteItems(Kids(m[p[0]]), p[1..], q[1..]);
        }
      }
    } else if p != [] && p[0] !in m {
      assert p <= q ==> q[0] == p[0];
    }
  }

  lemma {:induction false} DeleteObjects(m: Objects, p: seq<string>, q: seq<string>)
    ensures LabelAt(DeleteAt(m, p).0, q) == if Gone(m, p, q) then None else LabelAt(m, q)
    decreases |p|
  {
    if p != [] && p[0] in m && q != [] {
      assert q == [q[0]] + q[1..] && p == [p[0]] + p[1..];
      if q[0] == p[0] {
        if |p| == 2 {
          RemoveFromItems(m[p[0]], p[1]);
          assert p[1..] == [p[1]];
          if |q| >= 2 {
            assert p <= q <==> q[1] == p[1];
            var o := DeleteAt(m, p).0[p[0]];
            assert ObjAt(DeleteAt(m, p).0, q) == ObjAt(Kids(o), q[1..]);
            assert ObjAt(m, q) == ObjAt(Kids(m[p[0]]), q[1..]);
          }
        } else if |p| > 2 && |q| > 1 {
          DeleteObjects(Kids(m[p[0]]), p[1..], q[1..]);
        }
      }
    } else if p != [] && p[0] !in m {
      assert p <= q ==> q[0] == p[0];
    }
  }

  /** A child hidden by an item of the same name comes out unchanged. */
  lemma {:induction false} ShadowedChildAppears(m: Objects, p: seq<string>)
    requires ItemAt(m, p).Some?
    ensures ObjAt(DeleteAt(m, p).0, p) == ObjAt(m, p)
    ensures TargetAt(DeleteAt(m, p).0, p) ==
            if ObjAt(m, p).Some? then Ok(AtObject(ObjAt(m, p).value)) else Err(NotFound)
    decreases |p|
  {
    DeleteItems(m, p, p);
    if |p| == 2 {
      RemoveFromItems(m[p[0]], p[1]);
    } else {
      ShadowedChildAppears(Kids(m[p[0]]), p[1..]);
    }
  }
}
