/** The object tree as the engine holds it: one map of root objects, changed in place. */
module ObjectTree {
  import opened Wrappers
  import opened Floats
  import opened Odf
  import opened Paths
  import opened Tree
  import opened Merge
  import opened WriteTree

  const DEFAULT_ITEM_CAPACITY := 100

  function ResolvePath(m: Objects, path: string): Result<Target, TreeError> {
    var p :- ParsePath(path);
    TargetAt(m, p)
  }

  /** A path that can take a value: an object and an item at least. */
  function ValuePath(path: string): (r: Result<seq<string>, TreeError>)
    ensures r.Ok? ==> |r.value| >= 2 && GoodPath(r.value)
  {
    var p :- ParsePath(path);
    if |p| < 2 then Err(InvalidPath) else (ParsedIsGood(path); Ok(p))
  }

  function Marked(item: InfoItem): (r: InfoItem)
    ensures IsWritable(r) && r.values == item.values
  {
    item.(meta := Some((if item.meta.Some? then item.meta.value else map[])["writable" := OmiBool(true)]))
  }

  class ObjectTree {
    var objects: Objects
    const defaultCapacity: nat

    constructor (capacity: nat)
      ensures objects == map[] && defaultCapacity == capacity
    {
      objects := map[];
      defaultCapacity := capacity;
    }

    method Resolve(path: string) returns (r: Result<Target, TreeError>)
      ensures r == ResolvePath(objects, path)
    {
      var segments :- ParsePath(path);
      ResolveIs(objects, segments);
      return Tree.Resolve(objects, segments);
    }

    /** Appends to exactly the addressed item; true when that item was not there. */
    method WriteValue(path: string, v: OmiValue, t: Option<F64>) returns (r: Result<bool, TreeError>)
      modifies this
      ensures r.Err? <==> ValuePath(path).Err?
      ensures r.Err? ==> r.error == ValuePath(path).error && objects == old(objects)
      ensures r.Ok? ==>
        var p := ValuePath(path).value;
        var item := NewItemWith(ItemAt(old(objects), p), defaultCapacity, Value(v, t));
        && r.value == ItemAt(old(objects), p).None?
        && objects == PutItem(old(objects), p, item)
        && (forall q :: ItemAt(objects, q) == if q == p then Some(item) else ItemAt(old(objects), q))
        && (forall q :: LabelAt(objects, q) == if LabelAt(old(objects), q).None? && Ancestor(q, p)
                                               then Some(Label(q[|q| - 1], None, None)) else LabelAt(old(objects), q))
    {
      hide ParsePath, PutItem, WriteValueAt;
      var segments :- ParsePath(path);
      if segments == [] {
        return Err(InvalidPath);
      }
      if |segments| < 2 {
        return Err(InvalidPath);
      }
      ghost var item := NewItemWith(ItemAt(objects, segments), defaultCapacity, Value(v, t));
      WriteValuePuts(objects, segments, defaultCapacity, Value(v, t));
      forall q {
        PutItemItems(objects, segments, item, q);
      }
      forall q {
        PutItemLabels(objects, segments, item, q);
      }
      var (written, created) := WriteValueAt(objects, segments, defaultCapacity, Value(v, t));
      objects := written;
      return Ok(created);
    }

    /** Merges a batch under a path; `n` bounds the depth of its objects. */
    method WriteTree(path: string, batch: Objects, n: nat) returns (r: Result<(), TreeError>)
      requires WithinDepth(batch, n + 1)
      modifies this
      ensures r.Err? ==> ParsePath(path) == Err(r.error) && objects == old(objects)
      ensures r.Ok? ==> ParsePath(path).Ok?
      ensures AllFit(InOrder(batch), n)
      ensures r.Ok? ==>
        var p, incoming := ParsePath(path).value, Incoming(InOrder(batch), n);
        && objects == WriteTreeAt(old(objects), p, InOrder(batch), n)
        && forall q :: ItemAt(objects, q) ==
             if p <= q then Override(ItemAt(old(objects), q), ItemAt(incoming, q[|p|..])) else ItemAt(old(objects), q)
    {
      hide ParsePath, WriteTreeAt, MergeEach, WithinDepth, InOrder;
      InOrderFits(batch, n);
      var segments :- ParsePath(path);
      forall q {
        WriteTreeItems(objects, segments, InOrder(batch), n, q);
      }
      objects := WriteTreeAt(objects, segments, InOrder(batch), n);
      return Ok(());
    }

    /** Takes away the item at the path, or else the object there with all below it. */
    method Delete(path: string) returns (r: Result<(), TreeError>)
      modifies this
      ensures ParsePath(path).Err? ==> r == Err(ParsePath(path).error) && objects == old(objects)
      ensures ParsePath(path).Ok? ==>
        var p := ParsePath(path).value;
        && (objects, r) == DeleteAt(old(objects), p)
        && r == (if p == [] then Err(Forbidden) else if ResolvePath(old(objects), path).Ok? then Ok(()) else Err(NotFound))
        && (forall q :: ItemAt(objects, q) == if q == p || Gone(old(objects), p, q) then None else ItemAt(old(objects), q))
        && (forall q :: LabelAt(objects, q) == if Gone(old(objects), p, q) then None else LabelAt(old(objects), q))
        && (ItemAt(old(objects), p).Some? ==> ObjAt(objects, p) == ObjAt(old(objects), p))
    {
      hide ParsePath, DeleteAt;
      if ParsePath(path).Err? {
        return Err(ParsePath(path).error);
      }
      var segments := ParsePath(path).value;
      DeleteAnswers(objects, segments);
      forall q {
        DeleteItems(objects, segments, q);
      }
      forall q {
        DeleteObjects(objects, segments, q);
      }
      if ItemAt(objects, segments).Some? {
        ShadowedChildAppears(objects, segments);
      }
      var (rest, answer) := DeleteAt(objects, segments);
      objects := rest;
      return answer;
    }

    /** Writes through the reference that the mutable walk gives to an item. */
    method MarkWritable(path: string)
      modifies this
      ensures var p := ParsePath(path);
        objects == (if p.Ok? && ItemAt(old(objects), p.value).Some? then
                      PutItem(old(objects), p.value, Marked(ItemAt(old(objects), p.value).value))
                    else old(objects))
    {
      hide ParsePath, EditAt;
      if ParsePath(path).Ok? {
        ResolveMutAgrees(objects, ParsePath(path).value, Marked);
        objects := EditAt(objects, ParsePath(path).value, Marked).0;
      }
    }
  }
}
