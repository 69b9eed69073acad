/** The O-DF data: values, histories, items and objects. */
module Odf {
  import opened Wrappers
  import opened Floats

  datatype OmiValue = OmiNull | OmiBool(b: bool) | OmiNumber(n: F64) | OmiStr(s: string)

  /** A timestamped value. */
  datatype Value = Value(v: OmiValue, t: Option<F64>)

  /** The logical contents of a ring buffer, oldest value first. */
  datatype Ring = Ring(capacity: nat, vals: seq<Value>)

  function NewRing(capacity: nat): Ring { Ring(capacity, []) }

  function Push(r: Ring, v: Value): Ring {
    if |r.vals| < r.capacity || r.vals == [] then r.(vals := r.vals + [v])
    else r.(vals := r.vals[1..] + [v])
  }

  function PushAll(r: Ring, vs: seq<Value>): Ring
    decreases |vs|
  {
    if vs == [] then r else PushAll(Push(r, vs[0]), vs[1..])
  }

  lemma {:induction false} PushAllFits(r: Ring, vs: seq<Value>)
    requires |r.vals| + |vs| <= r.capacity
    ensures PushAll(r, vs) == r.(vals := r.vals + vs)
    decreases |vs|
  {
    if vs == [] {
      assert r.vals + vs == r.vals;
    } else {
      PushAllFits(Push(r, vs[0]), vs[1..]);
      assert r.vals + [vs[0]] + vs[1..] == r.vals + vs;
    }
  }

  datatype InfoItem = InfoItem(
    typeUri: Option<string>,
    desc: Option<string>,
    meta: Option<map<string, OmiValue>>,
    values: Ring
  )

  datatype Object = Object(
    id: string,
    typeUri: Option<string>,
    desc: Option<string>,
    items: Option<map<string, InfoItem>>,
    objects: Option<map<string, Object>>
  )

  type Objects = map<string, Object>

  function NewItem(capacity: nat): InfoItem {
    InfoItem(None, None, None, NewRing(capacity))
  }

  function NewObject(id: string): Object {
    Object(id, None, None, None, None)
  }

  predicate IsWritable(i: InfoItem) {
    i.meta.Some? && "writable" in i.meta.value && i.meta.value["writable"] == OmiBool(true)
  }

  /** No chain of objects in `objs` is longer than `n`. */
  predicate WithinDepth(objs: Objects, n: nat)
    decreases n
  {
    forall k | k in objs ::
      n > 0 && (objs[k].objects.Some? ==> WithinDepth(objs[k].objects.value, n - 1))
  }
}
