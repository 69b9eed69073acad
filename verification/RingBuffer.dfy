/** The circular buffer behind an item's history: the array form refines the sequence
    of the last `capacity` values, and every query is a definition on that sequence. */
module RingBuffer {
  import opened Wrappers
  import opened Floats
  import opened Odf

  // ----- the sequence definitions -----

  function Reversed<T>(s: seq<T>): seq<T> {
    if s == [] then [] else Reversed(s[1..]) + [s[0]]
  }

  function Kept(s: seq<Value>, keep: Value -> bool): seq<Value> {
    if s == [] then []
    else (if keep(s[0]) then [s[0]] else []) + Kept(s[1..], keep)
  }

  function LastN<T>(s: seq<T>, n: nat): seq<T> { if n < |s| then s[|s| - n..] else s }

  function FirstN<T>(s: seq<T>, n: nat): seq<T> { if n < |s| then s[..n] else s }

  /** `t >= begin && t <= end`, false on any NaN. */
  function InRange(begin: F64, end: F64): Value -> bool {
    (v: Value) => v.t.Some? && AtMost(begin, v.t.value) && AtMost(v.t.value, end)
  }

  /** Not before `begin` and not after `end`; a NaN is neither. */
  function NotOutside(begin: Option<F64>, end: Option<F64>): Value -> bool {
    (v: Value) => v.t.Some? && !(begin.Some? && Less(v.t.value, begin.value)) && !(end.Some? && Less(end.value, v.t.value))
  }

  function NewestOf(s: seq<Value>, n: nat): seq<Value> { Reversed(LastN(s, n)) }

  function OldestOf(s: seq<Value>, n: nat): seq<Value> { Reversed(FirstN(s, n)) }

  function RangeOf(s: seq<Value>, begin: F64, end: F64): seq<Value> { Reversed(Kept(s, InRange(begin, end))) }

  function Filtered(s: seq<Value>, begin: Option<F64>, end: Option<F64>): seq<Value> {
    if begin.Some? || end.Some? then Kept(s, NotOutside(begin, end)) else s
  }

  function QueryOf(s: seq<Value>, newest: Option<nat>, oldest: Option<nat>, begin: Option<F64>, end: Option<F64>): seq<Value> {
    var f := Filtered(s, begin, end);
    Reversed(if newest.Some? then LastN(f, newest.value) else if oldest.Some? then FirstN(f, oldest.value) else f)
  }

  // ----- the buffer -----

  class RingBuffer {
    const capacity: nat
    const buf: array<Value>
    var head: nat
    var len: nat

    ghost predicate Valid()
      reads this
    {
      && capacity > 0 && buf.Length == capacity && len <= capacity && head < capacity
      && (len < capacity ==> head == len)
    }

    ghost function Contents(): Ring
      reads this, buf
      requires Valid()
    {
      Ring(capacity, if len < capacity then buf[..len] else buf[head..] + buf[..head])
    }

    constructor (capacity: nat)
      requires capacity > 0
      ensures Valid() && fresh(buf) && Contents() == NewRing(capacity)
    {
      this.capacity := capacity;
      buf := new Value[capacity](_ => Value(OmiNull, None));
      head, len := 0, 0;
    }

    method Push(value: Value)
      requires Valid()
      modifies this, buf
      ensures Valid() && Contents() == Odf.Push(old(Contents()), value)
    {
      if len < capacity {
        buf[len] := value;
        WrapsOnce(len + 1, capacity);
        len := len + 1;
        head := len % capacity;
        assert buf[..len] == old(buf[..len]) + [value];
        assert len == capacity ==> buf[0..] + buf[..0] == buf[..len];
      } else {
        buf[head] := value;
        WrapsOnce(head + 1, capacity);
        head := (head + 1) % capacity;
        assert old(Contents()).vals[1..] == old(buf[head + 1..] + buf[..head]);
        assert head == 0 ==> buf[head..] + buf[..head] == buf[..];
      }
    }

    method Clear()
      requires Valid()
      modifies this
      ensures Valid() && Contents() == NewRing(capacity)
    {
      head, len := 0, 0;
    }

    function OldestIndex(): nat
      reads this
    {
      if len < capacity then 0 else head
    }

    /** Element by logical index, 0 the oldest. */
    function Get(logical: nat): (v: Value)
      reads this, buf
      requires Valid() && logical < len
      ensures v == Contents().vals[logical]
    {
      var idx := (OldestIndex() + logical) % capacity;
      WrapsOnce(OldestIndex() + logical, capacity);
      buf[idx]
    }

    method Newest(n: nat) returns (r: seq<Value>)
      requires Valid()
      ensures r == NewestOf(Contents().vals, n)
    {
      hide Get;
      ghost var s := Contents().vals;
      var take := if n < len then n else len;
      r := [];
      for i := 0 to take
        invariant r == Reversed(s[|s| - i..])
      {
        r := r + [Get(len - 1 - i)];
        assert s[|s| - i - 1..][1..] == s[|s| - i..];
      }
      assert take == |s| ==> s[|s| - take..] == s;
    }

    method Oldest(n: nat) returns (r: seq<Value>)
      requires Valid()
      ensures r == OldestOf(Contents().vals, n)
    {
      hide Get;
      ghost var s := Contents().vals;
      var take := if n < len then n else len;
      r := [];
      for i := take downto 0
        invariant r == Reversed(s[i..take])
      {
        r := r + [Get(i)];
        assert s[i..take][1..] == s[i + 1..take];
      }
      assert s[0..take] == FirstN(s, n);
    }

    method Range(begin: F64, end: F64) returns (r: seq<Value>)
      requires Valid()
      ensures r == RangeOf(Contents().vals, begin, end)
    {
      ghost var s := Contents().vals;
      var result := [];
      for i := 0 to len
        invariant result == Kept(s[..i], InRange(begin, end))
      {
        var v := Get(i);
        KeptSnoc(s[..i], v, InRange(begin, end));
        assert s[..i] + [v] == s[..i + 1];
        if v.t.Some? && AtMost(begin, v.t.value) && AtMost(v.t.value, end) {
          result := result + [v];
        }
      }
      assert s[..len] == s;
      r := Reversed(result);
    }

    /** Time filter first, then the count, newest first. */
    method Query(newest: Option<nat>, oldest: Option<nat>, begin: Option<F64>, end: Option<F64>) returns (r: seq<Value>)
      requires Valid()
      ensures r == QueryOf(Contents().vals, newest, oldest, begin, end)
    {
      hide Get, Kept, Reversed;
      ghost var s := Contents().vals;
      var values := [];
      for i := 0 to len
        invariant values == s[..i]
      {
        values := values + [Get(i)];
      }
      assert values == s;
      if begin.Some? || end.Some? {
        values := Retain(values, begin, end);
      }
      if newest.Some? {
        var skip := if newest.value < |values| then |values| - newest.value else 0;
        values := values[skip..];
      } else if oldest.Some? {
        values := FirstN(values, oldest.value);
      }
      r := Reversed(values);
    }
  }

  method Retain(values: seq<Value>, begin: Option<F64>, end: Option<F64>) returns (kept: seq<Value>)
    ensures kept == Kept(values, NotOutside(begin, end))
  {
    kept := [];
    for i := 0 to |values|
      invariant kept == Kept(values[..i], NotOutside(begin, end))
    {
      var v := values[i];
      KeptSnoc(values[..i], v, NotOutside(begin, end));
      assert values[..i] + [v] == values[..i + 1];
      if v.t.None? {
        continue;
      }
      if begin.Some? && Less(v.t.value, begin.value) {
        continue;
      }
      if end.Some? && Less(end.value, v.t.value) {
        continue;
      }
      kept := kept + [v];
    }
    assert values[..|values|] == values;
  }

  lemma WrapsOnce(i: nat, n: nat)
    requires 0 < n && i < 2 * n
    ensures i % n == if i < n then i else i - n
  {
    if i >= n {
      assert i == n + (i - n);
    }
  }

  lemma {:induction false} KeptSnoc(s: seq<Value>, v: Value, keep: Value -> bool)
    ensures Kept(s + [v], keep) == Kept(s, keep) + (if keep(v) then [v] else [])
  {
    if s == [] {
      assert s + [v] == [v];
    } else {
      assert (s + [v])[1..] == s[1..] + [v];
      KeptSnoc(s[1..], v, keep);
    }
  }

  // ----- what a run of the buffer holds -----

  datatype RingOp = Add(v: Value) | Reset

  function Apply(r: Ring, ops: seq<RingOp>): Ring
    decreases |ops|
  {
    if ops == [] then r
    else Apply(if ops[0].Add? then Push(r, ops[0].v) else NewRing(r.capacity), ops[1..])
  }

  /** All values added since the last clear, after those of `sofar`. */
  function SinceReset(sofar: seq<Value>, ops: seq<RingOp>): seq<Value>
    decreases |ops|
  {
    if ops == [] then sofar
    else SinceReset(if ops[0].Add? then sofar + [ops[0].v] else [], ops[1..])
  }

  /** After any pushes and clears the buffer holds exactly the last `capacity` values. */
  lemma {:induction false} HoldsLast(r: Ring, sofar: seq<Value>, ops: seq<RingOp>)
    requires r.capacity > 0 && r.vals == LastN(sofar, r.capacity)
    ensures Apply(r, ops) == Ring(r.capacity, LastN(SinceReset(sofar, ops), r.capacity))
    decreases |ops|
  {
    if ops != [] {
      if ops[0].Add? {
        assert Push(r, ops[0].v).vals == LastN(sofar + [ops[0].v], r.capacity);
        HoldsLast(Push(r, ops[0].v), sofar + [ops[0].v], ops[1..]);
      } else {
        HoldsLast(NewRing(r.capacity), [], ops[1..]);
      }
    }
  }

  // ----- how the queries agree -----

  lemma QueryAgrees(s: seq<Value>, n: nat)
    ensures QueryOf(s, Some(n), None, None, None) == NewestOf(s, n)
    ensures QueryOf(s, None, Some(n), None, None) == OldestOf(s, n)
    ensures forall o: Option<nat> :: QueryOf(s, Some(n), o, None, None) == NewestOf(s, n)
  {
  }

  /** No stamped value is let through by `query` only because a comparison is unordered. */
  predicate Ordered(s: seq<Value>, begin: F64, end: F64) {
    forall v | v in s && v.t.Some? && (IsNaN(v.t.value) || IsNaN(begin) || IsNaN(end)) ::
      Less(v.t.value, begin) || Less(end, v.t.value)
  }

  lemma {:induction false} ReversedLength<T>(s: seq<T>)
    ensures |Reversed(s)| == |s|
  {
    if s != [] {
      ReversedLength(s[1..]);
    }
  }

  lemma {:induction false} KeptLengths(s: seq<Value>, p: Value -> bool, q: Value -> bool)
    requires forall v | v in s :: p(v) ==> q(v)
    ensures |Kept(s, p)| <= |Kept(s, q)|
    ensures |Kept(s, p)| == |Kept(s, q)| <==> forall v | v in s :: q(v) ==> p(v)
    ensures (forall v | v in s :: q(v) ==> p(v)) ==> Kept(s, p) == Kept(s, q)
  {
    if s != [] {
      assert s == [s[0]] + s[1..];
      KeptLengths(s[1..], p, q);
    }
  }

  /** `range` and `query` with both bounds agree exactly when no NaN decides a value. */
  lemma RangeAgrees(s: seq<Value>, begin: F64, end: F64)
    ensures RangeOf(s, begin, end) == QueryOf(s, None, None, Some(begin), Some(end)) <==> Ordered(s, begin, end)
  {
    var p, q := InRange(begin, end), NotOutside(Some(begin), Some(end));
    forall v | v in s
      ensures p(v) ==> q(v)
    {
    }
    KeptLengths(s, p, q);
    ReversedLength(Kept(s, p));
    ReversedLength(Kept(s, q));
    assert Ordered(s, begin, end) <==> forall v | v in s :: q(v) ==> p(v);
  }

  /** One value stamped NaN: `query` returns it and `range` does not. */
  lemma NaNDisagrees()
    ensures exists v, begin, end ::
      RangeOf([v], begin, end) == [] && QueryOf([v], None, None, Some(begin), Some(end)) == [v]
  {
    var nan: F64 := 0x7FF8_0000_0000_0000;
    var v := Value(OmiNull, Some(nan));
    assert IsNaN(nan) by {
      assert nan as int / TWO_52 == 0x7FF && nan as int % TWO_52 == 0x8_0000_0000_0000;
    }
    assert Kept([v], InRange(ZERO, ZERO)) == [];
    assert Kept([v], NotOutside(Some(ZERO), Some(ZERO))) == [v];
    assert Reversed([v]) == [v];
  }

  // ----- what the queries return, value by value -----

  lemma {:induction false} ReversedSnoc<T>(s: seq<T>, x: T)
    ensures Reversed(s + [x]) == [x] + Reversed(s)
    decreases |s|
  {
    if s == [] {
      assert s + [x] == [x];
    } else {
      assert (s + [x])[1..] == s[1..] + [x];
      ReversedSnoc(s[1..], x);
    }
  }

  lemma {:induction false} ReversedAt<T>(s: seq<T>)
    ensures |Reversed(s)| == |s| && forall i | 0 <= i < |s| :: Reversed(s)[i] == s[|s| - 1 - i]
    decreases |s|
  {
    if s != [] {
      ReversedAt(s[1..]);
    }
  }

  /** One value more in the history stands in front of the rest of a range if and only if it
      is stamped, not before the begin and not after the end. */
  lemma RangeSnoc(s: seq<Value>, v: Value, begin: F64, end: F64)
    ensures RangeOf([], begin, end) == []
    ensures RangeOf(s + [v], begin, end) ==
            (if v.t.Some? && AtMost(begin, v.t.value) && AtMost(v.t.value, end) then [v] else []) + RangeOf(s, begin, end)
  {
    KeptSnoc(s, v, InRange(begin, end));
    ReversedSnoc(Kept(s, InRange(begin, end)), v);
    assert Kept(s, InRange(begin, end)) + [] == Kept(s, InRange(begin, end));
  }

  /** The same for a query without a count, where either bound may be missing; without any
      bound every value is in. */
  lemma QuerySnoc(s: seq<Value>, v: Value, begin: Option<F64>, end: Option<F64>)
    ensures QueryOf([], None, None, begin, end) == []
    ensures QueryOf(s + [v], None, None, begin, end) ==
            (if (begin.None? && end.None?) ||
                (v.t.Some? && !(begin.Some? && Less(v.t.value, begin.value)) && !(end.Some? && Less(end.value, v.t.value)))
             then [v] else []) + QueryOf(s, None, None, begin, end)
  {
    KeptSnoc(s, v, NotOutside(begin, end));
    var f := Filtered(s, begin, end);
    ReversedSnoc(f, v);
    assert f + [] == f;
  }

  /** A count cuts the query to that many of its newest values, or else of its oldest. */
  lemma CountsCut(s: seq<Value>, newest: Option<nat>, oldest: Option<nat>, begin: Option<F64>, end: Option<F64>)
    ensures var all, r := QueryOf(s, None, None, begin, end), QueryOf(s, newest, oldest, begin, end);
            r == if newest.Some? then (if newest.value < |all| then all[..newest.value] else all)
                 else if oldest.Some? then (if oldest.value < |all| then all[|all| - oldest.value..] else all)
                 else all
  {
    var f := Filtered(s, begin, end);
    ReversedAt(f);
    if newest.Some? {
      ReversedAt(LastN(f, newest.value));
    } else if oldest.Some? {
      ReversedAt(FirstN(f, oldest.value));
    }
  }
}
