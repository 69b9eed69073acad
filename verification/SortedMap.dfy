/** The order in which a BTreeMap with string keys is walked. */
module SortedMap {

  /** Lexicographic order; on Rust strings it is also the order of their UTF-8 bytes. */
  predicate Less(a: string, b: string)
    decreases |a|
  {
    if b == "" then false
    else if a == "" then true
    else a[0] < b[0] || (a[0] == b[0] && Less(a[1..], b[1..]))
  }

  lemma {:induction false} LessTotal(a: string, b: string)
    ensures a == b || Less(a, b) || Less(b, a)
    ensures !(Less(a, b) && Less(b, a)) && !Less(a, a)
    decreases |a|
  {
    if a != "" && b != "" {
      LessTotal(a[1..], b[1..]);
      LessTotal(a[1..], a[1..]);
      assert a == [a[0]] + a[1..] && b == [b[0]] + b[1..];
    } else if a != "" {
      LessTotal(a[1..], a[1..]);
    }
  }

  lemma {:induction false} LessTransitive(a: string, b: string, c: string)
    requires Less(a, b) && Less(b, c)
    ensures Less(a, c)
    decreases |a|
  {
    if a != "" && a[0] == b[0] == c[0] {
      LessTransitive(a[1..], b[1..], c[1..]);
    }
  }

  ghost predicate IsLeast(k: string, s: set<string>) {
    k in s && forall x | x in s :: x == k || Less(k, x)
  }

  lemma {:induction false} LeastExists(s: set<string>) returns (k: string)
    requires s != {}
    ensures IsLeast(k, s)
    decreases |s|
  {
    var x :| x in s;
    if s == {x} {
      k := x;
    } else {
      var rest := s - {x};
      assert s == rest + {x};
      var y := LeastExists(rest);
      LessTotal(x, y);
      if Less(x, y) {
        k := x;
        forall z | z in rest && z != y
          ensures Less(x, z)
        {
          LessTransitive(x, y, z);
        }
      } else {
        k := y;
      }
    }
  }

  /** The least key; it is unique, so the choice is a function. */
  function Least(s: set<string>): (k: string)
    requires s != {}
    ensures IsLeast(k, s)
  {
    assert exists k :: IsLeast(k, s) by {
      var k := LeastExists(s);
    }
    assert forall x, y :: x in s && y in s && IsLeast(x, s) && IsLeast(y, s) ==> x == y by {
      forall x, y | IsLeast(x, s) && IsLeast(y, s)
        ensures x == y
      {
        LessTotal(x, y);
      }
    }
    var k :| k in s && forall x | x in s :: x == k || Less(k, x);
    k
  }

  /** The keys of a map in ascending order. */
  function SortedKeys(s: set<string>): (keys: seq<string>)
    decreases |s|
  {
    if s == {} then [] else [Least(s)] + SortedKeys(s - {Least(s)})
  }

  lemma {:induction false} SortedKeysCover(s: set<string>)
    ensures forall k :: k in SortedKeys(s) <==> k in s
    ensures |SortedKeys(s)| == |s|
    decreases |s|
  {
    if s != {} {
      SortedKeysCover(s - {Least(s)});
    }
  }

  lemma {:induction false} SortedKeysAscend(s: set<string>)
    ensures forall i, j | 0 <= i < j < |SortedKeys(s)| :: Less(SortedKeys(s)[i], SortedKeys(s)[j])
    decreases |s|
  {
    if s != {} {
      var rest := SortedKeys(s - {Least(s)});
      SortedKeysAscend(s - {Least(s)});
      SortedKeysCover(s - {Least(s)});
      assert forall j | 0 <= j < |rest| :: rest[j] in rest;
    }
  }
}
