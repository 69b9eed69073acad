/** What an object serialised to a depth keeps, path by path. */
module Shelling {
  import opened Wrappers
  import opened Odf
  import opened Tree
  import opened JsonDocs

  /** Cut at a depth, every object keeps what lies no deeper: items and objects whose path
      has at most `depth + 1` names stay as they were, and nothing below them does. */
  lemma {:induction false} TruncatedItems(m: Objects, depth: nat, q: seq<string>)
    ensures ItemAt(TruncateMap(m, depth), q) == if |q| <= depth + 1 then ItemAt(m, q) else None
    decreases |q|
  {
    hide Shallow;
    if |q| >= 2 && q[0] in m && depth > 0 {
      var o := m[q[0]];
      KidsCut(o, depth);
      if |q| > 2 {
        TruncatedItems(Kids(o), depth - 1, q[1..]);
      }
    }
  }

  lemma {:induction false} TruncatedLabels(m: Objects, depth: nat, q: seq<string>)
    ensures LabelAt(TruncateMap(m, depth), q) == if |q| <= depth + 1 then LabelAt(m, q) else None
    decreases |q|
  {
    hide Shallow;
    if |q| >= 2 && q[0] in m && depth > 0 {
      var o := m[q[0]];
      KidsCut(o, depth);
      TruncatedLabels(Kids(o), depth - 1, q[1..]);
    } else if |q| >= 2 && q[0] in m {
      assert Kids(TruncateMap(m, depth)[q[0]]) == map[];
      assert ObjAt(map[], q[1..]).None?;
    }
  }

  lemma KidsCut(o: Object, depth: nat)
    requires depth > 0
    ensures Kids(Truncate(o, depth)) == TruncateMap(Kids(o), depth - 1) && Items(Truncate(o, depth)) == Items(o)
  {
  }
}
