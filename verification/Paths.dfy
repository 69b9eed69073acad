/** O-DF paths: splitting a path into segments and spelling segments as a path. */
module Paths {
  import opened Wrappers

  datatype TreeError = NotFound | Forbidden | InvalidPath

  /** The code points of Unicode's White_Space property. */
  predicate IsSpace(c: char) {
    var n := c as int;
    || 9 <= n <= 13 || n == 0x20 || n == 0x85 || n == 0xA0 || n == 0x1680 || 0x2000 <= n <= 0x200A
    || n == 0x2028 || n == 0x2029 || n == 0x202F || n == 0x205F || n == 0x3000
  }

  function TrimStart(s: string): string {
    if s != "" && IsSpace(s[0]) then TrimStart(s[1..]) else s
  }

  function TrimEnd(s: string): string {
    if s != "" && IsSpace(s[|s| - 1]) then TrimEnd(s[..|s| - 1]) else s
  }

  function Trim(s: string): string { TrimEnd(TrimStart(s)) }

  function Split(s: string): (r: seq<string>)
    ensures r != []
  {
    if s == "" then [""]
    else
      var r := Split(s[1..]);
      if s[0] == '/' then [""] + r else [[s[0]] + r[0]] + r[1..]
  }

  function TrimAll(segs: seq<string>): (r: seq<string>)
    ensures |r| == |segs| && forall i | 0 <= i < |segs| :: r[i] == Trim(segs[i])
  {
    if segs == [] then [] else [Trim(segs[0])] + TrimAll(segs[1..])
  }

  function ParsePath(path: string): Result<seq<string>, TreeError> {
    if path == "" || path[0] != '/' then Err(InvalidPath)
    else if path == "/" then Ok([])
    else
      var segs := TrimAll(Split(path[1..]));
      if "" in segs || ".." in segs then Err(InvalidPath) else Ok(segs)
  }

  // ----- spelling -----

  predicate Trimmed(s: string) { s == "" || (!IsSpace(s[0]) && !IsSpace(s[|s| - 1])) }

  /** A name that a path can address. */
  predicate GoodSegment(s: string) { s != "" && s != ".." && '/' !in s && Trimmed(s) }

  predicate GoodPath(p: seq<string>) { forall s | s in p :: GoodSegment(s) }

  /** Each segment behind its own slash, as the walks over the tree build paths. */
  function Slashed(segs: seq<string>): string {
    if segs == [] then "" else "/" + segs[0] + Slashed(segs[1..])
  }

  function Spell(segs: seq<string>): string { if segs == [] then "/" else Slashed(segs) }

  lemma {:induction false} TrimEndFacts(s: string)
    ensures TrimEnd(s) <= s
    ensures TrimEnd(s) == "" || !IsSpace(TrimEnd(s)[|TrimEnd(s)| - 1])
    decreases |s|
  {
    if s != "" && IsSpace(s[|s| - 1]) {
      TrimEndFacts(s[..|s| - 1]);
    }
  }

  lemma {:induction false} TrimStartFacts(s: string)
    ensures |TrimStart(s)| <= |s| && TrimStart(s) == s[|s| - |TrimStart(s)|..]
    ensures TrimStart(s) == "" || !IsSpace(TrimStart(s)[0])
    decreases |s|
  {
    if s != "" && IsSpace(s[0]) {
      TrimStartFacts(s[1..]);
    }
  }

  /** Trimming leaves a trimmed part of the text, and trimmed text alone. */
  lemma TrimFacts(s: string)
    ensures Trimmed(Trim(s)) && (Trimmed(s) <==> Trim(s) == s)
    ensures forall c | c in Trim(s) :: c in s
  {
    hide IsSpace;
    TrimStartFacts(s);
    TrimEndFacts(TrimStart(s));
    if Trimmed(s) && s != "" {
      assert TrimStart(s) == s;
    }
  }

  lemma {:induction false} SplitHasNoSlash(s: string)
    ensures forall seg | seg in Split(s) :: '/' !in seg
    decreases |s|
  {
    if s != "" {
      SplitHasNoSlash(s[1..]);
      var r := Split(s[1..]);
      assert r[0] in r && forall x | x in r[1..] :: x in r;
    }
  }

  /** Only addressable names come out of a path. */
  lemma ParsedIsGood(path: string)
    requires ParsePath(path).Ok?
    ensures GoodPath(ParsePath(path).value)
  {
    if path != "/" {
      var raw := Split(path[1..]);
      var segs := TrimAll(raw);
      SplitHasNoSlash(path[1..]);
      forall s | s in segs
        ensures GoodSegment(s)
      {
        var i :| 0 <= i < |segs| && segs[i] == s;
        assert raw[i] in raw;
        TrimFacts(raw[i]);
      }
    }
  }

  lemma {:induction false} SplitSlashed(head: string, segs: seq<string>)
    requires '/' !in head && forall s | s in segs :: '/' !in s
    ensures Split(head + Slashed(segs)) == [head] + segs
    decreases |segs|, |head|
  {
    if head != "" {
      assert head == [head[0]] + head[1..] && head[0] in head;
      assert forall c | c in head[1..] :: c in head;
      SplitSlashed(head[1..], segs);
      assert (head + Slashed(segs))[1..] == head[1..] + Slashed(segs);
    } else if segs != [] {
      assert forall s | s in segs[1..] :: s in segs;
      SplitSlashed(segs[0], segs[1..]);
      assert head + Slashed(segs) == "/" + (segs[0] + Slashed(segs[1..]));
      assert segs == [segs[0]] + segs[1..];
    } else {
      assert head + Slashed(segs) == "";
    }
  }

  lemma TrimAllGood(segs: seq<string>)
    requires GoodPath(segs)
    ensures TrimAll(segs) == segs
  {
    hide Trim, Trimmed;
    forall i | 0 <= i < |segs|
      ensures TrimAll(segs)[i] == segs[i]
    {
      assert GoodSegment(segs[i]);
      TrimFacts(segs[i]);
    }
  }

  lemma GoodIsParsed(segs: seq<string>)
    requires GoodPath(segs) && segs != []
    ensures ParsePath(Slashed(segs)) == Ok(segs)
  {
    hide TrimAll, Split, Trimmed;
    var path := Slashed(segs);
    assert GoodSegment(segs[0]) && forall s | s in segs[1..] :: GoodSegment(s) && '/' !in s;
    SplitSlashed(segs[0], segs[1..]);
    assert path[1..] == segs[0] + Slashed(segs[1..]) && segs == [segs[0]] + segs[1..];
    TrimAllGood(segs);
    assert |path| > 1;
  }

  /** The path that a walk spells leads back to where the walk was, exactly when every
      name on it is addressable. */
  lemma SpelledIsParsed(segs: seq<string>)
    ensures ParsePath(Spell(segs)) == Ok(segs) <==> GoodPath(segs)
  {
    hide ParsePath, GoodSegment;
    if ParsePath(Spell(segs)) == Ok(segs) {
      ParsedIsGood(Spell(segs));
    }
    if GoodPath(segs) {
      if segs == [] {
        RootIsParsed();
      } else {
        GoodIsParsed(segs);
      }
    }
  }

  lemma RootIsParsed()
    ensures ParsePath("/") == Ok([])
  {
  }

  /** A name with a slash is spelled as some other path. */
  lemma SlashMissed()
    ensures ParsePath(Spell(["A", "b/c"])) == Ok(["A", "b", "c"])
  {
    hide ParsePath, Split, TrimAll, GoodPath;
    assert Slashed(["b/c"]) == "/b/c" + Slashed([]) && Slashed(["b", "c"]) == "/b" + Slashed(["c"]) == "/b/c";
    assert Spell(["A", "b/c"]) == "/A/b/c" == Spell(["A", "b", "c"]);
    GoodLetters();
    SpelledIsParsed(["A", "b", "c"]);
  }

  /** So is a name with outer spaces. */
  lemma SpaceMissed()
    ensures ParsePath(Spell(["A", " b"])) == Ok(["A", "b"])
  {
    hide Split, TrimAll, IsSpace;
    assert Slashed([" b"]) == "/ b" + Slashed([]);
    assert Spell(["A", " b"]) == "/A/ b";
    SplitSlashed("A", [" b"]);
    assert "/A/ b"[1..] == "A" + Slashed([" b"]);
    assert ["A"] + [" b"] == ["A", " b"];
    TrimSpaceB();
    assert ["A", "b"][0] == "A" && ["A", "b"][1] == "b";
  }

  lemma GoodLetters()
    ensures GoodPath(["A", "b", "c"])
  {
  }

  lemma TrimSpaceB()
    ensures TrimAll(["A", " b"]) == ["A", "b"]
  {
    assert TrimStart(" b") == TrimStart("b") == "b";
    assert TrimAll(["A", " b"])[0] == "A" && TrimAll(["A", " b"])[1] == "b";
  }
}
