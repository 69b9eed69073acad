/** CRC-32, one bit at a time: the loop computes a fold, the fold may be split
    anywhere, and no change confined to four consecutive bytes goes unnoticed. */
module Crc {

  const POLYNOMIAL: bv32 := 0xEDB8_8320

  function Xor(a: bv32, b: bv32): bv32 { a ^ b }

  function Half(c: bv32): bv32 { c >> 1 }

  predicate Odd(c: bv32) { c & 1 != 0 }

  function Wide(b: bv8): bv32 { b as bv32 }

  function Up(y: bv32): bv32 { y << 8 }

  /** One shift of the register. */
  function Round(c: bv32): bv32 {
    if Odd(c) then Xor(Half(c), POLYNOMIAL) else Half(c)
  }

  function Rounds(c: bv32, n: nat): bv32
    decreases n
  {
    if n == 0 then c else Rounds(Round(c), n - 1)
  }

  function Feed(c: bv32, b: bv8): bv32 { Rounds(Xor(c, Wide(b)), 8) }

  function FeedAll(c: bv32, data: seq<bv8>): bv32
    decreases |data|
  {
    if data == [] then c else FeedAll(Feed(c, data[0]), data[1..])
  }

  const START: bv32 := 0xFFFF_FFFF

  function Complement(c: bv32): bv32 { !c }

  function Crc32(data: seq<bv8>): bv32 { Complement(FeedAll(START, data)) }

  method ComputeCrc32(data: seq<bv8>) returns (r: bv32)
    ensures r == Crc32(data)
  {
    var crc := START;
    var i := 0;
    while i < |data|
      invariant 0 <= i <= |data| && FeedAll(crc, data[i..]) == FeedAll(START, data)
    {
      crc := FeedByte(crc, data[i]);
      assert data[i..][1..] == data[i + 1..];
      i := i + 1;
    }
    return Complement(crc);
  }

  method FeedByte(c: bv32, b: bv8) returns (r: bv32)
    ensures r == Feed(c, b)
  {
    hide Xor, Half, Odd, Wide;
    r := Xor(c, Wide(b));
    var k := 0;
    while k < 8
      invariant 0 <= k <= 8 && Rounds(r, 8 - k) == Feed(c, b)
    {
      if Odd(r) {
        r := Xor(Half(r), POLYNOMIAL);
      } else {
        r := Half(r);
      }
      k := k + 1;
    }
  }

  lemma {:induction false} FeedAllAppend(c: bv32, a: seq<bv8>, b: seq<bv8>)
    ensures FeedAll(c, a + b) == FeedAll(FeedAll(c, a), b)
    decreases |a|
  {
    if a == [] {
      assert a + b == b;
    } else {
      assert (a + b)[1..] == a[1..] + b;
      FeedAllAppend(Feed(c, a[0]), a[1..], b);
    }
  }

  // ----- the register never forgets a difference -----

  lemma RoundInjective(a: bv32, b: bv32)
    requires Round(a) == Round(b)
    ensures a == b
  {
  }

  lemma XorAssociates(a: bv32, b: bv32, p: bv32)
    ensures Xor(Xor(a, b), p) == Xor(a, Xor(b, p))
  {
  }

  lemma XorCommutes(a: bv32, b: bv32)
    ensures Xor(a, b) == Xor(b, a)
  {
  }

  lemma XorUndoes(a: bv32, b: bv32)
    ensures Xor(Xor(a, b), b) == a && Xor(a, 0) == a
  {
  }

  lemma XorFacts(a: bv32, b: bv32, p: bv32)
    ensures Xor(Xor(a, b), p) == Xor(a, Xor(b, p)) == Xor(Xor(a, p), b)
    ensures Xor(Xor(a, p), Xor(b, p)) == Xor(a, b)
    ensures Xor(a, 0) == a && Xor(a, b) == Xor(b, a) && Xor(Xor(a, b), b) == a
  {
    hide Xor;
    XorAssociates(a, b, p);
    XorCommutes(b, p);
    XorAssociates(a, p, b);
    XorAssociates(Xor(a, p), b, p);
    XorUndoes(Xor(a, b), p);
    XorCommutes(a, b);
    XorUndoes(a, b);
  }

  lemma XorCancels(a: bv32, b: bv32, p: bv32)
    requires Xor(a, p) == Xor(b, p)
    ensures a == b
  {
    hide Xor;
    XorFacts(a, p, p);
    XorFacts(b, p, p);
  }

  lemma XorSplits(a: bv32, b: bv32)
    ensures Half(Xor(a, b)) == Xor(Half(a), Half(b))
    ensures Odd(Xor(a, b)) <==> Odd(a) != Odd(b)
  {
  }

  lemma RoundXor(a: bv32, b: bv32)
    ensures Round(Xor(a, b)) == Xor(Round(a), Round(b))
  {
    hide Xor, Half, Odd;
    XorSplits(a, b);
    XorFacts(Half(a), Half(b), POLYNOMIAL);
  }

  lemma {:induction false} RoundsInjective(a: bv32, b: bv32, n: nat)
    requires Rounds(a, n) == Rounds(b, n)
    ensures a == b
    decreases n
  {
    hide Round;
    if n > 0 {
      RoundsInjective(Round(a), Round(b), n - 1);
      RoundInjective(a, b);
    }
  }

  lemma {:induction false} RoundsXor(a: bv32, b: bv32, n: nat)
    ensures Rounds(Xor(a, b), n) == Xor(Rounds(a, n), Rounds(b, n))
    decreases n
  {
    hide Round, Xor;
    if n > 0 {
      RoundXor(a, b);
      RoundsXor(Round(a), Round(b), n - 1);
    }
  }

  lemma {:induction false} FeedAllInjective(a: bv32, b: bv32, data: seq<bv8>)
    requires FeedAll(a, data) == FeedAll(b, data)
    ensures a == b
    decreases |data|
  {
    hide Rounds, Xor, Wide;
    if data != [] {
      var x := Wide(data[0]);
      FeedAllInjective(Feed(a, data[0]), Feed(b, data[0]), data[1..]);
      RoundsInjective(Xor(a, x), Xor(b, x), 8);
      XorCancels(a, b, x);
    }
  }

  // ----- up to four bytes act as one word -----

  function Word(w: seq<bv8>): bv32
    decreases |w|
  {
    if w == [] then 0 else Xor(Wide(w[0]), Up(Word(w[1..])))
  }

  /** The value has at most `bytes` bytes. */
  predicate Fits(y: bv32, bytes: nat) {
    y <= if bytes == 0 then 0 else if bytes == 1 then 0xFF else if bytes == 2 then 0xFFFF
         else if bytes == 3 then 0x00FF_FFFF else 0xFFFF_FFFF
  }

  lemma PrependFits(b: bv8, y: bv32, n: nat)
    requires n <= 3 && Fits(y, n)
    ensures Fits(Xor(Wide(b), Up(y)), n + 1) && Fits(y, 3)
  {
  }

  lemma {:induction false} WordFits(w: seq<bv8>)
    requires |w| <= 4
    ensures Fits(Word(w), |w|)
    decreases |w|
  {
    hide Fits, Xor, Up, Wide;
    if w != [] {
      WordFits(w[1..]);
      PrependFits(w[0], Word(w[1..]), |w| - 1);
    } else {
      ZeroFits();
    }
  }

  lemma ZeroFits()
    ensures Fits(0, 0)
  {
  }

  function Down(x: bv32, n: nat): bv32
    decreases n
  {
    if n == 0 then x else Down(Half(x), n - 1)
  }

  predicate LowZero(x: bv32, n: nat)
    decreases n
  {
    n == 0 || (!Odd(x) && LowZero(Half(x), n - 1))
  }

  /** While the bit that leaves is zero, a round only shifts. */
  lemma {:induction false} RoundsShift(x: bv32, n: nat)
    requires LowZero(x, n)
    ensures Rounds(x, n) == Down(x, n)
    decreases n
  {
    hide Xor, Half, Odd;
    if n > 0 {
      RoundsShift(Half(x), n - 1);
    }
  }

  lemma ShiftDown8(y: bv32)
    requires Fits(y, 3)
    ensures Half(Up(y)) == y << 7 && !Odd(Up(y))
  {
  }

  lemma ShiftDown7(y: bv32)
    requires Fits(y, 3)
    ensures Half(y << 7) == y << 6 && !Odd(y << 7)
  {
  }

  lemma ShiftDown6(y: bv32)
    requires Fits(y, 3)
    ensures Half(y << 6) == y << 5 && !Odd(y << 6)
  {
  }

  lemma ShiftDown5(y: bv32)
    requires Fits(y, 3)
    ensures Half(y << 5) == y << 4 && !Odd(y << 5)
  {
  }

  lemma ShiftDown4(y: bv32)
    requires Fits(y, 3)
    ensures Half(y << 4) == y << 3 && !Odd(y << 4)
  {
  }

  lemma ShiftDown3(y: bv32)
    requires Fits(y, 3)
    ensures Half(y << 3) == y << 2 && !Odd(y << 3)
  {
  }

  lemma ShiftDown2(y: bv32)
    requires Fits(y, 3)
    ensures Half(y << 2) == y << 1 && !Odd(y << 2)
  {
  }

  lemma ShiftDown1(y: bv32)
    requires Fits(y, 3)
    ensures Half(y << 1) == y && !Odd(y << 1)
  {
  }

  lemma UpDown(y: bv32)
    requires Fits(y, 3)
    ensures LowZero(Up(y), 8) && Down(Up(y), 8) == y
  {
    hide Half, Odd, Up, LowZero, Down;
    ShiftDown8(y);
    ShiftDown7(y);
    ShiftDown6(y);
    ShiftDown5(y);
    ShiftDown4(y);
    ShiftDown3(y);
    ShiftDown2(y);
    ShiftDown1(y);
    Unshift(Up(y), y << 7, y << 6, y << 5, y << 4, y << 3, y << 2, y << 1, y);
  }

  lemma Unshift(a: bv32, b: bv32, c: bv32, d: bv32, e: bv32, f: bv32, g: bv32, h: bv32, y: bv32)
    requires Half(a) == b && Half(b) == c && Half(c) == d && Half(d) == e
    requires Half(e) == f && Half(f) == g && Half(g) == h && Half(h) == y
    requires !Odd(a) && !Odd(b) && !Odd(c) && !Odd(d) && !Odd(e) && !Odd(f) && !Odd(g) && !Odd(h)
    ensures LowZero(a, 8) && Down(a, 8) == y
  {
    hide Half, Odd;
    assert LowZero(y, 0) && Down(y, 0) == y;
    assert LowZero(h, 1) && Down(h, 1) == y;
    assert LowZero(g, 2) && Down(g, 2) == y;
    assert LowZero(f, 3) && Down(f, 3) == y;
    assert LowZero(e, 4) && Down(e, 4) == y;
    assert LowZero(d, 5) && Down(d, 5) == y;
    assert LowZero(c, 6) && Down(c, 6) == y;
    assert LowZero(b, 7) && Down(b, 7) == y;
  }

  function RoundsOfEight(c: bv32, n: nat): bv32
    decreases n
  {
    if n == 0 then c else RoundsOfEight(Rounds(c, 8), n - 1)
  }

  lemma {:induction false} RoundsOfEightInjective(a: bv32, b: bv32, n: nat)
    requires RoundsOfEight(a, n) == RoundsOfEight(b, n)
    ensures a == b
    decreases n
  {
    hide Rounds;
    if n > 0 {
      RoundsOfEightInjective(Rounds(a, 8), Rounds(b, 8), n - 1);
      RoundsInjective(a, b, 8);
    }
  }

  /** Feeding at most four bytes is shifting in one word. */
  lemma {:induction false} FeedWord(c: bv32, w: seq<bv8>)
    requires |w| <= 4
    ensures FeedAll(c, w) == RoundsOfEight(Xor(c, Word(w)), |w|)
    decreases |w|
  {
    hide Rounds, Xor, Wide, Up, Fits, LowZero, Down;
    if w == [] {
      XorFacts(c, c, c);
    } else {
      var b, y := Wide(w[0]), Word(w[1..]);
      WordFits(w[1..]);
      PrependFits(w[0], y, |w| - 1);
      FeedWord(Feed(c, w[0]), w[1..]);
      XorFacts(c, b, Up(y));
      RoundsXor(Xor(c, b), Up(y), 8);
      UpDown(y);
      RoundsShift(Up(y), 8);
    }
  }

  lemma PrependInjective(a: bv8, x: bv32, b: bv8, y: bv32)
    requires Fits(x, 3) && Fits(y, 3)
    requires Xor(Wide(a), Up(x)) == Xor(Wide(b), Up(y))
    ensures a == b && x == y
  {
    Parts(a, x);
    Parts(b, y);
  }

  lemma Parts(a: bv8, x: bv32)
    requires Fits(x, 3)
    ensures Xor(Wide(a), Up(x)) >> 8 == x && Xor(Wide(a), Up(x)) & 0xFF == Wide(a) && Wide(a) <= 0xFF
    ensures Wide(a) as bv8 == a
  {
  }

  lemma {:induction false} WordInjective(v: seq<bv8>, w: seq<bv8>)
    requires |v| == |w| <= 4 && Word(v) == Word(w)
    ensures v == w
    decreases |v|
  {
    hide Xor, Wide, Up, Fits;
    if v != [] {
      var x, y := Word(v[1..]), Word(w[1..]);
      WordFits(v[1..]);
      WordFits(w[1..]);
      PrependFits(v[0], x, |v| - 1);
      PrependFits(w[0], y, |v| - 1);
      PrependInjective(v[0], x, w[0], y);
      WordInjective(v[1..], w[1..]);
      assert v == [v[0]] + v[1..] && w == [w[0]] + w[1..];
    }
  }

  /** Two texts that differ only inside four consecutive bytes have different CRCs. */
  lemma BurstDetected(before: seq<bv8>, v: seq<bv8>, w: seq<bv8>, after: seq<bv8>)
    requires |v| == |w| <= 4 && v != w
    ensures Crc32(before + v + after) != Crc32(before + w + after)
  {
    hide FeedAll, Xor, RoundsOfEight, Word, Complement;
    var c := FeedAll(START, before);
    if Crc32(before + v + after) == Crc32(before + w + after) {
      ComplementInjective(FeedAll(START, before + v + after), FeedAll(START, before + w + after));
      FeedAllAppend(START, before + v, after);
      FeedAllAppend(START, before + w, after);
      FeedAllAppend(START, before, v);
      FeedAllAppend(START, before, w);
      FeedAllInjective(FeedAll(c, v), FeedAll(c, w), after);
      FeedWord(c, v);
      FeedWord(c, w);
      RoundsOfEightInjective(Xor(c, Word(v)), Xor(c, Word(w)), |v|);
      XorFacts(c, Word(v), c);
      XorFacts(c, Word(w), c);
      XorCancels(Word(v), Word(w), c);
      WordInjective(v, w);
    }
  }

  lemma ComplementInjective(a: bv32, b: bv32)
    requires Complement(a) == Complement(b)
    ensures a == b
  {
  }
}
