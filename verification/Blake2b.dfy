/** BLAKE2b without a key as section 3 of RFC 7693 defines it, and the code that computes
    it in place over fixed arrays. */
module Blake2b {
  import opened Wrappers
  import opened Digest

  type word = bv64

  const IV: seq<word> := [
    0x6a09e667f3bcc908, 0xbb67ae8584caa73b, 0x3c6ef372fe94f82b, 0xa54ff53a5f1d36f1,
    0x510e527fade682d1, 0x9b05688c2b3e6c1f, 0x1f83d9abfb41bd6b, 0x5be0cd19137e2179]

  const SIGMA: seq<seq<nat>> := [
    [0, 1, 2, 3, 4, 5, 6, 7, 8, 9, 10, 11, 12, 13, 14, 15],
    [14, 10, 4, 8, 9, 15, 13, 6, 1, 12, 0, 2, 11, 7, 5, 3],
    [11, 8, 12, 0, 5, 2, 15, 13, 10, 14, 3, 6, 7, 1, 9, 4],
    [7, 9, 3, 1, 13, 12, 11, 14, 2, 6, 5, 10, 4, 0, 15, 8],
    [9, 0, 5, 7, 2, 4, 10, 15, 14, 1, 11, 12, 6, 8, 3, 13],
    [2, 12, 6, 10, 0, 11, 8, 3, 4, 13, 7, 5, 15, 14, 1, 9],
    [12, 5, 1, 15, 14, 13, 4, 10, 0, 7, 6, 3, 9, 2, 8, 11],
    [13, 11, 7, 14, 12, 1, 3, 9, 5, 0, 15, 4, 8, 6, 2, 10],
    [6, 15, 14, 9, 11, 3, 0, 8, 12, 2, 13, 7, 1, 4, 10, 5],
    [10, 2, 8, 4, 7, 6, 1, 5, 15, 11, 9, 14, 3, 12, 13, 0]]

  function Plus(x: word, y: word): word { x + y }

  function Xor(x: word, y: word): word { x ^ y }

  function Rotated(x: word, n: nat): word
    requires n < 64
  {
    x.RotateRight(n)
  }

  function ToWord(n: nat): word { (n % 0x1_0000_0000_0000_0000) as bv64 }

  function LowByte(w: word): byte { (w & 0xFF) as bv8 as int }

  function LeBytes(w: word, n: nat): seq<byte> {
    if n == 0 then [] else [LowByte(w)] + LeBytes(w >> 8, n - 1)
  }

  function FromLe(b: seq<byte>): word {
    if b == [] then 0 else Xor(b[0] as bv64, FromLe(b[1..]) << 8)
  }

  // ----- the definition -----

  /** Four of the sixteen working words, and which they are. */
  function Mix(v: seq<word>, a: nat, b: nat, c: nat, d: nat, x: word, y: word): (r: seq<word>)
    requires |v| == 16 && a < 16 && b < 16 && c < 16 && d < 16
    ensures |r| == 16
  {
    var a1 := Plus(Plus(v[a], v[b]), x);
    var d1 := Rotated(Xor(v[d], a1), 32);
    var c1 := Plus(v[c], d1);
    var b1 := Rotated(Xor(v[b], c1), 24);
    var a2 := Plus(Plus(a1, b1), y);
    var d2 := Rotated(Xor(d1, a2), 16);
    var c2 := Plus(c1, d2);
    var b2 := Rotated(Xor(b1, c2), 63);
    v[a := a2][d := d2][c := c2][b := b2]
  }

  ghost predicate Sixteen(s: seq<nat>) { |s| == 16 && forall i | 0 <= i < 16 :: s[i] < 16 }

  lemma SigmaIs(i: nat)
    requires i < 10
    ensures |SIGMA| == 10 && Sixteen(SIGMA[i])
  {
  }

  function Columns(v: seq<word>, m: seq<word>, s: seq<nat>): (r: seq<word>)
    requires |v| == 16 && |m| == 16 && Sixteen(s)
    ensures |r| == 16
  {
    var v := Mix(v, 0, 4, 8, 12, m[s[0]], m[s[1]]);
    var v := Mix(v, 1, 5, 9, 13, m[s[2]], m[s[3]]);
    var v := Mix(v, 2, 6, 10, 14, m[s[4]], m[s[5]]);
    Mix(v, 3, 7, 11, 15, m[s[6]], m[s[7]])
  }

  function Diagonals(v: seq<word>, m: seq<word>, s: seq<nat>): (r: seq<word>)
    requires |v| == 16 && |m| == 16 && Sixteen(s)
    ensures |r| == 16
  {
    var v := Mix(v, 0, 5, 10, 15, m[s[8]], m[s[9]]);
    var v := Mix(v, 1, 6, 11, 12, m[s[10]], m[s[11]]);
    var v := Mix(v, 2, 7, 8, 13, m[s[12]], m[s[13]]);
    Mix(v, 3, 4, 9, 14, m[s[14]], m[s[15]])
  }

  /** One round: the columns, then the diagonals. */
  function Round(v: seq<word>, m: seq<word>, s: seq<nat>): (r: seq<word>)
    requires |v| == 16 && |m| == 16 && Sixteen(s)
    ensures |r| == 16
  {
    Diagonals(Columns(v, m, s), m, s)
  }

  function Rounds(v: seq<word>, m: seq<word>, n: nat): (r: seq<word>)
    requires |v| == 16 && |m| == 16
    ensures |r| == 16
  {
    if n == 0 then v
    else
      SigmaIs((n - 1) % 10);
      Round(Rounds(v, m, n - 1), m, SIGMA[(n - 1) % 10])
  }

  function MessageWords(block: seq<byte>, n: nat): (r: seq<word>)
    requires 8 * n <= |block|
    ensures |r| == n
  {
    if n == 0 then [] else MessageWords(block, n - 1) + [FromLe(block[8 * n - 8..8 * n])]
  }

  /** The working words before the rounds: state, initial vector, counter and final flag. */
  function Working(h: seq<word>, t: nat, last: bool): (r: seq<word>)
    requires |h| == 8
    ensures |r| == 16
  {
    h + [IV[0], IV[1], IV[2], IV[3],
         Xor(IV[4], ToWord(t)), Xor(IV[5], ToWord(t / 0x1_0000_0000_0000_0000)),
         if last then Xor(IV[6], 0xFFFFFFFFFFFFFFFF) else IV[6], IV[7]]
  }

  function Folded(h: seq<word>, v: seq<word>): (r: seq<word>)
    requires |h| == 8 && |v| == 16
    ensures |r| == 8
  {
    seq(8, i requires 0 <= i < 8 => Xor(h[i], Xor(v[i], v[i + 8])))
  }

  /** One block, of exactly 128 bytes, into eight words. */
  function Compress(h: seq<word>, block: seq<byte>, t: nat, last: bool): seq<word> {
    if |h| == 8 && |block| == 128 then Folded(h, Rounds(Working(h, t, last), MessageWords(block, 16), 12)) else h
  }

  function Start(nn: nat): seq<word> { IV[0 := Xor(IV[0], Xor(0x01010000, ToWord(nn)))] }

  function Joined(s: seq<word>): seq<byte> {
    if s == [] then [] else Joined(s[..|s| - 1]) + LeBytes(s[|s| - 1], 8)
  }

  // ----- the code -----

  method MixInPlace(v: array<word>, a: nat, b: nat, c: nat, d: nat, x: word, y: word)
    requires v.Length == 16 && a < 16 && b < 16 && c < 16 && d < 16
    requires a != b && a != c && a != d && b != c && b != d && c != d
    modifies v
    ensures v[..] == Mix(old(v[..]), a, b, c, d, x, y)
  {
    hide Plus, Xor, Rotated;
    v[a] := Plus(Plus(v[a], v[b]), x);
    v[d] := Rotated(Xor(v[d], v[a]), 32);
    v[c] := Plus(v[c], v[d]);
    v[b] := Rotated(Xor(v[b], v[c]), 24);
    v[a] := Plus(Plus(v[a], v[b]), y);
    v[d] := Rotated(Xor(v[d], v[a]), 16);
    v[c] := Plus(v[c], v[d]);
    v[b] := Rotated(Xor(v[b], v[c]), 63);
  }

  method RoundInPlace(v: array<word>, m: array<word>, s: seq<nat>)
    requires v.Length == 16 && m.Length == 16 && v != m && Sixteen(s)
    modifies v
    ensures v[..] == Round(old(v[..]), m[..], s)
  {
    hide Mix;
    MixInPlace(v, 0, 4, 8, 12, m[s[0]], m[s[1]]);
    MixInPlace(v, 1, 5, 9, 13, m[s[2]], m[s[3]]);
    MixInPlace(v, 2, 6, 10, 14, m[s[4]], m[s[5]]);
    MixInPlace(v, 3, 7, 11, 15, m[s[6]], m[s[7]]);
    assert v[..] == Columns(old(v[..]), m[..], s);
    MixInPlace(v, 0, 5, 10, 15, m[s[8]], m[s[9]]);
    MixInPlace(v, 1, 6, 11, 12, m[s[10]], m[s[11]]);
    MixInPlace(v, 2, 7, 8, 13, m[s[12]], m[s[13]]);
    MixInPlace(v, 3, 4, 9, 14, m[s[14]], m[s[15]]);
  }

  method LoadWords(block: seq<byte>) returns (m: array<word>)
    requires |block| == 128
    ensures fresh(m) && m.Length == 16 && m[..] == MessageWords(block, 16)
  {
    hide FromLe;
    m := new word[16](_ => 0);
    for i := 0 to 16
      invariant m[..i] == MessageWords(block, i)
    {
      m[i] := FromLe(block[8 * i..8 * i + 8]);
      assert m[..i + 1] == m[..i] + [m[i]];
    }
    assert m[..16] == m[..];
  }

  method LoadWorking(h: array<word>, t: nat, last: bool) returns (v: array<word>)
    requires h.Length == 8
    ensures fresh(v) && v.Length == 16 && v[..] == Working(h[..], t, last)
  {
    hide Xor, ToWord;
    v := new word[16](_ => 0);
    for i := 0 to 8
      invariant forall j | 0 <= j < i :: v[j] == h[j] && v[j + 8] == IV[j]
    {
      v[i] := h[i];
      v[i + 8] := IV[i];
    }
    v[12] := Xor(v[12], ToWord(t));
    v[13] := Xor(v[13], ToWord(t / 0x1_0000_0000_0000_0000));
    if last {
      v[14] := Xor(v[14], 0xFFFFFFFFFFFFFFFF);
    }
  }

  method FoldInPlace(h: array<word>, v: array<word>)
    requires h.Length == 8 && v.Length == 16 && h != v
    modifies h
    ensures h[..] == Folded(old(h[..]), v[..])
  {
    hide Xor;
    for i := 0 to 8
      invariant forall j | 0 <= j < 8 :: h[j] == if j < i then Xor(old(h[j]), Xor(v[j], v[j + 8])) else old(h[j])
    {
      h[i] := Xor(h[i], Xor(v[i], v[i + 8]));
    }
  }

  /** The state array after a block is the compression of the state before it. */
  method CompressInPlace(h: array<word>, block: seq<byte>, t: nat, last: bool)
    requires h.Length == 8 && |block| == 128
    modifies h
    ensures h[..] == Compress(old(h[..]), block, t, last)
  {
    hide Round, Working, Folded, MessageWords;
    var m := LoadWords(block);
    var v := LoadWorking(h, t, last);
    ghost var start, was := v[..], h[..];
    for round := 0 to 12
      invariant v[..] == Rounds(start, m[..], round)
      invariant h[..] == was && m[..] == MessageWords(block, 16)
    {
      SigmaIs(round % 10);
      RoundInPlace(v, m, SIGMA[round % 10]);
    }
    FoldInPlace(h, v);
  }

  /** The hash of the asked length: the numbered blocks of the message, compressed in
      order, cut to `nn` bytes. */
  method Blake2b(data: seq<byte>, nn: nat) returns (out: seq<byte>)
    requires 1 <= nn <= 64
    ensures |Joined(ByNumber(Compress, Start(nn), data, 0))| == 64
    ensures out == Joined(ByNumber(Compress, Start(nn), data, 0))[..nn]
  {
    hide ByNumber, Compress, Start;
    var h := Started(nn);
    var offset := 0;
    var fullBlocks := if |data| > 128 then (|data| - 1) / 128 else 0;
    assert fullBlocks + 1 == BlockCount(|data|);
    for i := 0 to fullBlocks
      invariant offset == i * 128 && ByNumber(Compress, h[..], data, i) == ByNumber(Compress, Start(nn), data, 0)
    {
      NumberStep(Compress, h[..], data, i);
      var block := data[offset..offset + 128];
      offset := offset + 128;
      CompressInPlace(h, block, offset, false);
    }
    NumberStep(Compress, h[..], data, fullBlocks);
    var lastBlock := new byte[128](_ => 0);
    CopyInto(lastBlock, 0, data[offset..]);
    assert lastBlock[..] == Block(data, fullBlocks);
    hide Block;
    CompressInPlace(h, lastBlock[..], |data|, true);
    NumberEnds(Compress, h[..], data);
    out := WriteOut(h);
    JoinedLength(h[..]);
    out := out[..nn];
  }

  method Started(nn: nat) returns (h: array<word>)
    requires 1 <= nn <= 64
    ensures fresh(h) && h.Length == 8 && h[..] == Start(nn)
  {
    hide ToWord, Xor;
    h := new word[8](i requires 0 <= i < 8 => IV[i]);
    h[0] := Xor(h[0], Xor(0x01010000, ToWord(nn)));
  }

  method WriteOut(h: array<word>) returns (out: seq<byte>)
    requires h.Length == 8
    ensures out == Joined(h[..])
  {
    hide LeBytes;
    out := [];
    ghost var s := h[..];
    for i := 0 to 8
      invariant out == Joined(s[..i])
    {
      out := out + LeBytes(h[i], 8);
      assert s[..i + 1][..i] == s[..i];
    }
    assert s[..8] == s;
  }

  lemma {:induction false} LeBytesLength(w: word, n: nat)
    ensures |LeBytes(w, n)| == n
    decreases n
  {
    if n > 0 {
      LeBytesLength(w >> 8, n - 1);
    }
  }

  lemma {:induction false} JoinedLength(s: seq<word>)
    ensures |Joined(s)| == 8 * |s|
    decreases |s|
  {
    if s != [] {
      JoinedLength(s[..|s| - 1]);
      LeBytesLength(s[|s| - 1], 8);
    }
  }
}
