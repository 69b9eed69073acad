/** SHA-256 as section 6.2 of FIPS 180-4 defines it, and the code that computes it in
    place over fixed arrays. */
module Sha256 {
  import opened Wrappers
  import opened Digest

  type word = bv32

  const K: seq<word> :=
    [0x428a2f98, 0x71374491, 0xb5c0fbcf, 0xe9b5dba5, 0x3956c25b, 0x59f111f1, 0x923f82a4, 0xab1c5ed5] +
    [0xd807aa98, 0x12835b01, 0x243185be, 0x550c7dc3, 0x72be5d74, 0x80deb1fe, 0x9bdc06a7, 0xc19bf174] +
    [0xe49b69c1, 0xefbe4786, 0x0fc19dc6, 0x240ca1cc, 0x2de92c6f, 0x4a7484aa, 0x5cb0a9dc, 0x76f988da] +
    [0x983e5152, 0xa831c66d, 0xb00327c8, 0xbf597fc7, 0xc6e00bf3, 0xd5a79147, 0x06ca6351, 0x14292967] +
    [0x27b70a85, 0x2e1b2138, 0x4d2c6dfc, 0x53380d13, 0x650a7354, 0x766a0abb, 0x81c2c92e, 0x92722c85] +
    [0xa2bfe8a1, 0xa81a664b, 0xc24b8b70, 0xc76c51a3, 0xd192e819, 0xd6990624, 0xf40e3585, 0x106aa070] +
    [0x19a4c116, 0x1e376c08, 0x2748774c, 0x34b0bcb5, 0x391c0cb3, 0x4ed8aa4a, 0x5b9cca4f, 0x682e6ff3] +
    [0x748f82ee, 0x78a5636f, 0x84c87814, 0x8cc70208, 0x90befffa, 0xa4506ceb, 0xbef9a3f7, 0xc67178f2]

  function Constant(t: nat): word
    requires t < 64
  {
    K[t]
  }

  /** The eight words of a hash value. */
  datatype Hash = Hash(a: word, b: word, c: word, d: word, e: word, f: word, g: word, h: word)

  const H_INIT := Hash(0x6a09e667, 0xbb67ae85, 0x3c6ef372, 0xa54ff53a, 0x510e527f, 0x9b05688c, 0x1f83d9ab, 0x5be0cd19)

  function Ch(x: word, y: word, z: word): word { (x & y) ^ (!x & z) }

  function Maj(x: word, y: word, z: word): word { (x & y) ^ (x & z) ^ (y & z) }

  function Sigma0(x: word): word { x.RotateRight(2) ^ x.RotateRight(13) ^ x.RotateRight(22) }

  function Sigma1(x: word): word { x.RotateRight(6) ^ x.RotateRight(11) ^ x.RotateRight(25) }

  function LittleSigma0(x: word): word { x.RotateRight(7) ^ x.RotateRight(18) ^ (x >> 3) }

  function LittleSigma1(x: word): word { x.RotateRight(17) ^ x.RotateRight(19) ^ (x >> 10) }

  function Plus(x: word, y: word): word { x + y }

  function FromBytes(a: byte, b: byte, c: byte, d: byte): word {
    ((a as bv32) << 24) | ((b as bv32) << 16) | ((c as bv32) << 8) | (d as bv32)
  }

  function ByteOf(w: word, shift: nat): byte
    requires shift < 32
  {
    ((w >> shift) & 0xFF) as bv8 as int
  }

  function ToBytes(w: word): seq<byte> { [ByteOf(w, 24), ByteOf(w, 16), ByteOf(w, 8), ByteOf(w, 0)] }

  // ----- the definition -----

  /** Word `t` of the message schedule. */
  function Schedule(block: seq<byte>, t: nat): word
    requires |block| == 64
  {
    if t < 16 then FromBytes(block[4 * t], block[4 * t + 1], block[4 * t + 2], block[4 * t + 3])
    else Plus(Plus(Plus(LittleSigma1(Schedule(block, t - 2)), Schedule(block, t - 7)),
                   LittleSigma0(Schedule(block, t - 15))), Schedule(block, t - 16))
  }

  function Temp1(v: Hash, k: word, w: word): word { Plus(Plus(Plus(Plus(v.h, Sigma1(v.e)), Ch(v.e, v.f, v.g)), k), w) }

  function Temp2(v: Hash): word { Plus(Sigma0(v.a), Maj(v.a, v.b, v.c)) }

  function Round(v: Hash, k: word, w: word): Hash {
    var t1 := Temp1(v, k, w);
    Hash(Plus(t1, Temp2(v)), v.a, v.b, v.c, Plus(v.d, t1), v.e, v.f, v.g)
  }

  function Rounds(v: Hash, block: seq<byte>, t: nat): Hash
    requires |block| == 64 && t <= 64
  {
    if t == 0 then v else Round(Rounds(v, block, t - 1), Constant(t - 1), Schedule(block, t - 1))
  }

  function Sum(x: Hash, y: Hash): Hash {
    Hash(Plus(x.a, y.a), Plus(x.b, y.b), Plus(x.c, y.c), Plus(x.d, y.d),
         Plus(x.e, y.e), Plus(x.f, y.f), Plus(x.g, y.g), Plus(x.h, y.h))
  }

  /** One block, of exactly 64 bytes. */
  function Compress(v: Hash, block: seq<byte>): Hash {
    if |block| == 64 then Sum(v, Rounds(v, block, 64)) else v
  }

  function Words(v: Hash): seq<word> { [v.a, v.b, v.c, v.d, v.e, v.f, v.g, v.h] }

  function Joined(s: seq<word>): seq<byte> {
    if s == [] then [] else Joined(s[..|s| - 1]) + ToBytes(s[|s| - 1])
  }

  /** The digest: each word, most significant byte first. */
  function Output(v: Hash): seq<byte> { Joined(Words(v)) }

  // ----- the code -----

  function HashOf(s: seq<word>): Hash
    requires |s| == 8
  {
    Hash(s[0], s[1], s[2], s[3], s[4], s[5], s[6], s[7])
  }

  lemma ScheduleHead(block: seq<byte>, t: nat)
    requires |block| == 64 && t < 16
    ensures Schedule(block, t) == FromBytes(block[4 * t], block[4 * t + 1], block[4 * t + 2], block[4 * t + 3])
  {
  }

  lemma ScheduleTail(block: seq<byte>, t: nat)
    requires |block| == 64 && 16 <= t
    ensures Schedule(block, t) ==
            Plus(Plus(Plus(LittleSigma1(Schedule(block, t - 2)), Schedule(block, t - 7)),
                      LittleSigma0(Schedule(block, t - 15))), Schedule(block, t - 16))
  {
  }

  /** The schedule array, filled from the block and then from itself. */
  method FillSchedule(block: seq<byte>) returns (w: array<word>)
    requires |block| == 64
    ensures fresh(w) && w.Length == 64
    ensures forall t | 0 <= t < 64 :: w[t] == Schedule(block, t)
  {
    hide Schedule, FromBytes, Plus, LittleSigma0, LittleSigma1;
    w := new word[64](_ => 0);
    for i := 0 to 16
      invariant forall t | 0 <= t < i :: w[t] == Schedule(block, t)
    {
      ScheduleHead(block, i);
      w[i] := FromBytes(block[4 * i], block[4 * i + 1], block[4 * i + 2], block[4 * i + 3]);
    }
    for i := 16 to 64
      invariant forall t | 0 <= t < i :: w[t] == Schedule(block, t)
    {
      ScheduleTail(block, i);
      w[i] := Plus(Plus(Plus(LittleSigma1(w[i - 2]), w[i - 7]), LittleSigma0(w[i - 15])), w[i - 16]);
    }
  }

  /** The state array after a block is the compression of the state before it. */
  method CompressInPlace(state: array<word>, block: seq<byte>)
    requires state.Length == 8 && |block| == 64
    modifies state
    ensures HashOf(state[..]) == Compress(HashOf(old(state[..])), block)
  {
    hide Schedule, Constant, Plus, Sigma0, Sigma1, Ch, Maj, Sum;
    var w := FillSchedule(block);
    var a, b, c, d := state[0], state[1], state[2], state[3];
    var e, f, g, h := state[4], state[5], state[6], state[7];
    ghost var v := HashOf(state[..]);
    for i := 0 to 64
      invariant Hash(a, b, c, d, e, f, g, h) == Rounds(v, block, i)
    {
      var t1 := Plus(Plus(Plus(Plus(h, Sigma1(e)), Ch(e, f, g)), Constant(i)), w[i]);
      var t2 := Plus(Sigma0(a), Maj(a, b, c));
      h := g;
      g := f;
      f := e;
      e := Plus(d, t1);
      d := c;
      c := b;
      b := a;
      a := Plus(t1, t2);
    }
    AddInPlace(state, a, b, c, d, e, f, g, h);
  }

  method AddInPlace(state: array<word>, a: word, b: word, c: word, d: word, e: word, f: word, g: word, h: word)
    requires state.Length == 8
    modifies state
    ensures HashOf(state[..]) == Sum(HashOf(old(state[..])), Hash(a, b, c, d, e, f, g, h))
  {
    hide Plus;
    state[0] := Plus(state[0], a);
    state[1] := Plus(state[1], b);
    state[2] := Plus(state[2], c);
    state[3] := Plus(state[3], d);
    state[4] := Plus(state[4], e);
    state[5] := Plus(state[5], f);
    state[6] := Plus(state[6], g);
    state[7] := Plus(state[7], h);
  }

  lemma WholeBlock(v: Hash, data: seq<byte>, offset: nat)
    requires offset + 64 <= |data|
    ensures |Padded(data)| >= |data| >= offset + 64
    ensures Fold(Compress, v, Padded(data)[offset..], 64) ==
            Fold(Compress, Compress(v, data[offset..offset + 64]), Padded(data)[offset + 64..], 64)
  {
    hide Fold, Compress, Padded;
    PaddedEnds(data);
    FoldStep(Compress, v, Padded(data), offset, 64);
    assert Padded(data)[offset..offset + 64] == data[offset..offset + 64];
  }

  /** One final block or two. */
  lemma LastBlocks(v: Hash, rest: seq<byte>, buf: seq<byte>, length: nat)
    requires |buf| == 128 && (length == 64 || length == 128) && rest == buf[..length]
    ensures Fold(Compress, v, rest, 64) ==
            if length == 64 then Compress(v, buf[..64]) else Compress(Compress(v, buf[..64]), buf[64..128])
  {
    hide Fold, Compress;
    assert rest[0..] == rest && rest[0..64] == buf[..64];
    FoldStep(Compress, v, rest, 0, 64);
    var v' := Compress(v, buf[..64]);
    if length == 128 {
      assert rest[64..128] == buf[64..128];
      FoldStep(Compress, v', rest, 64, 64);
      FoldShort(Compress, Compress(v', buf[64..128]), rest[128..], 64);
    } else {
      FoldShort(Compress, v', rest[64..], 64);
    }
  }

  /** The digest of a message: the fold of the compression over the padded message. */
  method Sha256(data: seq<byte>) returns (out: seq<byte>)
    ensures out == Output(Fold(Compress, H_INIT, Padded(data), BLOCK))
  {
    hide Fold, BigEndian, ZeroCount, Compress, Output, Padded, Zeros;
    var state := new word[8][0x6a09e667, 0xbb67ae85, 0x3c6ef372, 0xa54ff53a, 0x510e527f, 0x9b05688c, 0x1f83d9ab, 0x5be0cd19];
    var bitLen := |data| * 8 % 0x1_0000_0000_0000_0000;
    PaddedEnds(data);
    var offset := 0;
    ghost var p := Padded(data);
    assert p[0..] == p;
    while offset + 64 <= |data|
      invariant 0 <= offset <= |data| && offset % 64 == 0
      invariant Fold(Compress, HashOf(state[..]), p[offset..], 64) == Fold(Compress, H_INIT, p, 64)
    {
      WholeBlock(HashOf(state[..]), data, offset);
      CompressInPlace(state, data[offset..offset + 64]);
      offset := offset + 64;
    }
    PaddedTail(data, offset);
    var buf, paddedLen := FinalBlocks(data[offset..], BigEndian(bitLen, 8));
    LastBlocks(HashOf(state[..]), p[offset..], buf[..], paddedLen);
    CompressInPlace(state, buf[..64]);
    if paddedLen == 128 {
      CompressInPlace(state, buf[64..128]);
    }
    out := WriteOut(state);
  }

  method WriteOut(state: array<word>) returns (out: seq<byte>)
    requires state.Length == 8
    ensures out == Output(HashOf(state[..]))
  {
    hide ToBytes;
    out := [];
    ghost var s := state[..];
    for i := 0 to 8
      invariant out == Joined(s[..i])
    {
      out := out + ToBytes(state[i]);
      assert s[..i + 1][..i] == s[..i];
    }
    assert s[..8] == s == Words(HashOf(s));
  }
}
