/** Blocks and padding of SHA-256 and BLAKE2b, over any compression function: which blocks
    are formed from a message, with which counters, and in which order. */
module Digest {
  import opened Wrappers

  function Zeros(n: nat): (z: seq<byte>)
    ensures |z| == n && forall i | 0 <= i < n :: z[i] == 0
  {
    seq(n, _ => 0)
  }

  /** Big-endian, `k` bytes. */
  function BigEndian(n: nat, k: nat): (r: seq<byte>)
    ensures |r| == k
  {
    if k == 0 then [] else BigEndian(n / 256, k - 1) + [n % 256]
  }

  function Power256(k: nat): nat { if k == 0 then 1 else 256 * Power256(k - 1) }

  lemma {:induction false} BigEndianInjective(a: nat, b: nat, k: nat)
    requires a < Power256(k) && b < Power256(k) && BigEndian(a, k) == BigEndian(b, k)
    ensures a == b
    decreases k
  {
    if k > 0 {
      var x, y := BigEndian(a / 256, k - 1), BigEndian(b / 256, k - 1);
      assert BigEndian(a, k)[..k - 1] == x && BigEndian(b, k)[..k - 1] == y;
      assert BigEndian(a, k)[k - 1] == a % 256 && BigEndian(b, k)[k - 1] == b % 256;
      BigEndianInjective(a / 256, b / 256, k - 1);
      assert a == a / 256 * 256 + a % 256 && b == b / 256 * 256 + b % 256;
    }
  }

  /** The blocks of `size` bytes of a message, folded from a state. */
  function Fold<S>(f: (S, seq<byte>) -> S, state: S, m: seq<byte>, size: nat): S
    requires size > 0
    decreases |m|
  {
    if |m| < size then state else Fold(f, f(state, m[..size]), m[size..], size)
  }

  // ----- SHA-256 -----

  const BLOCK := 64
  const MAX_BYTES: nat := 0x2000_0000_0000_0000

  function ZeroCount(n: nat): nat { (55 - n) % 64 }

  /** The zeros of section 5.1.1 of FIPS 180-4: as few as make the length 56 modulo 64. */
  lemma FewestZeros(n: nat, j: nat)
    ensures ZeroCount(n) < 64 && (n + 1 + ZeroCount(n)) % 64 == 56
    ensures j < ZeroCount(n) ==> (n + 1 + j) % 64 != 56
  {
  }

  function LengthField(n: nat): (r: seq<byte>)
    ensures |r| == 8
  {
    BigEndian(n * 8 % 0x1_0000_0000_0000_0000, 8)
  }

  /** The padded message. The length field is the bit length modulo 2^64. */
  function Padded(m: seq<byte>): seq<byte> {
    m + [0x80] + Zeros(ZeroCount(|m|)) + LengthField(|m|)
  }

  lemma PaddedBlocks(m: seq<byte>)
    ensures |Padded(m)| % BLOCK == 0 && m <= Padded(m)
  {
    hide LengthField;
    FewestZeros(|m|, 0);
    assert |Padded(m)| == |m| + 1 + ZeroCount(|m|) + 8;
  }

  lemma PaddedEnds(m: seq<byte>)
    ensures |Padded(m)| > |m| + 8
    ensures Padded(m)[|Padded(m)| - 8..] == LengthField(|m|) && Padded(m)[..|m|] == m
  {
    hide LengthField, ZeroCount;
  }

  /** No two messages have the same padding, even where the length field repeats: equal
      padded lengths leave no room for another multiple of 2^61. */
  lemma PaddingInjective(a: seq<byte>, b: seq<byte>)
    requires Padded(a) == Padded(b)
    ensures a == b
  {
    hide Padded, BigEndian;
    PaddedEnds(a);
    PaddedEnds(b);
    EightBytes();
    BigEndianInjective(|a| * 8 % 0x1_0000_0000_0000_0000, |b| * 8 % 0x1_0000_0000_0000_0000, 8);
    PaddedLength(a);
    PaddedLength(b);
    SameLength(|a|, |b|);
  }

  lemma PaddedLength(m: seq<byte>)
    ensures |m| + 9 <= |Padded(m)| < |m| + 73
  {
    hide LengthField;
    FewestZeros(|m|, 0);
  }

  lemma SameLength(x: nat, y: nat)
    requires -64 < x - y < 64
    requires x * 8 % 0x1_0000_0000_0000_0000 == y * 8 % 0x1_0000_0000_0000_0000
    ensures x == y
  {
  }

  lemma EightBytes()
    ensures Power256(8) == 0x1_0000_0000_0000_0000
  {
    assert Power256(4) == 0x1_0000_0000;
  }

  /** The length field repeats every 2^61 bytes. */
  lemma LengthWraps(n: nat)
    ensures (n + MAX_BYTES) * 8 % 0x1_0000_0000_0000_0000 == n * 8 % 0x1_0000_0000_0000_0000
  {
    assert (n + MAX_BYTES) * 8 == n * 8 + 0x1_0000_0000_0000_0000;
  }

  method CopyInto(dst: array<byte>, at: nat, src: seq<byte>)
    requires at + |src| <= dst.Length
    modifies dst
    ensures dst[..] == old(dst[..at]) + src + old(dst[at + |src|..])
  {
    forall i | 0 <= i < |src| {
      dst[at + i] := src[i];
    }
  }

  lemma FoldStep<S>(f: (S, seq<byte>) -> S, state: S, p: seq<byte>, at: nat, size: nat)
    requires size > 0 && at + size <= |p|
    ensures Fold(f, state, p[at..], size) == Fold(f, f(state, p[at..at + size]), p[at + size..], size)
  {
    assert p[at..][..size] == p[at..at + size] && p[at..][size..] == p[at + size..];
  }

  lemma FoldShort<S>(f: (S, seq<byte>) -> S, state: S, p: seq<byte>, size: nat)
    requires |p| < size
    ensures Fold(f, state, p, size) == state
  {
  }

  /** What is left of the padded message after the whole blocks: one block, or two when
      fewer than nine bytes are free. */
  lemma PaddedTail(data: seq<byte>, offset: nat)
    requires offset <= |data| < offset + 64 && offset % 64 == 0
    ensures var rest := |data| - offset;
            var length := if rest < 56 then 64 else 128;
            && length - 9 - rest >= 0
            && Padded(data)[offset..] == data[offset..] + [0x80] + Zeros(length - 9 - rest) + LengthField(|data|)
  {
    hide LengthField, ZeroCount;
    var rest := |data| - offset;
    ZerosLeft(|data|, offset);
    assert Padded(data)[offset..] == data[offset..] + [0x80] + Zeros(ZeroCount(|data|)) + LengthField(|data|);
  }

  lemma ZerosLeft(n: nat, offset: nat)
    requires offset <= n < offset + 64 && offset % 64 == 0
    ensures ZeroCount(n) == (if n - offset < 56 then 64 else 128) - 9 - (n - offset)
  {
  }

  /** The buffer for the last block or two, filled in place. */
  method FinalBlocks(rest: seq<byte>, length: seq<byte>) returns (buf: array<byte>, paddedLen: nat)
    requires |rest| < 64 && |length| == 8
    ensures fresh(buf) && buf.Length == 128
    ensures paddedLen == if |rest| < 56 then 64 else 128
    ensures buf[..paddedLen] == rest + [0x80] + Zeros(paddedLen - 9 - |rest|) + length
  {
    buf := new byte[128](_ => 0);
    CopyInto(buf, 0, rest);
    buf[|rest|] := 0x80;
    paddedLen := if |rest| < 56 then 64 else 128;
    CopyInto(buf, paddedLen - 8, length);
  }

  // ----- BLAKE2b -----

  const WIDE := 128

  /** Section 3.3 of RFC 7693 without a key: full blocks with the byte count so far, then
      the last block, zero-filled, with the whole count and the final flag. */
  function Blake<S>(f: (S, seq<byte>, nat, bool) -> S, h: S, data: seq<byte>, done: nat): S
    decreases |data|
  {
    if |data| > WIDE then Blake(f, f(h, data[..WIDE], done + WIDE, false), data[WIDE..], done + WIDE)
    else f(h, data + Zeros(WIDE - |data|), done + |data|, true)
  }

  /** The blocks by number, as the RFC counts them. */
  function BlockCount(n: nat): nat { if n == 0 then 1 else (n + WIDE - 1) / WIDE }

  function Block(data: seq<byte>, i: nat): seq<byte>
    requires i < BlockCount(|data|)
  {
    if i + 1 < BlockCount(|data|) then data[i * WIDE..(i + 1) * WIDE]
    else data[i * WIDE..] + Zeros(WIDE - (|data| - i * WIDE))
  }

  function Counter(n: nat, i: nat): nat { if i + 1 < BlockCount(n) then (i + 1) * WIDE else n }

  function ByNumber<S>(f: (S, seq<byte>, nat, bool) -> S, h: S, data: seq<byte>, i: nat): S
    requires i <= BlockCount(|data|)
    decreases BlockCount(|data|) - i
  {
    if i == BlockCount(|data|) then h
    else ByNumber(f, f(h, Block(data, i), Counter(|data|, i), i + 1 == BlockCount(|data|)), data, i + 1)
  }

  /** max(1, ceil(n / 128)) blocks, each of 128 bytes, that spell the message and then
      fewer than 128 zeros unless the message is empty. */
  lemma BlocksAre(data: seq<byte>, i: nat)
    requires i < BlockCount(|data|)
    ensures |Block(data, i)| == WIDE
    ensures i * WIDE <= |data| <= BlockCount(|data|) * WIDE && (data != [] ==> BlockCount(|data|) * WIDE < |data| + WIDE)
    ensures forall j | 0 <= j < WIDE ::
      Block(data, i)[j] == if i * WIDE + j < |data| then data[i * WIDE + j] else 0
  {
  }

  lemma NumberStep<S>(f: (S, seq<byte>, nat, bool) -> S, h: S, data: seq<byte>, i: nat)
    requires i < BlockCount(|data|)
    ensures ByNumber(f, h, data, i) ==
            ByNumber(f, f(h, Block(data, i), Counter(|data|, i), i + 1 == BlockCount(|data|)), data, i + 1)
  {
  }

  lemma NumberEnds<S>(f: (S, seq<byte>, nat, bool) -> S, h: S, data: seq<byte>)
    ensures ByNumber(f, h, data, BlockCount(|data|)) == h
  {
  }

  /** The RFC's numbering and the walk over what is left give the same digest. */
  lemma {:induction false} NumberedIsWalk<S>(f: (S, seq<byte>, nat, bool) -> S, h: S, data: seq<byte>, i: nat)
    requires i < BlockCount(|data|)
    ensures i * WIDE <= |data| && ByNumber(f, h, data, i) == Blake(f, h, data[i * WIDE..], i * WIDE)
    decreases BlockCount(|data|) - i
  {
    hide ByNumber;
    BlocksAre(data, i);
    NumberStep(f, h, data, i);
    var rest := data[i * WIDE..];
    if i + 1 < BlockCount(|data|) {
      assert rest[..WIDE] == Block(data, i) && rest[WIDE..] == data[(i + 1) * WIDE..];
      NumberedIsWalk(f, f(h, Block(data, i), Counter(|data|, i), false), data, i + 1);
    } else {
      NumberEnds(f, f(h, Block(data, i), Counter(|data|, i), true), data);
    }
  }
}
