/** Whole-buffer gzip: what is compressed reads back, by this reader and by the streaming
    decompressor. */
module GzipOneShot {
  import opened Wrappers
  import opened Crc
  import opened Gzip
  import opened GzipStream
  import opened GzipFormat

  function LowByte(c: bv32): octet { (c & 0xFF) as bv8 }

  function Rest(c: bv32): bv32 { c >> 8 }

  /** `to_le_bytes` of a word. */
  function WordBytes(c: bv32, n: nat): (r: seq<octet>)
    ensures |r| == n
  {
    if n == 0 then [] else [LowByte(c)] + WordBytes(Rest(c), n - 1)
  }

  function LengthBytes(n: nat): seq<octet> {
    var m := n % 0x1_0000_0000;
    [Octet(m % 256), Octet(m / 256 % 256), Octet(m / 65536 % 256), Octet(m / 16777216)]
  }

  const HEADER: seq<octet> := [0x1f, 0x8b, 8, 0, 0, 0, 0, 0, 0, 0xff]

  function Compressed(deflate: seq<octet> -> seq<octet>, data: seq<octet>): seq<octet> {
    HEADER + deflate(data) + WordBytes(Crc32(data), 4) + LengthBytes(|data|)
  }

  method GzipCompress(deflate: seq<octet> -> seq<octet>, data: seq<octet>) returns (out: seq<octet>)
    ensures out == Compressed(deflate, data)
  {
    hide Crc32, WordBytes, LengthBytes;
    var deflated := deflate(data);
    var crc := ComputeCrc32(data);
    out := [0x1f, 0x8b, 8, 0] + [0, 0, 0, 0] + [0, 0xff];
    out := out + deflated;
    out := out + WordBytes(crc, 4);
    out := out + LengthBytes(|data|);
  }

  /** The output when the compressed data ends somewhere in `s`; what follows is ignored. */
  function InflatedPrefix<S>(inf: Inflater<S>, st: S, s: seq<octet>): Option<seq<octet>>
    decreases |s|
  {
    if s == [] then None
    else
      var a := inf.step(st, s[0]);
      match a.progress
      case Broken => None
      case Ended => Some(a.out)
      case Going =>
        var rest := InflatedPrefix(inf, a.state, s[1..]);
        if rest.None? then None else Some(a.out + rest.value)
  }

  /** Ten bytes are skipped as the header whatever its flags say. */
  function Decompressed<S>(inf: Inflater<S>, data: seq<octet>, max: nat): Option<seq<octet>> {
    if |data| < 18 || data[0] != 0x1f || data[1] != 0x8b then None
    else
      var at := |data| - 8;
      var out := InflatedPrefix(inf, inf.start, data[10..at]);
      if out.None? || |out.value| > max then None
      else if Crc32(out.value) != CrcWord(data[at..at + 4]) || |out.value| % 0x1_0000_0000 != Le32(data[at + 4..]) then None
      else out
  }

  method GzipDecompress<S>(inf: Inflater<S>, data: seq<octet>, max: nat) returns (r: Option<seq<octet>>)
    ensures r == Decompressed(inf, data, max)
  {
    hide Crc32, Word, Le32;
    if |data| < 18 {
      return None;
    }
    if data[0] != 0x1f || data[1] != 0x8b {
      return None;
    }
    var at := |data| - 8;
    var storedCrc := CrcWord(data[at..at + 4]);
    var storedSize := Le32(data[at + 4..at + 8]);
    assert data[at + 4..at + 8] == data[at + 4..];
    var out := InflatedPrefix(inf, inf.start, data[10..at]);
    if out.None? || |out.value| > max {
      return None;
    }
    var crc := ComputeCrc32(out.value);
    if crc != storedCrc {
      return None;
    }
    if |out.value| % 0x1_0000_0000 != storedSize {
      return None;
    }
    return out;
  }

  // ----- words and their bytes -----

  lemma Rejoined(c: bv32)
    ensures Xor(Wide(LowByte(c)), Up(Rest(c))) == c
  {
  }

  lemma RestFits(c: bv32, n: nat)
    requires 0 < n <= 4 && Fits(c, n)
    ensures Fits(Rest(c), n - 1)
  {
  }

  lemma NoneFit(c: bv32)
    requires Fits(c, 0)
    ensures c == 0
  {
  }

  lemma {:induction false} WordBack(c: bv32, n: nat)
    requires n <= 4 && Fits(c, n)
    ensures Word(WordBytes(c, n)) == c
    decreases n
  {
    hide Fits, Xor, Wide, Up, LowByte, Rest;
    if n == 0 {
      NoneFit(c);
    } else {
      RestFits(c, n);
      WordBack(Rest(c), n - 1);
      Rejoined(c);
      assert WordBytes(c, n)[1..] == WordBytes(Rest(c), n - 1);
    }
  }

  lemma AllFit(c: bv32)
    ensures Fits(c, 4)
  {
  }

  lemma BaseDigits(m: nat)
    requires m < 0x1_0000_0000
    ensures m / 16777216 < 256
    ensures m % 256 + 256 * (m / 256 % 256 + 256 * (m / 65536 % 256 + 256 * (m / 16777216))) == m
  {
    assert m / 65536 == m / 256 / 256 && m / 16777216 == m / 65536 / 256;
  }

  lemma LengthBack(n: nat)
    ensures |LengthBytes(n)| == 4 && Le32(LengthBytes(n)) == n % 0x1_0000_0000
  {
    hide Octet;
    var m := n % 0x1_0000_0000;
    BaseDigits(m);
  }

  // ----- what is compressed reads back -----

  lemma CompressedIsMember<S>(inf: Inflater<S>, deflate: seq<octet> -> seq<octet>, data: seq<octet>)
    requires Inflated(inf, inf.start, deflate(data)) == Some(data)
    ensures var h, tail := Parts(HEADER, None, None, None, None), WordBytes(Crc32(data), 4) + LengthBytes(|data|);
            Member(inf, h, deflate(data), tail, data) && SpellHeader(h) == HEADER
  {
    hide Inflated, Crc32, WordBytes, LengthBytes, Fits, Word, Le32;
    AllFit(Crc32(data));
    WordBack(Crc32(data), 4);
    LengthBack(|data|);
    var tail := WordBytes(Crc32(data), 4) + LengthBytes(|data|);
    assert tail[..4] == WordBytes(Crc32(data), 4) && tail[4..] == LengthBytes(|data|);
    NoFlags();
  }

  lemma NoFlags()
    ensures !Has(0, FEXTRA) && !Has(0, FNAME) && !Has(0, FCOMMENT) && !Has(0, FHCRC)
  {
  }

  lemma {:induction false} PrefixOfExact<S>(inf: Inflater<S>, st: S, body: seq<octet>, after: seq<octet>)
    requires Inflated(inf, st, body).Some?
    ensures InflatedPrefix(inf, st, body + after) == Inflated(inf, st, body)
    decreases |body|
  {
    var a := inf.step(st, body[0]);
    assert (body + after)[1..] == body[1..] + after;
    if a.progress.Going? {
      PrefixOfExact(inf, a.state, body[1..], after);
    }
  }

  /** If inflating undoes deflating, both readers give the data back. */
  lemma CompressedReadsBack<S>(inf: Inflater<S>, deflate: seq<octet> -> seq<octet>, data: seq<octet>, max: nat)
    requires Inflated(inf, inf.start, deflate(data)) == Some(data) && |data| <= max
    ensures Decompressed(inf, Compressed(deflate, data), max) == Some(data)
    ensures OneShot(inf, Compressed(deflate, data)) == Ok(data)
  {
    hide Inflated, Crc32, Word, Le32, OneShot, InflatedPrefix, ValidParts;
    var h, body, tail := Parts(HEADER, None, None, None, None), deflate(data), WordBytes(Crc32(data), 4) + LengthBytes(|data|);
    CompressedIsMember(inf, deflate, data);
    MemberRead(inf, h, body, tail, [], data);
    var s := Compressed(deflate, data);
    assert SpellHeader(h) + body + tail + [] == s;
    WhateverFollows(inf, body, tail, data, max);
    assert HEADER + body + tail == s;
  }

  /** A plain header, compressed data and its trailer, with nothing behind: read by both. */
  lemma WhateverFollows<S>(inf: Inflater<S>, body: seq<octet>, tail: seq<octet>, out: seq<octet>, max: nat)
    requires Inflated(inf, inf.start, body) == Some(out) && |out| <= max
    requires |tail| == 8 && CrcWord(tail[..4]) == Crc32(out) && Le32(tail[4..]) == |out| % 0x1_0000_0000
    ensures Decompressed(inf, HEADER + body + tail, max) == Some(out)
  {
    hide Crc32, Word, Le32, InflatedPrefix;
    var s := HEADER + body + tail;
    NotNone(inf, body);
    var at := |s| - 8;
    assert s[10..at] == body + [] && s[at..at + 4] == tail[..4] && s[at + 4..] == tail[4..];
    PrefixOfExact(inf, inf.start, body, []);
  }

  lemma NotNone<S>(inf: Inflater<S>, body: seq<octet>)
    ensures Inflated(inf, inf.start, body).Some? ==> body != []
  {
  }

  /** A stream that both readers take for a member with a plain header. */
  predicate Plain(s: seq<octet>) {
    && |s| >= 18 && s[0] == 0x1f && s[1] == 0x8b && s[2] == 8
    && !Has(s[3], FEXTRA) && !Has(s[3], FNAME) && !Has(s[3], FCOMMENT) && !Has(s[3], FHCRC)
  }

  lemma PlainHeaderRead<S>(inf: Inflater<S>, s: seq<octet>)
    requires Plain(s)
    ensures Run(inf, Init(), s) == Run(inf, Machine(Deflate(inf.start), []), s[10..])
  {
    hide Run;
    FixedRead(inf, [], s[..10], []);
    assert [] + s[..10] == s[..10];
    RunSplit(inf, Init(), s, 10);
  }

  /** When the compressed data ends eight bytes before the end of a stream with a plain
      header, the two readers agree on it up to the size limit. */
  lemma ReadersAgree<S>(inf: Inflater<S>, s: seq<octet>, max: nat, out: seq<octet>)
    requires Plain(s) && Inflated(inf, inf.start, s[10..|s| - 8]).Some?
    ensures Decompressed(inf, s, max) == Some(out) <==> OneShot(inf, s) == Ok(out) && |out| <= max
  {
    hide Run, Crc32, Word, Le32, InflatedPrefix, Inflated, Plain;
    MagicOfPlain(s);
    var at := |s| - 8;
    var body, tail := s[10..at], s[at..];
    var data := Inflated(inf, inf.start, body).value;
    PlainHeaderRead(inf, s);
    assert s[10..] == body + tail && body + [] == body;
    RunAppend(inf, Machine(Deflate(inf.start), []), body, tail);
    BodyRead(inf, inf.start, body, []);
    assert [] + data == data;
    TrailerEnds(inf, tail, data);
    assert tail[..8] == tail && tail[..4] == s[at..at + 4] && tail[4..] == s[at + 4..];
    VerifyHolds<S>(tail, data);
    PrefixOfExact(inf, inf.start, body, []);
  }

  lemma MagicOfPlain(s: seq<octet>)
    requires Plain(s)
    ensures |s| >= 18 && s[0] == 0x1f && s[1] == 0x8b
  {
  }
}
