/** What the streaming decompressor accepts: exactly the gzip members of RFC 1952. */
module GzipFormat {
  import opened Wrappers
  import opened Crc
  import opened Gzip
  import opened GzipStream

  /** The output of compressed data that ends exactly at its last byte. */
  function Inflated<S>(inf: Inflater<S>, st: S, body: seq<octet>): Option<seq<octet>>
    decreases |body|
  {
    if body == [] then None
    else
      var a := inf.step(st, body[0]);
      match a.progress
      case Broken => None
      case Ended => if |body| == 1 then Some(a.out) else None
      case Going =>
        var rest := Inflated(inf, a.state, body[1..]);
        if rest.None? then None else Some(a.out + rest.value)
  }

  /** Header, compressed data, then the checksum and the length modulo 2^32. */
  ghost predicate Member<S>(inf: Inflater<S>, h: Parts, body: seq<octet>, tail: seq<octet>, out: seq<octet>) {
    && ValidParts(h)
    && Inflated(inf, inf.start, body) == Some(out)
    && |tail| == 8 && CrcWord(tail[..4]) == Crc32(out) && Le32(tail[4..]) == |out| % 0x1_0000_0000
  }

  ghost predicate StartsWithMember<S>(inf: Inflater<S>, s: seq<octet>, out: seq<octet>) {
    exists h, body, tail, after ::
      Member(inf, h, body, tail, out) && s == SpellHeader(h) + body + tail + after
  }

  lemma {:induction false} BodyRead<S>(inf: Inflater<S>, st: S, body: seq<octet>, out: seq<octet>)
    requires Inflated(inf, st, body).Some?
    ensures Run(inf, Machine(Deflate(st), out), body) ==
            Machine(Trailer([]), out + Inflated(inf, st, body).value)
    decreases |body|
  {
    var a := inf.step(st, body[0]);
    if a.progress.Ended? {
      assert body[1..] == [];
    } else {
      BodyRead(inf, a.state, body[1..], out + a.out);
      assert out + a.out + Inflated(inf, a.state, body[1..]).value == out + Inflated(inf, st, body).value;
    }
  }

  lemma {:induction false} BodyFound<S>(inf: Inflater<S>, st: S, s: seq<octet>, out: seq<octet>)
    returns (body: seq<octet>, rest: seq<octet>)
    requires Run(inf, Machine(Deflate(st), out), s).stage.Done?
    ensures s == body + rest && Inflated(inf, st, body).Some?
    decreases |s|
  {
    var a := inf.step(st, s[0]);
    if a.progress.Broken? {
      RunStuck(inf, Step(inf, Machine(Deflate(st), out), s[0]), s[1..]);
    } else if a.progress.Ended? {
      body, rest := [s[0]], s[1..];
    } else {
      var b, r := BodyFound(inf, a.state, s[1..], out + a.out);
      body, rest := [s[0]] + b, r;
      assert body[1..] == b && s == [s[0]] + s[1..];
    }
  }

  lemma TrailerEnds<S>(inf: Inflater<S>, s: seq<octet>, out: seq<octet>)
    ensures Run(inf, Machine(Trailer([]), out), s).stage.Done?
       <==> |s| >= 8 && Verify<S>(s[..8], out).Done?
    ensures Run(inf, Machine(Trailer([]), out), s).stage.Done? ==> Run(inf, Machine(Trailer([]), out), s).out == out
  {
    hide Run, Verify;
    if |s| < 8 {
      TrailerRead(inf, [], s, out);
    } else {
      TrailerRead(inf, [], s[..8], out);
      assert [] + s[..8] == s[..8];
      RunSplit(inf, Machine(Trailer([]), out), s, 8);
      VerifyEnds<S>(s[..8], out);
      RunStuck(inf, Machine(Verify(s[..8], out), out), s[8..]);
    }
  }

  lemma VerifyEnds<S>(t: seq<octet>, out: seq<octet>)
    requires |t| == 8
    ensures Verify<S>(t, out).Done? || Verify<S>(t, out).Failed?
  {
  }

  lemma VerifyHolds<S>(t: seq<octet>, out: seq<octet>)
    requires |t| == 8
    ensures Verify<S>(t, out).Done? <==> CrcWord(t[..4]) == Crc32(out) && Le32(t[4..]) == |out| % 0x1_0000_0000
  {
    hide Word, Le32, Crc32;
  }

  lemma MagicNeeded<S>(inf: Inflater<S>, s: seq<octet>)
    requires Run(inf, Init(), s).stage.Done?
    ensures |s| >= 3 && s[0] == 0x1f && s[1] == 0x8b && s[2] == 8
  {
    hide Run;
    assert [] + s == s;
    if |s| < 10 || (|s| == 10 && !(s[0] == 0x1f && s[1] == 0x8b && s[2] == 8)) {
      FixedRead(inf, [], s, []);
    } else if !(s[0] == 0x1f && s[1] == 0x8b && s[2] == 8) {
      BadMagicFails(inf, s);
    }
  }

  lemma MemberFound<S>(inf: Inflater<S>, s: seq<octet>)
    requires OneShot(inf, s).Ok?
    ensures StartsWithMember(inf, s, OneShot(inf, s).value)
  {
    hide Run, ValidParts, SpellHeader, Inflated, Verify, Crc32, CrcWord, Le32;
    MagicNeeded(inf, s);
    var h, r := HeaderFound(inf, s);
    var body, r' := BodyFound(inf, inf.start, r, []);
    var out := Inflated(inf, inf.start, body).value;
    BodyRead(inf, inf.start, body, []);
    assert [] + out == out;
    RunAppend(inf, Machine(Deflate(inf.start), []), body, r');
    TrailerEnds(inf, r', out);
    VerifyHolds<S>(r'[..8], out);
    assert s == SpellHeader(h) + body + r'[..8] + r'[8..];
    assert Member(inf, h, body, r'[..8], out);
  }

  lemma MemberRead<S>(inf: Inflater<S>, h: Parts, body: seq<octet>, tail: seq<octet>, after: seq<octet>, out: seq<octet>)
    requires Member(inf, h, body, tail, out)
    ensures OneShot(inf, SpellHeader(h) + body + tail + after) == Ok(out)
  {
    hide Run, ValidParts, SpellHeader, Inflated, Verify, Crc32, CrcWord, Le32;
    HeaderSkipped(inf, h);
    RunAppend(inf, Init(), SpellHeader(h), body);
    BodyRead(inf, inf.start, body, []);
    assert [] + out == out;
    RunAppend(inf, Init(), SpellHeader(h) + body, tail + after);
    TrailerEnds(inf, tail + after, out);
    assert (tail + after)[..8] == tail;
    VerifyHolds<S>(tail, out);
    assert SpellHeader(h) + body + tail + after == SpellHeader(h) + body + (tail + after);
  }

  /** The decompressor says Ok(out) for exactly the streams that begin with a member
      whose data is `out` and whose two trailer fields agree with it. */
  lemma AcceptsExactlyMembers<S>(inf: Inflater<S>, s: seq<octet>, out: seq<octet>)
    ensures OneShot(inf, s) == Ok(out) <==> StartsWithMember(inf, s, out)
  {
    hide OneShot, SpellHeader;
    if OneShot(inf, s) == Ok(out) {
      MemberFound(inf, s);
    }
    if StartsWithMember(inf, s, out) {
      var h, body, tail, after :|
        Member(inf, h, body, tail, out) && s == SpellHeader(h) + body + tail + after;
      MemberRead(inf, h, body, tail, after, out);
    }
  }

  /** Any two ways of cutting the same bytes give the same verdict and the same data. */
  method SameForEveryCut<S>(inf: Inflater<S>, one: seq<seq<octet>>, other: seq<seq<octet>>)
    returns (r: Result<seq<octet>, GzipError>, r': Result<seq<octet>, GzipError>)
    requires Flatten(one) == Flatten(other)
    ensures r == r'
    ensures forall out :: r == Ok(out) <==> StartsWithMember(inf, Flatten(one), out)
  {
    hide OneShot, StartsWithMember;
    r := Decompress(inf, one);
    r' := Decompress(inf, other);
    forall out ensures r == Ok(out) <==> StartsWithMember(inf, Flatten(one), out) {
      AcceptsExactlyMembers(inf, Flatten(one), out);
    }
  }

  lemma NoInvalidHeader<S>(inf: Inflater<S>, s: seq<octet>)
    ensures OneShot(inf, s) != Err(InvalidHeader)
  {
    NeverInvalidHeader(inf, Init(), s);
  }
}
