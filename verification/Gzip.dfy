/** Gzip streams byte by byte: the meaning the streaming decompressor must keep for
    every way of cutting the stream. DEFLATE is any deterministic byte transducer. */
module Gzip {
  import opened Wrappers
  import opened Crc

  type octet = bv8

  datatype Progress = Going | Ended | Broken

  datatype Advance<S> = Advance(state: S, out: seq<octet>, progress: Progress)

  /** An inflater: where it starts and what one byte of input does to it. */
  datatype Inflater<!S> = Inflater(start: S, step: (S, octet) -> Advance<S>)

  datatype GzipError = InvalidHeader | DecompressFailed | CrcMismatch | SizeMismatch | Truncated

  datatype Stage<S> =
    | Header(got: seq<octet>)
    | ExtraLen(flg: octet, xlen: seq<octet>)
    | ExtraData(flg: octet, remaining: nat)
    | Name(flg: octet)
    | Comment(flg: octet)
    | HeaderCrc(seen: nat)
    | Deflate(state: S)
    | Trailer(tail: seq<octet>)
    | Done
    | BadHeader
    | Failed(error: GzipError)

  /** `out` is everything inflated so far. */
  datatype Machine<S> = Machine(stage: Stage<S>, out: seq<octet>)

  const FHCRC: octet := 2
  const FEXTRA: octet := 4
  const FNAME: octet := 8
  const FCOMMENT: octet := 16

  predicate Has(flg: octet, bit: octet) { flg & bit != 0 }

  function AfterComment<S>(inf: Inflater<S>, flg: octet): Stage<S> {
    if Has(flg, FHCRC) then HeaderCrc(0) else Deflate(inf.start)
  }

  function AfterName<S>(inf: Inflater<S>, flg: octet): Stage<S> {
    if Has(flg, FCOMMENT) then Comment(flg) else AfterComment(inf, flg)
  }

  function AfterExtra<S>(inf: Inflater<S>, flg: octet): Stage<S> {
    if Has(flg, FNAME) then Name(flg) else AfterName(inf, flg)
  }

  function AfterFlags<S>(inf: Inflater<S>, flg: octet): Stage<S> {
    if Has(flg, FEXTRA) then ExtraLen(flg, []) else AfterExtra(inf, flg)
  }

  function AfterFixed<S>(inf: Inflater<S>, h: seq<octet>): Stage<S>
    requires |h| == 10
  {
    if h[0] != 0x1f || h[1] != 0x8b || h[2] != 8 then BadHeader
    else AfterFlags(inf, h[3])
  }

  function Le16(b: seq<octet>): nat
    requires |b| == 2
  {
    b[0] as int + 256 * b[1] as int
  }

  function Le32(b: seq<octet>): nat
    requires |b| == 4
  {
    b[0] as int + 256 * (b[1] as int + 256 * (b[2] as int + 256 * b[3] as int))
  }

  function CrcWord(b: seq<octet>): bv32
    requires |b| == 4
  {
    Word(b)
  }

  function Verify<S>(t: seq<octet>, out: seq<octet>): Stage<S>
    requires |t| == 8
  {
    if Crc32(out) != CrcWord(t[..4]) then Failed(CrcMismatch)
    else if |out| % 0x1_0000_0000 != Le32(t[4..]) then Failed(SizeMismatch)
    else Done
  }

  function AfterLength<S>(inf: Inflater<S>, flg: octet, xlen: seq<octet>): Stage<S>
    requires |xlen| == 2
  {
    if Le16(xlen) == 0 then AfterExtra(inf, flg) else ExtraData(flg, Le16(xlen))
  }

  function AfterByte<S>(a: Advance<S>): Stage<S> {
    match a.progress
    case Going => Deflate(a.state)
    case Ended => Trailer([])
    case Broken => Failed(DecompressFailed)
  }

  function Step<S>(inf: Inflater<S>, m: Machine<S>, b: octet): Machine<S> {
    match m.stage
    case Header(got) =>
      m.(stage := if |got| == 9 then AfterFixed(inf, got + [b]) else Header(got + [b]))
    case ExtraLen(flg, xlen) =>
      m.(stage := if |xlen| == 1 then AfterLength(inf, flg, xlen + [b]) else ExtraLen(flg, xlen + [b]))
    case ExtraData(flg, n) =>
      m.(stage := if n <= 1 then AfterExtra(inf, flg) else ExtraData(flg, n - 1))
    case Name(flg) => if b == 0 then m.(stage := AfterName(inf, flg)) else m
    case Comment(flg) => if b == 0 then m.(stage := AfterComment(inf, flg)) else m
    case HeaderCrc(n) => m.(stage := if n >= 1 then Deflate(inf.start) else HeaderCrc(n + 1))
    case Deflate(s) =>
      var a := inf.step(s, b);
      Machine(AfterByte(a), m.out + a.out)
    case Trailer(t) =>
      m.(stage := if |t| == 7 then Verify(t + [b], m.out) else Trailer(t + [b]))
    case Done => m
    case BadHeader => m.(stage := Failed(DecompressFailed))
    case Failed(_) => m
  }

  function Run<S>(inf: Inflater<S>, m: Machine<S>, bytes: seq<octet>): Machine<S>
    decreases |bytes|
  {
    if bytes == [] then m else Run(inf, Step(inf, m, bytes[0]), bytes[1..])
  }

  function Init<S>(): Machine<S> { Machine(Header([]), []) }

  lemma {:induction false} RunAppend<S>(inf: Inflater<S>, m: Machine<S>, a: seq<octet>, b: seq<octet>)
    ensures Run(inf, m, a + b) == Run(inf, Run(inf, m, a), b)
    decreases |a|
  {
    if a == [] {
      assert a + b == b;
    } else {
      assert (a + b)[1..] == a[1..] + b;
      RunAppend(inf, Step(inf, m, a[0]), a[1..], b);
    }
  }

  /** The stages that no input leaves. */
  lemma {:induction false} RunStuck<S>(inf: Inflater<S>, m: Machine<S>, bytes: seq<octet>)
    requires m.stage.Done? || m.stage.Failed?
    ensures Run(inf, m, bytes) == m
    decreases |bytes|
  {
    if bytes != [] {
      RunStuck(inf, m, bytes[1..]);
    }
  }

  function Flatten(chunks: seq<seq<octet>>): seq<octet> {
    if chunks == [] then [] else chunks[0] + Flatten(chunks[1..])
  }

  // ----- the header of section 2.3 of RFC 1952 -----

  /** The parts of a gzip member header; reserved flag bits are not looked at. */
  datatype Parts = Parts(
    fixed: seq<octet>,
    extra: Option<seq<octet>>,
    name: Option<seq<octet>>,
    comment: Option<seq<octet>>,
    crc16: Option<seq<octet>>
  )

  predicate ValidParts(h: Parts) {
    && |h.fixed| == 10 && h.fixed[0] == 0x1f && h.fixed[1] == 0x8b && h.fixed[2] == 8
    && var flg := h.fixed[3];
       && (h.extra.Some? <==> Has(flg, FEXTRA)) && (h.extra.Some? ==> |h.extra.value| < 0x1_0000)
       && (h.name.Some? <==> Has(flg, FNAME)) && (h.name.Some? ==> 0 !in h.name.value)
       && (h.comment.Some? <==> Has(flg, FCOMMENT)) && (h.comment.Some? ==> 0 !in h.comment.value)
       && (h.crc16.Some? <==> Has(flg, FHCRC)) && (h.crc16.Some? ==> |h.crc16.value| == 2)
  }

  /** The byte of value `n`, from its digits in base 4. */
  function Octet(n: int): (r: octet)
    requires 0 <= n < 256
    ensures r as int == n
  {
    if n == 0 then 0
    else if n == 1 then 1
    else if n == 2 then 2
    else if n == 3 then 3
    else WithDigit(Octet(n / 4), Octet(n % 4))
  }

  function WithDigit(high: octet, low: octet): (r: octet)
    requires high as int < 64 && low as int < 4
    ensures r as int == 4 * (high as int) + low as int
  {
    InBits(high, low);
    DigitAdded(high, low);
    4 * high + low
  }

  lemma InBits(high: octet, low: octet)
    requires high as int < 64 && low as int < 4
    ensures high < 64 && low < 4
  {
  }

  lemma DigitAdded(high: octet, low: octet)
    requires high < 64 && low < 4
    ensures (4 * high + low) as int == 4 * (high as int) + low as int
  {
  }

  function Zeroed(s: Option<seq<octet>>): seq<octet> {
    if s.Some? then s.value + [0] else []
  }

  function Counted(s: Option<seq<octet>>): seq<octet>
    requires s.Some? ==> |s.value| < 0x1_0000
  {
    if s.Some? then [Octet(|s.value| % 256), Octet(|s.value| / 256)] + s.value else []
  }

  function Plain(s: Option<seq<octet>>): seq<octet> { if s.Some? then s.value else [] }

  function SpellHeader(h: Parts): seq<octet>
    requires ValidParts(h)
  {
    h.fixed + Counted(h.extra) + Zeroed(h.name) + Zeroed(h.comment) + Plain(h.crc16)
  }

  // ----- reading a header -----

  lemma {:induction false} FixedRead<S>(inf: Inflater<S>, got: seq<octet>, bytes: seq<octet>, out: seq<octet>)
    requires |got| + |bytes| <= 10 && |got| < 10
    ensures Run(inf, Machine(Header(got), out), bytes) ==
            Machine(if |got| + |bytes| < 10 then Header(got + bytes) else AfterFixed(inf, got + bytes), out)
    decreases |bytes|
  {
    if bytes == [] {
      assert got + bytes == got;
    } else if |got| == 9 {
      assert bytes == [bytes[0]] && bytes[1..] == [];
    } else {
      FixedRead(inf, got + [bytes[0]], bytes[1..], out);
      assert got + [bytes[0]] + bytes[1..] == got + bytes;
    }
  }

  lemma {:induction false} ExtraRead<S>(inf: Inflater<S>, flg: octet, n: nat, bytes: seq<octet>, out: seq<octet>)
    requires 0 < n && |bytes| <= n
    ensures Run(inf, Machine(ExtraData(flg, n), out), bytes) ==
            Machine(if |bytes| < n then ExtraData(flg, n - |bytes|) else AfterExtra(inf, flg), out)
    decreases |bytes|
  {
    if |bytes| > 0 && n > 1 {
      ExtraRead(inf, flg, n - 1, bytes[1..], out);
    }
  }

  lemma {:induction false} TextRead<S>(inf: Inflater<S>, flg: octet, text: seq<octet>, out: seq<octet>)
    requires 0 !in text
    ensures Run(inf, Machine(Name(flg), out), text) == Machine(Name(flg), out)
    ensures Run(inf, Machine(Comment(flg), out), text) == Machine(Comment(flg), out)
    decreases |text|
  {
    if text != [] {
      assert text[0] in text && forall b | b in text[1..] :: b in text;
      TextRead(inf, flg, text[1..], out);
    }
  }

  lemma RunOne<S>(inf: Inflater<S>, m: Machine<S>, b: octet)
    ensures Run(inf, m, [b]) == Step(inf, m, b)
  {
    assert [b][1..] == [];
  }

  lemma OctetsOfLength(n: nat)
    requires n < 0x1_0000
    ensures Le16([Octet(n % 256), Octet(n / 256)]) == n
  {
    hide Octet;
  }

  lemma ExtraPartRead<S>(inf: Inflater<S>, flg: octet, extra: seq<octet>, out: seq<octet>)
    requires |extra| < 0x1_0000
    ensures Run(inf, Machine(ExtraLen(flg, []), out), Counted(Some(extra))) == Machine(AfterExtra(inf, flg), out)
  {
    var lo, hi := Octet(|extra| % 256), Octet(|extra| / 256);
    var m := Machine(ExtraLen(flg, []), out);
    OctetsOfLength(|extra|);
    RunAppend(inf, m, [lo, hi], extra);
    assert [lo, hi] == [lo] + [hi];
    RunAppend(inf, m, [lo], [hi]);
    RunOne(inf, m, lo);
    assert [] + [lo] == [lo];
    RunOne(inf, Machine(ExtraLen(flg, [lo]), out), hi);
    if extra != [] {
      ExtraRead(inf, flg, |extra|, extra, out);
    }
  }

  lemma NamePartRead<S>(inf: Inflater<S>, flg: octet, text: seq<octet>, out: seq<octet>)
    requires 0 !in text
    ensures Run(inf, Machine(Name(flg), out), text + [0]) == Machine(AfterName(inf, flg), out)
    ensures Run(inf, Machine(Comment(flg), out), text + [0]) == Machine(AfterComment(inf, flg), out)
  {
    TextRead(inf, flg, text, out);
    RunAppend(inf, Machine(Name(flg), out), text, [0]);
    RunAppend(inf, Machine(Comment(flg), out), text, [0]);
    RunOne(inf, Machine(Name(flg), out), 0);
    RunOne(inf, Machine(Comment(flg), out), 0);
  }

  lemma CrcPartRead<S>(inf: Inflater<S>, two: seq<octet>, out: seq<octet>)
    requires |two| == 2
    ensures Run(inf, Machine(HeaderCrc(0), out), two) == Machine(Deflate(inf.start), out)
  {
    assert two == [two[0]] + [two[1]];
    RunAppend(inf, Machine(HeaderCrc(0), out), [two[0]], [two[1]]);
    RunOne(inf, Machine(HeaderCrc(0), out), two[0]);
    RunOne(inf, Machine(HeaderCrc(1), out), two[1]);
  }

  /** Every header of the RFC is skipped as a whole, for every flag byte. */
  lemma HeaderSkipped<S>(inf: Inflater<S>, h: Parts)
    requires ValidParts(h)
    ensures Run(inf, Init(), SpellHeader(h)) == Machine(Deflate(inf.start), [])
  {
    hide Run, Counted, Has;
    var flg := h.fixed[3];
    var m0 := Machine(AfterFixed(inf, h.fixed), []);
    var m1, m2, m3 := Machine(AfterExtra(inf, flg), []), Machine(AfterName(inf, flg), []), Machine(AfterComment(inf, flg), []);
    var a := h.fixed + Counted(h.extra);
    var b := a + Zeroed(h.name);
    var c := b + Zeroed(h.comment);
    FixedRead(inf, [], h.fixed, []);
    assert [] + h.fixed == h.fixed;
    RunAppend(inf, Init(), h.fixed, Counted(h.extra));
    RunAppend(inf, Init(), a, Zeroed(h.name));
    RunAppend(inf, Init(), b, Zeroed(h.comment));
    RunAppend(inf, Init(), c, Plain(h.crc16));
    assert Run(inf, m0, Counted(h.extra)) == m1 by {
      if h.extra.Some? { ExtraPartRead(inf, flg, h.extra.value, []); } else { RunNone(inf, m0); CountedNone(); }
    }
    assert Run(inf, m1, Zeroed(h.name)) == m2 by {
      if h.name.Some? { NamePartRead(inf, flg, h.name.value, []); } else { RunNone(inf, m1); }
    }
    assert Run(inf, m2, Zeroed(h.comment)) == m3 by {
      if h.comment.Some? { NamePartRead(inf, flg, h.comment.value, []); } else { RunNone(inf, m2); }
    }
    if h.crc16.Some? { CrcPartRead(inf, h.crc16.value, []); } else { RunNone(inf, m3); }
  }

  lemma RunNone<S>(inf: Inflater<S>, m: Machine<S>)
    ensures Run(inf, m, []) == m
  {
  }

  lemma CountedNone()
    ensures Counted(None) == []
  {
  }

  // ----- whatever gets past the header began with one -----

  predicate InHeader<S>(st: Stage<S>) {
    st.Header? || st.ExtraLen? || st.ExtraData? || st.Name? || st.Comment? || st.HeaderCrc?
  }

  lemma {:induction false} TextFound<S>(inf: Inflater<S>, m: Machine<S>, s: seq<octet>) returns (text: seq<octet>, rest: seq<octet>)
    requires m.stage.Name? || m.stage.Comment?
    requires !InHeader(Run(inf, m, s).stage)
    ensures 0 !in text && s == text + [0] + rest
    decreases |s|
  {
    if s[0] == 0 {
      text, rest := [], s[1..];
    } else {
      text, rest := TextFound(inf, m, s[1..]);
      text := [s[0]] + text;
      assert s == [s[0]] + s[1..];
    }
  }

  lemma OctetSplit(a: octet, b: octet)
    ensures Octet(Le16([a, b]) % 256) == a && Octet(Le16([a, b]) / 256) == b
  {
    var n := Le16([a, b]);
    assert n % 256 == a as int && n / 256 == b as int;
    SameOctet(a);
    SameOctet(b);
  }

  lemma SameOctet(a: octet)
    ensures Octet(a as int) == a
  {
  }

  lemma ShortIsHeader<S>(inf: Inflater<S>, m: Machine<S>, s: seq<octet>)
    requires m.stage == HeaderCrc(0) || (m.stage.ExtraLen? && m.stage.xlen == [])
    ensures |s| < 2 ==> InHeader(Run(inf, m, s).stage)
  {
    if |s| == 1 {
      RunOne(inf, m, s[0]);
      assert s == [s[0]];
    }
  }

  lemma ShortExtraIsHeader<S>(inf: Inflater<S>, flg: octet, s: seq<octet>, out: seq<octet>)
    requires |s| >= 2
    ensures |s| - 2 < Le16(s[..2]) ==> InHeader(Run(inf, Machine(ExtraLen(flg, []), out), s).stage)
  {
    hide Le16;
    var m, m' := Machine(ExtraLen(flg, []), out), Machine(ExtraLen(flg, [s[0]]), out);
    var len := Le16(s[..2]);
    if |s| - 2 < len {
      assert s[..2] == [s[0]] + [s[1]] && s == [s[0]] + ([s[1]] + s[2..]) && [] + [s[0]] == [s[0]];
      RunOne(inf, m, s[0]);
      RunAppend(inf, m, [s[0]], [s[1]] + s[2..]);
      RunOne(inf, m', s[1]);
      RunAppend(inf, m', [s[1]], s[2..]);
      ExtraRead(inf, flg, len, s[2..], out);
    }
  }

  lemma ExtraFound<S>(inf: Inflater<S>, flg: octet, s: seq<octet>, out: seq<octet>) returns (extra: seq<octet>, rest: seq<octet>)
    requires !InHeader(Run(inf, Machine(ExtraLen(flg, []), out), s).stage)
    ensures |extra| < 0x1_0000 && s == Counted(Some(extra)) + rest
  {
    hide Octet, Counted, Run, InHeader;
    var m := Machine(ExtraLen(flg, []), out);
    ShortIsHeader(inf, m, s);
    var len := Le16(s[..2]);
    assert s[..2] == [s[0], s[1]];
    ShortExtraIsHeader(inf, flg, s, out);
    extra, rest := s[2..2 + len], s[2 + len..];
    OctetSplit(s[0], s[1]);
    CountedIs(extra, s[0], s[1]);
    assert s == [s[0], s[1]] + extra + rest;
  }

  lemma CountedIs(extra: seq<octet>, a: octet, b: octet)
    requires |extra| < 0x1_0000 && Octet(|extra| % 256) == a && Octet(|extra| / 256) == b
    ensures Counted(Some(extra)) == [a, b] + extra
  {
    hide Octet;
  }

  lemma FixedFound<S>(inf: Inflater<S>, s: seq<octet>)
    requires !InHeader(Run(inf, Init(), s).stage)
    ensures |s| >= 10 && Run(inf, Init(), s) == Run(inf, Machine(AfterFixed(inf, s[..10]), []), s[10..])
  {
    if |s| < 10 {
      FixedRead(inf, [], s, []);
    } else {
      FixedRead(inf, [], s[..10], []);
      assert [] + s[..10] == s[..10] && s == s[..10] + s[10..];
      RunAppend(inf, Init(), s[..10], s[10..]);
    }
  }

  lemma TwoFound<S>(inf: Inflater<S>, s: seq<octet>, out: seq<octet>)
    requires !InHeader(Run(inf, Machine(HeaderCrc(0), out), s).stage)
    ensures |s| >= 2
  {
    ShortIsHeader(inf, Machine(HeaderCrc(0), out), s);
  }

  lemma ExtraPartFound<S>(inf: Inflater<S>, flg: octet, s: seq<octet>) returns (e: Option<seq<octet>>, rest: seq<octet>)
    requires !InHeader(Run(inf, Machine(AfterFlags(inf, flg), []), s).stage)
    ensures (e.Some? <==> Has(flg, FEXTRA)) && (e.Some? ==> |e.value| < 0x1_0000) && s == Counted(e) + rest
    ensures Run(inf, Machine(AfterFlags(inf, flg), []), s) == Run(inf, Machine(AfterExtra(inf, flg), []), rest)
  {
    hide Run, Counted, Has, AfterExtra;
    if Has(flg, FEXTRA) {
      var x;
      x, rest := ExtraFound(inf, flg, s, []);
      e := Some(x);
      RunAppend(inf, Machine(ExtraLen(flg, []), []), Counted(e), rest);
      ExtraPartRead(inf, flg, x, []);
    } else {
      e, rest := None, s;
      CountedNone();
      assert [] + s == s;
    }
  }

  lemma TextPartFound<S>(inf: Inflater<S>, m: Machine<S>, next: Machine<S>, present: bool, s: seq<octet>)
    returns (t: Option<seq<octet>>, rest: seq<octet>)
    requires present ==> m.stage.Name? || m.stage.Comment?
    requires present ==> next == Machine(if m.stage.Name? then AfterName(inf, m.stage.flg) else AfterComment(inf, m.stage.flg), m.out)
    requires !present ==> next == m
    requires !InHeader(Run(inf, m, s).stage)
    ensures (t.Some? <==> present) && (t.Some? ==> 0 !in t.value) && s == Zeroed(t) + rest
    ensures Run(inf, m, s) == Run(inf, next, rest)
  {
    hide Run, AfterName, AfterComment;
    if present {
      var x;
      x, rest := TextFound(inf, m, s);
      t := Some(x);
      RunAppend(inf, m, x + [0], rest);
      NamePartRead(inf, m.stage.flg, x, m.out);
    } else {
      t, rest := None, s;
      assert [] + s == s;
    }
  }

  lemma CrcPartFound<S>(inf: Inflater<S>, flg: octet, s: seq<octet>) returns (c: Option<seq<octet>>, rest: seq<octet>)
    requires !InHeader(Run(inf, Machine(AfterComment(inf, flg), []), s).stage)
    ensures (c.Some? <==> Has(flg, FHCRC)) && (c.Some? ==> |c.value| == 2) && s == Plain(c) + rest
    ensures Run(inf, Machine(AfterComment(inf, flg), []), s) == Run(inf, Machine(Deflate(inf.start), []), rest)
  {
    hide Run, Has;
    if Has(flg, FHCRC) {
      TwoFound(inf, s, []);
      c, rest := Some(s[..2]), s[2..];
      assert s == s[..2] + s[2..];
      RunAppend(inf, Machine(HeaderCrc(0), []), s[..2], s[2..]);
      CrcPartRead(inf, s[..2], []);
    } else {
      c, rest := None, s;
      assert [] + s == s;
    }
  }

  lemma Associated(s: seq<octet>, a: seq<octet>, b: seq<octet>, c: seq<octet>, d: seq<octet>, e: seq<octet>, rest: seq<octet>)
    requires s == a + (b + (c + (d + (e + rest))))
    ensures s == a + b + c + d + e + rest
  {
  }

  /** A stream that starts with the magic and is past its header began with exactly a
      header of the RFC; the inflater has seen what follows it and nothing else. */
  lemma HeaderFound<S>(inf: Inflater<S>, s: seq<octet>) returns (h: Parts, rest: seq<octet>)
    requires |s| >= 3 && s[0] == 0x1f && s[1] == 0x8b && s[2] == 8
    requires !InHeader(Run(inf, Init(), s).stage)
    ensures ValidParts(h) && s == SpellHeader(h) + rest
    ensures Run(inf, Init(), s) == Run(inf, Machine(Deflate(inf.start), []), rest)
  {
    hide Run, Counted, Zeroed, Plain, Has;
    FixedFound(inf, s);
    var flg := s[3];
    var e, r0 := ExtraPartFound(inf, flg, s[10..]);
    var n, r1 := TextPartFound(inf, Machine(AfterExtra(inf, flg), []), Machine(AfterName(inf, flg), []), Has(flg, FNAME), r0);
    var c, r2 := TextPartFound(inf, Machine(AfterName(inf, flg), []), Machine(AfterComment(inf, flg), []), Has(flg, FCOMMENT), r1);
    var k, r3 := CrcPartFound(inf, flg, r2);
    h, rest := Parts(s[..10], e, n, c, k), r3;
    assert s == s[..10] + s[10..];
    Associated(s, s[..10], Counted(e), Zeroed(n), Zeroed(c), Plain(k), r3);
  }

  /** Without the magic a stream of more than ten bytes fails, whatever follows. */
  lemma BadMagicFails<S>(inf: Inflater<S>, s: seq<octet>)
    requires |s| > 10 && !(s[0] == 0x1f && s[1] == 0x8b && s[2] == 8)
    ensures Run(inf, Init(), s) == Machine(Failed(DecompressFailed), [])
  {
    FixedRead(inf, [], s[..10], []);
    assert [] + s[..10] == s[..10] && s == s[..10] + s[10..];
    RunAppend(inf, Init(), s[..10], s[10..]);
    RunStuck(inf, Machine(Failed(DecompressFailed), []), s[11..]);
    assert s[10..][1..] == s[11..];
  }

  /** No stream, however it begins, is ever reported as having an invalid header. */
  lemma {:induction false} NeverInvalidHeader<S>(inf: Inflater<S>, m: Machine<S>, s: seq<octet>)
    requires m.stage != Failed(InvalidHeader)
    ensures Run(inf, m, s).stage != Failed(InvalidHeader)
    decreases |s|
  {
    hide Crc32, CrcWord, Le32;
    if s != [] {
      NeverInvalidHeader(inf, Step(inf, m, s[0]), s[1..]);
    }
  }
}
