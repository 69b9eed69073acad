/** The streaming decompressor: phases, partial buffers and a bounded output window,
    proved to follow the byte-by-byte machine however the stream is cut. */
module GzipStream {
  import opened Wrappers
  import opened Crc
  import opened Gzip

  const OUT_SIZE := 8192

  datatype Status = MoreInput | StreamEnd | DataError

  /** The library's inflate state: a deterministic transducer, with the output that has
      been produced but not yet handed over. How far it reads ahead is its own choice. */
  class InflateState<!S> {
    const inf: Inflater<S>
    var state: S
    var pending: seq<octet>
    var progress: Progress

    constructor (inf: Inflater<S>)
      ensures this.inf == inf && state == inf.start && pending == [] && progress == Going
    {
      this.inf, state, pending, progress := inf, inf.start, [], Going;
    }

    ghost function Stage(): Stage<S>
      reads this
    {
      AfterByte(Advance(state, [], progress))
    }

    /** One call: reads some of the input, hands over some of the pending output. */
    method Inflate(input: seq<octet>, window: array<octet>, ghost out: seq<octet>)
      returns (consumed: nat, written: nat, status: Status)
      requires progress.Going? || (progress.Ended? && pending != [])
      requires window.Length > 0
      modifies this, window
      ensures consumed <= |input| && written <= window.Length
      ensures Run(inf, Machine(old(Stage()), out + old(pending)), input[..consumed])
           == Machine(Stage(), out + window[..written] + pending)
      ensures status == if progress.Broken? then DataError
                        else if progress.Ended? && pending == [] then StreamEnd else MoreInput
      ensures old(progress).Ended? ==> consumed == 0 && progress.Ended?
      ensures consumed == 0 && input != [] ==> written > 0 && |pending| < |old(pending)|
    {
      ghost var m0 := Machine(Stage(), out + pending);
      consumed := 0;
      var room: nat :| room > 0;
      while consumed < |input| && progress.Going? && |pending| < room
        invariant consumed <= |input|
        invariant Run(inf, m0, input[..consumed]) == Machine(Stage(), out + pending)
        invariant old(progress).Ended? ==> consumed == 0 && progress.Ended?
        invariant consumed == 0 ==> pending == old(pending) && progress == old(progress)
        invariant consumed > 0 || progress.Ended? || progress.Going?
      {
        var a := inf.step(state, input[consumed]);
        RunSnoc(inf, m0, input[..consumed], input[consumed]);
        assert input[..consumed] + [input[consumed]] == input[..consumed + 1];
        assert out + (pending + a.out) == (out + pending) + a.out;
        state, pending, progress := a.state, pending + a.out, a.progress;
        consumed := consumed + 1;
      }
      written := if |pending| < window.Length then |pending| else window.Length;
      for i := 0 to written
        invariant window[..i] == pending[..i]
        invariant this.pending == pending
        modifies window
      {
        window[i] := pending[i];
      }
      assert out + pending == out + pending[..written] + pending[written..];
      pending := pending[written..];
      status := if progress.Broken? then DataError
                else if progress.Ended? && pending == [] then StreamEnd else MoreInput;
    }
  }

  lemma RunPart<S>(inf: Inflater<S>, m: Machine<S>, s: seq<octet>, i: nat, n: nat)
    requires i + n <= |s|
    ensures Run(inf, m, s[..i + n]) == Run(inf, Run(inf, m, s[..i]), s[i..][..n])
  {
    RunAppend(inf, m, s[..i], s[i..][..n]);
    assert s[..i] + s[i..][..n] == s[..i + n];
  }

  lemma RunSplit<S>(inf: Inflater<S>, m: Machine<S>, s: seq<octet>, i: nat)
    requires i <= |s|
    ensures Run(inf, m, s) == Run(inf, Run(inf, m, s[..i]), s[i..])
  {
    RunAppend(inf, m, s[..i], s[i..]);
    assert s == s[..i] + s[i..];
  }

  lemma RunSnoc<S>(inf: Inflater<S>, m: Machine<S>, s: seq<octet>, b: octet)
    ensures Run(inf, m, s + [b]) == Step(inf, Run(inf, m, s), b)
  {
    RunAppend(inf, m, s, [b]);
    RunOne(inf, Run(inf, m, s), b);
  }

  // ----- what the partial buffers mean -----

  lemma {:induction false} ExtraLenRead<S>(inf: Inflater<S>, flg: octet, got: seq<octet>, bytes: seq<octet>, out: seq<octet>)
    requires |got| < 2 && |got| + |bytes| <= 2
    ensures Run(inf, Machine(ExtraLen(flg, got), out), bytes) ==
            Machine(if |got| + |bytes| < 2 then ExtraLen(flg, got + bytes) else AfterLength(inf, flg, got + bytes), out)
    decreases |bytes|
  {
    hide AfterLength;
    if bytes == [] {
      assert got + bytes == got;
    } else if |got| == 1 {
      assert bytes == [bytes[0]] && bytes[1..] == [];
    } else {
      ExtraLenRead(inf, flg, got + [bytes[0]], bytes[1..], out);
      assert got + [bytes[0]] + bytes[1..] == got + bytes;
    }
  }

  lemma {:induction false} TrailerRead<S>(inf: Inflater<S>, got: seq<octet>, bytes: seq<octet>, out: seq<octet>)
    requires |got| < 8 && |got| + |bytes| <= 8
    ensures Run(inf, Machine(Trailer(got), out), bytes) ==
            Machine(if |got| + |bytes| < 8 then Trailer(got + bytes) else Verify(got + bytes, out), out)
    decreases |bytes|
  {
    hide Verify;
    if bytes == [] {
      assert got + bytes == got;
    } else if |got| == 7 {
      assert bytes == [bytes[0]] && bytes[1..] == [];
    } else {
      TrailerRead(inf, got + [bytes[0]], bytes[1..], out);
      assert got + [bytes[0]] + bytes[1..] == got + bytes;
    }
  }

  lemma {:induction false} HeaderCrcRead<S>(inf: Inflater<S>, n: nat, bytes: seq<octet>, out: seq<octet>)
    requires n < 2 && n + |bytes| <= 2
    ensures Run(inf, Machine(HeaderCrc(n), out), bytes) ==
            Machine(if n + |bytes| < 2 then HeaderCrc(n + |bytes|) else Deflate(inf.start), out)
    decreases |bytes|
  {
    if |bytes| > 0 && n == 0 {
      HeaderCrcRead(inf, 1, bytes[1..], out);
    }
  }

  function Least(a: nat, b: nat): nat { if a < b then a else b }

  method CopyInto(dst: array<octet>, at: nat, data: seq<octet>)
    requires at + |data| <= dst.Length
    modifies dst
    ensures dst[..at + |data|] == old(dst[..at]) + data
  {
    for i := 0 to |data|
      invariant dst[..at + i] == old(dst[..at]) + data[..i]
    {
      dst[at + i] := data[i];
      assert dst[..at + i + 1] == dst[..at + i] + [data[i]];
      assert data[..i + 1] == data[..i] + [data[i]];
    }
    assert data[..|data|] == data;
  }

  datatype Phase =
    | AtHeader | AtExtraLen | AtExtraData(remaining: nat) | AtName | AtComment
    | AtHeaderCrc | AtDeflate | AtTrailer | AtDone | AtFailed

  class GzipStreamDecompressor<!S> {
    const inf: Inflater<S>
    var phase: Phase
    const inflateState: InflateState<S>
    const headerBuf: array<octet>
    var headerPos: nat
    var flg: octet
    const extraLenBuf: array<octet>
    var extraLenPos: nat
    var hcrcPos: nat
    var crc: bv32
    var totalOut: nat
    const trailerBuf: array<octet>
    var trailerPos: nat
    const inflateBuf: array<octet>
    var outBuf: seq<octet>

    /** All output handed over so far, and the machine that has read the same bytes. */
    ghost var delivered: seq<octet>
    ghost var machine: Machine<S>

    ghost function Frame(): set<object> {
      {this, inflateState, headerBuf, extraLenBuf, trailerBuf, inflateBuf}
    }

    /** The stage that the phase and the partial buffers stand for. */
    ghost predicate Matches(st: Stage<S>)
      reads this, inflateState, headerBuf, extraLenBuf, trailerBuf
      requires headerBuf.Length == 10 && extraLenBuf.Length == 2 && trailerBuf.Length == 8
    {
      match phase
      case AtHeader => headerPos < 10 && st == Header(headerBuf[..headerPos]) && extraLenPos == hcrcPos == trailerPos == 0
      case AtExtraLen => extraLenPos < 2 && st == ExtraLen(flg, extraLenBuf[..extraLenPos]) && hcrcPos == trailerPos == 0
      case AtExtraData(n) => 0 < n && st == ExtraData(flg, n) && hcrcPos == trailerPos == 0
      case AtName => st == Name(flg) && hcrcPos == trailerPos == 0
      case AtComment => st == Comment(flg) && hcrcPos == trailerPos == 0
      case AtHeaderCrc => hcrcPos < 2 && st == HeaderCrc(hcrcPos) && trailerPos == 0
      case AtDeflate => st == inflateState.Stage() && trailerPos == 0
      case AtTrailer => trailerPos < 8 && st == Trailer(trailerBuf[..trailerPos])
      case AtDone => st == Done
      case AtFailed => st == BadHeader || st.Failed?
    }

    ghost predicate Inflating()
      reads this, inflateState
    {
      match phase
      case AtDeflate => inflateState.progress.Going? || (inflateState.progress.Ended? && inflateState.pending != [])
      case AtTrailer | AtDone => inflateState.pending == []
      case AtFailed => true
      case _ => inflateState.progress.Going? && inflateState.state == inf.start && inflateState.pending == []
    }

    ghost predicate Tallied()
      reads this
    {
      crc == FeedAll(START, delivered) && totalOut == |delivered| % 0x1_0000_0000
    }

    ghost predicate Shaped() {
      && headerBuf.Length == 10 && extraLenBuf.Length == 2 && trailerBuf.Length == 8 && inflateBuf.Length == OUT_SIZE
      && inflateState.inf == inf
    }

    ghost predicate Valid()
      reads Frame()
    {
      && Shaped() && Tallied() && Inflating() && Matches(machine.stage)
      && (!phase.AtFailed? ==> machine.out == delivered + inflateState.pending)
    }

    constructor (inf: Inflater<S>)
      ensures Valid() && fresh(Frame()) && this.inf == inf
      ensures machine == Init() && delivered == []
    {
      this.inf := inf;
      phase := AtHeader;
      inflateState := new InflateState(inf);
      headerBuf, headerPos, flg := new octet[10](_ => 0), 0, 0;
      extraLenBuf, extraLenPos := new octet[2](_ => 0), 0;
      hcrcPos := 0;
      crc, totalOut := START, 0;
      trailerBuf, trailerPos := new octet[8](_ => 0), 0;
      inflateBuf := new octet[OUT_SIZE](_ => 0);
      outBuf := [];
      delivered, machine := [], Init();
      new;
      assert headerBuf[..0] == [] && delivered + inflateState.pending == [];
    }

    // ----- header -----

    method ConsumeHeader(data: seq<octet>) returns (n: nat)
      requires Valid() && phase.AtHeader? && data != []
      modifies this`headerPos, this`flg, this`phase, this`machine, headerBuf
      ensures Valid() && 0 < n <= |data| && machine == Run(inf, old(machine), data[..n]) && !machine.stage.Failed?
    {
      hide Run, AfterFixed, FeedAll;
      n := Least(10 - headerPos, |data|);
      FixedRead(inf, headerBuf[..headerPos], data[..n], machine.out);
      machine := Run(inf, machine, data[..n]);
      CopyInto(headerBuf, headerPos, data[..n]);
      headerPos := headerPos + n;
      if headerPos == 10 {
        assert headerBuf[..10] == headerBuf[..];
        CheckMagic();
      }
    }

    /** Magic and method, then the first optional field. */
    method CheckMagic()
      requires headerBuf.Length == 10 && extraLenBuf.Length == 2 && trailerBuf.Length == 8
      requires inflateState.Stage() == Deflate(inf.start) && extraLenPos == hcrcPos == trailerPos == 0
      modifies this`flg, this`phase
      ensures Matches(AfterFixed(inf, headerBuf[..]))
      ensures phase.AtFailed? || phase.AtExtraLen? || phase.AtName? || phase.AtComment? || phase.AtHeaderCrc? || phase.AtDeflate?
      ensures !AfterFixed(inf, headerBuf[..]).Failed?
    {
      hide Has;
      if headerBuf[0] != 0x1f || headerBuf[1] != 0x8b || headerBuf[2] != 8 {
        phase := AtFailed;
      } else {
        flg := headerBuf[3];
        AdvanceHeaderOptional();
      }
    }

    method AdvanceHeaderOptional()
      requires headerBuf.Length == 10 && extraLenBuf.Length == 2 && trailerBuf.Length == 8
      requires inflateState.Stage() == Deflate(inf.start) && extraLenPos == hcrcPos == trailerPos == 0
      modifies this`phase
      ensures Matches(AfterFlags(inf, flg))
      ensures phase.AtExtraLen? || phase.AtName? || phase.AtComment? || phase.AtHeaderCrc? || phase.AtDeflate?
    {
      if Has(flg, FEXTRA) {
        phase := AtExtraLen;
      } else if Has(flg, FNAME) {
        phase := AtName;
      } else if Has(flg, FCOMMENT) {
        phase := AtComment;
      } else if Has(flg, FHCRC) {
        phase := AtHeaderCrc;
      } else {
        phase := AtDeflate;
      }
    }

    method ConsumeExtraLen(data: seq<octet>) returns (n: nat)
      requires Valid() && phase.AtExtraLen? && data != []
      modifies this`extraLenPos, this`phase, this`machine, extraLenBuf
      ensures Valid() && 0 < n <= |data| && machine == Run(inf, old(machine), data[..n]) && !machine.stage.Failed?
    {
      hide Run, AfterExtra, Has, FeedAll, Le16;
      n := Least(2 - extraLenPos, |data|);
      ExtraLenRead(inf, flg, extraLenBuf[..extraLenPos], data[..n], machine.out);
      machine := Run(inf, machine, data[..n]);
      CopyInto(extraLenBuf, extraLenPos, data[..n]);
      extraLenPos := extraLenPos + n;
      if extraLenPos == 2 {
        assert extraLenBuf[..2] == extraLenBuf[..];
        var xlen := Le16(extraLenBuf[..]);
        if xlen == 0 {
          AdvancePastExtraData();
        } else {
          phase := AtExtraData(xlen);
        }
      }
    }

    method AdvancePastExtraData()
      requires headerBuf.Length == 10 && extraLenBuf.Length == 2 && trailerBuf.Length == 8
      requires inflateState.Stage() == Deflate(inf.start) && hcrcPos == trailerPos == 0
      modifies this`phase
      ensures Matches(AfterExtra(inf, flg))
      ensures phase.AtName? || phase.AtComment? || phase.AtHeaderCrc? || phase.AtDeflate?
    {
      if Has(flg, FNAME) {
        phase := AtName;
      } else if Has(flg, FCOMMENT) {
        phase := AtComment;
      } else if Has(flg, FHCRC) {
        phase := AtHeaderCrc;
      } else {
        phase := AtDeflate;
      }
    }

    method SkipExtraData(data: seq<octet>) returns (n: nat)
      requires Valid() && phase.AtExtraData? && data != []
      modifies this`phase, this`machine
      ensures Valid() && 0 < n <= |data| && machine == Run(inf, old(machine), data[..n]) && !machine.stage.Failed?
    {
      hide Run, AfterExtra, Has, FeedAll, Le16;
      n := Least(phase.remaining, |data|);
      ExtraRead(inf, flg, phase.remaining, data[..n], machine.out);
      machine := Run(inf, machine, data[..n]);
      if phase.remaining == n {
        AdvancePastExtraData();
      } else {
        phase := AtExtraData(phase.remaining - n);
      }
    }

    method SkipNullTerminated(data: seq<octet>) returns (n: nat)
      requires Valid() && (phase.AtName? || phase.AtComment?) && data != []
      modifies this`phase, this`machine
      ensures Valid() && 0 < n <= |data| && machine == Run(inf, old(machine), data[..n]) && !machine.stage.Failed?
    {
      hide Run, Has, FeedAll;
      n := 0;
      while n < |data|
        invariant n <= |data| && 0 !in data[..n]
        invariant Valid() && phase == old(phase) && machine == old(machine)
      {
        if data[n] == 0 {
          NamePartRead(inf, flg, data[..n], machine.out);
          assert data[..n + 1] == data[..n] + [0];
          machine := Run(inf, machine, data[..n + 1]);
          n := n + 1;
          if phase.AtName? && Has(flg, FCOMMENT) {
            phase := AtComment;
          } else if Has(flg, FHCRC) {
            phase := AtHeaderCrc;
          } else {
            phase := AtDeflate;
          }
          return;
        }
        n := n + 1;
      }
      TextRead(inf, flg, data[..n], machine.out);
    }

    method ConsumeHeaderCrc(data: seq<octet>) returns (n: nat)
      requires Valid() && phase.AtHeaderCrc? && data != []
      modifies this`hcrcPos, this`phase, this`machine
      ensures Valid() && 0 < n <= |data| && machine == Run(inf, old(machine), data[..n]) && !machine.stage.Failed?
    {
      hide Run, FeedAll;
      n := Least(2 - hcrcPos, |data|);
      HeaderCrcRead(inf, hcrcPos, data[..n], machine.out);
      machine := Run(inf, machine, data[..n]);
      hcrcPos := hcrcPos + n;
      if hcrcPos == 2 {
        phase := AtDeflate;
      }
    }

    // ----- deflate -----

    /** Runs the checksum over the window and hands the bytes over. */
    method ProcessInflated(written: nat)
      requires Shaped() && Tallied() && written <= inflateBuf.Length
      modifies this`crc, this`totalOut, this`outBuf, this`delivered
      ensures Tallied()
      ensures delivered == old(delivered) + inflateBuf[..written]
      ensures outBuf == old(outBuf) + inflateBuf[..written]
    {
      hide FeedAll;
      if written != 0 {
        UpdateCrc(written);
        totalOut := (totalOut + written) % 0x1_0000_0000;
        outBuf := outBuf + inflateBuf[..written];
        delivered := delivered + inflateBuf[..written];
      } else {
        assert inflateBuf[..0] == [];
        assert delivered == delivered + [] && outBuf == outBuf + [];
      }
    }

    method UpdateCrc(written: nat)
      requires crc == FeedAll(START, delivered) && written <= inflateBuf.Length
      modifies this`crc
      ensures crc == FeedAll(START, delivered + inflateBuf[..written])
    {
      hide FeedAll, Crc.Feed;
      FeedAllNone(START, delivered);
      for i := 0 to written
        invariant crc == FeedAll(START, delivered + inflateBuf[..i])
      {
        crc := FeedByte(crc, inflateBuf[i]);
        FeedAllSnoc(START, delivered + inflateBuf[..i], inflateBuf[i]);
        assert delivered + inflateBuf[..i] + [inflateBuf[i]] == delivered + inflateBuf[..i + 1];
      }
    }

    /** One call of the library and the bookkeeping for what it wrote. */
    method InflateOnce(rest: seq<octet>) returns (consumed: nat, written: nat, status: Status)
      requires Valid() && phase.AtDeflate? && rest != []
      modifies this`crc, this`totalOut, this`outBuf, this`delivered, this`machine, inflateState, inflateBuf
      ensures Shaped() && Tallied()
      ensures consumed <= |rest| && machine == Run(inf, old(machine), rest[..consumed])
      ensures machine == Machine(inflateState.Stage(), delivered + inflateState.pending)
      ensures old(delivered) <= delivered && outBuf == old(outBuf) + delivered[|old(delivered)|..]
      ensures status == if inflateState.progress.Broken? then DataError
                        else if inflateState.progress.Ended? && inflateState.pending == [] then StreamEnd else MoreInput
      ensures consumed == 0 ==> written > 0 && |inflateState.pending| < |old(inflateState.pending)|
    {
      hide Run, FeedAll;
      consumed, written, status := inflateState.Inflate(rest, inflateBuf, delivered);
      machine := Run(inf, machine, rest[..consumed]);
      ProcessInflated(written);
    }

    /** Inflates until the input is used up or the member's data ends. */
    method InflateAll(data: seq<octet>) returns (r: Result<nat, GzipError>)
      requires Valid() && phase.AtDeflate? && data != []
      modifies this`crc, this`totalOut, this`outBuf, this`delivered, this`machine, this`phase, inflateState, inflateBuf
      ensures Valid()
      ensures old(delivered) <= delivered && outBuf == old(outBuf) + delivered[|old(delivered)|..]
      ensures r.Ok? ==> r.value <= |data| && machine == Run(inf, old(machine), data[..r.value])
      ensures r.Ok? ==> phase.AtTrailer? || (phase.AtDeflate? && r.value == |data|)
      ensures r.Err? ==> r.error == DecompressFailed && machine.stage == Failed(DecompressFailed)
                         && machine == Run(inf, old(machine), data) && phase.AtFailed?
    {
      hide Run, FeedAll;
      var total := 0;
      RunNone(inf, machine);
      assert data[..0] == [] && outBuf == outBuf + [];
      while true
        invariant total < |data|
        invariant Valid() && phase.AtDeflate?
        invariant machine == Run(inf, old(machine), data[..total])
        invariant old(delivered) <= delivered && outBuf == old(outBuf) + delivered[|old(delivered)|..]
        decreases |data| - total, |inflateState.pending|
      {
        var consumed, written, status := InflateOnce(data[total..]);
        RunAppend(inf, old(machine), data[..total], data[total..][..consumed]);
        assert data[..total] + data[total..][..consumed] == data[..total + consumed];
        total := total + consumed;
        match status {
          case MoreInput =>
            if total >= |data| || (consumed == 0 && written == 0) {
              return Ok(total);
            }
          case StreamEnd =>
            phase := AtTrailer;
            assert trailerBuf[..0] == [];
            return Ok(total);
          case DataError =>
            RunAppend(inf, old(machine), data[..total], data[total..]);
            assert data == data[..total] + data[total..];
            RunStuck(inf, machine, data[total..]);
            phase := AtFailed;
            return Err(DecompressFailed);
        }
      }
    }

    // ----- trailer -----

    method ConsumeTrailer(data: seq<octet>) returns (r: Result<nat, GzipError>)
      requires Valid() && phase.AtTrailer? && data != []
      modifies this`trailerPos, this`phase, this`machine, trailerBuf
      ensures Valid()
      ensures r.Ok? ==> 0 < r.value <= |data| && machine == Run(inf, old(machine), data[..r.value])
                        && (phase.AtTrailer? || phase.AtDone?)
      ensures r.Err? ==> machine == Run(inf, old(machine), data) && machine.stage == Failed(r.error) && phase.AtFailed?
    {
      hide Run, FeedAll, Verify;
      assert machine.out == delivered by { assert delivered + [] == delivered; }
      var n := Least(8 - trailerPos, |data|);
      TrailerRead(inf, trailerBuf[..trailerPos], data[..n], machine.out);
      machine := Run(inf, machine, data[..n]);
      CopyInto(trailerBuf, trailerPos, data[..n]);
      trailerPos := trailerPos + n;
      if trailerPos == 8 {
        assert trailerBuf[..8] == trailerBuf[..];
        var v := VerifyTrailer();
        if v.Err? {
          RunAppend(inf, old(machine), data[..n], data[n..]);
          assert data == data[..n] + data[n..];
          RunStuck(inf, machine, data[n..]);
          return Err(v.error);
        }
      }
      return Ok(n);
    }

    method VerifyTrailer() returns (r: Result<(), GzipError>)
      requires Shaped() && Tallied()
      modifies this`phase
      ensures Verify<S>(trailerBuf[..], delivered) == if r.Ok? then Done else Failed(r.error)
      ensures phase == if r.Ok? then AtDone else AtFailed
    {
      hide FeedAll, Word, Le32, Complement;
      var storedCrc := CrcWord(trailerBuf[..4]);
      var storedSize := Le32(trailerBuf[4..]);
      assert trailerBuf[..][..4] == trailerBuf[..4] && trailerBuf[..][4..] == trailerBuf[4..];
      if Complement(crc) != storedCrc {
        phase := AtFailed;
        return Err(CrcMismatch);
      }
      if totalOut != storedSize {
        phase := AtFailed;
        return Err(SizeMismatch);
      }
      phase := AtDone;
      return Ok(());
    }

    // ----- feeding -----

    /** One round of the feeding loop, outside the two phases that end it. */
    method Consume(data: seq<octet>) returns (r: Result<nat, GzipError>)
      requires Valid() && !phase.AtDone? && !phase.AtFailed? && data != []
      modifies Frame()
      ensures Valid()
      ensures old(delivered) <= delivered && outBuf == old(outBuf) + delivered[|old(delivered)|..]
      ensures r.Ok? ==> r.value <= |data| && machine == Run(inf, old(machine), data[..r.value])
                        && !machine.stage.Failed? && (r.value == 0 ==> old(phase).AtDeflate? && phase.AtTrailer?)
      ensures r.Err? ==> machine == Run(inf, old(machine), data) && machine.stage == Failed(r.error)
    {
      hide Run, FeedAll, Verify;
      assert outBuf == outBuf + [];
      match phase {
        case AtHeader => var n := ConsumeHeader(data); return Ok(n);
        case AtExtraLen => var n := ConsumeExtraLen(data); return Ok(n);
        case AtExtraData(_) => var n := SkipExtraData(data); return Ok(n);
        case AtName => var n := SkipNullTerminated(data); return Ok(n);
        case AtComment => var n := SkipNullTerminated(data); return Ok(n);
        case AtHeaderCrc => var n := ConsumeHeaderCrc(data); return Ok(n);
        case AtDeflate => r := InflateAll(data);
        case AtTrailer => r := ConsumeTrailer(data);
      }
    }

    /** Whatever the phase, feeding a chunk is running the machine over it. */
    method Feed(input: seq<octet>) returns (r: Result<seq<octet>, GzipError>)
      requires Valid()
      modifies Frame()
      ensures Valid() && machine == Run(inf, old(machine), input)
      ensures r.Ok? <==> input == [] || !machine.stage.Failed?
      ensures r.Ok? ==> delivered == old(delivered) + r.value
      ensures r.Err? ==> r.error == if old(machine).stage.Failed? then DecompressFailed else machine.stage.error
      ensures machine.stage.Done? ==> machine.out == delivered
    {
      hide Run, FeedAll;
      outBuf := [];
      var pos := 0;
      RunNone(inf, machine);
      assert input[..0] == [];
      while pos < |input|
        invariant pos <= |input| && Valid()
        invariant machine == Run(inf, old(machine), input[..pos])
        invariant delivered == old(delivered) + outBuf
        invariant machine.stage.Failed? ==> machine == old(machine) && pos == 0
        invariant !machine.stage.Failed? ==> !old(machine).stage.Failed?
        decreases |input| - pos, if phase.AtDeflate? then 1 else 0
      {
        var here := input[pos..];
        RunSplit(inf, old(machine), input, pos);
        if phase.AtDone? {
          RunStuck(inf, machine, here);
          break;
        }
        if phase.AtFailed? {
          RunFailed(inf, machine, here);
          machine := Run(inf, machine, here);
          return Err(DecompressFailed);
        }
        var n :- Consume(here);
        RunPart(inf, old(machine), input, pos, n);
        pos := pos + n;
      }
      assert pos == |input| ==> input[..pos] == input;
      return Ok(outBuf);
    }

    function IsDone(): (r: bool)
      requires Valid()
      reads Frame()
      ensures r <==> machine.stage.Done?
    {
      phase.AtDone?
    }

    method Finish() returns (r: Result<(), GzipError>)
      requires Valid()
      ensures r == if machine.stage.Done? then Ok(()) else Err(Truncated)
    {
      return if IsDone() then Ok(()) else Err(Truncated);
    }
  }

  lemma RunFailed<S>(inf: Inflater<S>, m: Machine<S>, s: seq<octet>)
    requires s != [] && (m.stage == BadHeader || m.stage.Failed?)
    ensures Run(inf, m, s) == if m.stage.Failed? then m else m.(stage := Failed(DecompressFailed))
  {
    RunStuck(inf, Step(inf, m, s[0]), s[1..]);
  }

  // ----- whole streams -----

  /** What a reader of the whole stream concludes. */
  function Verdict<S>(m: Machine<S>): Result<seq<octet>, GzipError> {
    if m.stage.Done? then Ok(m.out)
    else if m.stage.Failed? then Err(m.stage.error)
    else Err(Truncated)
  }

  function OneShot<S>(inf: Inflater<S>, stream: seq<octet>): Result<seq<octet>, GzipError> {
    Verdict(Run(inf, Init(), stream))
  }

  lemma {:induction false} FlattenSplit(chunks: seq<seq<octet>>, i: nat)
    requires i <= |chunks|
    ensures Flatten(chunks) == Flatten(chunks[..i]) + Flatten(chunks[i..])
  {
    if i == 0 {
      assert chunks[0..] == chunks;
    } else {
      FlattenSplit(chunks[1..], i - 1);
      assert chunks[..i][1..] == chunks[1..][..i - 1] && chunks[i..] == chunks[1..][i - 1..];
    }
  }

  lemma FlattenNone(chunks: seq<seq<octet>>)
    ensures Flatten(chunks[..0]) == []
  {
  }

  lemma RunChunk<S>(inf: Inflater<S>, chunks: seq<seq<octet>>, i: nat)
    requires i < |chunks|
    ensures Run(inf, Init(), Flatten(chunks[..i + 1])) == Run(inf, Run(inf, Init(), Flatten(chunks[..i])), chunks[i])
    ensures Run(inf, Init(), Flatten(chunks)) == Run(inf, Run(inf, Init(), Flatten(chunks[..i + 1])), Flatten(chunks[i + 1..]))
  {
    hide Run;
    FlattenSplit(chunks[..i + 1], i);
    assert chunks[..i + 1][..i] == chunks[..i] && chunks[..i + 1][i..] == [chunks[i]];
    assert Flatten([chunks[i]]) == chunks[i];
    RunAppend(inf, Init(), Flatten(chunks[..i]), chunks[i]);
    FlattenSplit(chunks, i + 1);
    RunAppend(inf, Init(), Flatten(chunks[..i + 1]), Flatten(chunks[i + 1..]));
  }

  /** Feeds the chunks in turn, stops at the first error, and checks for truncation:
      the outcome depends on the bytes alone, not on where they were cut. */
  method Decompress<S>(inf: Inflater<S>, chunks: seq<seq<octet>>) returns (r: Result<seq<octet>, GzipError>)
    ensures r == OneShot(inf, Flatten(chunks))
  {
    hide Run, Flatten, GzipStreamDecompressor.Valid;
    var d := new GzipStreamDecompressor(inf);
    var out: seq<octet> := [];
    RunNone(inf, Init<S>());
    FlattenNone(chunks);
    for i := 0 to |chunks|
      invariant d.Valid() && fresh(d.Frame()) && d.inf == inf
      invariant d.machine == Run(inf, Init(), Flatten(chunks[..i])) && !d.machine.stage.Failed?
      invariant out == d.delivered && (d.machine.stage.Done? ==> d.machine.out == out)
    {
      RunChunk(inf, chunks, i);
      RunNone(inf, d.machine);
      var piece := d.Feed(chunks[i]);
      if piece.Err? {
        RunStuck(inf, d.machine, Flatten(chunks[i + 1..]));
        return Err(piece.error);
      }
      out := out + piece.value;
    }
    assert chunks[..|chunks|] == chunks;
    var end := d.Finish();
    if end.Err? {
      return Err(end.error);
    }
    return Ok(out);
  }

  lemma FeedAllNone(c: bv32, s: seq<octet>)
    ensures FeedAll(c, s + []) == FeedAll(c, s)
  {
    assert s + [] == s;
  }

  lemma FeedAllSnoc(c: bv32, s: seq<octet>, b: octet)
    ensures FeedAll(c, s + [b]) == Feed(FeedAll(c, s), b)
  {
    hide Feed;
    FeedAllAppend(c, s, [b]);
    assert [b][1..] == [];
  }
}
