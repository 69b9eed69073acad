/** Base64 and hex for peripheral data. Shifts and masks are written as arithmetic on the
    accumulator, whose bound is an invariant. Text is taken as its UTF-8 bytes. */
module Encoding {
  import opened Wrappers

  const PAD: byte := '=' as byte

  // ----- base64: the alphabet of section 4 of RFC 4648 -----

  function Symbol(v: nat): byte
    requires v < 64
  {
    if v < 26 then 65 + v else if v < 52 then 97 + (v - 26) else if v < 62 then 48 + (v - 52) else if v == 62 then 43 else 47
  }

  function SymbolValue(c: byte): Option<nat> {
    if 65 <= c <= 90 then Some(c as int - 65)
    else if 97 <= c <= 122 then Some(c as int - 97 + 26)
    else if 48 <= c <= 57 then Some(c as int - 48 + 52)
    else if c == 43 then Some(62)
    else if c == 47 then Some(63)
    else None
  }

  predicate Blank(c: byte) { c == 10 || c == 13 || c == 32 }

  lemma SymbolsMatch(v: nat)
    requires v < 64
    ensures SymbolValue(Symbol(v)) == Some(v) && !Blank(Symbol(v)) && Symbol(v) != PAD
  {
  }

  /** One group of up to three bytes; a missing byte counts as zero and leaves padding. */
  function Group(chunk: seq<byte>): (g: seq<byte>)
    requires 0 < |chunk| <= 3
    ensures |g| == 4
  {
    var b0: int := chunk[0];
    var b1: int := if |chunk| > 1 then chunk[1] else 0;
    var b2: int := if |chunk| > 2 then chunk[2] else 0;
    [Symbol(b0 / 4), Symbol(b0 % 4 * 16 + b1 / 16),
     if |chunk| > 1 then Symbol(b1 % 16 * 4 + b2 / 64) else PAD,
     if |chunk| > 2 then Symbol(b2 % 64) else PAD]
  }

  function Encode(data: seq<byte>): seq<byte> {
    if data == [] then []
    else if |data| <= 3 then Group(data)
    else Group(data[..3]) + Encode(data[3..])
  }

  lemma DivBy64(q: nat, r: nat)
    requires r < 64
    ensures (q * 64 + r) / 64 == q && (q * 64 + r) % 64 == r
  {
  }

  lemma DivBy4096(q: nat, r: nat)
    requires r < 4096
    ensures (q * 4096 + r) / 4096 == q
  {
  }

  lemma DivBy262144(q: nat, r: nat)
    requires r < 262144
    ensures (q * 262144 + r) / 262144 == q
  {
  }

  /** The word the source builds from a chunk, and the four digits it takes out of it. */
  lemma Digits(b0: nat, b1: nat, b2: nat)
    requires b0 < 256 && b1 < 256 && b2 < 256
    ensures var triple := b0 * 65536 + b1 * 256 + b2;
            && triple / 262144 % 64 == b0 / 4
            && triple / 4096 % 64 == b0 % 4 * 16 + b1 / 16
            && triple / 64 % 64 == b1 % 16 * 4 + b2 / 64
            && triple % 64 == b2 % 64
  {
    var triple := b0 * 65536 + b1 * 256 + b2;
    DivBy262144(b0 / 4, b0 % 4 * 65536 + b1 * 256 + b2);
    DivBy4096(b0 * 16 + b1 / 16, b1 % 16 * 256 + b2);
    DivBy64(b0 / 4, b0 % 4 * 16 + b1 / 16);
    DivBy64(b0 * 1024 + b1 * 4 + b2 / 64, b2 % 64);
    DivBy64(b0 * 16 + b1 / 16, b1 % 16 * 4 + b2 / 64);
  }

  method EncodeBase64(data: seq<byte>) returns (s: seq<byte>)
    ensures s == Encode(data)
  {
    hide Symbol, Group;
    s := [];
    var at := 0;
    while at < |data|
      invariant 0 <= at <= |data|
      invariant s + Encode(data[at..]) == Encode(data)
    {
      var n := if |data| - at < 3 then |data| - at else 3;
      var g := EncodeChunk(data[at..at + n]);
      assert n == |data| - at ==> data[at..at + n] == data[at..];
      assert n == 3 && |data| - at > 3 ==> data[at..][..3] == data[at..at + n] && data[at..][3..] == data[at + 3..];
      assert data[at..] != [];
      assert Encode(data[at..]) == g + Encode(data[at + n..]);
      s := s + g;
      at := at + n;
    }
  }

  method EncodeChunk(chunk: seq<byte>) returns (g: seq<byte>)
    requires 0 < |chunk| <= 3
    ensures g == Group(chunk)
  {
    hide Symbol;
    var b0 := chunk[0];
    var b1: byte := if |chunk| > 1 then chunk[1] else 0;
    var b2: byte := if |chunk| > 2 then chunk[2] else 0;
    var triple: nat := b0 as int * 65536 + b1 as int * 256 + b2 as int;
    Digits(b0, b1, b2);
    g := [Symbol(triple / 262144 % 64), Symbol(triple / 4096 % 64)];
    g := g + [if |chunk| > 1 then Symbol(triple / 64 % 64) else PAD];
    g := g + [if |chunk| > 2 then Symbol(triple % 64) else PAD];
  }

  // ----- decoding -----

  function Unpadded(s: seq<byte>): seq<byte> {
    if s != [] && s[|s| - 1] == PAD then Unpadded(s[..|s| - 1]) else s
  }

  function Pow2(k: nat): nat { if k == 0 then 1 else 2 * Pow2(k - 1) }

  function Prepended(a: seq<byte>, r: Option<seq<byte>>): Option<seq<byte>> {
    if r.None? then None else Some(a + r.value)
  }

  /** Of eight bits and `bits - 2` more: the byte that is complete, and what stays pending. */
  function TopByte(word: nat, bits: nat): byte
    requires 2 <= bits < 8 && word < Pow2(bits + 6)
  {
    TopFits(word, bits);
    word / Pow2(bits - 2)
  }

  function LowBits(word: nat, bits: nat): (r: nat)
    requires 2 <= bits < 8 && word < Pow2(bits + 6)
    ensures r < Pow2(bits - 2)
  {
    TopFits(word, bits);
    word % Pow2(bits - 2)
  }

  lemma TopFits(word: nat, bits: nat)
    requires 2 <= bits < 8 && word < Pow2(bits + 6)
    ensures Pow2(bits - 2) > 0 && word / Pow2(bits - 2) < 256 && word % Pow2(bits - 2) < Pow2(bits - 2)
  {
    var p := Pow2(bits - 2);
    PowPositive(bits - 2);
    assert Pow2(bits + 6) == 256 * p by {
      assert Pow2(bits + 6) == 2 * Pow2(bits + 5) == 4 * Pow2(bits + 4) == 8 * Pow2(bits + 3);
      assert Pow2(bits + 3) == 2 * Pow2(bits + 2) == 4 * Pow2(bits + 1);
      assert Pow2(bits + 1) == 2 * Pow2(bits) == 4 * Pow2(bits - 1) == 8 * p;
    }
    Below(word, p);
  }

  /** The bytes spelled from here on, with `bits` bits pending in `buf`. */
  function DecodeFrom(s: seq<byte>, buf: nat, bits: nat): Option<seq<byte>>
    requires bits < 8 && buf < Pow2(bits)
  {
    if s == [] then Some([])
    else if Blank(s[0]) then DecodeFrom(s[1..], buf, bits)
    else if SymbolValue(s[0]).None? then None
    else
      var word := buf * 64 + SymbolValue(s[0]).value;
      Shifted(buf, bits, SymbolValue(s[0]).value);
      if bits + 6 < 8 then DecodeFrom(s[1..], word, bits + 6)
      else
        Prepended([TopByte(word, bits)], DecodeFrom(s[1..], LowBits(word, bits), bits - 2))
  }

  function Decoded(s: seq<byte>): Option<seq<byte>> { DecodeFrom(Unpadded(s), 0, 0) }

  /** Six more bits: still below two to the number of bits, and the top eight make a byte. */
  lemma Shifted(buf: nat, bits: nat, v: nat)
    requires bits < 8 && buf < Pow2(bits) && v < 64
    ensures buf * 64 + v < Pow2(bits + 6)
    ensures bits >= 2 ==> Pow2(bits - 2) > 0 && (buf * 64 + v) / Pow2(bits - 2) < 256 && (buf * 64 + v) % Pow2(bits - 2) < Pow2(bits - 2)
  {
    assert Pow2(bits + 6) == 64 * Pow2(bits) by {
      assert Pow2(bits + 6) == 2 * Pow2(bits + 5) == 4 * Pow2(bits + 4) == 8 * Pow2(bits + 3);
      assert Pow2(bits + 3) == 2 * Pow2(bits + 2) == 4 * Pow2(bits + 1);
    }
    if bits >= 2 {
      TopFits(buf * 64 + v, bits);
    }
  }

  lemma {:induction false} PowPositive(k: nat)
    ensures Pow2(k) > 0
    decreases k
  {
    if k > 0 {
      PowPositive(k - 1);
    }
  }

  lemma Below(x: nat, p: nat)
    requires p > 0 && x < 256 * p
    ensures x / p < 256 && x % p < p
  {
    assert x == x / p * p + x % p;
    Cancel(x / p, p);
  }

  lemma Cancel(q: nat, p: nat)
    requires q * p < 256 * p
    ensures q < 256
  {
  }

  method DecodeBase64(text: seq<byte>) returns (r: Option<seq<byte>>)
    ensures r == Decoded(text)
  {
    hide SymbolValue, Pow2, DecodeFrom;
    var end := |text|;
    assert text[..|text|] == text;
    while end > 0 && text[end - 1] == PAD
      invariant 0 <= end <= |text| && Unpadded(text[..end]) == Unpadded(text)
    {
      assert text[..end][..end - 1] == text[..end - 1];
      end := end - 1;
    }
    var s := text[..end];
    var bytes: seq<byte> := [];
    var buf: nat, bits: nat := 0, 0;
    PowPositive(0);
    PowZero();
    assert s[0..] == s && s[|s|..] == [];
    PrependedNothing(DecodeFrom(s, 0, 0));
    for i := 0 to |s|
      invariant bits < 8 && buf < Pow2(bits)
      invariant Decoded(text) == Prepended(bytes, DecodeFrom(s[i..], buf, bits))
    {
      var c := s[i];
      DecodeStep(s, i, buf, bits);
      if Blank(c) {
        continue;
      }
      var v := SymbolValue(c);
      if v.None? {
        return None;
      }
      ValueSmall(c);
      Shifted(buf, bits, v.value);
      buf := buf * 64 + v.value;
      bits := bits + 6;
      if bits >= 8 {
        bits := bits - 8;
        var b := buf / Pow2(bits);
        PrependedOne(bytes, b, DecodeFrom(s[i + 1..], buf % Pow2(bits), bits));
        bytes := bytes + [b];
        buf := buf % Pow2(bits);
      }
    }
    assert bytes + [] == bytes;
    DecodeNothing(buf, bits);
    return Some(bytes);
  }

  lemma PowZero()
    ensures Pow2(0) == 1
  {
  }

  lemma ValueSmall(c: byte)
    ensures SymbolValue(c).Some? ==> SymbolValue(c).value < 64
  {
  }

  lemma DecodeNothing(buf: nat, bits: nat)
    requires bits < 8 && buf < Pow2(bits)
    ensures DecodeFrom([], buf, bits) == Some([])
  {
  }

  lemma DecodeStep(s: seq<byte>, i: nat, buf: nat, bits: nat)
    requires i < |s| && bits < 8 && buf < Pow2(bits)
    ensures Blank(s[i]) ==> DecodeFrom(s[i..], buf, bits) == DecodeFrom(s[i + 1..], buf, bits)
    ensures !Blank(s[i]) && SymbolValue(s[i]).None? ==> DecodeFrom(s[i..], buf, bits) == None
    ensures !Blank(s[i]) && SymbolValue(s[i]).Some? ==>
      var word := buf * 64 + SymbolValue(s[i]).value;
      && word < Pow2(bits + 6)
      && (bits >= 2 ==> Pow2(bits - 2) > 0 && word / Pow2(bits - 2) < 256 && word % Pow2(bits - 2) < Pow2(bits - 2))
      && DecodeFrom(s[i..], buf, bits) ==
         if bits < 2 then DecodeFrom(s[i + 1..], word, bits + 6)
         else
           Prepended([TopByte(word, bits)], DecodeFrom(s[i + 1..], LowBits(word, bits), bits - 2))
  {
    hide SymbolValue, Pow2;
    ValueSmall(s[i]);
    assert s[i..][1..] == s[i + 1..];
    if SymbolValue(s[i]).Some? {
      Shifted(buf, bits, SymbolValue(s[i]).value);
    }
  }

  lemma PrependedNothing(r: Option<seq<byte>>)
    ensures Prepended([], r) == r
  {
    if r.Some? {
      assert [] + r.value == r.value;
    }
  }

  lemma PrependedOne(a: seq<byte>, b: byte, r: Option<seq<byte>>)
    ensures Prepended(a, Prepended([b], r)) == Prepended(a + [b], r)
  {
    if r.Some? {
      assert a + ([b] + r.value) == a + [b] + r.value;
    }
  }

  // ----- round trip -----

  lemma SmallPowers()
    ensures Pow2(0) == 1 && Pow2(2) == 4 && Pow2(4) == 16 && Pow2(6) == 64
  {
    assert Pow2(1) == 2 && Pow2(2) == 4 && Pow2(3) == 8 && Pow2(4) == 16 && Pow2(5) == 32;
  }

  /** One symbol read with nothing but its value known. */
  lemma ReadSymbol(v: nat, rest: seq<byte>, buf: nat, bits: nat)
    requires v < 64 && bits < 8 && buf < Pow2(bits)
    ensures buf * 64 + v < Pow2(bits + 6)
    ensures bits >= 2 ==> Pow2(bits - 2) > 0
    ensures bits >= 2 ==> (buf * 64 + v) / Pow2(bits - 2) < 256 && (buf * 64 + v) % Pow2(bits - 2) < Pow2(bits - 2)
    ensures DecodeFrom([Symbol(v)] + rest, buf, bits) ==
            if bits < 2 then DecodeFrom(rest, buf * 64 + v, bits + 6)
            else
              Prepended([TopByte(buf * 64 + v, bits)], DecodeFrom(rest, LowBits(buf * 64 + v, bits), bits - 2))
  {
    hide Symbol, SymbolValue, Pow2;
    SymbolsMatch(v);
    Shifted(buf, bits, v);
    assert ([Symbol(v)] + rest)[1..] == rest && ([Symbol(v)] + rest)[0] == Symbol(v);
  }

  lemma Quarter(b0: nat, b1: nat)
    requires b0 < 256 && b1 < 256
    ensures (b0 / 4 * 64 + (b0 % 4 * 16 + b1 / 16)) / 16 == b0 && (b0 / 4 * 64 + (b0 % 4 * 16 + b1 / 16)) % 16 == b1 / 16
  {
  }

  lemma Half(b1: nat, b2: nat)
    requires b1 < 256 && b2 < 256
    ensures (b1 / 16 * 64 + (b1 % 16 * 4 + b2 / 64)) / 4 == b1 && (b1 / 16 * 64 + (b1 % 16 * 4 + b2 / 64)) % 4 == b2 / 64
  {
  }

  /** The first two symbols of a group give back its first byte. */
  lemma ReadTwo(b0: nat, b1: nat, rest: seq<byte>)
    requires b0 < 256 && b1 < 256
    ensures b1 / 16 < Pow2(4)
    ensures DecodeFrom([Symbol(b0 / 4)] + ([Symbol(b0 % 4 * 16 + b1 / 16)] + rest), 0, 0)
         == Prepended([b0], DecodeFrom(rest, b1 / 16, 4))
  {
    hide Symbol, DecodeFrom, Pow2;
    SmallPowers();
    ReadSymbol(b0 / 4, [Symbol(b0 % 4 * 16 + b1 / 16)] + rest, 0, 0);
    ReadSymbol(b0 % 4 * 16 + b1 / 16, rest, b0 / 4, 6);
    Quarter(b0, b1);
  }

  lemma ReadThird(b1: nat, b2: nat, rest: seq<byte>)
    requires b1 < 256 && b2 < 256
    ensures b1 / 16 < Pow2(4) && b2 / 64 < Pow2(2)
    ensures DecodeFrom([Symbol(b1 % 16 * 4 + b2 / 64)] + rest, b1 / 16, 4) == Prepended([b1], DecodeFrom(rest, b2 / 64, 2))
  {
    hide Symbol, DecodeFrom, Pow2;
    SmallPowers();
    ReadSymbol(b1 % 16 * 4 + b2 / 64, rest, b1 / 16, 4);
    Half(b1, b2);
  }

  lemma ReadFourth(b2: nat, rest: seq<byte>)
    requires b2 < 256
    ensures b2 / 64 < Pow2(2) && 0 < Pow2(0)
    ensures DecodeFrom([Symbol(b2 % 64)] + rest, b2 / 64, 2) == Prepended([b2], DecodeFrom(rest, 0, 0))
  {
    hide Symbol, DecodeFrom, Pow2;
    SmallPowers();
    ReadSymbol(b2 % 64, rest, b2 / 64, 2);
    assert (b2 / 64 * 64 + b2 % 64) / 1 == b2 && (b2 / 64 * 64 + b2 % 64) % 1 == 0;
  }

  /** A group without its padding reads back as its bytes, before whatever follows a full
      one. */
  lemma GroupRead(chunk: seq<byte>, rest: seq<byte>)
    requires 0 < |chunk| <= 3 && (|chunk| < 3 ==> rest == [])
    ensures 0 < Pow2(0)
    ensures DecodeFrom(Group(chunk)[..|chunk| + 1] + rest, 0, 0) == Prepended(chunk, DecodeFrom(rest, 0, 0))
  {
    hide Symbol, DecodeFrom, Pow2;
    var b0: int := chunk[0];
    var b1: int := if |chunk| > 1 then chunk[1] else 0;
    var b2: int := if |chunk| > 2 then chunk[2] else 0;
    var g := Group(chunk)[..|chunk| + 1];
    SmallPowers();
    var third, fourth := [Symbol(b1 % 16 * 4 + b2 / 64)], [Symbol(b2 % 64)];
    var tail := if |chunk| == 1 then [] else if |chunk| == 2 then third else third + (fourth + rest);
    assert g + rest == [Symbol(b0 / 4)] + ([Symbol(b0 % 4 * 16 + b1 / 16)] + tail);
    ReadTwo(b0, b1, tail);
    NothingLeft();
    if |chunk| == 2 {
      assert third == third + [];
      ReadThird(b1, b2, []);
      PrependedOne([b0], b1, Some([]));
      assert chunk == [b0] + [b1];
    } else if |chunk| == 3 {
      ReadThird(b1, b2, fourth + rest);
      ReadFourth(b2, rest);
      PrependedOne([b0], b1, Prepended([b2], DecodeFrom(rest, 0, 0)));
      PrependedOne([b0] + [b1], b2, DecodeFrom(rest, 0, 0));
      assert chunk == [b0] + [b1] + [b2];
    } else {
      assert chunk == [b0];
    }
  }

  lemma NothingLeft()
    ensures Pow2(0) == 1 && Pow2(2) == 4 && Pow2(4) == 16
    ensures forall buf | 0 <= buf < 1 :: DecodeFrom([], buf, 0) == Some([])
    ensures forall buf | 0 <= buf < 4 :: DecodeFrom([], buf, 2) == Some([])
    ensures forall buf | 0 <= buf < 16 :: DecodeFrom([], buf, 4) == Some([])
  {
    SmallPowers();
  }

  predicate NoPad(s: seq<byte>) { forall c | c in s :: c != PAD }

  /** The encoding without its padding. */
  function Bare(data: seq<byte>): seq<byte> {
    if data == [] then []
    else if |data| <= 3 then Group(data)[..|data| + 1]
    else Group(data[..3]) + Bare(data[3..])
  }

  lemma {:induction false} UnpaddedTail(s: seq<byte>, n: nat)
    requires s == [] || s[|s| - 1] != PAD
    ensures Unpadded(s + Pads(n)) == s
    decreases n
  {
    if n > 0 {
      assert (s + Pads(n))[..|s| + n - 1] == s + Pads(n - 1);
      UnpaddedTail(s, n - 1);
    } else {
      assert s + Pads(0) == s;
    }
  }

  function Pads(n: nat): (p: seq<byte>)
    ensures |p| == n && forall i | 0 <= i < n :: p[i] == PAD
  {
    seq(n, _ => PAD)
  }

  lemma {:induction false} EncodeIsBare(data: seq<byte>) returns (n: nat)
    ensures n <= 2 && Encode(data) == Bare(data) + Pads(n)
    ensures data != [] ==> Bare(data) != [] && Bare(data)[|Bare(data)| - 1] != PAD
    decreases |data|
  {
    hide Symbol;
    if data == [] {
      n := 0;
    } else if |data| <= 3 {
      n := 3 - |data|;
      LastSymbol(data);
      assert Encode(data) == Bare(data) + Pads(n);
    } else {
      n := EncodeIsBare(data[3..]);
    }
  }

  lemma LastSymbol(chunk: seq<byte>)
    requires 0 < |chunk| <= 3
    ensures Group(chunk)[|chunk|] != PAD
    ensures forall i | |chunk| < i < 4 :: Group(chunk)[i] == PAD
  {
  }

  lemma {:induction false} BareRead(data: seq<byte>)
    ensures 0 < Pow2(0) && DecodeFrom(Bare(data), 0, 0) == Some(data)
    decreases |data|
  {
    hide Group, DecodeFrom, Pow2;
    NothingLeft();
    if data == [] {
    } else if |data| <= 3 {
      GroupRead(data, []);
      assert Bare(data) + [] == Bare(data) && data + [] == data;
    } else {
      BareRead(data[3..]);
      GroupRead(data[..3], Bare(data[3..]));
      assert Group(data[..3])[..4] == Group(data[..3]);
      assert data == data[..3] + data[3..];
    }
  }

  /** Decoding undoes encoding, for every byte string. */
  lemma DecodeEncode(data: seq<byte>)
    ensures Decoded(Encode(data)) == Some(data)
  {
    hide Encode, Bare, DecodeFrom;
    var n := EncodeIsBare(data);
    BareRead(data);
    BareNothing(data);
    UnpaddedTail(Bare(data), n);
  }

  lemma BareNothing(data: seq<byte>)
    ensures data == [] ==> Bare(data) == []
  {
  }

  // ----- what does not matter in the text -----

  function Blankless(s: seq<byte>): seq<byte> {
    if s == [] then [] else (if Blank(s[0]) then [] else [s[0]]) + Blankless(s[1..])
  }

  lemma {:induction false} BlanksIgnored(s: seq<byte>, buf: nat, bits: nat)
    requires bits < 8 && buf < Pow2(bits)
    ensures DecodeFrom(Blankless(s), buf, bits) == DecodeFrom(s, buf, bits)
    decreases |s|
  {
    hide SymbolValue, Pow2;
    if s != [] {
      var b := Blankless(s[1..]);
      if Blank(s[0]) {
        BlanksIgnored(s[1..], buf, bits);
        assert [] + b == b;
      } else {
        assert ([s[0]] + b)[1..] == b && Blankless(s) == [s[0]] + b;
        if SymbolValue(s[0]).Some? {
          ValueSmall(s[0]);
          var v := SymbolValue(s[0]).value;
          Shifted(buf, bits, v);
          if bits + 6 < 8 {
            BlanksIgnored(s[1..], buf * 64 + v, bits + 6);
          } else {
            BlanksIgnored(s[1..], (buf * 64 + v) % Pow2(bits - 2), bits - 2);
          }
        }
      }
    }
  }

  /** Dropping the padding changes nothing, nor do spaces and line ends before it. */
  lemma PaddingAndBlanksIgnored(s: seq<byte>, n: nat)
    ensures Decoded(Unpadded(s)) == Decoded(s)
    ensures NoPad(s) ==> Decoded(s + Pads(n)) == Decoded(s) == Decoded(Blankless(s) + Pads(n))
  {
    hide DecodeFrom;
    UnpaddedTwice(s);
    PowPositive(0);
    if NoPad(s) {
      BlanklessHas(s);
      assert s == [] || s[|s| - 1] in s;
      assert Blankless(s) == [] || Blankless(s)[|Blankless(s)| - 1] in Blankless(s);
      UnpaddedTail(s, n);
      assert s + Pads(0) == s;
      UnpaddedTail(s, 0);
      UnpaddedTail(Blankless(s), n);
      BlanksIgnored(s, 0, 0);
    }
  }

  lemma {:induction false} BlanklessHas(s: seq<byte>)
    ensures forall c | c in Blankless(s) :: c in s
    decreases |s|
  {
    if s != [] {
      BlanklessHas(s[1..]);
    }
  }

  lemma {:induction false} UnpaddedAndPads(s: seq<byte>) returns (n: nat)
    ensures s == Unpadded(s) + Pads(n)
    decreases |s|
  {
    if s != [] && s[|s| - 1] == PAD {
      n := UnpaddedAndPads(s[..|s| - 1]);
      n := n + 1;
      assert s == s[..|s| - 1] + [PAD];
    } else {
      n := 0;
      assert s == s + Pads(0);
    }
  }

  lemma {:induction false} BlanklessAppend(a: seq<byte>, b: seq<byte>)
    ensures Blankless(a + b) == Blankless(a) + Blankless(b)
    decreases |a|
  {
    if a == [] {
      assert a + b == b;
    } else {
      assert (a + b)[1..] == a[1..] + b;
      BlanklessAppend(a[1..], b);
    }
  }

  lemma {:induction false} PadsHaveNoBlank(n: nat)
    ensures Blankless(Pads(n)) == Pads(n)
    decreases n
  {
    if n > 0 {
      assert Pads(n)[1..] == Pads(n - 1) && Pads(n) == [PAD] + Pads(n - 1);
      PadsHaveNoBlank(n - 1);
    }
  }

  predicate Readable(s: seq<byte>) { forall c | c in s :: Blank(c) || SymbolValue(c).Some? }

  lemma {:induction false} ReadableIsRead(s: seq<byte>, buf: nat, bits: nat)
    requires bits < 8 && buf < Pow2(bits)
    ensures DecodeFrom(s, buf, bits).Some? <==> Readable(s)
    decreases |s|
  {
    hide SymbolValue, Pow2, Blank;
    if s != [] {
      assert s[0] in s && s == [s[0]] + s[1..];
      DecodeStep(s, 0, buf, bits);
      assert s[0..] == s;
      if Blank(s[0]) {
        ReadableIsRead(s[1..], buf, bits);
      } else if SymbolValue(s[0]).Some? {
        var word := buf * 64 + SymbolValue(s[0]).value;
        if bits < 2 {
          ReadableIsRead(s[1..], word, bits + 6);
        } else {
          ReadableIsRead(s[1..], word % Pow2(bits - 2), bits - 2);
        }
      }
    }
  }

  /** Accepted is exactly a text of symbols and blanks behind which only padding follows. */
  lemma AcceptedBase64(s: seq<byte>)
    ensures Decoded(s).Some? <==> Readable(Unpadded(s))
  {
    PowPositive(0);
    ReadableIsRead(Unpadded(s), 0, 0);
  }

  lemma PadIsNoSymbol()
    ensures !Blank(PAD) && SymbolValue(PAD) == None
  {
  }

  /** Blanks do not matter to any text, with one exception: a blank behind a padding
      character leaves that character in the text, and the text is refused. */
  lemma BlanksMatterBehindPadding(s: seq<byte>)
    ensures Decoded(s) == Decoded(Blankless(s)) <==> PAD !in Unpadded(s) || Decoded(Blankless(s)).None?
  {
    hide DecodeFrom, SymbolValue;
    var u := Unpadded(s);
    if PAD in u {
      PadIsNoSymbol();
      AcceptedBase64(s);
    } else {
      var n := UnpaddedAndPads(s);
      PaddingAndBlanksIgnored(u, n);
      BlanklessAppend(u, Pads(n));
      PadsHaveNoBlank(n);
    }
  }

  /** An instance: `QQ== ` with its last space is refused, without it is the byte 65. */
  lemma BlankAfterPadding()
    ensures Decoded([81, 81, PAD, PAD, 32]) == None && Decoded(Blankless([81, 81, PAD, PAD, 32])) == Some([65])
  {
    hide Decoded, Blankless, Encode;
    DecodeEncode([65]);
    EncodedA();
    BlanklessA();
    EndsInSpace();
    PadIsNoSymbol();
    AcceptedBase64([81, 81, PAD, PAD, 32]);
  }

  lemma EncodedA()
    ensures Encode([65]) == [81, 81, PAD, PAD]
  {
  }

  lemma EndsInSpace()
    ensures PAD in Unpadded([81, 81, PAD, PAD, 32])
  {
    assert [81, 81, PAD, PAD, 32][2] == PAD;
  }

  lemma BlanklessA()
    ensures Blankless([81, 81, PAD, PAD, 32]) == [81, 81, PAD, PAD]
  {
    assert [81, 81, PAD, PAD, 32] == [81, 81] + (Pads(2) + [32]);
    assert [81, 81][1..] == [81] && [81][1..] == [] && [32][1..] == [];
    BlanklessAppend([81, 81], Pads(2) + [32]);
    BlanklessAppend(Pads(2), [32]);
    PadsHaveNoBlank(2);
  }

  lemma {:induction false} UnpaddedTwice(s: seq<byte>)
    ensures Unpadded(Unpadded(s)) == Unpadded(s)
    decreases |s|
  {
    if s != [] && s[|s| - 1] == PAD {
      UnpaddedTwice(s[..|s| - 1]);
    }
  }

  // ----- hex -----

  function HexDigit(v: nat): byte
    requires v < 16
  {
    if v < 10 then 48 + v else 97 + (v - 10)
  }

  function HexValue(c: byte): Option<nat> {
    if 48 <= c <= 57 then Some(c as int - 48)
    else if 97 <= c <= 102 then Some(c as int - 97 + 10)
    else if 65 <= c <= 70 then Some(c as int - 65 + 10)
    else None
  }

  /** Two characters read as a number in base 16; the library allows a leading plus sign. */
  function PairValue(a: byte, b: byte): Option<byte> {
    var lo := HexValue(b);
    if lo.None? || lo.value >= 16 then None
    else if a == 43 then Some(lo.value)
    else
      var hi := HexValue(a);
      if hi.None? || hi.value >= 16 then None else Some(hi.value * 16 + lo.value)
  }

  function HexEncoded(data: seq<byte>): seq<byte> {
    if data == [] then [] else [HexDigit(data[0] as int / 16), HexDigit(data[0] as int % 16)] + HexEncoded(data[1..])
  }

  function HexDecoded(s: seq<byte>): Option<seq<byte>> {
    if s == [] then Some([])
    else if |s| == 1 then None
    else
      var b, rest := PairValue(s[0], s[1]), HexDecoded(s[2..]);
      if b.None? then None else Prepended([b.value], rest)
  }

  lemma {:induction false} OddFails(s: seq<byte>)
    requires |s| % 2 == 1
    ensures HexDecoded(s) == None
    decreases |s|
  {
    if |s| > 1 {
      OddFails(s[2..]);
    }
  }

  method DecodeHex(s: seq<byte>) returns (r: Option<seq<byte>>)
    ensures r == HexDecoded(s)
  {
    hide PairValue;
    if |s| % 2 != 0 {
      OddFails(s);
      return None;
    }
    var bytes: seq<byte> := [];
    var i := 0;
    assert s[0..] == s;
    PrependedNothing(HexDecoded(s));
    while i < |s|
      invariant 0 <= i <= |s| && i % 2 == 0
      invariant HexDecoded(s) == Prepended(bytes, HexDecoded(s[i..]))
    {
      assert s[i..][2..] == s[i + 2..];
      var b := PairValue(s[i], s[i + 1]);
      if b.None? {
        return None;
      }
      PrependedOne(bytes, b.value, HexDecoded(s[i + 2..]));
      bytes := bytes + [b.value];
      i := i + 2;
    }
    assert bytes + [] == bytes;
    return Some(bytes);
  }

  method EncodeHex(data: seq<byte>) returns (s: seq<byte>)
    ensures s == HexEncoded(data)
  {
    hide HexDigit;
    s := [];
    for i := 0 to |data|
      invariant s + HexEncoded(data[i..]) == HexEncoded(data)
    {
      assert data[i..][1..] == data[i + 1..];
      s := s + [HexDigit(data[i] as int / 16), HexDigit(data[i] as int % 16)];
    }
  }

  lemma HexDigitRead(v: nat)
    requires v < 16
    ensures HexValue(HexDigit(v)) == Some(v) && HexDigit(v) != 43
  {
  }

  /** Decoding undoes encoding. */
  lemma {:induction false} HexRoundTrip(data: seq<byte>)
    ensures HexDecoded(HexEncoded(data)) == Some(data)
    decreases |data|
  {
    hide HexDigit, HexValue;
    if data != [] {
      HexDigitRead(data[0] as int / 16);
      HexDigitRead(data[0] as int % 16);
      HexRoundTrip(data[1..]);
      assert HexEncoded(data)[2..] == HexEncoded(data[1..]);
      assert data == [data[0]] + data[1..];
    }
  }

  // ----- how far decoding is from base 16 -----

  predicate IsHex(c: byte) { HexValue(c).Some? }

  lemma HexIsSmall(c: byte)
    ensures IsHex(c) ==> HexValue(c).value < 16 && c != 43
  {
  }

  /** Base 16 as section 8 of RFC 4648 has it: an even number of hex digits. */
  function StrictHex(s: seq<byte>): Option<seq<byte>> {
    if s == [] then Some([])
    else if |s| == 1 || !IsHex(s[0]) || !IsHex(s[1]) then None
    else
      HexIsSmall(s[0]);
      HexIsSmall(s[1]);
      Prepended([HexValue(s[0]).value * 16 + HexValue(s[1]).value], StrictHex(s[2..]))
  }

  /** Every pair is a hex digit or a plus sign, and then a hex digit. */
  predicate PairsRead(s: seq<byte>) {
    && |s| % 2 == 0
    && forall i | 0 <= i < |s| :: IsHex(s[i]) || (i % 2 == 0 && s[i] == 43)
  }

  /** Some pair starts with a plus sign. */
  ghost predicate Signed(s: seq<byte>) {
    exists i :: 0 <= i && i + 1 < |s| && i % 2 == 0 && s[i] == 43 && IsHex(s[i + 1])
  }

  lemma PairRead(a: byte, b: byte)
    ensures PairValue(a, b).Some? <==> IsHex(b) && (IsHex(a) || a == 43)
  {
  }

  lemma PairsStep(s: seq<byte>)
    requires |s| >= 2
    ensures PairsRead(s) <==> (IsHex(s[0]) || s[0] == 43) && IsHex(s[1]) && PairsRead(s[2..])
  {
    hide IsHex;
    HexIsSmall(s[1]);
    if PairsRead(s[2..]) {
      forall i | 2 <= i < |s|
        ensures IsHex(s[i]) || (i % 2 == 0 && s[i] == 43)
      {
        assert s[i] == s[2..][i - 2];
      }
    }
    if PairsRead(s) {
      forall j | 0 <= j < |s| - 2
        ensures IsHex(s[2..][j]) || (j % 2 == 0 && s[2..][j] == 43)
      {
        assert s[2..][j] == s[j + 2];
      }
    }
  }

  /** Which texts decode_hex accepts. */
  lemma {:induction false} AcceptedHex(s: seq<byte>)
    ensures HexDecoded(s).Some? <==> PairsRead(s)
    decreases |s|
  {
    hide PairValue, IsHex;
    if |s| >= 2 {
      PairsStep(s);
      PairRead(s[0], s[1]);
      AcceptedHex(s[2..]);
    }
  }

  lemma SignedStep(s: seq<byte>)
    requires |s| >= 2
    ensures Signed(s) <==> (s[0] == 43 && IsHex(s[1])) || Signed(s[2..])
  {
    hide IsHex;
    if Signed(s[2..]) {
      var j :| 0 <= j && j + 1 < |s[2..]| && j % 2 == 0 && s[2..][j] == 43 && IsHex(s[2..][j + 1]);
      assert s[j + 2] == 43 && IsHex(s[j + 3]);
    }
    if Signed(s) {
      var i :| 0 <= i && i + 1 < |s| && i % 2 == 0 && s[i] == 43 && IsHex(s[i + 1]);
      if i >= 2 {
        assert s[2..][i - 2] == 43 && IsHex(s[2..][i - 2 + 1]);
      }
    }
  }

  lemma PairIsStrict(a: byte, b: byte)
    ensures IsHex(a) && IsHex(b) ==>
              HexValue(a).value * 16 + HexValue(b).value < 256
              && PairValue(a, b) == Some(HexValue(a).value * 16 + HexValue(b).value)
  {
  }

  lemma {:induction false} StrictIsRead(s: seq<byte>)
    ensures StrictHex(s).Some? ==> HexDecoded(s) == StrictHex(s) && !Signed(s)
    ensures HexDecoded(s).Some? && !Signed(s) ==> StrictHex(s).Some?
    decreases |s|
  {
    hide PairValue, IsHex, HexValue;
    if |s| >= 2 {
      HexIsSmall(s[0]);
      SignedStep(s);
      PairRead(s[0], s[1]);
      PairIsStrict(s[0], s[1]);
      StrictIsRead(s[2..]);
    }
  }

  /** decode_hex is base 16 on every text but those it accepts with a sign in them. */
  lemma HexIsStrictUnlessSigned(s: seq<byte>)
    ensures HexDecoded(s) == StrictHex(s) <==> !(PairsRead(s) && Signed(s))
    ensures HexDecoded(s) == StrictHex(s) <==> !Signed(s) || HexDecoded(s).None?
  {
    hide HexDecoded, StrictHex, Signed;
    AcceptedHex(s);
    StrictIsRead(s);
  }

  /** An instance: "+f" is read as the byte 15, and is not base 16. */
  lemma SignIsRead()
    ensures HexDecoded([43, 102]) == Some([15]) && StrictHex([43, 102]) == None
  {
    var s: seq<byte> := [43, 102];
    assert s[2..] == [];
    assert [15] + [] == [15];
    assert PairsRead(s) && Signed(s) by { assert s[0] == 43 && IsHex(s[0 + 1]); }
    HexIsStrictUnlessSigned(s);
  }

  // ----- where the source stops the program -----

  predicate Continues(c: byte) { 0x80 <= c < 0xC0 }

  /** The pair behind the read ones ends inside a multi-byte character: slicing the text
      there panics. */
  predicate SplitsChar(s: seq<byte>) {
    |s| % 2 == 0 && |s| > 2 && if PairValue(s[0], s[1]).Some? then SplitsChar(s[2..]) else Continues(s[2])
  }

  predicate SplitAt(s: seq<byte>, i: int) {
    && 0 <= i && i + 2 < |s| && |s| % 2 == 0 && i % 2 == 0
    && PairsRead(s[..i]) && !PairsRead(s[..i + 2]) && Continues(s[i + 2])
  }

  /** It happens exactly at the first pair that is not read, when the byte behind it
      continues a character; such texts are never read, and plain ASCII is never one. */
  lemma {:induction false} SplitExactly(s: seq<byte>)
    ensures SplitsChar(s) <==> exists i :: SplitAt(s, i)
    ensures SplitsChar(s) ==> HexDecoded(s) == None
    ensures (forall c | c in s :: c < 0x80) ==> !SplitsChar(s)
    decreases |s|
  {
    hide PairValue, IsHex, PairsRead;
    if |s| > 2 && |s| % 2 == 0 {
      var rest := s[2..];
      NothingPairs();
      PairRead(s[0], s[1]);
      TwoPairs(s);
      SplitExactly(rest);
      assert s[2] in s && forall c | c in rest :: c in s;
      if PairValue(s[0], s[1]).Some? {
        if SplitsChar(rest) {
          var j :| SplitAt(rest, j);
          PrefixStep(s, j + 2);
          PrefixStep(s, j + 4);
          assert SplitAt(s, j + 2);
        }
        if exists i :: SplitAt(s, i) {
          var i :| SplitAt(s, i);
          PrefixStep(s, i + 2);
          if i >= 2 {
            PrefixStep(s, i);
            assert SplitAt(rest, i - 2);
          }
        }
      } else {
        assert s[..0] == [];
        if Continues(s[2]) {
          assert SplitAt(s, 0);
        }
        forall i | 0 < i && SplitAt(s, i)
          ensures false
        {
          PrefixStep(s, i);
        }
      }
    }
  }

  lemma NothingPairs()
    ensures PairsRead([])
  {
  }

  lemma TwoPairs(s: seq<byte>)
    requires |s| >= 2
    ensures PairsRead(s[..2]) <==> PairValue(s[0], s[1]).Some?
  {
    hide PairValue, IsHex;
    PairRead(s[0], s[1]);
    PairsStep(s[..2]);
    NothingPairs();
    assert s[..2][2..] == [];
  }

  lemma PrefixStep(s: seq<byte>, i: nat)
    requires 2 <= i <= |s|
    ensures PairsRead(s[..i]) <==> PairValue(s[0], s[1]).Some? && PairsRead(s[2..][..i - 2])
  {
    hide PairValue, IsHex, PairsRead;
    PairRead(s[0], s[1]);
    PairsStep(s[..i]);
    assert s[..i][2..] == s[2..][..i - 2];
  }
}
