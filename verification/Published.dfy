/** Answers that the standards publish. The proofs run the definitions on fixed inputs, step
    by step, so no constant, rotation or choice in them can be another one. */
module Published {
  import opened Wrappers
  import Crc
  import Digest
  import Encoding
  import J = JsonLexis
  import S = Sha256
  import Utf8

  // ----- base64 and hex -----

  /** Table 1 of RFC 4648. */
  function Base64Alphabet(): string { "ABCDEFGHIJKLMNOP" + "QRSTUVWXYZabcdef" + "ghijklmnopqrstuv" + "wxyz0123456789+/" }

  lemma Base64Table(v: nat)
    requires v < 64
    ensures |Base64Alphabet()| == 64 && Encoding.Symbol(v) as char == Base64Alphabet()[v]
  {
    if v < 16 {
    } else if v < 32 {
    } else if v < 48 {
    } else {
    }
  }

  lemma HexTable(v: nat)
    requires v < 16
    ensures Encoding.HexDigit(v) as char == "0123456789abcdef"[v]
  {
  }

  /** The longest example of section 10 of RFC 4648. */
  lemma Base64OfFoobar()
    ensures Encoding.Encode([0x66, 0x6f, 0x6f, 0x62, 0x61, 0x72]) == [0x5a, 0x6d, 0x39, 0x76, 0x59, 0x6d, 0x46, 0x79]
    ensures Encoding.Encode([0x66, 0x6f, 0x6f, 0x62, 0x61]) == [0x5a, 0x6d, 0x39, 0x76, 0x59, 0x6d, 0x45, 0x3d]
    ensures Encoding.Encode([0x66, 0x6f, 0x6f, 0x62]) == [0x5a, 0x6d, 0x39, 0x76, 0x59, 0x67, 0x3d, 0x3d]
  {
    hide Encoding.Group;
    var s: seq<byte> := [0x66, 0x6f, 0x6f, 0x62, 0x61, 0x72];
    assert s[..5][3..] == [0x62, 0x61] && s[..4][3..] == [0x62] && s[3..] == [0x62, 0x61, 0x72];
    assert s[..3] == s[..5][..3] == s[..4][..3] == [0x66, 0x6f, 0x6f];
    assert s[..5] == [0x66, 0x6f, 0x6f, 0x62, 0x61] && s[..4] == [0x66, 0x6f, 0x6f, 0x62];
    assert Encoding.Encode(s) == Encoding.Group(s[..3]) + Encoding.Group(s[3..]);
    assert Encoding.Encode(s[..5]) == Encoding.Group(s[..3]) + Encoding.Group([0x62, 0x61]);
    assert Encoding.Encode(s[..4]) == Encoding.Group(s[..3]) + Encoding.Group([0x62]);
    Groups();
  }

  lemma Groups()
    ensures Encoding.Group([0x66, 0x6f, 0x6f]) == [0x5a, 0x6d, 0x39, 0x76]
    ensures Encoding.Group([0x62, 0x61, 0x72]) == [0x59, 0x6d, 0x46, 0x79]
    ensures Encoding.Group([0x62, 0x61]) == [0x59, 0x6d, 0x45, 0x3d] && Encoding.Group([0x62]) == [0x59, 0x67, 0x3d, 0x3d]
  {
  }

  // ----- UTF-8 -----

  /** Characters of the examples of section 7 of RFC 3629, of one to four bytes. */
  lemma Utf8Examples()
    ensures Utf8.EncodeChar('A') == [0x41] && Utf8.EncodeChar('\U{0391}') == [0xce, 0x91]
    ensures Utf8.EncodeChar('\U{2262}') == [0xe2, 0x89, 0xa2] && Utf8.EncodeChar('\U{0233B4}') == [0xf0, 0xa3, 0x8e, 0xb4]
  {
  }

  // ----- JSON -----

  /** White space, section 2 of RFC 8259. */
  lemma JsonSpaces(b: byte)
    ensures J.IsSpace(b) <==> b as char in " \t\n\r"
  {
    if J.IsSpace(b) {
      assert b as char == " \t\n\r"[if b == 0x20 then 0 else if b == 0x09 then 1 else if b == 0x0A then 2 else 3];
    }
  }

  /** The characters that may follow a backslash on their own, section 7, and what they mean. */
  lemma JsonEscapes(b: byte)
    ensures J.ShortEscape(b).Some? <==> b as char in "\"\\/bfnrt"
    ensures forall i | 0 <= i < 8 && b as char == "\"\\/bfnrt"[i] :: J.ShortEscape(b) == Some("\"\\/\U{08}\U{0C}\n\r\t"[i])
  {
    if J.ShortEscape(b).Some? {
      var i := if b == 0x22 then 0 else if b == 0x5C then 1 else if b == 0x2F then 2 else if b == 0x62 then 3
               else if b == 0x66 then 4 else if b == 0x6E then 5 else if b == 0x72 then 6 else 7;
      assert b as char == "\"\\/bfnrt"[i];
    }
  }

  /** The structural characters, section 2, and the literal names, section 3. */
  lemma JsonMarks()
    ensures J.Punctuation('{' as byte) == Some(J.ObjectStart) && J.Punctuation('}' as byte) == Some(J.ObjectEnd)
    ensures J.Punctuation('[' as byte) == Some(J.ArrayStart) && J.Punctuation(']' as byte) == Some(J.ArrayEnd)
    ensures J.Punctuation(':' as byte) == Some(J.Colon) && J.Punctuation(',' as byte) == Some(J.Comma)
    ensures J.NULL == [0x6e, 0x75, 0x6c, 0x6c] && J.TRUE == [0x74, 0x72, 0x75, 0x65]
    ensures J.FALSE == [0x66, 0x61, 0x6c, 0x73, 0x65]
  {
  }

  // ----- CRC-32 -----

  lemma EightRounds(c: bv32)
    ensures Crc.Rounds(c, 8) ==
            Crc.Round(Crc.Round(Crc.Round(Crc.Round(Crc.Round(Crc.Round(Crc.Round(Crc.Round(c))))))))
  {
    hide Crc.Round;
    var d := Crc.Round(Crc.Round(Crc.Round(Crc.Round(c))));
    assert Crc.Rounds(c, 8) == Crc.Rounds(Crc.Round(c), 7) == Crc.Rounds(Crc.Round(Crc.Round(c)), 6) == Crc.Rounds(d, 4);
    assert Crc.Rounds(d, 4) == Crc.Rounds(Crc.Round(d), 3) == Crc.Rounds(Crc.Round(Crc.Round(d)), 2);
  }

  lemma Fed(c: bv32, b: bv8, rest: seq<bv8>)
    ensures var x := Crc.Xor(c, Crc.Wide(b));
            Crc.FeedAll(c, [b] + rest) ==
            Crc.FeedAll(Crc.Round(Crc.Round(Crc.Round(Crc.Round(Crc.Round(Crc.Round(Crc.Round(Crc.Round(x)))))))), rest)
  {
    hide Crc.Round, Crc.Rounds;
    EightRounds(Crc.Xor(c, Crc.Wide(b)));
    assert ([b] + rest)[1..] == rest;
  }

  /** The check value of this CRC: that of the text "123456789". */
  lemma CrcOfDigits()
    ensures Crc.Crc32([0x31, 0x32, 0x33, 0x34, 0x35, 0x36, 0x37, 0x38, 0x39]) == 0xcbf4_3926
  {
    hide Crc.FeedAll;
    var s: seq<bv8> := [0x31, 0x32, 0x33, 0x34, 0x35];
    var rest: seq<bv8> := [0x36, 0x37, 0x38, 0x39];
    assert s + rest == [0x31, 0x32, 0x33, 0x34, 0x35, 0x36, 0x37, 0x38, 0x39];
    Crc.FeedAllAppend(Crc.START, s, rest);
    FirstDigits();
    LastDigits();
  }

  lemma FirstDigits()
    ensures Crc.FeedAll(0xffffffff, [0x31, 0x32, 0x33, 0x34, 0x35]) == 0x340ac5e3
  {
    hide Crc.FeedAll;
    var s: seq<bv8> := [0x31, 0x32, 0x33, 0x34, 0x35];
    assert s[0..] == [0x31] + s[1..];
    Fed(0xffffffff, 0x31, s[1..]);
    assert Crc.FeedAll(0xffffffff, s[0..]) == Crc.FeedAll(0x7c231048, s[1..]);
    assert s[1..] == [0x32] + s[2..];
    Fed(0x7c231048, 0x32, s[2..]);
    assert Crc.FeedAll(0x7c231048, s[1..]) == Crc.FeedAll(0xb0acbb32, s[2..]);
    assert s[2..] == [0x33] + s[3..];
    Fed(0xb0acbb32, 0x33, s[3..]);
    assert Crc.FeedAll(0xb0acbb32, s[2..]) == Crc.FeedAll(0x77b79c2d, s[3..]);
    assert s[3..] == [0x34] + s[4..];
    Fed(0x77b79c2d, 0x34, s[4..]);
    assert Crc.FeedAll(0x77b79c2d, s[3..]) == Crc.FeedAll(0x641c1f5c, s[4..]);
    assert s[4..] == [0x35] + s[5..];
    Fed(0x641c1f5c, 0x35, s[5..]);
    assert Crc.FeedAll(0x641c1f5c, s[4..]) == Crc.FeedAll(0x340ac5e3, s[5..]);
    assert s[0..] == s && s[5..] == [];
    NothingFed(0x340ac5e3);
  }

  lemma LastDigits()
    ensures Crc.FeedAll(0x340ac5e3, [0x36, 0x37, 0x38, 0x39]) == 0x340bc6d9
  {
    hide Crc.FeedAll;
    var s: seq<bv8> := [0x36, 0x37, 0x38, 0x39];
    assert s[0..] == [0x36] + s[1..];
    Fed(0x340ac5e3, 0x36, s[1..]);
    assert Crc.FeedAll(0x340ac5e3, s[0..]) == Crc.FeedAll(0xf68d2c9e, s[1..]);
    assert s[1..] == [0x37] + s[2..];
    Fed(0xf68d2c9e, 0x37, s[2..]);
    assert Crc.FeedAll(0xf68d2c9e, s[1..]) == Crc.FeedAll(0xaffc9660, s[2..]);
    assert s[2..] == [0x38] + s[3..];
    Fed(0xaffc9660, 0x38, s[3..]);
    assert Crc.FeedAll(0xaffc9660, s[2..]) == Crc.FeedAll(0x651f2550, s[3..]);
    assert s[3..] == [0x39] + s[4..];
    Fed(0x651f2550, 0x39, s[4..]);
    assert Crc.FeedAll(0x651f2550, s[3..]) == Crc.FeedAll(0x340bc6d9, s[4..]);
    assert s[0..] == s && s[4..] == [];
    NothingFed(0x340bc6d9);
  }

  lemma NothingFed(c: bv32)
    ensures Crc.FeedAll(c, []) == c
  {
  }

  // ----- SHA-256: the constants -----

  /** The first 32 bits behind the point of the root of `p` whose whole part is `c`. */
  predicate CubeRoot(p: nat, c: nat, w: bv32) {
    var x := c * 0x1_0000_0000 + w as int;
    x * x * x <= p * 0x1_0000_0000 * 0x1_0000_0000 * 0x1_0000_0000 < (x + 1) * (x + 1) * (x + 1)
  }

  lemma IsCubeRoot(p: nat, c: nat, w: bv32, x: nat)
    requires x == c * 0x1_0000_0000 + w as int
    requires x * x * x <= p * 0x1_0000_0000 * 0x1_0000_0000 * 0x1_0000_0000 < (x + 1) * (x + 1) * (x + 1)
    ensures CubeRoot(p, c, w)
  {
  }

  predicate SquareRoot(p: nat, c: nat, w: bv32) {
    var x := c * 0x1_0000_0000 + w as int;
    x * x <= p * 0x1_0000_0000 * 0x1_0000_0000 < (x + 1) * (x + 1)
  }

  const PRIMES: seq<nat> :=
    [2, 3, 5, 7, 11, 13, 17, 19] +
    [23, 29, 31, 37, 41, 43, 47, 53] +
    [59, 61, 67, 71, 73, 79, 83, 89] +
    [97, 101, 103, 107, 109, 113, 127, 131] +
    [137, 139, 149, 151, 157, 163, 167, 173] +
    [179, 181, 191, 193, 197, 199, 211, 223] +
    [227, 229, 233, 239, 241, 251, 257, 263] +
    [269, 271, 277, 281, 283, 293, 307, 311]

  function WholeRoot(p: nat): nat {
    if p < 8 then 1 else if p < 27 then 2 else if p < 64 then 3 else if p < 125 then 4 else if p < 216 then 5 else 6
  }

  /** Section 4.2.2 of FIPS 180-4: the cube roots of the first sixty-four primes. */
  lemma CubeRoots(t: nat)
    requires t < 64
    ensures |PRIMES| == 64 && CubeRoot(PRIMES[t], WholeRoot(PRIMES[t]), S.Constant(t))
  {
    hide CubeRoot, S.Constant, WholeRoot;
    if t < 4 {
      CubeRoots0(t);
    } else if t < 8 {
      CubeRoots4(t);
    } else if t < 12 {
      CubeRoots8(t);
    } else if t < 16 {
      CubeRoots12(t);
    } else if t < 20 {
      CubeRoots16(t);
    } else if t < 24 {
      CubeRoots20(t);
    } else if t < 28 {
      CubeRoots24(t);
    } else if t < 32 {
      CubeRoots28(t);
    } else if t < 36 {
      CubeRoots32(t);
    } else if t < 40 {
      CubeRoots36(t);
    } else if t < 44 {
      CubeRoots40(t);
    } else if t < 48 {
      CubeRoots44(t);
    } else if t < 52 {
      CubeRoots48(t);
    } else if t < 56 {
      CubeRoots52(t);
    } else if t < 60 {
      CubeRoots56(t);
    } else if t < 64 {
      CubeRoots60(t);
    }
  }

  lemma CubeRoots0(t: nat)
    requires 0 <= t < 4
    ensures |PRIMES| == 64 && CubeRoot(PRIMES[t], WholeRoot(PRIMES[t]), S.Constant(t))
  {
    hide CubeRoot;
    assert PRIMES[0] == 2 && PRIMES[1] == 3 && PRIMES[2] == 5 && PRIMES[3] == 7;
    Constants0();
    IsCubeRoot(2, 1, 0x428a2f98, 5411319704);
    IsCubeRoot(3, 1, 0x71374491, 6194414737);
    IsCubeRoot(5, 1, 0xb5c0fbcf, 7344290767);
    IsCubeRoot(7, 1, 0xe9b5dba5, 8215976869);
  }

  lemma CubeRoots4(t: nat)
    requires 4 <= t < 8
    ensures |PRIMES| == 64 && CubeRoot(PRIMES[t], WholeRoot(PRIMES[t]), S.Constant(t))
  {
    hide CubeRoot;
    assert PRIMES[4] == 11 && PRIMES[5] == 13 && PRIMES[6] == 17 && PRIMES[7] == 19;
    Constants4();
    IsCubeRoot(11, 2, 0x3956c25b, 9551921755);
    IsCubeRoot(13, 2, 0x59f111f1, 10098905585);
    IsCubeRoot(17, 2, 0x923f82a4, 11043570340);
    IsCubeRoot(19, 2, 0xab1c5ed5, 11460697813);
  }

  lemma CubeRoots8(t: nat)
    requires 8 <= t < 12
    ensures |PRIMES| == 64 && CubeRoot(PRIMES[t], WholeRoot(PRIMES[t]), S.Constant(t))
  {
    hide CubeRoot;
    assert PRIMES[8] == 23 && PRIMES[9] == 29 && PRIMES[10] == 31 && PRIMES[11] == 37;
    Constants8();
    IsCubeRoot(23, 2, 0xd807aa98, 12214315672);
    IsCubeRoot(29, 3, 0x12835b01, 13195500289);
    IsCubeRoot(31, 3, 0x243185be, 13492127166);
    IsCubeRoot(37, 3, 0x550c7dc3, 14311783875);
  }

  lemma CubeRoots12(t: nat)
    requires 12 <= t < 16
    ensures |PRIMES| == 64 && CubeRoot(PRIMES[t], WholeRoot(PRIMES[t]), S.Constant(t))
  {
    hide CubeRoot;
    assert PRIMES[12] == 41 && PRIMES[13] == 43 && PRIMES[14] == 47 && PRIMES[15] == 53;
    Constants12();
    IsCubeRoot(41, 3, 0x72be5d74, 14809980276);
    IsCubeRoot(43, 3, 0x80deb1fe, 15046980094);
    IsCubeRoot(47, 3, 0x9bdc06a7, 15499789991);
    IsCubeRoot(53, 3, 0xc19bf174, 16133124468);
  }

  lemma CubeRoots16(t: nat)
    requires 16 <= t < 20
    ensures |PRIMES| == 64 && CubeRoot(PRIMES[t], WholeRoot(PRIMES[t]), S.Constant(t))
  {
    hide CubeRoot;
    assert PRIMES[16] == 59 && PRIMES[17] == 61 && PRIMES[18] == 67 && PRIMES[19] == 71;
    Constants16();
    IsCubeRoot(59, 3, 0xe49b69c1, 16720292289);
    IsCubeRoot(61, 3, 0xefbe4786, 16907126662);
    IsCubeRoot(67, 4, 0x0fc19dc6, 17444216262);
    IsCubeRoot(71, 4, 0x240ca1cc, 17784676812);
  }

  lemma CubeRoots20(t: nat)
    requires 20 <= t < 24
    ensures |PRIMES| == 64 && CubeRoot(PRIMES[t], WholeRoot(PRIMES[t]), S.Constant(t))
  {
    hide CubeRoot;
    assert PRIMES[20] == 73 && PRIMES[21] == 79 && PRIMES[22] == 83 && PRIMES[23] == 89;
    Constants20();
    IsCubeRoot(73, 4, 0x2de92c6f, 17950125167);
    IsCubeRoot(79, 4, 0x4a7484aa, 18429019306);
    IsCubeRoot(83, 4, 0x5cb0a9dc, 18734950876);
    IsCubeRoot(89, 4, 0x76f988da, 19175934170);
  }

  lemma CubeRoots24(t: nat)
    requires 24 <= t < 28
    ensures |PRIMES| == 64 && CubeRoot(PRIMES[t], WholeRoot(PRIMES[t]), S.Constant(t))
  {
    hide CubeRoot;
    assert PRIMES[24] == 97 && PRIMES[25] == 101 && PRIMES[26] == 103 && PRIMES[27] == 107;
    Constants24();
    IsCubeRoot(97, 4, 0x983e5152, 19734090066);
    IsCubeRoot(101, 4, 0xa831c66d, 20001703533);
    IsCubeRoot(103, 4, 0xb00327c8, 20132865992);
    IsCubeRoot(107, 4, 0xbf597fc7, 20390182855);
  }

  lemma CubeRoots28(t: nat)
    requires 28 <= t < 32
    ensures |PRIMES| == 64 && CubeRoot(PRIMES[t], WholeRoot(PRIMES[t]), S.Constant(t))
  {
    hide CubeRoot;
    assert PRIMES[28] == 109 && PRIMES[29] == 113 && PRIMES[30] == 127 && PRIMES[31] == 131;
    Constants28();
    IsCubeRoot(109, 4, 0xc6e00bf3, 20516441075);
    IsCubeRoot(113, 4, 0xd5a79147, 20764397895);
    IsCubeRoot(127, 5, 0x06ca6351, 21588763473);
    IsCubeRoot(131, 5, 0x14292967, 21813078375);
  }

  lemma CubeRoots32(t: nat)
    requires 32 <= t < 36
    ensures |PRIMES| == 64 && CubeRoot(PRIMES[t], WholeRoot(PRIMES[t]), S.Constant(t))
  {
    hide CubeRoot;
    assert PRIMES[32] == 137 && PRIMES[33] == 139 && PRIMES[34] == 149 && PRIMES[35] == 151;
    Constants32();
    IsCubeRoot(137, 5, 0x27b70a85, 22141143685);
    IsCubeRoot(139, 5, 0x2e1b2138, 22248366392);
    IsCubeRoot(149, 5, 0x4d2c6dfc, 22769593852);
    IsCubeRoot(151, 5, 0x53380d13, 22871018771);
  }

  lemma CubeRoots36(t: nat)
    requires 36 <= t < 40
    ensures |PRIMES| == 64 && CubeRoot(PRIMES[t], WholeRoot(PRIMES[t]), S.Constant(t))
  {
    hide CubeRoot;
    assert PRIMES[36] == 157 && PRIMES[37] == 163 && PRIMES[38] == 167 && PRIMES[39] == 173;
    Constants36();
    IsCubeRoot(157, 5, 0x650a7354, 23170020180);
    IsCubeRoot(163, 5, 0x766a0abb, 23461497531);
    IsCubeRoot(167, 5, 0x81c2c92e, 23651862830);
    IsCubeRoot(173, 5, 0x92722c85, 23931792517);
  }

  lemma CubeRoots40(t: nat)
    requires 40 <= t < 44
    ensures |PRIMES| == 64 && CubeRoot(PRIMES[t], WholeRoot(PRIMES[t]), S.Constant(t))
  {
    hide CubeRoot;
    assert PRIMES[40] == 179 && PRIMES[41] == 181 && PRIMES[42] == 191 && PRIMES[43] == 193;
    Constants40();
    IsCubeRoot(179, 5, 0xa2bfe8a1, 24205322401);
    IsCubeRoot(181, 5, 0xa81a664b, 24295138891);
    IsCubeRoot(191, 5, 0xc24b8b70, 24734567280);
    IsCubeRoot(193, 5, 0xc76c51a3, 24820601251);
  }

  lemma CubeRoots44(t: nat)
    requires 44 <= t < 48
    ensures |PRIMES| == 64 && CubeRoot(PRIMES[t], WholeRoot(PRIMES[t]), S.Constant(t))
  {
    hide CubeRoot;
    assert PRIMES[44] == 197 && PRIMES[45] == 199 && PRIMES[46] == 211 && PRIMES[47] == 223;
    Constants44();
    IsCubeRoot(197, 5, 0xd192e819, 24990902297);
    IsCubeRoot(199, 5, 0xd6990624, 25075189284);
    IsCubeRoot(211, 5, 0xf40e3585, 25569408389);
    IsCubeRoot(223, 6, 0x106aa070, 26045227120);
  }

  lemma CubeRoots48(t: nat)
    requires 48 <= t < 52
    ensures |PRIMES| == 64 && CubeRoot(PRIMES[t], WholeRoot(PRIMES[t]), S.Constant(t))
  {
    hide CubeRoot;
    assert PRIMES[48] == 227 && PRIMES[49] == 229 && PRIMES[50] == 233 && PRIMES[51] == 239;
    Constants48();
    IsCubeRoot(227, 6, 0x19a4c116, 26200031510);
    IsCubeRoot(229, 6, 0x1e376c08, 26276752392);
    IsCubeRoot(233, 6, 0x2748774c, 26428864332);
    IsCubeRoot(239, 6, 0x34b0bcb5, 26653801653);
  }

  lemma CubeRoots52(t: nat)
    requires 52 <= t < 56
    ensures |PRIMES| == 64 && CubeRoot(PRIMES[t], WholeRoot(PRIMES[t]), S.Constant(t))
  {
    hide CubeRoot;
    assert PRIMES[52] == 241 && PRIMES[53] == 251 && PRIMES[54] == 257 && PRIMES[55] == 263;
    Constants52();
    IsCubeRoot(241, 6, 0x391c0cb3, 26727943347);
    IsCubeRoot(251, 6, 0x4ed8aa4a, 27092625994);
    IsCubeRoot(257, 6, 0x5b9cca4f, 27306805839);
    IsCubeRoot(263, 6, 0x682e6ff3, 27517677555);
  }

  lemma CubeRoots56(t: nat)
    requires 56 <= t < 60
    ensures |PRIMES| == 64 && CubeRoot(PRIMES[t], WholeRoot(PRIMES[t]), S.Constant(t))
  {
    hide CubeRoot;
    assert PRIMES[56] == 269 && PRIMES[57] == 271 && PRIMES[58] == 277 && PRIMES[59] == 281;
    Constants56();
    IsCubeRoot(269, 6, 0x748f82ee, 27725365998);
    IsCubeRoot(271, 6, 0x78a5636f, 27793908591);
    IsCubeRoot(277, 6, 0x84c87814, 27997534228);
    IsCubeRoot(281, 6, 0x8cc70208, 28131656200);
  }

  lemma CubeRoots60(t: nat)
    requires 60 <= t < 64
    ensures |PRIMES| == 64 && CubeRoot(PRIMES[t], WholeRoot(PRIMES[t]), S.Constant(t))
  {
    hide CubeRoot;
    assert PRIMES[60] == 283 && PRIMES[61] == 293 && PRIMES[62] == 307 && PRIMES[63] == 311;
    Constants60();
    IsCubeRoot(283, 6, 0x90befffa, 28198240250);
    IsCubeRoot(293, 6, 0xa4506ceb, 28526537963);
    IsCubeRoot(307, 6, 0xbef9a3f7, 28973835255);
    IsCubeRoot(311, 6, 0xc67178f2, 29099129074);
  }

  /** Section 5.3.3: the square roots of the first eight. */
  lemma SquareRoots()
    ensures SquareRoot(2, 1, S.H_INIT.a) && SquareRoot(3, 1, S.H_INIT.b) && SquareRoot(5, 2, S.H_INIT.c) && SquareRoot(7, 2, S.H_INIT.d)
    ensures SquareRoot(11, 3, S.H_INIT.e) && SquareRoot(13, 3, S.H_INIT.f) && SquareRoot(17, 4, S.H_INIT.g) && SquareRoot(19, 4, S.H_INIT.h)
  {
  }

  // ----- SHA-256: an example -----

  /** The message "abc", padded to one block. */
  const ABC: seq<byte> :=
    [0x61, 0x62, 0x63, 0x80, 0x00, 0x00, 0x00, 0x00] +
    [0x00, 0x00, 0x00, 0x00, 0x00, 0x00, 0x00, 0x00] +
    [0x00, 0x00, 0x00, 0x00, 0x00, 0x00, 0x00, 0x00] +
    [0x00, 0x00, 0x00, 0x00, 0x00, 0x00, 0x00, 0x00] +
    [0x00, 0x00, 0x00, 0x00, 0x00, 0x00, 0x00, 0x00] +
    [0x00, 0x00, 0x00, 0x00, 0x00, 0x00, 0x00, 0x00] +
    [0x00, 0x00, 0x00, 0x00, 0x00, 0x00, 0x00, 0x00] +
    [0x00, 0x00, 0x00, 0x00, 0x00, 0x00, 0x00, 0x18]

  lemma AbcPadded()
    ensures Digest.Padded([97, 98, 99]) == ABC && |ABC| == 64
  {
    AbcLength();
    assert Digest.ZeroCount(3) == 52;
    assert Digest.Padded([97, 98, 99]) == [97, 98, 99] + [0x80] + Digest.Zeros(52) + [0, 0, 0, 0, 0, 0, 0, 24];
  }

  lemma AbcLength()
    ensures Digest.LengthField(3) == [0, 0, 0, 0, 0, 0, 0, 24]
  {
  }

  ghost predicate WordIs(block: seq<byte>, t: nat, w: bv32)
    requires |block| == 64
  {
    S.Schedule(block, t) == w
  }

  /** Sixteen words of a schedule, from `t` on. */
  ghost predicate WordsAre(block: seq<byte>, t: nat, w: seq<bv32>)
    requires |block| == 64 && |w| == 16
  {
    && WordIs(block, t, w[0]) && WordIs(block, t + 1, w[1]) && WordIs(block, t + 2, w[2]) && WordIs(block, t + 3, w[3])
    && WordIs(block, t + 4, w[4]) && WordIs(block, t + 5, w[5]) && WordIs(block, t + 6, w[6]) && WordIs(block, t + 7, w[7])
    && WordIs(block, t + 8, w[8]) && WordIs(block, t + 9, w[9]) && WordIs(block, t + 10, w[10]) && WordIs(block, t + 11, w[11])
    && WordIs(block, t + 12, w[12]) && WordIs(block, t + 13, w[13]) && WordIs(block, t + 14, w[14]) && WordIs(block, t + 15, w[15])
  }

  lemma FirstWord(block: seq<byte>, t: nat, a: byte, b: byte, c: byte, d: byte, w: bv32)
    requires |block| == 64 && t < 16
    requires block[4 * t] == a && block[4 * t + 1] == b && block[4 * t + 2] == c && block[4 * t + 3] == d
    requires w == S.FromBytes(a, b, c, d)
    ensures WordIs(block, t, w)
  {
    S.ScheduleHead(block, t);
  }

  lemma NextWord(block: seq<byte>, t: nat, w16: bv32, w15: bv32, w7: bv32, w2: bv32, w: bv32)
    requires |block| == 64 && t >= 16
    requires WordIs(block, t - 16, w16) && WordIs(block, t - 15, w15) && WordIs(block, t - 7, w7) && WordIs(block, t - 2, w2)
    requires w == S.Plus(S.Plus(S.Plus(S.LittleSigma1(w2), w7), S.LittleSigma0(w15)), w16)
    ensures WordIs(block, t, w)
  {
    S.ScheduleTail(block, t);
  }

  const WORDS0: seq<bv32> :=
    [0x61626380, 0x00000000, 0x00000000, 0x00000000, 0x00000000, 0x00000000, 0x00000000, 0x00000000] +
    [0x00000000, 0x00000000, 0x00000000, 0x00000000, 0x00000000, 0x00000000, 0x00000000, 0x00000018]

  const WORDS16: seq<bv32> :=
    [0x61626380, 0x000f0000, 0x7da86405, 0x600003c6, 0x3e9d7b78, 0x0183fc00, 0x12dcbfdb, 0xe2e2c38e] +
    [0xc8215c1a, 0xb73679a2, 0xe5bc3909, 0x32663c5b, 0x9d209d67, 0xec8726cb, 0x702138a4, 0xd3b7973b]

  const WORDS32: seq<bv32> :=
    [0x93f5997f, 0x3b68ba73, 0xaff4ffc1, 0xf10a5c62, 0x0a8b3996, 0x72af830a, 0x9409e33e, 0x24641522] +
    [0x9f47bf94, 0xf0a64f5a, 0x3e246a79, 0x27333ba3, 0x0c4763f2, 0x840abf27, 0x7a290d5d, 0x065c43da]

  const WORDS48: seq<bv32> :=
    [0xfb3e89cb, 0xcc7617db, 0xb9e66c34, 0xa9993667, 0x84badedd, 0xc21462bc, 0x1487472c, 0xb20f7a99] +
    [0xef57b9cd, 0xebe6b238, 0x9fe3095e, 0x78bc8d4b, 0xa43fcf15, 0x668b2ff8, 0xeeaba2cc, 0x12b1edeb]

  lemma AbcBytes()
    ensures S.FromBytes(0x61, 0x62, 0x63, 0x80) == 0x61626380 && S.FromBytes(0, 0, 0, 0) == 0 && S.FromBytes(0, 0, 0, 0x18) == 0x18
  {
  }

  lemma FirstWords0(block: seq<byte>)
    requires block == ABC && |block| == 64
    ensures WordIs(block, 0, 0x61626380) && WordIs(block, 1, 0x00000000) && WordIs(block, 2, 0x00000000) && WordIs(block, 3, 0x00000000)
  {
    hide WordIs, S.FromBytes;
    AbcBytes();
    FirstWord(block, 0, 0x61, 0x62, 0x63, 0x80, 0x61626380);
    FirstWord(block, 1, 0x00, 0x00, 0x00, 0x00, 0x00000000);
    FirstWord(block, 2, 0x00, 0x00, 0x00, 0x00, 0x00000000);
    FirstWord(block, 3, 0x00, 0x00, 0x00, 0x00, 0x00000000);
  }

  lemma FirstWords4(block: seq<byte>)
    requires block == ABC && |block| == 64
    ensures WordIs(block, 4, 0x00000000) && WordIs(block, 5, 0x00000000) && WordIs(block, 6, 0x00000000) && WordIs(block, 7, 0x00000000)
  {
    hide WordIs, S.FromBytes;
    AbcBytes();
    FirstWord(block, 4, 0x00, 0x00, 0x00, 0x00, 0x00000000);
    FirstWord(block, 5, 0x00, 0x00, 0x00, 0x00, 0x00000000);
    FirstWord(block, 6, 0x00, 0x00, 0x00, 0x00, 0x00000000);
    FirstWord(block, 7, 0x00, 0x00, 0x00, 0x00, 0x00000000);
  }

  lemma FirstWords8(block: seq<byte>)
    requires block == ABC && |block| == 64
    ensures WordIs(block, 8, 0x00000000) && WordIs(block, 9, 0x00000000) && WordIs(block, 10, 0x00000000) && WordIs(block, 11, 0x00000000)
    ensures WordIs(block, 12, 0x00000000) && WordIs(block, 13, 0x00000000) && WordIs(block, 14, 0x00000000) && WordIs(block, 15, 0x00000018)
  {
    hide WordIs, S.FromBytes;
    AbcBytes();
    FirstWord(block, 8, 0x00, 0x00, 0x00, 0x00, 0x00000000);
    FirstWord(block, 9, 0x00, 0x00, 0x00, 0x00, 0x00000000);
    FirstWord(block, 10, 0x00, 0x00, 0x00, 0x00, 0x00000000);
    FirstWord(block, 11, 0x00, 0x00, 0x00, 0x00, 0x00000000);
    FirstWord(block, 12, 0x00, 0x00, 0x00, 0x00, 0x00000000);
    FirstWord(block, 13, 0x00, 0x00, 0x00, 0x00, 0x00000000);
    FirstWord(block, 14, 0x00, 0x00, 0x00, 0x00, 0x00000000);
    FirstWord(block, 15, 0x00, 0x00, 0x00, 0x18, 0x00000018);
  }

  lemma Words0(block: seq<byte>)
    requires block == ABC && |block| == 64
    ensures WordsAre(block, 0, WORDS0)
  {
    hide WordIs;
    FirstWords0(block);
    FirstWords4(block);
    FirstWords8(block);
  }

  lemma Words16(block: seq<byte>)
    requires |block| == 64 && WordsAre(block, 0, WORDS0)
    ensures WordsAre(block, 16, WORDS16)
  {
    hide WordIs;
    NextWord(block, 16, 0x61626380, 0x00000000, 0x00000000, 0x00000000, 0x61626380);
    NextWord(block, 17, 0x00000000, 0x00000000, 0x00000000, 0x00000018, 0x000f0000);
    NextWord(block, 18, 0x00000000, 0x00000000, 0x00000000, 0x61626380, 0x7da86405);
    NextWord(block, 19, 0x00000000, 0x00000000, 0x00000000, 0x000f0000, 0x600003c6);
    NextWord(block, 20, 0x00000000, 0x00000000, 0x00000000, 0x7da86405, 0x3e9d7b78);
    NextWord(block, 21, 0x00000000, 0x00000000, 0x00000000, 0x600003c6, 0x0183fc00);
    NextWord(block, 22, 0x00000000, 0x00000000, 0x00000018, 0x3e9d7b78, 0x12dcbfdb);
    NextWord(block, 23, 0x00000000, 0x00000000, 0x61626380, 0x0183fc00, 0xe2e2c38e);
    NextWord(block, 24, 0x00000000, 0x00000000, 0x000f0000, 0x12dcbfdb, 0xc8215c1a);
    NextWord(block, 25, 0x00000000, 0x00000000, 0x7da86405, 0xe2e2c38e, 0xb73679a2);
    NextWord(block, 26, 0x00000000, 0x00000000, 0x600003c6, 0xc8215c1a, 0xe5bc3909);
    NextWord(block, 27, 0x00000000, 0x00000000, 0x3e9d7b78, 0xb73679a2, 0x32663c5b);
    NextWord(block, 28, 0x00000000, 0x00000000, 0x0183fc00, 0xe5bc3909, 0x9d209d67);
    NextWord(block, 29, 0x00000000, 0x00000000, 0x12dcbfdb, 0x32663c5b, 0xec8726cb);
    NextWord(block, 30, 0x00000000, 0x00000018, 0xe2e2c38e, 0x9d209d67, 0x702138a4);
    NextWord(block, 31, 0x00000018, 0x61626380, 0xc8215c1a, 0xec8726cb, 0xd3b7973b);
  }

  lemma Words32(block: seq<byte>)
    requires |block| == 64 && WordsAre(block, 16, WORDS16)
    ensures WordsAre(block, 32, WORDS32)
  {
    hide WordIs;
    NextWord(block, 32, 0x61626380, 0x000f0000, 0xb73679a2, 0x702138a4, 0x93f5997f);
    NextWord(block, 33, 0x000f0000, 0x7da86405, 0xe5bc3909, 0xd3b7973b, 0x3b68ba73);
    NextWord(block, 34, 0x7da86405, 0x600003c6, 0x32663c5b, 0x93f5997f, 0xaff4ffc1);
    NextWord(block, 35, 0x600003c6, 0x3e9d7b78, 0x9d209d67, 0x3b68ba73, 0xf10a5c62);
    NextWord(block, 36, 0x3e9d7b78, 0x0183fc00, 0xec8726cb, 0xaff4ffc1, 0x0a8b3996);
    NextWord(block, 37, 0x0183fc00, 0x12dcbfdb, 0x702138a4, 0xf10a5c62, 0x72af830a);
    NextWord(block, 38, 0x12dcbfdb, 0xe2e2c38e, 0xd3b7973b, 0x0a8b3996, 0x9409e33e);
    NextWord(block, 39, 0xe2e2c38e, 0xc8215c1a, 0x93f5997f, 0x72af830a, 0x24641522);
    NextWord(block, 40, 0xc8215c1a, 0xb73679a2, 0x3b68ba73, 0x9409e33e, 0x9f47bf94);
    NextWord(block, 41, 0xb73679a2, 0xe5bc3909, 0xaff4ffc1, 0x24641522, 0xf0a64f5a);
    NextWord(block, 42, 0xe5bc3909, 0x32663c5b, 0xf10a5c62, 0x9f47bf94, 0x3e246a79);
    NextWord(block, 43, 0x32663c5b, 0x9d209d67, 0x0a8b3996, 0xf0a64f5a, 0x27333ba3);
    NextWord(block, 44, 0x9d209d67, 0xec8726cb, 0x72af830a, 0x3e246a79, 0x0c4763f2);
    NextWord(block, 45, 0xec8726cb, 0x702138a4, 0x9409e33e, 0x27333ba3, 0x840abf27);
    NextWord(block, 46, 0x702138a4, 0xd3b7973b, 0x24641522, 0x0c4763f2, 0x7a290d5d);
    NextWord(block, 47, 0xd3b7973b, 0x93f5997f, 0x9f47bf94, 0x840abf27, 0x065c43da);
  }

  lemma Words48(block: seq<byte>)
    requires |block| == 64 && WordsAre(block, 32, WORDS32)
    ensures WordsAre(block, 48, WORDS48)
  {
    hide WordIs;
    NextWord(block, 48, 0x93f5997f, 0x3b68ba73, 0xf0a64f5a, 0x7a290d5d, 0xfb3e89cb);
    NextWord(block, 49, 0x3b68ba73, 0xaff4ffc1, 0x3e246a79, 0x065c43da, 0xcc7617db);
    NextWord(block, 50, 0xaff4ffc1, 0xf10a5c62, 0x27333ba3, 0xfb3e89cb, 0xb9e66c34);
    NextWord(block, 51, 0xf10a5c62, 0x0a8b3996, 0x0c4763f2, 0xcc7617db, 0xa9993667);
    NextWord(block, 52, 0x0a8b3996, 0x72af830a, 0x840abf27, 0xb9e66c34, 0x84badedd);
    NextWord(block, 53, 0x72af830a, 0x9409e33e, 0x7a290d5d, 0xa9993667, 0xc21462bc);
    NextWord(block, 54, 0x9409e33e, 0x24641522, 0x065c43da, 0x84badedd, 0x1487472c);
    NextWord(block, 55, 0x24641522, 0x9f47bf94, 0xfb3e89cb, 0xc21462bc, 0xb20f7a99);
    NextWord(block, 56, 0x9f47bf94, 0xf0a64f5a, 0xcc7617db, 0x1487472c, 0xef57b9cd);
    NextWord(block, 57, 0xf0a64f5a, 0x3e246a79, 0xb9e66c34, 0xb20f7a99, 0xebe6b238);
    NextWord(block, 58, 0x3e246a79, 0x27333ba3, 0xa9993667, 0xef57b9cd, 0x9fe3095e);
    NextWord(block, 59, 0x27333ba3, 0x0c4763f2, 0x84badedd, 0xebe6b238, 0x78bc8d4b);
    NextWord(block, 60, 0x0c4763f2, 0x840abf27, 0xc21462bc, 0x9fe3095e, 0xa43fcf15);
    NextWord(block, 61, 0x840abf27, 0x7a290d5d, 0x1487472c, 0x78bc8d4b, 0x668b2ff8);
    NextWord(block, 62, 0x7a290d5d, 0x065c43da, 0xb20f7a99, 0xa43fcf15, 0xeeaba2cc);
    NextWord(block, 63, 0x065c43da, 0xfb3e89cb, 0xef57b9cd, 0x668b2ff8, 0x12b1edeb);
  }

  ghost predicate StateIs(block: seq<byte>, t: nat, v: S.Hash)
    requires |block| == 64 && t <= 64
  {
    S.Rounds(S.H_INIT, block, t) == v
  }

  lemma NextState(block: seq<byte>, t: nat, v: S.Hash, k: bv32, w: bv32, v': S.Hash)
    requires |block| == 64 && t < 64 && StateIs(block, t, v) && WordIs(block, t, w)
    requires S.Constant(t) == k && v' == S.Round(v, k, w)
    ensures StateIs(block, t + 1, v')
  {
    hide S.Round, S.Constant;
  }

  lemma Constants0()
    ensures S.Constant(0) == 0x428a2f98 && S.Constant(1) == 0x71374491 && S.Constant(2) == 0xb5c0fbcf && S.Constant(3) == 0xe9b5dba5
  {
  }

  lemma Values0()
    ensures S.Round(S.Hash(0x6a09e667, 0xbb67ae85, 0x3c6ef372, 0xa54ff53a, 0x510e527f, 0x9b05688c, 0x1f83d9ab, 0x5be0cd19), 0x428a2f98, 0x61626380) ==
            S.Hash(0x5d6aebcd, 0x6a09e667, 0xbb67ae85, 0x3c6ef372, 0xfa2a4622, 0x510e527f, 0x9b05688c, 0x1f83d9ab)
    ensures S.Round(S.Hash(0x5d6aebcd, 0x6a09e667, 0xbb67ae85, 0x3c6ef372, 0xfa2a4622, 0x510e527f, 0x9b05688c, 0x1f83d9ab), 0x71374491, 0x00000000) ==
            S.Hash(0x5a6ad9ad, 0x5d6aebcd, 0x6a09e667, 0xbb67ae85, 0x78ce7989, 0xfa2a4622, 0x510e527f, 0x9b05688c)
    ensures S.Round(S.Hash(0x5a6ad9ad, 0x5d6aebcd, 0x6a09e667, 0xbb67ae85, 0x78ce7989, 0xfa2a4622, 0x510e527f, 0x9b05688c), 0xb5c0fbcf, 0x00000000) ==
            S.Hash(0xc8c347a7, 0x5a6ad9ad, 0x5d6aebcd, 0x6a09e667, 0xf92939eb, 0x78ce7989, 0xfa2a4622, 0x510e527f)
    ensures S.Round(S.Hash(0xc8c347a7, 0x5a6ad9ad, 0x5d6aebcd, 0x6a09e667, 0xf92939eb, 0x78ce7989, 0xfa2a4622, 0x510e527f), 0xe9b5dba5, 0x00000000) ==
            S.Hash(0xd550f666, 0xc8c347a7, 0x5a6ad9ad, 0x5d6aebcd, 0x24e00850, 0xf92939eb, 0x78ce7989, 0xfa2a4622)
  {
  }

  lemma States0(block: seq<byte>)
    requires |block| == 64 && WordsAre(block, 0, WORDS0)
    requires StateIs(block, 0, S.Hash(0x6a09e667, 0xbb67ae85, 0x3c6ef372, 0xa54ff53a, 0x510e527f, 0x9b05688c, 0x1f83d9ab, 0x5be0cd19))
    ensures StateIs(block, 4, S.Hash(0xd550f666, 0xc8c347a7, 0x5a6ad9ad, 0x5d6aebcd, 0x24e00850, 0xf92939eb, 0x78ce7989, 0xfa2a4622))
  {
    hide WordIs, StateIs, S.Constant, S.Round;
    Constants0();
    Values0();
    var v := S.Hash(0x6a09e667, 0xbb67ae85, 0x3c6ef372, 0xa54ff53a, 0x510e527f, 0x9b05688c, 0x1f83d9ab, 0x5be0cd19);
    var v0 := S.Hash(0x5d6aebcd, 0x6a09e667, 0xbb67ae85, 0x3c6ef372, 0xfa2a4622, 0x510e527f, 0x9b05688c, 0x1f83d9ab);
    NextState(block, 0, v, 0x428a2f98, 0x61626380, v0);
    var v1 := S.Hash(0x5a6ad9ad, 0x5d6aebcd, 0x6a09e667, 0xbb67ae85, 0x78ce7989, 0xfa2a4622, 0x510e527f, 0x9b05688c);
    NextState(block, 1, v0, 0x71374491, 0x00000000, v1);
    var v2 := S.Hash(0xc8c347a7, 0x5a6ad9ad, 0x5d6aebcd, 0x6a09e667, 0xf92939eb, 0x78ce7989, 0xfa2a4622, 0x510e527f);
    NextState(block, 2, v1, 0xb5c0fbcf, 0x00000000, v2);
    var v3 := S.Hash(0xd550f666, 0xc8c347a7, 0x5a6ad9ad, 0x5d6aebcd, 0x24e00850, 0xf92939eb, 0x78ce7989, 0xfa2a4622);
    NextState(block, 3, v2, 0xe9b5dba5, 0x00000000, v3);
  }

  lemma Constants4()
    ensures S.Constant(4) == 0x3956c25b && S.Constant(5) == 0x59f111f1 && S.Constant(6) == 0x923f82a4 && S.Constant(7) == 0xab1c5ed5
  {
  }

  lemma Values4()
    ensures S.Round(S.Hash(0xd550f666, 0xc8c347a7, 0x5a6ad9ad, 0x5d6aebcd, 0x24e00850, 0xf92939eb, 0x78ce7989, 0xfa2a4622), 0x3956c25b, 0x00000000) ==
            S.Hash(0x04409a6a, 0xd550f666, 0xc8c347a7, 0x5a6ad9ad, 0x43ada245, 0x24e00850, 0xf92939eb, 0x78ce7989)
    ensures S.Round(S.Hash(0x04409a6a, 0xd550f666, 0xc8c347a7, 0x5a6ad9ad, 0x43ada245, 0x24e00850, 0xf92939eb, 0x78ce7989), 0x59f111f1, 0x00000000) ==
            S.Hash(0x2b4209f5, 0x04409a6a, 0xd550f666, 0xc8c347a7, 0x714260ad, 0x43ada245, 0x24e00850, 0xf92939eb)
    ensures S.Round(S.Hash(0x2b4209f5, 0x04409a6a, 0xd550f666, 0xc8c347a7, 0x714260ad, 0x43ada245, 0x24e00850, 0xf92939eb), 0x923f82a4, 0x00000000) ==
            S.Hash(0xe5030380, 0x2b4209f5, 0x04409a6a, 0xd550f666, 0x9b27a401, 0x714260ad, 0x43ada245, 0x24e00850)
    ensures S.Round(S.Hash(0xe5030380, 0x2b4209f5, 0x04409a6a, 0xd550f666, 0x9b27a401, 0x714260ad, 0x43ada245, 0x24e00850), 0xab1c5ed5, 0x00000000) ==
            S.Hash(0x85a07b5f, 0xe5030380, 0x2b4209f5, 0x04409a6a, 0x0c657a79, 0x9b27a401, 0x714260ad, 0x43ada245)
  {
  }

  lemma States4(block: seq<byte>)
    requires |block| == 64 && WordsAre(block, 0, WORDS0)
    requires StateIs(block, 4, S.Hash(0xd550f666, 0xc8c347a7, 0x5a6ad9ad, 0x5d6aebcd, 0x24e00850, 0xf92939eb, 0x78ce7989, 0xfa2a4622))
    ensures StateIs(block, 8, S.Hash(0x85a07b5f, 0xe5030380, 0x2b4209f5, 0x04409a6a, 0x0c657a79, 0x9b27a401, 0x714260ad, 0x43ada245))
  {
    hide WordIs, StateIs, S.Constant, S.Round;
    Constants4();
    Values4();
    var v := S.Hash(0xd550f666, 0xc8c347a7, 0x5a6ad9ad, 0x5d6aebcd, 0x24e00850, 0xf92939eb, 0x78ce7989, 0xfa2a4622);
    var v0 := S.Hash(0x04409a6a, 0xd550f666, 0xc8c347a7, 0x5a6ad9ad, 0x43ada245, 0x24e00850, 0xf92939eb, 0x78ce7989);
    NextState(block, 4, v, 0x3956c25b, 0x00000000, v0);
    var v1 := S.Hash(0x2b4209f5, 0x04409a6a, 0xd550f666, 0xc8c347a7, 0x714260ad, 0x43ada245, 0x24e00850, 0xf92939eb);
    NextState(block, 5, v0, 0x59f111f1, 0x00000000, v1);
    var v2 := S.Hash(0xe5030380, 0x2b4209f5, 0x04409a6a, 0xd550f666, 0x9b27a401, 0x714260ad, 0x43ada245, 0x24e00850);
    NextState(block, 6, v1, 0x923f82a4, 0x00000000, v2);
    var v3 := S.Hash(0x85a07b5f, 0xe5030380, 0x2b4209f5, 0x04409a6a, 0x0c657a79, 0x9b27a401, 0x714260ad, 0x43ada245);
    NextState(block, 7, v2, 0xab1c5ed5, 0x00000000, v3);
  }

  lemma Constants8()
    ensures S.Constant(8) == 0xd807aa98 && S.Constant(9) == 0x12835b01 && S.Constant(10) == 0x243185be && S.Constant(11) == 0x550c7dc3
  {
  }

  lemma Values8()
    ensures S.Round(S.Hash(0x85a07b5f, 0xe5030380, 0x2b4209f5, 0x04409a6a, 0x0c657a79, 0x9b27a401, 0x714260ad, 0x43ada245), 0xd807aa98, 0x00000000) ==
            S.Hash(0x8e04ecb9, 0x85a07b5f, 0xe5030380, 0x2b4209f5, 0x32ca2d8c, 0x0c657a79, 0x9b27a401, 0x714260ad)
    ensures S.Round(S.Hash(0x8e04ecb9, 0x85a07b5f, 0xe5030380, 0x2b4209f5, 0x32ca2d8c, 0x0c657a79, 0x9b27a401, 0x714260ad), 0x12835b01, 0x00000000) ==
            S.Hash(0x8c87346b, 0x8e04ecb9, 0x85a07b5f, 0xe5030380, 0x1cc92596, 0x32ca2d8c, 0x0c657a79, 0x9b27a401)
    ensures S.Round(S.Hash(0x8c87346b, 0x8e04ecb9, 0x85a07b5f, 0xe5030380, 0x1cc92596, 0x32ca2d8c, 0x0c657a79, 0x9b27a401), 0x243185be, 0x00000000) ==
            S.Hash(0x4798a3f4, 0x8c87346b, 0x8e04ecb9, 0x85a07b5f, 0x436b23e8, 0x1cc92596, 0x32ca2d8c, 0x0c657a79)
    ensures S.Round(S.Hash(0x4798a3f4, 0x8c87346b, 0x8e04ecb9, 0x85a07b5f, 0x436b23e8, 0x1cc92596, 0x32ca2d8c, 0x0c657a79), 0x550c7dc3, 0x00000000) ==
            S.Hash(0xf71fc5a9, 0x4798a3f4, 0x8c87346b, 0x8e04ecb9, 0x816fd6e9, 0x436b23e8, 0x1cc92596, 0x32ca2d8c)
  {
  }

  lemma States8(block: seq<byte>)
    requires |block| == 64 && WordsAre(block, 0, WORDS0)
    requires StateIs(block, 8, S.Hash(0x85a07b5f, 0xe5030380, 0x2b4209f5, 0x04409a6a, 0x0c657a79, 0x9b27a401, 0x714260ad, 0x43ada245))
    ensures StateIs(block, 12, S.Hash(0xf71fc5a9, 0x4798a3f4, 0x8c87346b, 0x8e04ecb9, 0x816fd6e9, 0x436b23e8, 0x1cc92596, 0x32ca2d8c))
  {
    hide WordIs, StateIs, S.Constant, S.Round;
    Constants8();
    Values8();
    var v := S.Hash(0x85a07b5f, 0xe5030380, 0x2b4209f5, 0x04409a6a, 0x0c657a79, 0x9b27a401, 0x714260ad, 0x43ada245);
    var v0 := S.Hash(0x8e04ecb9, 0x85a07b5f, 0xe5030380, 0x2b4209f5, 0x32ca2d8c, 0x0c657a79, 0x9b27a401, 0x714260ad);
    NextState(block, 8, v, 0xd807aa98, 0x00000000, v0);
    var v1 := S.Hash(0x8c87346b, 0x8e04ecb9, 0x85a07b5f, 0xe5030380, 0x1cc92596, 0x32ca2d8c, 0x0c657a79, 0x9b27a401);
    NextState(block, 9, v0, 0x12835b01, 0x00000000, v1);
    var v2 := S.Hash(0x4798a3f4, 0x8c87346b, 0x8e04ecb9, 0x85a07b5f, 0x436b23e8, 0x1cc92596, 0x32ca2d8c, 0x0c657a79);
    NextState(block, 10, v1, 0x243185be, 0x00000000, v2);
    var v3 := S.Hash(0xf71fc5a9, 0x4798a3f4, 0x8c87346b, 0x8e04ecb9, 0x816fd6e9, 0x436b23e8, 0x1cc92596, 0x32ca2d8c);
    NextState(block, 11, v2, 0x550c7dc3, 0x00000000, v3);
  }

  lemma Constants12()
    ensures S.Constant(12) == 0x72be5d74 && S.Constant(13) == 0x80deb1fe && S.Constant(14) == 0x9bdc06a7 && S.Constant(15) == 0xc19bf174
  {
  }

  lemma Values12()
    ensures S.Round(S.Hash(0xf71fc5a9, 0x4798a3f4, 0x8c87346b, 0x8e04ecb9, 0x816fd6e9, 0x436b23e8, 0x1cc92596, 0x32ca2d8c), 0x72be5d74, 0x00000000) ==
            S.Hash(0x87912990, 0xf71fc5a9, 0x4798a3f4, 0x8c87346b, 0x1e578218, 0x816fd6e9, 0x436b23e8, 0x1cc92596)
    ensures S.Round(S.Hash(0x87912990, 0xf71fc5a9, 0x4798a3f4, 0x8c87346b, 0x1e578218, 0x816fd6e9, 0x436b23e8, 0x1cc92596), 0x80deb1fe, 0x00000000) ==
            S.Hash(0xd932eb16, 0x87912990, 0xf71fc5a9, 0x4798a3f4, 0x745a48de, 0x1e578218, 0x816fd6e9, 0x436b23e8)
    ensures S.Round(S.Hash(0xd932eb16, 0x87912990, 0xf71fc5a9, 0x4798a3f4, 0x745a48de, 0x1e578218, 0x816fd6e9, 0x436b23e8), 0x9bdc06a7, 0x00000000) ==
            S.Hash(0xc0645fde, 0xd932eb16, 0x87912990, 0xf71fc5a9, 0x0b92f20c, 0x745a48de, 0x1e578218, 0x816fd6e9)
    ensures S.Round(S.Hash(0xc0645fde, 0xd932eb16, 0x87912990, 0xf71fc5a9, 0x0b92f20c, 0x745a48de, 0x1e578218, 0x816fd6e9), 0xc19bf174, 0x00000018) ==
            S.Hash(0xb0fa238e, 0xc0645fde, 0xd932eb16, 0x87912990, 0x07590dcd, 0x0b92f20c, 0x745a48de, 0x1e578218)
  {
  }

  lemma States12(block: seq<byte>)
    requires |block| == 64 && WordsAre(block, 0, WORDS0)
    requires StateIs(block, 12, S.Hash(0xf71fc5a9, 0x4798a3f4, 0x8c87346b, 0x8e04ecb9, 0x816fd6e9, 0x436b23e8, 0x1cc92596, 0x32ca2d8c))
    ensures StateIs(block, 16, S.Hash(0xb0fa238e, 0xc0645fde, 0xd932eb16, 0x87912990, 0x07590dcd, 0x0b92f20c, 0x745a48de, 0x1e578218))
  {
    hide WordIs, StateIs, S.Constant, S.Round;
    Constants12();
    Values12();
    var v := S.Hash(0xf71fc5a9, 0x4798a3f4, 0x8c87346b, 0x8e04ecb9, 0x816fd6e9, 0x436b23e8, 0x1cc92596, 0x32ca2d8c);
    var v0 := S.Hash(0x87912990, 0xf71fc5a9, 0x4798a3f4, 0x8c87346b, 0x1e578218, 0x816fd6e9, 0x436b23e8, 0x1cc92596);
    NextState(block, 12, v, 0x72be5d74, 0x00000000, v0);
    var v1 := S.Hash(0xd932eb16, 0x87912990, 0xf71fc5a9, 0x4798a3f4, 0x745a48de, 0x1e578218, 0x816fd6e9, 0x436b23e8);
    NextState(block, 13, v0, 0x80deb1fe, 0x00000000, v1);
    var v2 := S.Hash(0xc0645fde, 0xd932eb16, 0x87912990, 0xf71fc5a9, 0x0b92f20c, 0x745a48de, 0x1e578218, 0x816fd6e9);
    NextState(block, 14, v1, 0x9bdc06a7, 0x00000000, v2);
    var v3 := S.Hash(0xb0fa238e, 0xc0645fde, 0xd932eb16, 0x87912990, 0x07590dcd, 0x0b92f20c, 0x745a48de, 0x1e578218);
    NextState(block, 15, v2, 0xc19bf174, 0x00000018, v3);
  }

  lemma Constants16()
    ensures S.Constant(16) == 0xe49b69c1 && S.Constant(17) == 0xefbe4786 && S.Constant(18) == 0x0fc19dc6 && S.Constant(19) == 0x240ca1cc
  {
  }

  lemma Values16()
    ensures S.Round(S.Hash(0xb0fa238e, 0xc0645fde, 0xd932eb16, 0x87912990, 0x07590dcd, 0x0b92f20c, 0x745a48de, 0x1e578218), 0xe49b69c1, 0x61626380) ==
            S.Hash(0x21da9a9b, 0xb0fa238e, 0xc0645fde, 0xd932eb16, 0x8034229c, 0x07590dcd, 0x0b92f20c, 0x745a48de)
    ensures S.Round(S.Hash(0x21da9a9b, 0xb0fa238e, 0xc0645fde, 0xd932eb16, 0x8034229c, 0x07590dcd, 0x0b92f20c, 0x745a48de), 0xefbe4786, 0x000f0000) ==
            S.Hash(0xc2fbd9d1, 0x21da9a9b, 0xb0fa238e, 0xc0645fde, 0x846ee454, 0x8034229c, 0x07590dcd, 0x0b92f20c)
    ensures S.Round(S.Hash(0xc2fbd9d1, 0x21da9a9b, 0xb0fa238e, 0xc0645fde, 0x846ee454, 0x8034229c, 0x07590dcd, 0x0b92f20c), 0x0fc19dc6, 0x7da86405) ==
            S.Hash(0xfe777bbf, 0xc2fbd9d1, 0x21da9a9b, 0xb0fa238e, 0xcc899961, 0x846ee454, 0x8034229c, 0x07590dcd)
    ensures S.Round(S.Hash(0xfe777bbf, 0xc2fbd9d1, 0x21da9a9b, 0xb0fa238e, 0xcc899961, 0x846ee454, 0x8034229c, 0x07590dcd), 0x240ca1cc, 0x600003c6) ==
            S.Hash(0xe1f20c33, 0xfe777bbf, 0xc2fbd9d1, 0x21da9a9b, 0xb0638179, 0xcc899961, 0x846ee454, 0x8034229c)
  {
  }

  lemma States16(block: seq<byte>)
    requires |block| == 64 && WordsAre(block, 16, WORDS16)
    requires StateIs(block, 16, S.Hash(0xb0fa238e, 0xc0645fde, 0xd932eb16, 0x87912990, 0x07590dcd, 0x0b92f20c, 0x745a48de, 0x1e578218))
    ensures StateIs(block, 20, S.Hash(0xe1f20c33, 0xfe777bbf, 0xc2fbd9d1, 0x21da9a9b, 0xb0638179, 0xcc899961, 0x846ee454, 0x8034229c))
  {
    hide WordIs, StateIs, S.Constant, S.Round;
    Constants16();
    Values16();
    var v := S.Hash(0xb0fa238e, 0xc0645fde, 0xd932eb16, 0x87912990, 0x07590dcd, 0x0b92f20c, 0x745a48de, 0x1e578218);
    var v0 := S.Hash(0x21da9a9b, 0xb0fa238e, 0xc0645fde, 0xd932eb16, 0x8034229c, 0x07590dcd, 0x0b92f20c, 0x745a48de);
    NextState(block, 16, v, 0xe49b69c1, 0x61626380, v0);
    var v1 := S.Hash(0xc2fbd9d1, 0x21da9a9b, 0xb0fa238e, 0xc0645fde, 0x846ee454, 0x8034229c, 0x07590dcd, 0x0b92f20c);
    NextState(block, 17, v0, 0xefbe4786, 0x000f0000, v1);
    var v2 := S.Hash(0xfe777bbf, 0xc2fbd9d1, 0x21da9a9b, 0xb0fa238e, 0xcc899961, 0x846ee454, 0x8034229c, 0x07590dcd);
    NextState(block, 18, v1, 0x0fc19dc6, 0x7da86405, v2);
    var v3 := S.Hash(0xe1f20c33, 0xfe777bbf, 0xc2fbd9d1, 0x21da9a9b, 0xb0638179, 0xcc899961, 0x846ee454, 0x8034229c);
    NextState(block, 19, v2, 0x240ca1cc, 0x600003c6, v3);
  }

  lemma Constants20()
    ensures S.Constant(20) == 0x2de92c6f && S.Constant(21) == 0x4a7484aa && S.Constant(22) == 0x5cb0a9dc && S.Constant(23) == 0x76f988da
  {
  }

  lemma Values20()
    ensures S.Round(S.Hash(0xe1f20c33, 0xfe777bbf, 0xc2fbd9d1, 0x21da9a9b, 0xb0638179, 0xcc899961, 0x846ee454, 0x8034229c), 0x2de92c6f, 0x3e9d7b78) ==
            S.Hash(0x9dc68b63, 0xe1f20c33, 0xfe777bbf, 0xc2fbd9d1, 0x8ada8930, 0xb0638179, 0xcc899961, 0x846ee454)
    ensures S.Round(S.Hash(0x9dc68b63, 0xe1f20c33, 0xfe777bbf, 0xc2fbd9d1, 0x8ada8930, 0xb0638179, 0xcc899961, 0x846ee454), 0x4a7484aa, 0x0183fc00) ==
            S.Hash(0xc2606d6d, 0x9dc68b63, 0xe1f20c33, 0xfe777bbf, 0xe1257970, 0x8ada8930, 0xb0638179, 0xcc899961)
    ensures S.Round(S.Hash(0xc2606d6d, 0x9dc68b63, 0xe1f20c33, 0xfe777bbf, 0xe1257970, 0x8ada8930, 0xb0638179, 0xcc899961), 0x5cb0a9dc, 0x12dcbfdb) ==
            S.Hash(0xa7a3623f, 0xc2606d6d, 0x9dc68b63, 0xe1f20c33, 0x49f5114a, 0xe1257970, 0x8ada8930, 0xb0638179)
    ensures S.Round(S.Hash(0xa7a3623f, 0xc2606d6d, 0x9dc68b63, 0xe1f20c33, 0x49f5114a, 0xe1257970, 0x8ada8930, 0xb0638179), 0x76f988da, 0xe2e2c38e) ==
            S.Hash(0xc5d53d8d, 0xa7a3623f, 0xc2606d6d, 0x9dc68b63, 0xaa47c347, 0x49f5114a, 0xe1257970, 0x8ada8930)
  {
  }

  lemma States20(block: seq<byte>)
    requires |block| == 64 && WordsAre(block, 16, WORDS16)
    requires StateIs(block, 20, S.Hash(0xe1f20c33, 0xfe777bbf, 0xc2fbd9d1, 0x21da9a9b, 0xb0638179, 0xcc899961, 0x846ee454, 0x8034229c))
    ensures StateIs(block, 24, S.Hash(0xc5d53d8d, 0xa7a3623f, 0xc2606d6d, 0x9dc68b63, 0xaa47c347, 0x49f5114a, 0xe1257970, 0x8ada8930))
  {
    hide WordIs, StateIs, S.Constant, S.Round;
    Constants20();
    Values20();
    var v := S.Hash(0xe1f20c33, 0xfe777bbf, 0xc2fbd9d1, 0x21da9a9b, 0xb0638179, 0xcc899961, 0x846ee454, 0x8034229c);
    var v0 := S.Hash(0x9dc68b63, 0xe1f20c33, 0xfe777bbf, 0xc2fbd9d1, 0x8ada8930, 0xb0638179, 0xcc899961, 0x846ee454);
    NextState(block, 20, v, 0x2de92c6f, 0x3e9d7b78, v0);
    var v1 := S.Hash(0xc2606d6d, 0x9dc68b63, 0xe1f20c33, 0xfe777bbf, 0xe1257970, 0x8ada8930, 0xb0638179, 0xcc899961);
    NextState(block, 21, v0, 0x4a7484aa, 0x0183fc00, v1);
    var v2 := S.Hash(0xa7a3623f, 0xc2606d6d, 0x9dc68b63, 0xe1f20c33, 0x49f5114a, 0xe1257970, 0x8ada8930, 0xb0638179);
    NextState(block, 22, v1, 0x5cb0a9dc, 0x12dcbfdb, v2);
    var v3 := S.Hash(0xc5d53d8d, 0xa7a3623f, 0xc2606d6d, 0x9dc68b63, 0xaa47c347, 0x49f5114a, 0xe1257970, 0x8ada8930);
    NextState(block, 23, v2, 0x76f988da, 0xe2e2c38e, v3);
  }

  lemma Constants24()
    ensures S.Constant(24) == 0x983e5152 && S.Constant(25) == 0xa831c66d && S.Constant(26) == 0xb00327c8 && S.Constant(27) == 0xbf597fc7
  {
  }

  lemma Values24()
    ensures S.Round(S.Hash(0xc5d53d8d, 0xa7a3623f, 0xc2606d6d, 0x9dc68b63, 0xaa47c347, 0x49f5114a, 0xe1257970, 0x8ada8930), 0x983e5152, 0xc8215c1a) ==
            S.Hash(0x1c2c2838, 0xc5d53d8d, 0xa7a3623f, 0xc2606d6d, 0x2823ef91, 0xaa47c347, 0x49f5114a, 0xe1257970)
    ensures S.Round(S.Hash(0x1c2c2838, 0xc5d53d8d, 0xa7a3623f, 0xc2606d6d, 0x2823ef91, 0xaa47c347, 0x49f5114a, 0xe1257970), 0xa831c66d, 0xb73679a2) ==
            S.Hash(0xcde8037d, 0x1c2c2838, 0xc5d53d8d, 0xa7a3623f, 0x14383d8e, 0x2823ef91, 0xaa47c347, 0x49f5114a)
    ensures S.Round(S.Hash(0xcde8037d, 0x1c2c2838, 0xc5d53d8d, 0xa7a3623f, 0x14383d8e, 0x2823ef91, 0xaa47c347, 0x49f5114a), 0xb00327c8, 0xe5bc3909) ==
            S.Hash(0xb62ec4bc, 0xcde8037d, 0x1c2c2838, 0xc5d53d8d, 0xc74c6516, 0x14383d8e, 0x2823ef91, 0xaa47c347)
    ensures S.Round(S.Hash(0xb62ec4bc, 0xcde8037d, 0x1c2c2838, 0xc5d53d8d, 0xc74c6516, 0x14383d8e, 0x2823ef91, 0xaa47c347), 0xbf597fc7, 0x32663c5b) ==
            S.Hash(0x77d37528, 0xb62ec4bc, 0xcde8037d, 0x1c2c2838, 0xedffbff8, 0xc74c6516, 0x14383d8e, 0x2823ef91)
  {
  }

  lemma States24(block: seq<byte>)
    requires |block| == 64 && WordsAre(block, 16, WORDS16)
    requires StateIs(block, 24, S.Hash(0xc5d53d8d, 0xa7a3623f, 0xc2606d6d, 0x9dc68b63, 0xaa47c347, 0x49f5114a, 0xe1257970, 0x8ada8930))
    ensures StateIs(block, 28, S.Hash(0x77d37528, 0xb62ec4bc, 0xcde8037d, 0x1c2c2838, 0xedffbff8, 0xc74c6516, 0x14383d8e, 0x2823ef91))
  {
    hide WordIs, StateIs, S.Constant, S.Round;
    Constants24();
    Values24();
    var v := S.Hash(0xc5d53d8d, 0xa7a3623f, 0xc2606d6d, 0x9dc68b63, 0xaa47c347, 0x49f5114a, 0xe1257970, 0x8ada8930);
    var v0 := S.Hash(0x1c2c2838, 0xc5d53d8d, 0xa7a3623f, 0xc2606d6d, 0x2823ef91, 0xaa47c347, 0x49f5114a, 0xe1257970);
    NextState(block, 24, v, 0x983e5152, 0xc8215c1a, v0);
    var v1 := S.Hash(0xcde8037d, 0x1c2c2838, 0xc5d53d8d, 0xa7a3623f, 0x14383d8e, 0x2823ef91, 0xaa47c347, 0x49f5114a);
    NextState(block, 25, v0, 0xa831c66d, 0xb73679a2, v1);
    var v2 := S.Hash(0xb62ec4bc, 0xcde8037d, 0x1c2c2838, 0xc5d53d8d, 0xc74c6516, 0x14383d8e, 0x2823ef91, 0xaa47c347);
    NextState(block, 26, v1, 0xb00327c8, 0xe5bc3909, v2);
    var v3 := S.Hash(0x77d37528, 0xb62ec4bc, 0xcde8037d, 0x1c2c2838, 0xedffbff8, 0xc74c6516, 0x14383d8e, 0x2823ef91);
    NextState(block, 27, v2, 0xbf597fc7, 0x32663c5b, v3);
  }

  lemma Constants28()
    ensures S.Constant(28) == 0xc6e00bf3 && S.Constant(29) == 0xd5a79147 && S.Constant(30) == 0x06ca6351 && S.Constant(31) == 0x14292967
  {
  }

  lemma Values28()
    ensures S.Round(S.Hash(0x77d37528, 0xb62ec4bc, 0xcde8037d, 0x1c2c2838, 0xedffbff8, 0xc74c6516, 0x14383d8e, 0x2823ef91), 0xc6e00bf3, 0x9d209d67) ==
            S.Hash(0x363482c9, 0x77d37528, 0xb62ec4bc, 0xcde8037d, 0x6112a3b7, 0xedffbff8, 0xc74c6516, 0x14383d8e)
    ensures S.Round(S.Hash(0x363482c9, 0x77d37528, 0xb62ec4bc, 0xcde8037d, 0x6112a3b7, 0xedffbff8, 0xc74c6516, 0x14383d8e), 0xd5a79147, 0xec8726cb) ==
            S.Hash(0xa0060b30, 0x363482c9, 0x77d37528, 0xb62ec4bc, 0xade79437, 0x6112a3b7, 0xedffbff8, 0xc74c6516)
    ensures S.Round(S.Hash(0xa0060b30, 0x363482c9, 0x77d37528, 0xb62ec4bc, 0xade79437, 0x6112a3b7, 0xedffbff8, 0xc74c6516), 0x06ca6351, 0x702138a4) ==
            S.Hash(0xea992a22, 0xa0060b30, 0x363482c9, 0x77d37528, 0x0109ab3a, 0xade79437, 0x6112a3b7, 0xedffbff8)
    ensures S.Round(S.Hash(0xea992a22, 0xa0060b30, 0x363482c9, 0x77d37528, 0x0109ab3a, 0xade79437, 0x6112a3b7, 0xedffbff8), 0x14292967, 0xd3b7973b) ==
            S.Hash(0x73b33bf5, 0xea992a22, 0xa0060b30, 0x363482c9, 0xba591112, 0x0109ab3a, 0xade79437, 0x6112a3b7)
  {
  }

  lemma States28(block: seq<byte>)
    requires |block| == 64 && WordsAre(block, 16, WORDS16)
    requires StateIs(block, 28, S.Hash(0x77d37528, 0xb62ec4bc, 0xcde8037d, 0x1c2c2838, 0xedffbff8, 0xc74c6516, 0x14383d8e, 0x2823ef91))
    ensures StateIs(block, 32, S.Hash(0x73b33bf5, 0xea992a22, 0xa0060b30, 0x363482c9, 0xba591112, 0x0109ab3a, 0xade79437, 0x6112a3b7))
  {
    hide WordIs, StateIs, S.Constant, S.Round;
    Constants28();
    Values28();
    var v := S.Hash(0x77d37528, 0xb62ec4bc, 0xcde8037d, 0x1c2c2838, 0xedffbff8, 0xc74c6516, 0x14383d8e, 0x2823ef91);
    var v0 := S.Hash(0x363482c9, 0x77d37528, 0xb62ec4bc, 0xcde8037d, 0x6112a3b7, 0xedffbff8, 0xc74c6516, 0x14383d8e);
    NextState(block, 28, v, 0xc6e00bf3, 0x9d209d67, v0);
    var v1 := S.Hash(0xa0060b30, 0x363482c9, 0x77d37528, 0xb62ec4bc, 0xade79437, 0x6112a3b7, 0xedffbff8, 0xc74c6516);
    NextState(block, 29, v0, 0xd5a79147, 0xec8726cb, v1);
    var v2 := S.Hash(0xea992a22, 0xa0060b30, 0x363482c9, 0x77d37528, 0x0109ab3a, 0xade79437, 0x6112a3b7, 0xedffbff8);
    NextState(block, 30, v1, 0x06ca6351, 0x702138a4, v2);
    var v3 := S.Hash(0x73b33bf5, 0xea992a22, 0xa0060b30, 0x363482c9, 0xba591112, 0x0109ab3a, 0xade79437, 0x6112a3b7);
    NextState(block, 31, v2, 0x14292967, 0xd3b7973b, v3);
  }

  lemma Constants32()
    ensures S.Constant(32) == 0x27b70a85 && S.Constant(33) == 0x2e1b2138 && S.Constant(34) == 0x4d2c6dfc && S.Constant(35) == 0x53380d13
  {
  }

  lemma Values32()
    ensures S.Round(S.Hash(0x73b33bf5, 0xea992a22, 0xa0060b30, 0x363482c9, 0xba591112, 0x0109ab3a, 0xade79437, 0x6112a3b7), 0x27b70a85, 0x93f5997f) ==
            S.Hash(0x98e12507, 0x73b33bf5, 0xea992a22, 0xa0060b30, 0x9cd9f5f6, 0xba591112, 0x0109ab3a, 0xade79437)
    ensures S.Round(S.Hash(0x98e12507, 0x73b33bf5, 0xea992a22, 0xa0060b30, 0x9cd9f5f6, 0xba591112, 0x0109ab3a, 0xade79437), 0x2e1b2138, 0x3b68ba73) ==
            S.Hash(0xfe604df5, 0x98e12507, 0x73b33bf5, 0xea992a22, 0x59249dd3, 0x9cd9f5f6, 0xba591112, 0x0109ab3a)
    ensures S.Round(S.Hash(0xfe604df5, 0x98e12507, 0x73b33bf5, 0xea992a22, 0x59249dd3, 0x9cd9f5f6, 0xba591112, 0x0109ab3a), 0x4d2c6dfc, 0xaff4ffc1) ==
            S.Hash(0xa9a7738c, 0xfe604df5, 0x98e12507, 0x73b33bf5, 0x085f3833, 0x59249dd3, 0x9cd9f5f6, 0xba591112)
    ensures S.Round(S.Hash(0xa9a7738c, 0xfe604df5, 0x98e12507, 0x73b33bf5, 0x085f3833, 0x59249dd3, 0x9cd9f5f6, 0xba591112), 0x53380d13, 0xf10a5c62) ==
            S.Hash(0x65a0cfe4, 0xa9a7738c, 0xfe604df5, 0x98e12507, 0xf4b002d6, 0x085f3833, 0x59249dd3, 0x9cd9f5f6)
  {
  }

  lemma States32(block: seq<byte>)
    requires |block| == 64 && WordsAre(block, 32, WORDS32)
    requires StateIs(block, 32, S.Hash(0x73b33bf5, 0xea992a22, 0xa0060b30, 0x363482c9, 0xba591112, 0x0109ab3a, 0xade79437, 0x6112a3b7))
    ensures StateIs(block, 36, S.Hash(0x65a0cfe4, 0xa9a7738c, 0xfe604df5, 0x98e12507, 0xf4b002d6, 0x085f3833, 0x59249dd3, 0x9cd9f5f6))
  {
    hide WordIs, StateIs, S.Constant, S.Round;
    Constants32();
    Values32();
    var v := S.Hash(0x73b33bf5, 0xea992a22, 0xa0060b30, 0x363482c9, 0xba591112, 0x0109ab3a, 0xade79437, 0x6112a3b7);
    var v0 := S.Hash(0x98e12507, 0x73b33bf5, 0xea992a22, 0xa0060b30, 0x9cd9f5f6, 0xba591112, 0x0109ab3a, 0xade79437);
    NextState(block, 32, v, 0x27b70a85, 0x93f5997f, v0);
    var v1 := S.Hash(0xfe604df5, 0x98e12507, 0x73b33bf5, 0xea992a22, 0x59249dd3, 0x9cd9f5f6, 0xba591112, 0x0109ab3a);
    NextState(block, 33, v0, 0x2e1b2138, 0x3b68ba73, v1);
    var v2 := S.Hash(0xa9a7738c, 0xfe604df5, 0x98e12507, 0x73b33bf5, 0x085f3833, 0x59249dd3, 0x9cd9f5f6, 0xba591112);
    NextState(block, 34, v1, 0x4d2c6dfc, 0xaff4ffc1, v2);
    var v3 := S.Hash(0x65a0cfe4, 0xa9a7738c, 0xfe604df5, 0x98e12507, 0xf4b002d6, 0x085f3833, 0x59249dd3, 0x9cd9f5f6);
    NextState(block, 35, v2, 0x53380d13, 0xf10a5c62, v3);
  }

  lemma Constants36()
    ensures S.Constant(36) == 0x650a7354 && S.Constant(37) == 0x766a0abb && S.Constant(38) == 0x81c2c92e && S.Constant(39) == 0x92722c85
  {
  }

  lemma Values36()
    ensures S.Round(S.Hash(0x65a0cfe4, 0xa9a7738c, 0xfe604df5, 0x98e12507, 0xf4b002d6, 0x085f3833, 0x59249dd3, 0x9cd9f5f6), 0x650a7354, 0x0a8b3996) ==
            S.Hash(0x41a65cb1, 0x65a0cfe4, 0xa9a7738c, 0xfe604df5, 0x0772a26b, 0xf4b002d6, 0x085f3833, 0x59249dd3)
    ensures S.Round(S.Hash(0x41a65cb1, 0x65a0cfe4, 0xa9a7738c, 0xfe604df5, 0x0772a26b, 0xf4b002d6, 0x085f3833, 0x59249dd3), 0x766a0abb, 0x72af830a) ==
            S.Hash(0x34df1604, 0x41a65cb1, 0x65a0cfe4, 0xa9a7738c, 0xa507a53d, 0x0772a26b, 0xf4b002d6, 0x085f3833)
    ensures S.Round(S.Hash(0x34df1604, 0x41a65cb1, 0x65a0cfe4, 0xa9a7738c, 0xa507a53d, 0x0772a26b, 0xf4b002d6, 0x085f3833), 0x81c2c92e, 0x9409e33e) ==
            S.Hash(0x6dc57a8a, 0x34df1604, 0x41a65cb1, 0x65a0cfe4, 0xf0781bc8, 0xa507a53d, 0x0772a26b, 0xf4b002d6)
    ensures S.Round(S.Hash(0x6dc57a8a, 0x34df1604, 0x41a65cb1, 0x65a0cfe4, 0xf0781bc8, 0xa507a53d, 0x0772a26b, 0xf4b002d6), 0x92722c85, 0x24641522) ==
            S.Hash(0x79ea687a, 0x6dc57a8a, 0x34df1604, 0x41a65cb1, 0x1efbc0a0, 0xf0781bc8, 0xa507a53d, 0x0772a26b)
  {
  }

  lemma States36(block: seq<byte>)
    requires |block| == 64 && WordsAre(block, 32, WORDS32)
    requires StateIs(block, 36, S.Hash(0x65a0cfe4, 0xa9a7738c, 0xfe604df5, 0x98e12507, 0xf4b002d6, 0x085f3833, 0x59249dd3, 0x9cd9f5f6))
    ensures StateIs(block, 40, S.Hash(0x79ea687a, 0x6dc57a8a, 0x34df1604, 0x41a65cb1, 0x1efbc0a0, 0xf0781bc8, 0xa507a53d, 0x0772a26b))
  {
    hide WordIs, StateIs, S.Constant, S.Round;
    Constants36();
    Values36();
    var v := S.Hash(0x65a0cfe4, 0xa9a7738c, 0xfe604df5, 0x98e12507, 0xf4b002d6, 0x085f3833, 0x59249dd3, 0x9cd9f5f6);
    var v0 := S.Hash(0x41a65cb1, 0x65a0cfe4, 0xa9a7738c, 0xfe604df5, 0x0772a26b, 0xf4b002d6, 0x085f3833, 0x59249dd3);
    NextState(block, 36, v, 0x650a7354, 0x0a8b3996, v0);
    var v1 := S.Hash(0x34df1604, 0x41a65cb1, 0x65a0cfe4, 0xa9a7738c, 0xa507a53d, 0x0772a26b, 0xf4b002d6, 0x085f3833);
    NextState(block, 37, v0, 0x766a0abb, 0x72af830a, v1);
    var v2 := S.Hash(0x6dc57a8a, 0x34df1604, 0x41a65cb1, 0x65a0cfe4, 0xf0781bc8, 0xa507a53d, 0x0772a26b, 0xf4b002d6);
    NextState(block, 38, v1, 0x81c2c92e, 0x9409e33e, v2);
    var v3 := S.Hash(0x79ea687a, 0x6dc57a8a, 0x34df1604, 0x41a65cb1, 0x1efbc0a0, 0xf0781bc8, 0xa507a53d, 0x0772a26b);
    NextState(block, 39, v2, 0x92722c85, 0x24641522, v3);
  }

  lemma Constants40()
    ensures S.Constant(40) == 0xa2bfe8a1 && S.Constant(41) == 0xa81a664b && S.Constant(42) == 0xc24b8b70 && S.Constant(43) == 0xc76c51a3
  {
  }

  lemma Values40()
    ensures S.Round(S.Hash(0x79ea687a, 0x6dc57a8a, 0x34df1604, 0x41a65cb1, 0x1efbc0a0, 0xf0781bc8, 0xa507a53d, 0x0772a26b), 0xa2bfe8a1, 0x9f47bf94) ==
            S.Hash(0xd6670766, 0x79ea687a, 0x6dc57a8a, 0x34df1604, 0x26352d63, 0x1efbc0a0, 0xf0781bc8, 0xa507a53d)
    ensures S.Round(S.Hash(0xd6670766, 0x79ea687a, 0x6dc57a8a, 0x34df1604, 0x26352d63, 0x1efbc0a0, 0xf0781bc8, 0xa507a53d), 0xa81a664b, 0xf0a64f5a) ==
            S.Hash(0xdf46652f, 0xd6670766, 0x79ea687a, 0x6dc57a8a, 0x838b2711, 0x26352d63, 0x1efbc0a0, 0xf0781bc8)
    ensures S.Round(S.Hash(0xdf46652f, 0xd6670766, 0x79ea687a, 0x6dc57a8a, 0x838b2711, 0x26352d63, 0x1efbc0a0, 0xf0781bc8), 0xc24b8b70, 0x3e246a79) ==
            S.Hash(0x17aa0dfe, 0xdf46652f, 0xd6670766, 0x79ea687a, 0xdecd4715, 0x838b2711, 0x26352d63, 0x1efbc0a0)
    ensures S.Round(S.Hash(0x17aa0dfe, 0xdf46652f, 0xd6670766, 0x79ea687a, 0xdecd4715, 0x838b2711, 0x26352d63, 0x1efbc0a0), 0xc76c51a3, 0x27333ba3) ==
            S.Hash(0x9d4baf93, 0x17aa0dfe, 0xdf46652f, 0xd6670766, 0xfda24c2e, 0xdecd4715, 0x838b2711, 0x26352d63)
  {
  }

  lemma States40(block: seq<byte>)
    requires |block| == 64 && WordsAre(block, 32, WORDS32)
    requires StateIs(block, 40, S.Hash(0x79ea687a, 0x6dc57a8a, 0x34df1604, 0x41a65cb1, 0x1efbc0a0, 0xf0781bc8, 0xa507a53d, 0x0772a26b))
    ensures StateIs(block, 44, S.Hash(0x9d4baf93, 0x17aa0dfe, 0xdf46652f, 0xd6670766, 0xfda24c2e, 0xdecd4715, 0x838b2711, 0x26352d63))
  {
    hide WordIs, StateIs, S.Constant, S.Round;
    Constants40();
    Values40();
    var v := S.Hash(0x79ea687a, 0x6dc57a8a, 0x34df1604, 0x41a65cb1, 0x1efbc0a0, 0xf0781bc8, 0xa507a53d, 0x0772a26b);
    var v0 := S.Hash(0xd6670766, 0x79ea687a, 0x6dc57a8a, 0x34df1604, 0x26352d63, 0x1efbc0a0, 0xf0781bc8, 0xa507a53d);
    NextState(block, 40, v, 0xa2bfe8a1, 0x9f47bf94, v0);
    var v1 := S.Hash(0xdf46652f, 0xd6670766, 0x79ea687a, 0x6dc57a8a, 0x838b2711, 0x26352d63, 0x1efbc0a0, 0xf0781bc8);
    NextState(block, 41, v0, 0xa81a664b, 0xf0a64f5a, v1);
    var v2 := S.Hash(0x17aa0dfe, 0xdf46652f, 0xd6670766, 0x79ea687a, 0xdecd4715, 0x838b2711, 0x26352d63, 0x1efbc0a0);
    NextState(block, 42, v1, 0xc24b8b70, 0x3e246a79, v2);
    var v3 := S.Hash(0x9d4baf93, 0x17aa0dfe, 0xdf46652f, 0xd6670766, 0xfda24c2e, 0xdecd4715, 0x838b2711, 0x26352d63);
    NextState(block, 43, v2, 0xc76c51a3, 0x27333ba3, v3);
  }

  lemma Constants44()
    ensures S.Constant(44) == 0xd192e819 && S.Constant(45) == 0xd6990624 && S.Constant(46) == 0xf40e3585 && S.Constant(47) == 0x106aa070
  {
  }

  lemma Values44()
    ensures S.Round(S.Hash(0x9d4baf93, 0x17aa0dfe, 0xdf46652f, 0xd6670766, 0xfda24c2e, 0xdecd4715, 0x838b2711, 0x26352d63), 0xd192e819, 0x0c4763f2) ==
            S.Hash(0x26628815, 0x9d4baf93, 0x17aa0dfe, 0xdf46652f, 0xa80f11f0, 0xfda24c2e, 0xdecd4715, 0x838b2711)
    ensures S.Round(S.Hash(0x26628815, 0x9d4baf93, 0x17aa0dfe, 0xdf46652f, 0xa80f11f0, 0xfda24c2e, 0xdecd4715, 0x838b2711), 0xd6990624, 0x840abf27) ==
            S.Hash(0x72ab4b91, 0x26628815, 0x9d4baf93, 0x17aa0dfe, 0xb7755da1, 0xa80f11f0, 0xfda24c2e, 0xdecd4715)
    ensures S.Round(S.Hash(0x72ab4b91, 0x26628815, 0x9d4baf93, 0x17aa0dfe, 0xb7755da1, 0xa80f11f0, 0xfda24c2e, 0xdecd4715), 0xf40e3585, 0x7a290d5d) ==
            S.Hash(0xa14c14b0, 0x72ab4b91, 0x26628815, 0x9d4baf93, 0xd57b94a9, 0xb7755da1, 0xa80f11f0, 0xfda24c2e)
    ensures S.Round(S.Hash(0xa14c14b0, 0x72ab4b91, 0x26628815, 0x9d4baf93, 0xd57b94a9, 0xb7755da1, 0xa80f11f0, 0xfda24c2e), 0x106aa070, 0x065c43da) ==
            S.Hash(0x4172328d, 0xa14c14b0, 0x72ab4b91, 0x26628815, 0xfecf0bc6, 0xd57b94a9, 0xb7755da1, 0xa80f11f0)
  {
  }

  lemma States44(block: seq<byte>)
    requires |block| == 64 && WordsAre(block, 32, WORDS32)
    requires StateIs(block, 44, S.Hash(0x9d4baf93, 0x17aa0dfe, 0xdf46652f, 0xd6670766, 0xfda24c2e, 0xdecd4715, 0x838b2711, 0x26352d63))
    ensures StateIs(block, 48, S.Hash(0x4172328d, 0xa14c14b0, 0x72ab4b91, 0x26628815, 0xfecf0bc6, 0xd57b94a9, 0xb7755da1, 0xa80f11f0))
  {
    hide WordIs, StateIs, S.Constant, S.Round;
    Constants44();
    Values44();
    var v := S.Hash(0x9d4baf93, 0x17aa0dfe, 0xdf46652f, 0xd6670766, 0xfda24c2e, 0xdecd4715, 0x838b2711, 0x26352d63);
    var v0 := S.Hash(0x26628815, 0x9d4baf93, 0x17aa0dfe, 0xdf46652f, 0xa80f11f0, 0xfda24c2e, 0xdecd4715, 0x838b2711);
    NextState(block, 44, v, 0xd192e819, 0x0c4763f2, v0);
    var v1 := S.Hash(0x72ab4b91, 0x26628815, 0x9d4baf93, 0x17aa0dfe, 0xb7755da1, 0xa80f11f0, 0xfda24c2e, 0xdecd4715);
    NextState(block, 45, v0, 0xd6990624, 0x840abf27, v1);
    var v2 := S.Hash(0xa14c14b0, 0x72ab4b91, 0x26628815, 0x9d4baf93, 0xd57b94a9, 0xb7755da1, 0xa80f11f0, 0xfda24c2e);
    NextState(block, 46, v1, 0xf40e3585, 0x7a290d5d, v2);
    var v3 := S.Hash(0x4172328d, 0xa14c14b0, 0x72ab4b91, 0x26628815, 0xfecf0bc6, 0xd57b94a9, 0xb7755da1, 0xa80f11f0);
    NextState(block, 47, v2, 0x106aa070, 0x065c43da, v3);
  }

  lemma Constants48()
    ensures S.Constant(48) == 0x19a4c116 && S.Constant(49) == 0x1e376c08 && S.Constant(50) == 0x2748774c && S.Constant(51) == 0x34b0bcb5
  {
  }

  lemma Values48()
    ensures S.Round(S.Hash(0x4172328d, 0xa14c14b0, 0x72ab4b91, 0x26628815, 0xfecf0bc6, 0xd57b94a9, 0xb7755da1, 0xa80f11f0), 0x19a4c116, 0xfb3e89cb) ==
            S.Hash(0x05757ceb, 0x4172328d, 0xa14c14b0, 0x72ab4b91, 0xbd714038, 0xfecf0bc6, 0xd57b94a9, 0xb7755da1)
    ensures S.Round(S.Hash(0x05757ceb, 0x4172328d, 0xa14c14b0, 0x72ab4b91, 0xbd714038, 0xfecf0bc6, 0xd57b94a9, 0xb7755da1), 0x1e376c08, 0xcc7617db) ==
            S.Hash(0xf11bfaa8, 0x05757ceb, 0x4172328d, 0xa14c14b0, 0x6e5c390c, 0xbd714038, 0xfecf0bc6, 0xd57b94a9)
    ensures S.Round(S.Hash(0xf11bfaa8, 0x05757ceb, 0x4172328d, 0xa14c14b0, 0x6e5c390c, 0xbd714038, 0xfecf0bc6, 0xd57b94a9), 0x2748774c, 0xb9e66c34) ==
            S.Hash(0x7a0508a1, 0xf11bfaa8, 0x05757ceb, 0x4172328d, 0x52f1ccf7, 0x6e5c390c, 0xbd714038, 0xfecf0bc6)
    ensures S.Round(S.Hash(0x7a0508a1, 0xf11bfaa8, 0x05757ceb, 0x4172328d, 0x52f1ccf7, 0x6e5c390c, 0xbd714038, 0xfecf0bc6), 0x34b0bcb5, 0xa9993667) ==
            S.Hash(0x886e7a22, 0x7a0508a1, 0xf11bfaa8, 0x05757ceb, 0x49231c1e, 0x52f1ccf7, 0x6e5c390c, 0xbd714038)
  {
  }

  lemma States48(block: seq<byte>)
    requires |block| == 64 && WordsAre(block, 48, WORDS48)
    requires StateIs(block, 48, S.Hash(0x4172328d, 0xa14c14b0, 0x72ab4b91, 0x26628815, 0xfecf0bc6, 0xd57b94a9, 0xb7755da1, 0xa80f11f0))
    ensures StateIs(block, 52, S.Hash(0x886e7a22, 0x7a0508a1, 0xf11bfaa8, 0x05757ceb, 0x49231c1e, 0x52f1ccf7, 0x6e5c390c, 0xbd714038))
  {
    hide WordIs, StateIs, S.Constant, S.Round;
    Constants48();
    Values48();
    var v := S.Hash(0x4172328d, 0xa14c14b0, 0x72ab4b91, 0x26628815, 0xfecf0bc6, 0xd57b94a9, 0xb7755da1, 0xa80f11f0);
    var v0 := S.Hash(0x05757ceb, 0x4172328d, 0xa14c14b0, 0x72ab4b91, 0xbd714038, 0xfecf0bc6, 0xd57b94a9, 0xb7755da1);
    NextState(block, 48, v, 0x19a4c116, 0xfb3e89cb, v0);
    var v1 := S.Hash(0xf11bfaa8, 0x05757ceb, 0x4172328d, 0xa14c14b0, 0x6e5c390c, 0xbd714038, 0xfecf0bc6, 0xd57b94a9);
    NextState(block, 49, v0, 0x1e376c08, 0xcc7617db, v1);
    var v2 := S.Hash(0x7a0508a1, 0xf11bfaa8, 0x05757ceb, 0x4172328d, 0x52f1ccf7, 0x6e5c390c, 0xbd714038, 0xfecf0bc6);
    NextState(block, 50, v1, 0x2748774c, 0xb9e66c34, v2);
    var v3 := S.Hash(0x886e7a22, 0x7a0508a1, 0xf11bfaa8, 0x05757ceb, 0x49231c1e, 0x52f1ccf7, 0x6e5c390c, 0xbd714038);
    NextState(block, 51, v2, 0x34b0bcb5, 0xa9993667, v3);
  }

  lemma Constants52()
    ensures S.Constant(52) == 0x391c0cb3 && S.Constant(53) == 0x4ed8aa4a && S.Constant(54) == 0x5b9cca4f && S.Constant(55) == 0x682e6ff3
  {
  }

  lemma Values52()
    ensures S.Round(S.Hash(0x886e7a22, 0x7a0508a1, 0xf11bfaa8, 0x05757ceb, 0x49231c1e, 0x52f1ccf7, 0x6e5c390c, 0xbd714038), 0x391c0cb3, 0x84badedd) ==
            S.Hash(0x101fd28f, 0x886e7a22, 0x7a0508a1, 0xf11bfaa8, 0x529e7d00, 0x49231c1e, 0x52f1ccf7, 0x6e5c390c)
    ensures S.Round(S.Hash(0x101fd28f, 0x886e7a22, 0x7a0508a1, 0xf11bfaa8, 0x529e7d00, 0x49231c1e, 0x52f1ccf7, 0x6e5c390c), 0x4ed8aa4a, 0xc21462bc) ==
            S.Hash(0xf5702fdb, 0x101fd28f, 0x886e7a22, 0x7a0508a1, 0x9f4787c3, 0x529e7d00, 0x49231c1e, 0x52f1ccf7)
    ensures S.Round(S.Hash(0xf5702fdb, 0x101fd28f, 0x886e7a22, 0x7a0508a1, 0x9f4787c3, 0x529e7d00, 0x49231c1e, 0x52f1ccf7), 0x5b9cca4f, 0x1487472c) ==
            S.Hash(0x3ec45cdb, 0xf5702fdb, 0x101fd28f, 0x886e7a22, 0xe50e1b4f, 0x9f4787c3, 0x529e7d00, 0x49231c1e)
    ensures S.Round(S.Hash(0x3ec45cdb, 0xf5702fdb, 0x101fd28f, 0x886e7a22, 0xe50e1b4f, 0x9f4787c3, 0x529e7d00, 0x49231c1e), 0x682e6ff3, 0xb20f7a99) ==
            S.Hash(0x38cc9913, 0x3ec45cdb, 0xf5702fdb, 0x101fd28f, 0x54cb266b, 0xe50e1b4f, 0x9f4787c3, 0x529e7d00)
  {
  }

  lemma States52(block: seq<byte>)
    requires |block| == 64 && WordsAre(block, 48, WORDS48)
    requires StateIs(block, 52, S.Hash(0x886e7a22, 0x7a0508a1, 0xf11bfaa8, 0x05757ceb, 0x49231c1e, 0x52f1ccf7, 0x6e5c390c, 0xbd714038))
    ensures StateIs(block, 56, S.Hash(0x38cc9913, 0x3ec45cdb, 0xf5702fdb, 0x101fd28f, 0x54cb266b, 0xe50e1b4f, 0x9f4787c3, 0x529e7d00))
  {
    hide WordIs, StateIs, S.Constant, S.Round;
    Constants52();
    Values52();
    var v := S.Hash(0x886e7a22, 0x7a0508a1, 0xf11bfaa8, 0x05757ceb, 0x49231c1e, 0x52f1ccf7, 0x6e5c390c, 0xbd714038);
    var v0 := S.Hash(0x101fd28f, 0x886e7a22, 0x7a0508a1, 0xf11bfaa8, 0x529e7d00, 0x49231c1e, 0x52f1ccf7, 0x6e5c390c);
    NextState(block, 52, v, 0x391c0cb3, 0x84badedd, v0);
    var v1 := S.Hash(0xf5702fdb, 0x101fd28f, 0x886e7a22, 0x7a0508a1, 0x9f4787c3, 0x529e7d00, 0x49231c1e, 0x52f1ccf7);
    NextState(block, 53, v0, 0x4ed8aa4a, 0xc21462bc, v1);
    var v2 := S.Hash(0x3ec45cdb, 0xf5702fdb, 0x101fd28f, 0x886e7a22, 0xe50e1b4f, 0x9f4787c3, 0x529e7d00, 0x49231c1e);
    NextState(block, 54, v1, 0x5b9cca4f, 0x1487472c, v2);
    var v3 := S.Hash(0x38cc9913, 0x3ec45cdb, 0xf5702fdb, 0x101fd28f, 0x54cb266b, 0xe50e1b4f, 0x9f4787c3, 0x529e7d00);
    NextState(block, 55, v2, 0x682e6ff3, 0xb20f7a99, v3);
  }

  lemma Constants56()
    ensures S.Constant(56) == 0x748f82ee && S.Constant(57) == 0x78a5636f && S.Constant(58) == 0x84c87814 && S.Constant(59) == 0x8cc70208
  {
  }

  lemma Values56()
    ensures S.Round(S.Hash(0x38cc9913, 0x3ec45cdb, 0xf5702fdb, 0x101fd28f, 0x54cb266b, 0xe50e1b4f, 0x9f4787c3, 0x529e7d00), 0x748f82ee, 0xef57b9cd) ==
            S.Hash(0xfcd1887b, 0x38cc9913, 0x3ec45cdb, 0xf5702fdb, 0x9b5e906c, 0x54cb266b, 0xe50e1b4f, 0x9f4787c3)
    ensures S.Round(S.Hash(0xfcd1887b, 0x38cc9913, 0x3ec45cdb, 0xf5702fdb, 0x9b5e906c, 0x54cb266b, 0xe50e1b4f, 0x9f4787c3), 0x78a5636f, 0xebe6b238) ==
            S.Hash(0xc062d46f, 0xfcd1887b, 0x38cc9913, 0x3ec45cdb, 0x7e44008e, 0x9b5e906c, 0x54cb266b, 0xe50e1b4f)
    ensures S.Round(S.Hash(0xc062d46f, 0xfcd1887b, 0x38cc9913, 0x3ec45cdb, 0x7e44008e, 0x9b5e906c, 0x54cb266b, 0xe50e1b4f), 0x84c87814, 0x9fe3095e) ==
            S.Hash(0xffb70472, 0xc062d46f, 0xfcd1887b, 0x38cc9913, 0x6d83bfc6, 0x7e44008e, 0x9b5e906c, 0x54cb266b)
    ensures S.Round(S.Hash(0xffb70472, 0xc062d46f, 0xfcd1887b, 0x38cc9913, 0x6d83bfc6, 0x7e44008e, 0x9b5e906c, 0x54cb266b), 0x8cc70208, 0x78bc8d4b) ==
            S.Hash(0xb6ae8fff, 0xffb70472, 0xc062d46f, 0xfcd1887b, 0xb21bad3d, 0x6d83bfc6, 0x7e44008e, 0x9b5e906c)
  {
  }

  lemma States56(block: seq<byte>)
    requires |block| == 64 && WordsAre(block, 48, WORDS48)
    requires StateIs(block, 56, S.Hash(0x38cc9913, 0x3ec45cdb, 0xf5702fdb, 0x101fd28f, 0x54cb266b, 0xe50e1b4f, 0x9f4787c3, 0x529e7d00))
    ensures StateIs(block, 60, S.Hash(0xb6ae8fff, 0xffb70472, 0xc062d46f, 0xfcd1887b, 0xb21bad3d, 0x6d83bfc6, 0x7e44008e, 0x9b5e906c))
  {
    hide WordIs, StateIs, S.Constant, S.Round;
    Constants56();
    Values56();
    var v := S.Hash(0x38cc9913, 0x3ec45cdb, 0xf5702fdb, 0x101fd28f, 0x54cb266b, 0xe50e1b4f, 0x9f4787c3, 0x529e7d00);
    var v0 := S.Hash(0xfcd1887b, 0x38cc9913, 0x3ec45cdb, 0xf5702fdb, 0x9b5e906c, 0x54cb266b, 0xe50e1b4f, 0x9f4787c3);
    NextState(block, 56, v, 0x748f82ee, 0xef57b9cd, v0);
    var v1 := S.Hash(0xc062d46f, 0xfcd1887b, 0x38cc9913, 0x3ec45cdb, 0x7e44008e, 0x9b5e906c, 0x54cb266b, 0xe50e1b4f);
    NextState(block, 57, v0, 0x78a5636f, 0xebe6b238, v1);
    var v2 := S.Hash(0xffb70472, 0xc062d46f, 0xfcd1887b, 0x38cc9913, 0x6d83bfc6, 0x7e44008e, 0x9b5e906c, 0x54cb266b);
    NextState(block, 58, v1, 0x84c87814, 0x9fe3095e, v2);
    var v3 := S.Hash(0xb6ae8fff, 0xffb70472, 0xc062d46f, 0xfcd1887b, 0xb21bad3d, 0x6d83bfc6, 0x7e44008e, 0x9b5e906c);
    NextState(block, 59, v2, 0x8cc70208, 0x78bc8d4b, v3);
  }

  lemma Constants60()
    ensures S.Constant(60) == 0x90befffa && S.Constant(61) == 0xa4506ceb && S.Constant(62) == 0xbef9a3f7 && S.Constant(63) == 0xc67178f2
  {
  }

  lemma Values60()
    ensures S.Round(S.Hash(0xb6ae8fff, 0xffb70472, 0xc062d46f, 0xfcd1887b, 0xb21bad3d, 0x6d83bfc6, 0x7e44008e, 0x9b5e906c), 0x90befffa, 0xa43fcf15) ==
            S.Hash(0xb85e2ce9, 0xb6ae8fff, 0xffb70472, 0xc062d46f, 0x961f4894, 0xb21bad3d, 0x6d83bfc6, 0x7e44008e)
    ensures S.Round(S.Hash(0xb85e2ce9, 0xb6ae8fff, 0xffb70472, 0xc062d46f, 0x961f4894, 0xb21bad3d, 0x6d83bfc6, 0x7e44008e), 0xa4506ceb, 0x668b2ff8) ==
            S.Hash(0x04d24d6c, 0xb85e2ce9, 0xb6ae8fff, 0xffb70472, 0x948d25b6, 0x961f4894, 0xb21bad3d, 0x6d83bfc6)
    ensures S.Round(S.Hash(0x04d24d6c, 0xb85e2ce9, 0xb6ae8fff, 0xffb70472, 0x948d25b6, 0x961f4894, 0xb21bad3d, 0x6d83bfc6), 0xbef9a3f7, 0xeeaba2cc) ==
            S.Hash(0xd39a2165, 0x04d24d6c, 0xb85e2ce9, 0xb6ae8fff, 0xfb121210, 0x948d25b6, 0x961f4894, 0xb21bad3d)
    ensures S.Round(S.Hash(0xd39a2165, 0x04d24d6c, 0xb85e2ce9, 0xb6ae8fff, 0xfb121210, 0x948d25b6, 0x961f4894, 0xb21bad3d), 0xc67178f2, 0x12b1edeb) ==
            S.Hash(0x506e3058, 0xd39a2165, 0x04d24d6c, 0xb85e2ce9, 0x5ef50f24, 0xfb121210, 0x948d25b6, 0x961f4894)
  {
  }

  lemma States60(block: seq<byte>)
    requires |block| == 64 && WordsAre(block, 48, WORDS48)
    requires StateIs(block, 60, S.Hash(0xb6ae8fff, 0xffb70472, 0xc062d46f, 0xfcd1887b, 0xb21bad3d, 0x6d83bfc6, 0x7e44008e, 0x9b5e906c))
    ensures StateIs(block, 64, S.Hash(0x506e3058, 0xd39a2165, 0x04d24d6c, 0xb85e2ce9, 0x5ef50f24, 0xfb121210, 0x948d25b6, 0x961f4894))
  {
    hide WordIs, StateIs, S.Constant, S.Round;
    Constants60();
    Values60();
    var v := S.Hash(0xb6ae8fff, 0xffb70472, 0xc062d46f, 0xfcd1887b, 0xb21bad3d, 0x6d83bfc6, 0x7e44008e, 0x9b5e906c);
    var v0 := S.Hash(0xb85e2ce9, 0xb6ae8fff, 0xffb70472, 0xc062d46f, 0x961f4894, 0xb21bad3d, 0x6d83bfc6, 0x7e44008e);
    NextState(block, 60, v, 0x90befffa, 0xa43fcf15, v0);
    var v1 := S.Hash(0x04d24d6c, 0xb85e2ce9, 0xb6ae8fff, 0xffb70472, 0x948d25b6, 0x961f4894, 0xb21bad3d, 0x6d83bfc6);
    NextState(block, 61, v0, 0xa4506ceb, 0x668b2ff8, v1);
    var v2 := S.Hash(0xd39a2165, 0x04d24d6c, 0xb85e2ce9, 0xb6ae8fff, 0xfb121210, 0x948d25b6, 0x961f4894, 0xb21bad3d);
    NextState(block, 62, v1, 0xbef9a3f7, 0xeeaba2cc, v2);
    var v3 := S.Hash(0x506e3058, 0xd39a2165, 0x04d24d6c, 0xb85e2ce9, 0x5ef50f24, 0xfb121210, 0x948d25b6, 0x961f4894);
    NextState(block, 63, v2, 0xc67178f2, 0x12b1edeb, v3);
  }

  /** The example of one block in the standard: the digest of "abc". */
  lemma Sha256OfAbc()
    ensures S.Output(Digest.Fold(S.Compress, S.H_INIT, Digest.Padded([97, 98, 99]), 64)) ==
            [0xba, 0x78, 0x16, 0xbf, 0x8f, 0x01, 0xcf, 0xea] +
            [0x41, 0x41, 0x40, 0xde, 0x5d, 0xae, 0x22, 0x23] +
            [0xb0, 0x03, 0x61, 0xa3, 0x96, 0x17, 0x7a, 0x9c] +
            [0xb4, 0x10, 0xff, 0x61, 0xf2, 0x00, 0x15, 0xad]
  {
    hide WordsAre, StateIs, S.Rounds, S.Output, Digest.Padded;
    AbcPadded();
    var block := ABC;
    Words0(block);
    Words16(block);
    Words32(block);
    Words48(block);
    NoRounds(block);
    States0(block);
    States4(block);
    States8(block);
    States12(block);
    States16(block);
    States20(block);
    States24(block);
    States28(block);
    States32(block);
    States36(block);
    States40(block);
    States44(block);
    States48(block);
    States52(block);
    States56(block);
    States60(block);
    AbcDigest(block);
  }

  lemma NoRounds(block: seq<byte>)
    requires |block| == 64
    ensures StateIs(block, 0, S.Hash(0x6a09e667, 0xbb67ae85, 0x3c6ef372, 0xa54ff53a, 0x510e527f, 0x9b05688c, 0x1f83d9ab, 0x5be0cd19))
  {
  }

  lemma AbcDigest(block: seq<byte>)
    requires |block| == 64 && StateIs(block, 64, S.Hash(0x506e3058, 0xd39a2165, 0x04d24d6c, 0xb85e2ce9, 0x5ef50f24, 0xfb121210, 0x948d25b6, 0x961f4894))
    ensures S.Output(Digest.Fold(S.Compress, S.H_INIT, block, 64)) ==
            [0xba, 0x78, 0x16, 0xbf, 0x8f, 0x01, 0xcf, 0xea] +
            [0x41, 0x41, 0x40, 0xde, 0x5d, 0xae, 0x22, 0x23] +
            [0xb0, 0x03, 0x61, 0xa3, 0x96, 0x17, 0x7a, 0x9c] +
            [0xb4, 0x10, 0xff, 0x61, 0xf2, 0x00, 0x15, 0xad]
  {
    hide S.Rounds, S.Output;
    assert block[..64] == block && block[64..] == [];
    var v := S.Compress(S.H_INIT, block);
    assert Digest.Fold(S.Compress, S.H_INIT, block, 64) == Digest.Fold(S.Compress, v, [], 64) == v;
    assert v == S.Hash(0xba7816bf, 0x8f01cfea, 0x414140de, 0x5dae2223, 0xb00361a3, 0x96177a9c, 0xb410ff61, 0xf20015ad);
    OutputOfAbc();
  }

  lemma OutputOfAbc()
    ensures S.Output(S.Hash(0xba7816bf, 0x8f01cfea, 0x414140de, 0x5dae2223, 0xb00361a3, 0x96177a9c, 0xb410ff61, 0xf20015ad)) ==
            [0xba, 0x78, 0x16, 0xbf, 0x8f, 0x01, 0xcf, 0xea] +
            [0x41, 0x41, 0x40, 0xde, 0x5d, 0xae, 0x22, 0x23] +
            [0xb0, 0x03, 0x61, 0xa3, 0x96, 0x17, 0x7a, 0x9c] +
            [0xb4, 0x10, 0xff, 0x61, 0xf2, 0x00, 0x15, 0xad]
  {
    hide S.ToBytes, S.Output;
    OutputIs(S.Hash(0xba7816bf, 0x8f01cfea, 0x414140de, 0x5dae2223, 0xb00361a3, 0x96177a9c, 0xb410ff61, 0xf20015ad));
    WordBytes(0xba7816bf, 0xba, 0x78, 0x16, 0xbf);
    WordBytes(0x8f01cfea, 0x8f, 0x01, 0xcf, 0xea);
    WordBytes(0x414140de, 0x41, 0x41, 0x40, 0xde);
    WordBytes(0x5dae2223, 0x5d, 0xae, 0x22, 0x23);
    WordBytes(0xb00361a3, 0xb0, 0x03, 0x61, 0xa3);
    WordBytes(0x96177a9c, 0x96, 0x17, 0x7a, 0x9c);
    WordBytes(0xb410ff61, 0xb4, 0x10, 0xff, 0x61);
    WordBytes(0xf20015ad, 0xf2, 0x00, 0x15, 0xad);
  }

  lemma WordBytes(x: bv32, a: byte, b: byte, c: byte, d: byte)
    requires S.ByteOf(x, 24) == a && S.ByteOf(x, 16) == b && S.ByteOf(x, 8) == c && S.ByteOf(x, 0) == d
    ensures S.ToBytes(x) == [a, b, c, d]
  {
  }

  lemma OutputIs(v: S.Hash)
    ensures S.Output(v) == S.ToBytes(v.a) + S.ToBytes(v.b) + S.ToBytes(v.c) + S.ToBytes(v.d)
                         + S.ToBytes(v.e) + S.ToBytes(v.f) + S.ToBytes(v.g) + S.ToBytes(v.h)
  {
    hide S.ToBytes;
    var s := S.Words(v);
    assert s[..8] == s && s[..8][..7] == s[..7] && s[..7][..6] == s[..6] && s[..6][..5] == s[..5] && s[..5][..4] == s[..4];
    assert s[..4][..3] == s[..3] && s[..3][..2] == s[..2] && s[..2][..1] == s[..1] && s[..1][..0] == [];
    assert S.Joined(s[..1]) == S.ToBytes(v.a);
    assert S.Joined(s[..2]) == S.Joined(s[..1]) + S.ToBytes(v.b);
    assert S.Joined(s[..3]) == S.Joined(s[..2]) + S.ToBytes(v.c);
    assert S.Joined(s[..4]) == S.Joined(s[..3]) + S.ToBytes(v.d);
    assert S.Joined(s[..5]) == S.Joined(s[..4]) + S.ToBytes(v.e);
    assert S.Joined(s[..6]) == S.Joined(s[..5]) + S.ToBytes(v.f);
    assert S.Joined(s[..7]) == S.Joined(s[..6]) + S.ToBytes(v.g);
  }
}
