/** BLAKE2b of the 128 bytes 0 to 127, as the reference implementation of RFC 7693 gives it:
    the definition run on one block, whose sixteen words are all different. */
module PublishedBlake2b {
  import opened Wrappers
  import opened Blake2b
  import Digest

  // ----- the words of the message -----

  function Ramp(): (r: seq<byte>)
    ensures |r| == 128 && forall i | 0 <= i < 128 :: r[i] == i
  {
    seq(128, i requires 0 <= i < 128 => i)
  }

  function Shifted(b: byte, rest: word): word { Xor(b as bv64, rest << 8) }

  lemma LeStep(b: byte, rest: seq<byte>)
    ensures FromLe([b] + rest) == Shifted(b, FromLe(rest))
  {
    assert ([b] + rest)[1..] == rest;
  }

  lemma WordOf(b: seq<byte>, b0: byte, b1: byte, b2: byte, b3: byte, b4: byte, b5: byte, b6: byte, b7: byte, w: word)
    requires b == [b0, b1, b2, b3] + [b4, b5, b6, b7]
    requires w == Shifted(b0, Shifted(b1, Shifted(b2, Shifted(b3, Shifted(b4, Shifted(b5, Shifted(b6, Shifted(b7, 0))))))))
    ensures FromLe(b) == w
  {
    hide Shifted, FromLe;
    assert b == [b0] + b[1..] && b[1..] == [b1] + b[2..] && b[2..] == [b2] + b[3..] && b[3..] == [b3] + b[4..];
    assert b[4..] == [b4] + b[5..] && b[5..] == [b5] + b[6..] && b[6..] == [b6] + b[7..] && b[7..] == [b7] + [];
    LeStep(b0, b[1..]);
    LeStep(b1, b[2..]);
    LeStep(b2, b[3..]);
    LeStep(b3, b[4..]);
    LeStep(b4, b[5..]);
    LeStep(b5, b[6..]);
    LeStep(b6, b[7..]);
    LeStep(b7, []);
    NoBytes();
  }

  lemma NoBytes()
    ensures FromLe([]) == 0
  {
  }

  lemma {:induction false} WordAt(block: seq<byte>, n: nat, i: nat)
    requires 8 * n <= |block| && i < n
    ensures MessageWords(block, n)[i] == FromLe(block[8 * i..8 * i + 8])
    decreases n
  {
    hide FromLe;
    if i + 1 < n {
      WordAt(block, n - 1, i);
    }
  }

  const MESSAGE: seq<word> :=
     [0x0706050403020100, 0x0f0e0d0c0b0a0908, 0x1716151413121110, 0x1f1e1d1c1b1a1918] +
     [0x2726252423222120, 0x2f2e2d2c2b2a2928, 0x3736353433323130, 0x3f3e3d3c3b3a3938] +
     [0x4746454443424140, 0x4f4e4d4c4b4a4948, 0x5756555453525150, 0x5f5e5d5c5b5a5958] +
     [0x6766656463626160, 0x6f6e6d6c6b6a6968, 0x7776757473727170, 0x7f7e7d7c7b7a7978]

  lemma RampWords0()
    ensures FromLe(Ramp()[0..8]) == 0x0706050403020100 && FromLe(Ramp()[8..16]) == 0x0f0e0d0c0b0a0908
  {
    hide FromLe;
    WordOf(Ramp()[0..8], 0, 1, 2, 3, 4, 5, 6, 7, 0x0706050403020100);
    WordOf(Ramp()[8..16], 8, 9, 10, 11, 12, 13, 14, 15, 0x0f0e0d0c0b0a0908);
  }

  lemma RampWords2()
    ensures FromLe(Ramp()[16..24]) == 0x1716151413121110 && FromLe(Ramp()[24..32]) == 0x1f1e1d1c1b1a1918
  {
    hide FromLe;
    WordOf(Ramp()[16..24], 16, 17, 18, 19, 20, 21, 22, 23, 0x1716151413121110);
    WordOf(Ramp()[24..32], 24, 25, 26, 27, 28, 29, 30, 31, 0x1f1e1d1c1b1a1918);
  }

  lemma RampWords4()
    ensures FromLe(Ramp()[32..40]) == 0x2726252423222120 && FromLe(Ramp()[40..48]) == 0x2f2e2d2c2b2a2928
  {
    hide FromLe;
    WordOf(Ramp()[32..40], 32, 33, 34, 35, 36, 37, 38, 39, 0x2726252423222120);
    WordOf(Ramp()[40..48], 40, 41, 42, 43, 44, 45, 46, 47, 0x2f2e2d2c2b2a2928);
  }

  lemma RampWords6()
    ensures FromLe(Ramp()[48..56]) == 0x3736353433323130 && FromLe(Ramp()[56..64]) == 0x3f3e3d3c3b3a3938
  {
    hide FromLe;
    WordOf(Ramp()[48..56], 48, 49, 50, 51, 52, 53, 54, 55, 0x3736353433323130);
    WordOf(Ramp()[56..64], 56, 57, 58, 59, 60, 61, 62, 63, 0x3f3e3d3c3b3a3938);
  }

  lemma RampWords8()
    ensures FromLe(Ramp()[64..72]) == 0x4746454443424140 && FromLe(Ramp()[72..80]) == 0x4f4e4d4c4b4a4948
  {
    hide FromLe;
    WordOf(Ramp()[64..72], 64, 65, 66, 67, 68, 69, 70, 71, 0x4746454443424140);
    WordOf(Ramp()[72..80], 72, 73, 74, 75, 76, 77, 78, 79, 0x4f4e4d4c4b4a4948);
  }

  lemma RampWords10()
    ensures FromLe(Ramp()[80..88]) == 0x5756555453525150 && FromLe(Ramp()[88..96]) == 0x5f5e5d5c5b5a5958
  {
    hide FromLe;
    WordOf(Ramp()[80..88], 80, 81, 82, 83, 84, 85, 86, 87, 0x5756555453525150);
    WordOf(Ramp()[88..96], 88, 89, 90, 91, 92, 93, 94, 95, 0x5f5e5d5c5b5a5958);
  }

  lemma RampWords12()
    ensures FromLe(Ramp()[96..104]) == 0x6766656463626160 && FromLe(Ramp()[104..112]) == 0x6f6e6d6c6b6a6968
  {
    hide FromLe;
    WordOf(Ramp()[96..104], 96, 97, 98, 99, 100, 101, 102, 103, 0x6766656463626160);
    WordOf(Ramp()[104..112], 104, 105, 106, 107, 108, 109, 110, 111, 0x6f6e6d6c6b6a6968);
  }

  lemma RampWords14()
    ensures FromLe(Ramp()[112..120]) == 0x7776757473727170 && FromLe(Ramp()[120..128]) == 0x7f7e7d7c7b7a7978
  {
    hide FromLe;
    WordOf(Ramp()[112..120], 112, 113, 114, 115, 116, 117, 118, 119, 0x7776757473727170);
    WordOf(Ramp()[120..128], 120, 121, 122, 123, 124, 125, 126, 127, 0x7f7e7d7c7b7a7978);
  }

  lemma RampWords()
    ensures MessageWords(Ramp(), 16) == MESSAGE
  {
    hide FromLe, MessageWords;
    RampWords0();
    RampWords2();
    RampWords4();
    RampWords6();
    RampWords8();
    RampWords10();
    RampWords12();
    RampWords14();
    WordAt(Ramp(), 16, 0);
    WordAt(Ramp(), 16, 1);
    WordAt(Ramp(), 16, 2);
    WordAt(Ramp(), 16, 3);
    WordAt(Ramp(), 16, 4);
    WordAt(Ramp(), 16, 5);
    WordAt(Ramp(), 16, 6);
    WordAt(Ramp(), 16, 7);
    WordAt(Ramp(), 16, 8);
    WordAt(Ramp(), 16, 9);
    WordAt(Ramp(), 16, 10);
    WordAt(Ramp(), 16, 11);
    WordAt(Ramp(), 16, 12);
    WordAt(Ramp(), 16, 13);
    WordAt(Ramp(), 16, 14);
    WordAt(Ramp(), 16, 15);
  }

  // ----- the rounds -----

  datatype Quad<T> = Quad(a: T, b: T, c: T, d: T)

  function Picked<T>(v: seq<T>, a: nat, b: nat, c: nat, d: nat): Quad<T>
    requires |v| == 16 && a < 16 && b < 16 && c < 16 && d < 16
  {
    Quad(v[a], v[b], v[c], v[d])
  }

  function Put<T>(v: seq<T>, a: nat, b: nat, c: nat, d: nat, q: Quad<T>): (r: seq<T>)
    requires |v| == 16 && a < 16 && b < 16 && c < 16 && d < 16
    ensures |r| == 16
  {
    v[a := q.a][d := q.d][c := q.c][b := q.b]
  }

  /** What is put at four places leaves four others. */
  lemma PutElsewhere<T>(v: seq<T>, a: nat, b: nat, c: nat, d: nat, q: Quad<T>, e: nat, f: nat, g: nat, h: nat)
    requires |v| == 16 && a < 16 && b < 16 && c < 16 && d < 16 && e < 16 && f < 16 && g < 16 && h < 16
    requires {a, b, c, d} !! {e, f, g, h}
    ensures Picked(Put(v, a, b, c, d, q), e, f, g, h) == Picked(v, e, f, g, h)
  {
    assert e in {e, f, g, h} && f in {e, f, g, h} && g in {e, f, g, h} && h in {e, f, g, h};
    assert a in {a, b, c, d} && b in {a, b, c, d} && c in {a, b, c, d} && d in {a, b, c, d};
  }

  lemma ColumnsPut<T>(v: seq<T>, r0: Quad<T>, r1: Quad<T>, r2: Quad<T>, r3: Quad<T>)
    requires |v| == 16
    ensures Put(Put(Put(Put(v, 0, 4, 8, 12, r0), 1, 5, 9, 13, r1), 2, 6, 10, 14, r2), 3, 7, 11, 15, r3) ==
            [r0.a, r1.a, r2.a, r3.a] + [r0.b, r1.b, r2.b, r3.b] + [r0.c, r1.c, r2.c, r3.c] + [r0.d, r1.d, r2.d, r3.d]
  {
  }

  lemma DiagonalsPut<T>(v: seq<T>, r0: Quad<T>, r1: Quad<T>, r2: Quad<T>, r3: Quad<T>)
    requires |v| == 16
    ensures Put(Put(Put(Put(v, 0, 5, 10, 15, r0), 1, 6, 11, 12, r1), 2, 7, 8, 13, r2), 3, 4, 9, 14, r3) ==
            [r0.a, r1.a, r2.a, r3.a] + [r3.b, r0.b, r1.b, r2.b] + [r2.c, r3.c, r0.c, r1.c] + [r1.d, r2.d, r3.d, r0.d]
  {
  }

  /** What one half of the mixing function makes of four words. */
  function Half(q: Quad<word>, x: word, first: nat, second: nat): Quad<word>
    requires first < 64 && second < 64
  {
    var a := Plus(Plus(q.a, q.b), x);
    var d := Rotated(Xor(q.d, a), first);
    var c := Plus(q.c, d);
    Quad(a, Rotated(Xor(q.b, c), second), c, d)
  }

  function MixQuad(q: Quad<word>, x: word, y: word): Quad<word> { Half(Half(q, x, 32, 24), y, 16, 63) }

  lemma Mixed(v: seq<word>, a: nat, b: nat, c: nat, d: nat, x: word, y: word)
    requires |v| == 16 && a < 16 && b < 16 && c < 16 && d < 16
    ensures Mix(v, a, b, c, d, x, y) == Put(v, a, b, c, d, MixQuad(Picked(v, a, b, c, d), x, y))
  {
  }

  /** Two message words, for one use of the mixing function. */
  datatype Two = Two(x: word, y: word)

  lemma ColumnsMixed(v: seq<word>, m: seq<word>, s: seq<nat>, m0: Two, m1: Two, m2: Two, m3: Two,
                     r0: Quad<word>, r1: Quad<word>, r2: Quad<word>, r3: Quad<word>)
    requires |v| == 16 && |m| == 16 && Sixteen(s)
    requires m0 == Two(m[s[0]], m[s[1]]) && m1 == Two(m[s[2]], m[s[3]])
    requires m2 == Two(m[s[4]], m[s[5]]) && m3 == Two(m[s[6]], m[s[7]])
    requires MixQuad(Picked(v, 0, 4, 8, 12), m0.x, m0.y) == r0
    requires MixQuad(Picked(v, 1, 5, 9, 13), m1.x, m1.y) == r1
    requires MixQuad(Picked(v, 2, 6, 10, 14), m2.x, m2.y) == r2
    requires MixQuad(Picked(v, 3, 7, 11, 15), m3.x, m3.y) == r3
    ensures Columns(v, m, s) == [r0.a, r1.a, r2.a, r3.a] + [r0.b, r1.b, r2.b, r3.b]
                              + [r0.c, r1.c, r2.c, r3.c] + [r0.d, r1.d, r2.d, r3.d]
  {
    hide Mix, MixQuad, Put, Picked;
    var v0 := Put(v, 0, 4, 8, 12, r0);
    var v1 := Put(v0, 1, 5, 9, 13, r1);
    var v2 := Put(v1, 2, 6, 10, 14, r2);
    Mixed(v, 0, 4, 8, 12, m0.x, m0.y);
    PutElsewhere(v, 0, 4, 8, 12, r0, 1, 5, 9, 13);
    Mixed(v0, 1, 5, 9, 13, m1.x, m1.y);
    PutElsewhere(v, 0, 4, 8, 12, r0, 2, 6, 10, 14);
    PutElsewhere(v0, 1, 5, 9, 13, r1, 2, 6, 10, 14);
    Mixed(v1, 2, 6, 10, 14, m2.x, m2.y);
    PutElsewhere(v, 0, 4, 8, 12, r0, 3, 7, 11, 15);
    PutElsewhere(v0, 1, 5, 9, 13, r1, 3, 7, 11, 15);
    PutElsewhere(v1, 2, 6, 10, 14, r2, 3, 7, 11, 15);
    Mixed(v2, 3, 7, 11, 15, m3.x, m3.y);
    ColumnsPut(v, r0, r1, r2, r3);
  }

  lemma DiagonalsMixed(v: seq<word>, m: seq<word>, s: seq<nat>, m0: Two, m1: Two, m2: Two, m3: Two,
                       r0: Quad<word>, r1: Quad<word>, r2: Quad<word>, r3: Quad<word>)
    requires |v| == 16 && |m| == 16 && Sixteen(s)
    requires m0 == Two(m[s[8]], m[s[9]]) && m1 == Two(m[s[10]], m[s[11]])
    requires m2 == Two(m[s[12]], m[s[13]]) && m3 == Two(m[s[14]], m[s[15]])
    requires MixQuad(Picked(v, 0, 5, 10, 15), m0.x, m0.y) == r0
    requires MixQuad(Picked(v, 1, 6, 11, 12), m1.x, m1.y) == r1
    requires MixQuad(Picked(v, 2, 7, 8, 13), m2.x, m2.y) == r2
    requires MixQuad(Picked(v, 3, 4, 9, 14), m3.x, m3.y) == r3
    ensures Diagonals(v, m, s) == [r0.a, r1.a, r2.a, r3.a] + [r3.b, r0.b, r1.b, r2.b]
                                + [r2.c, r3.c, r0.c, r1.c] + [r1.d, r2.d, r3.d, r0.d]
  {
    hide Mix, MixQuad, Put, Picked;
    var v0 := Put(v, 0, 5, 10, 15, r0);
    var v1 := Put(v0, 1, 6, 11, 12, r1);
    var v2 := Put(v1, 2, 7, 8, 13, r2);
    Mixed(v, 0, 5, 10, 15, m0.x, m0.y);
    PutElsewhere(v, 0, 5, 10, 15, r0, 1, 6, 11, 12);
    Mixed(v0, 1, 6, 11, 12, m1.x, m1.y);
    PutElsewhere(v, 0, 5, 10, 15, r0, 2, 7, 8, 13);
    PutElsewhere(v0, 1, 6, 11, 12, r1, 2, 7, 8, 13);
    Mixed(v1, 2, 7, 8, 13, m2.x, m2.y);
    PutElsewhere(v, 0, 5, 10, 15, r0, 3, 4, 9, 14);
    PutElsewhere(v0, 1, 6, 11, 12, r1, 3, 4, 9, 14);
    PutElsewhere(v1, 2, 7, 8, 13, r2, 3, 4, 9, 14);
    Mixed(v2, 3, 4, 9, 14, m3.x, m3.y);
    DiagonalsPut(v, r0, r1, r2, r3);
  }

  const STATE0: seq<word> :=
     [0x6a09e667f2bdc948, 0xbb67ae8584caa73b, 0x3c6ef372fe94f82b, 0xa54ff53a5f1d36f1] +
     [0x510e527fade682d1, 0x9b05688c2b3e6c1f, 0x1f83d9abfb41bd6b, 0x5be0cd19137e2179] +
     [0x6a09e667f3bcc908, 0xbb67ae8584caa73b, 0x3c6ef372fe94f82b, 0xa54ff53a5f1d36f1] +
     [0x510e527fade68251, 0x9b05688c2b3e6c1f, 0xe07c265404be4294, 0x5be0cd19137e2179]

  const MIDDLE0: seq<word> :=
     [0xfce69820f398254c, 0xfb29447a67d3b4d2, 0x6ab848ba7e813e78, 0x54f62acbc45ac7a3] +
     [0xd133caff35a4ac1f, 0xf51fe27e1dfc14d3, 0x0eaba7be119fa97b, 0x0822ecc94f3e3b75] +
     [0xc323a856de359924, 0x94080a0787607d39, 0x3f24fa943e91ea27, 0x5941806344cc196b] +
     [0x4ad8f2a657686088, 0xf07b130c0c0f9155, 0xea6f72fedc981de5, 0xfd3de2458228a7dc]

  const STATE1: seq<word> :=
     [0x87ee2c12dc562ac5, 0xe0ef8de36d08cf56, 0x97c8855d0faaeafc, 0xa859ce50aab48074] +
     [0xa93bf237e8feab7e, 0xe5a86d979f4273d4, 0xa21c4881eebdabe2, 0x5ae5c0bb4957ddbe] +
     [0x636a9d55d7b54898, 0xdfa71c8f35b77475, 0x8d872828f3945ff4, 0x716bcabab3b61390] +
     [0x7c7c7b4242f646fb, 0x6318aae6cf452590, 0x99b519b03687dd7b, 0x77635110f0911827]

  const MIDDLE1: seq<word> :=
     [0x6c91d4882c864247, 0x5491a03dd9e3a3e5, 0xb07b0656655a6188, 0x7d0178284913c5ba] +
     [0xc99ebc96447f0157, 0xedc252f382ed50d1, 0x9032b2f53e11bf03, 0xb276764baee1824a] +
     [0x8855b53f825329ef, 0xe96c1323a6455633, 0x6fd034d43f25d86b, 0x8a267d5e611a0dd5] +
     [0xaaba16a0d5c0f85a, 0x299cb4b9e1e75745, 0x6313cf4e3b0b75dc, 0x68d2d2e6a7954cdd]

  const STATE2: seq<word> :=
     [0x0cb6b74c99372042, 0x9ec3dd149ab55a94, 0xc8a393df5c3a5b22, 0xf0f1ffab90fca84a] +
     [0x502f19d714a82802, 0xd064149fa7beeb22, 0xed04099b0b35bb5b, 0x1472344dad7d57bf] +
     [0x4d2c668267d74f1f, 0x74120c4f37718af8, 0x53dc172fa8885753, 0x6d616b04e9313831] +
     [0x140351f446a6dbc5, 0x366546d2f9b0b7e9, 0x06ee73467a4e8621, 0xc623115e67b19887]

  const MIDDLE2: seq<word> :=
     [0xba7105913174ede0, 0xc00c3c1cc4e278d5, 0xed96488c5a858036, 0x83e10241fad7296f] +
     [0x330c8e0cd63cd985, 0xb7c0b372b26c20e9, 0x0e597a4d9e2bcce1, 0xb6c895dfb485ade8] +
     [0x2f60d6ca8fe767c6, 0x3997b9b9453fc0cb, 0x7686d5f77bccc9f1, 0xd4eba9b00f3a9072] +
     [0x9294f5ee7fc89933, 0x691f9c6a2ce32409, 0x39d60542f108b8be, 0x89445da4e347b816]

  const STATE3: seq<word> :=
     [0x363b88c9e5c34597, 0x9f3444934666700e, 0xdeed88d524df660c, 0x3ea223d521a0a4af] +
     [0x644b464b7d490145, 0x28b529566c856de5, 0xae9256b5096820b6, 0x372f64aa54f6d097] +
     [0x77d5d275e5f49de5, 0xa36582305c84b7f1, 0x616790560d5fc2fc, 0x2d33108211bff04b] +
     [0x56669ed4836e3971, 0xe1ceb84bcb8aae5d, 0x7c76d3f4d7571e4d, 0x166be24f50c6a50f]

  const MIDDLE3: seq<word> :=
     [0xfa44898e9f5e5964, 0xbe9c72921b02d022, 0xf495fa79d93c5a0e, 0x41cda3e98a7cf98f] +
     [0x63a2b96e269da2df, 0x89ce98339dc1b20a, 0xca34e25cfc7d664d, 0xb342eb2fb0c9f12c] +
     [0x60e07347a6834167, 0x8c6196998f12090a, 0x755b3930a216bba2, 0xac863d0e9d7c4117] +
     [0xcbe1e76c30eb10fd, 0xe36cbb132bc41dcb, 0xc50cba73141e59a4, 0xfe1bc0fac8784938]

  const STATE4: seq<word> :=
     [0x5a63308eee7a9248, 0xf7169b44896ad6cc, 0xb50779263e3a64be, 0xd6008ebfbe33097c] +
     [0x8e077f9efb54f7a8, 0xf41328480c08f319, 0x6a87a4083d4f73ce, 0xc45ee32ea583e314] +
     [0xbd2d18c3dcce06ee, 0x2ec8d16833f1c982, 0x720a50a06d123d16, 0xd28311d0edc99c02] +
     [0xb3bb8557d42ef574, 0xd56033eb08b713a9, 0x69dbee8bc2fd5fd1, 0x6464c22965c88b48]

  const MIDDLE4: seq<word> :=
     [0xc447b58e9b5c62d3, 0x7b15f9f7dc727154, 0x3c35693ba860f0ad, 0x8a76be204caf0e7e] +
     [0x79d5af212fa621c2, 0x1309529df9cdca2b, 0x697ecd2ab555ea18, 0x5230b0a32c105b9b] +
     [0xb9626480f4939e7a, 0xa8fb654c1c7ca01a, 0xead57741ac0810fd, 0xb05a21308c237aeb] +
     [0x1afe257093c21f5f, 0xb207b33f19531345, 0x2c647053df76f71e, 0x0b1558b70888d97e]

  const STATE5: seq<word> :=
     [0x75d1c3a6f493737e, 0x10eb6b299486f774, 0x4ca3d1e1ad47dbf8, 0xc094e252c36665c4] +
     [0x7ac88d2e8e59ab29, 0xad5c19dd2cf856b8, 0x8049b723c3c551a8, 0x7fcc31309cdcd184] +
     [0x002725122c0c7582, 0x90dfac1f87a06690, 0x415234177690e754, 0x25b53ad7a5e34984] +
     [0xf67a6e0bc0b2cd8b, 0x27d45253bfdcdadc, 0x9fca888d5c14cc68, 0x566875c584b6b141]

  const MIDDLE5: seq<word> :=
     [0xfe41187db6ebf2aa, 0xfeec5100594c4e22, 0x400e5c4ef70b83f9, 0x156c7816e3d5238b] +
     [0x832ffee74b3b522d, 0x61028ca6bf054f50, 0xc4ae1c394de2aa17, 0x6baa6a6419487296] +
     [0x4ebdb25c1817c885, 0x829907224ecadade, 0xeeeb7ef58150a90a, 0x5b7237012991a8a0] +
     [0xf948ab0cfa414721, 0xa64bb581f4808be5, 0x857d6815be86bb32, 0x0e89325fb1df321a]

  const STATE6: seq<word> :=
     [0x2ac6a92bb9c11d37, 0xf506e6594244c601, 0x7f765f49a6053c33, 0x908da1da9f98bb42] +
     [0x8e0c63439ff0eeed, 0x907346ef6e3f05ef, 0xf027286f0334110b, 0x8ec217a5d9f77e20] +
     [0x9ba9ae774a3fe5ac, 0x5e92e125d5cb844c, 0xfcd7d201025cd242, 0x3b139a80b52b63ed] +
     [0xc778ed2e9009b9d4, 0xcd9d0038a4ab2b79, 0x575d14116428bd4f, 0xe520020af82b3121]

  const MIDDLE6: seq<word> :=
     [0xc0d3e346b420225a, 0xf3c20fbf01ae96b0, 0xf62ce01f0613b5c7, 0x140aef0a5f162d53] +
     [0xec0669a146ecbb49, 0xea5b34c3ab72be67, 0x9bf8222fd6aff8d4, 0xcf299b4d64757abf] +
     [0x876f70966897d60a, 0x2a96cd8c1f1f1773, 0xd256649296aa71db, 0x91aa76b7dd2b3cde] +
     [0xbea7edce37165361, 0xacdcece4f03e58bb, 0x5cfb8eafe3feb65d, 0xf1fd709384a9fc43]

  const STATE7: seq<word> :=
     [0xf1d4799d6685f26a, 0x134da394efd37c4f, 0xa63bb6cf3deecc23, 0xce47f62598a42fb0] +
     [0xaba591a1e0d6038e, 0xb1d70d59ec49a768, 0xd3d84a1a99d9fb99, 0x9eb959c19b867d73] +
     [0xb5dc75e2b8ca7ffc, 0x72433209a46fadbb, 0x588a99fe3e9204c5, 0xc4d33a5885c45f4f] +
     [0xf6a22fcb30419784, 0xe87fe3d697ba8596, 0x3cf0c4fc69a48308, 0x9ff717e9641f254d]

  const MIDDLE7: seq<word> :=
     [0x2f1ba89bcfd01f0b, 0x40f633e270d0a8db, 0xb5e561d308433ba9, 0x061504be30d31e85] +
     [0x84367defa476d54a, 0xba9637bb3a5d05f2, 0x02d58a0a4bd4e98b, 0xfc7202e62e61e4ec] +
     [0x80cfec6413940cf6, 0x9857cb9f7b285885, 0x44362b7de7e47d40, 0x549e4b1d8174fd74] +
     [0x486bad9c607f359a, 0xa526c01bea9b9ccd, 0x991be76acbc7d5c9, 0x646f2d4ee7c8233b]

  const STATE8: seq<word> :=
     [0x4e8212337c087683, 0x2cee433b83459545, 0x5f661019ec052d63, 0xccd46756018fb046] +
     [0x51fbec755804b265, 0x877f962b401f7394, 0xe5a0397b442de915, 0xec810afec7757b88] +
     [0x58d2b5975d51279a, 0x7ce18c0569e30325, 0x6d2434b9e3a09e94, 0xb0adfe138a159ccd] +
     [0x03b074b17d7f0864, 0x4485cc1aed01b0be, 0xc0edef4fb64039f5, 0x564e9c1d7f2d0087]

  const MIDDLE8: seq<word> :=
     [0xa91014dc6b9e34f9, 0xd7290f0749e29b2a, 0xc7840b5cf85b2cf4, 0x6695572c686a11f5] +
     [0x2eeb71cd3e249f92, 0x52aa2246b1e8f7e0, 0x287b84cfe8204250, 0x00f5352785624aec] +
     [0x46a8db6477f62ea0, 0x72a363fc9f34ac69, 0x103c8528a5a38524, 0x5e89001c9b918691] +
     [0x7395d35046a0bf9a, 0x19eb0cffc5f02683, 0x654afa495d799cd2, 0xfab0d5bf7b65fe7f]

  const STATE9: seq<word> :=
     [0x55706df4f6d2c8d7, 0xe66c32920624db6a, 0xfee85647c19e99cb, 0x12154ab3fc7efb15] +
     [0x80848f6c55f5928d, 0xad0230647c622820, 0xf795864952fe502c, 0xd97fac464674ef84] +
     [0x6c8535b0368e8001, 0x364db88ffd890650, 0x8db8a46b5ce63d9e, 0x43d0373684027346] +
     [0x09793da1cbea1aa2, 0xd8a4b3dff02c0ff2, 0x1f11b68dd4b675e3, 0x81efaefc1db26f42]

  const MIDDLE9: seq<word> :=
     [0x79df0022a49167d3, 0xfce4e3201a1f096d, 0xdaaf41e00f86d334, 0x65c2f57fd9a07c82] +
     [0xa882cb5dc3238b6f, 0x0b63b2112d05338f, 0x90659fb6257ad9b9, 0xa2d39bd411273d2a] +
     [0xe13cfdf610f56fb8, 0x7ebbccc9a7b13a44, 0xa58e3d059ec01209, 0x6a9809a768ebc12c] +
     [0x08c7122fb63480a3, 0x1288c901a818180f, 0x7c7441ce172c252b, 0xd678358d699ca2ec]

  const STATE10: seq<word> :=
     [0xe03f56ce20ac9b8e, 0x8569c5ce0b8060f6, 0x3ea6040c7ddf4664, 0xd6dcda83481ad8c3] +
     [0x0e4e985e09112b90, 0x6fa0fc5c5466660e, 0xf67de03356cd4000, 0xa0b8fe64144e581d] +
     [0xeac2dce5d4939780, 0x5505eb1a3862f3a2, 0x4bcfb7ef52721e5b, 0x4a64702ea64f6318] +
     [0xa2fbb9b96903dfdf, 0x75b5ad763575f3f7, 0xb747c9de8ef149da, 0x81b3c4b2e0f8f215]

  const MIDDLE10: seq<word> :=
     [0xef709a7a6836ca48, 0xc94ad94dc1fd9311, 0x3e174ec3953f4e17, 0x6f8027713bd3f309] +
     [0xa51c0c9b13b7ba8a, 0x37ce826d2e9b0f6e, 0xc24dea8b58b64043, 0xe43bba1dfb7a2b58] +
     [0xb8409f73b9b72467, 0x85eca5c5a4a72652, 0x53b9ed76de1d5d4a, 0xf36801178d43426d] +
     [0x87c1aacc8dbb3f5e, 0xe9598ec7f2aeb868, 0x8eaa4728a09d7e32, 0x39a000e3b77414ac]

  const STATE11: seq<word> :=
     [0x97a32c6efcd82059, 0x0a03839f325818a6, 0xdb578d0d2d3e4b18, 0xe33f974a8a83062f] +
     [0x0ef3f03da3a3e102, 0xb4c914c5001da029, 0x8bb6178bc441aedc, 0x117edd498ff4a84d] +
     [0x6a90dffe0a4252c7, 0xd0d788539ddb9d35, 0x03abf69457776c0f, 0x826d06d08ad74dc4] +
     [0xab47e9be98655776, 0xab9adde2efaa4dde, 0xe887815cf67b883b, 0x4291fac32234abfd]

  const MIDDLE11: seq<word> :=
     [0xa4934c6e57364a37, 0x8b96b90c74e25d1b, 0x484c83a7a41acd26, 0xfc31e16ff633e952] +
     [0x11d6a0598d2a6dfc, 0x2db7f01f8b12f38b, 0x331ea1ba2a458ff9, 0xf637a9d464292e56] +
     [0x27c434d42960b0e2, 0xc8864e3019813829, 0x8bfd4498fef4d78e, 0x1bd51ed10f0b3715] +
     [0x31a82f1869d3e27c, 0x3d7131ab2d3d3a8a, 0xbd9f82fd48a0fac6, 0xf1915be75d76d08e]

  const STATE12: seq<word> :=
     [0xf6d9360fe5e06aae, 0x37f993b386c67f4d, 0xba62cb94eee374b9, 0x5c5e99d1420b52a5] +
     [0x5aaa9dd00bc93f88, 0x35d54d904a443b60, 0x588e73d2e6e1352b, 0x36e128e87f68b8d1] +
     [0x463297f46fbebac5, 0x2d5c83577d8c26d3, 0xb4f321d9b008df34, 0xf76f273da2fa1abc] +
     [0x0f9ffc039fdb72d5, 0xcfcaf4c1a5ca4e70, 0x7eadba76e361c2a2, 0x78d046fca04bf528]

  const ROW0: seq<nat> := [0, 1, 2, 3, 4, 5, 6, 7] + [8, 9, 10, 11, 12, 13, 14, 15]

  lemma SigmaRow0()
    ensures |SIGMA| == 10 && SIGMA[0] == ROW0
  {
  }

  const ROW1: seq<nat> := [14, 10, 4, 8, 9, 15, 13, 6] + [1, 12, 0, 2, 11, 7, 5, 3]

  lemma SigmaRow1()
    ensures |SIGMA| == 10 && SIGMA[1] == ROW1
  {
  }

  const ROW2: seq<nat> := [11, 8, 12, 0, 5, 2, 15, 13] + [10, 14, 3, 6, 7, 1, 9, 4]

  lemma SigmaRow2()
    ensures |SIGMA| == 10 && SIGMA[2] == ROW2
  {
  }

  const ROW3: seq<nat> := [7, 9, 3, 1, 13, 12, 11, 14] + [2, 6, 5, 10, 4, 0, 15, 8]

  lemma SigmaRow3()
    ensures |SIGMA| == 10 && SIGMA[3] == ROW3
  {
  }

  const ROW4: seq<nat> := [9, 0, 5, 7, 2, 4, 10, 15] + [14, 1, 11, 12, 6, 8, 3, 13]

  lemma SigmaRow4()
    ensures |SIGMA| == 10 && SIGMA[4] == ROW4
  {
  }

  const ROW5: seq<nat> := [2, 12, 6, 10, 0, 11, 8, 3] + [4, 13, 7, 5, 15, 14, 1, 9]

  lemma SigmaRow5()
    ensures |SIGMA| == 10 && SIGMA[5] == ROW5
  {
  }

  const ROW6: seq<nat> := [12, 5, 1, 15, 14, 13, 4, 10] + [0, 7, 6, 3, 9, 2, 8, 11]

  lemma SigmaRow6()
    ensures |SIGMA| == 10 && SIGMA[6] == ROW6
  {
  }

  const ROW7: seq<nat> := [13, 11, 7, 14, 12, 1, 3, 9] + [5, 0, 15, 4, 8, 6, 2, 10]

  lemma SigmaRow7()
    ensures |SIGMA| == 10 && SIGMA[7] == ROW7
  {
  }

  const ROW8: seq<nat> := [6, 15, 14, 9, 11, 3, 0, 8] + [12, 2, 13, 7, 1, 4, 10, 5]

  lemma SigmaRow8()
    ensures |SIGMA| == 10 && SIGMA[8] == ROW8
  {
  }

  const ROW9: seq<nat> := [10, 2, 8, 4, 7, 6, 1, 5] + [15, 11, 9, 14, 3, 12, 13, 0]

  lemma SigmaRow9()
    ensures |SIGMA| == 10 && SIGMA[9] == ROW9
  {
  }

  lemma ColumnsValues0()
    ensures MixQuad(Quad(0x6a09e667f2bdc948, 0x510e527fade682d1, 0x6a09e667f3bcc908, 0x510e527fade68251), 0x0706050403020100, 0x0f0e0d0c0b0a0908) ==
            Quad(0xfce69820f398254c, 0xd133caff35a4ac1f, 0xc323a856de359924, 0x4ad8f2a657686088)
    ensures MixQuad(Quad(0xbb67ae8584caa73b, 0x9b05688c2b3e6c1f, 0xbb67ae8584caa73b, 0x9b05688c2b3e6c1f), 0x1716151413121110, 0x1f1e1d1c1b1a1918) ==
            Quad(0xfb29447a67d3b4d2, 0xf51fe27e1dfc14d3, 0x94080a0787607d39, 0xf07b130c0c0f9155)
    ensures MixQuad(Quad(0x3c6ef372fe94f82b, 0x1f83d9abfb41bd6b, 0x3c6ef372fe94f82b, 0xe07c265404be4294), 0x2726252423222120, 0x2f2e2d2c2b2a2928) ==
            Quad(0x6ab848ba7e813e78, 0x0eaba7be119fa97b, 0x3f24fa943e91ea27, 0xea6f72fedc981de5)
    ensures MixQuad(Quad(0xa54ff53a5f1d36f1, 0x5be0cd19137e2179, 0xa54ff53a5f1d36f1, 0x5be0cd19137e2179), 0x3736353433323130, 0x3f3e3d3c3b3a3938) ==
            Quad(0x54f62acbc45ac7a3, 0x0822ecc94f3e3b75, 0x5941806344cc196b, 0xfd3de2458228a7dc)
  {
  }

  lemma Columns0()
    ensures Sixteen(ROW0) && Columns(STATE0, MESSAGE, ROW0) == MIDDLE0
  {
    hide MixQuad, Columns;
    ColumnsValues0();
    ColumnsMixed(STATE0, MESSAGE, ROW0,
          Two(0x0706050403020100, 0x0f0e0d0c0b0a0908),
          Two(0x1716151413121110, 0x1f1e1d1c1b1a1918),
          Two(0x2726252423222120, 0x2f2e2d2c2b2a2928),
          Two(0x3736353433323130, 0x3f3e3d3c3b3a3938),
          Quad(0xfce69820f398254c, 0xd133caff35a4ac1f, 0xc323a856de359924, 0x4ad8f2a657686088),
          Quad(0xfb29447a67d3b4d2, 0xf51fe27e1dfc14d3, 0x94080a0787607d39, 0xf07b130c0c0f9155),
          Quad(0x6ab848ba7e813e78, 0x0eaba7be119fa97b, 0x3f24fa943e91ea27, 0xea6f72fedc981de5),
          Quad(0x54f62acbc45ac7a3, 0x0822ecc94f3e3b75, 0x5941806344cc196b, 0xfd3de2458228a7dc));
  }

  lemma DiagonalsValues0()
    ensures MixQuad(Quad(0xfce69820f398254c, 0xf51fe27e1dfc14d3, 0x3f24fa943e91ea27, 0xfd3de2458228a7dc), 0x4746454443424140, 0x4f4e4d4c4b4a4948) ==
            Quad(0x87ee2c12dc562ac5, 0xe5a86d979f4273d4, 0x8d872828f3945ff4, 0x77635110f0911827)
    ensures MixQuad(Quad(0xfb29447a67d3b4d2, 0x0eaba7be119fa97b, 0x5941806344cc196b, 0x4ad8f2a657686088), 0x5756555453525150, 0x5f5e5d5c5b5a5958) ==
            Quad(0xe0ef8de36d08cf56, 0xa21c4881eebdabe2, 0x716bcabab3b61390, 0x7c7c7b4242f646fb)
    ensures MixQuad(Quad(0x6ab848ba7e813e78, 0x0822ecc94f3e3b75, 0xc323a856de359924, 0xf07b130c0c0f9155), 0x6766656463626160, 0x6f6e6d6c6b6a6968) ==
            Quad(0x97c8855d0faaeafc, 0x5ae5c0bb4957ddbe, 0x636a9d55d7b54898, 0x6318aae6cf452590)
    ensures MixQuad(Quad(0x54f62acbc45ac7a3, 0xd133caff35a4ac1f, 0x94080a0787607d39, 0xea6f72fedc981de5), 0x7776757473727170, 0x7f7e7d7c7b7a7978) ==
            Quad(0xa859ce50aab48074, 0xa93bf237e8feab7e, 0xdfa71c8f35b77475, 0x99b519b03687dd7b)
  {
  }

  lemma Diagonals0()
    ensures Sixteen(ROW0) && Diagonals(MIDDLE0, MESSAGE, ROW0) == STATE1
  {
    hide MixQuad, Diagonals;
    DiagonalsValues0();
    DiagonalsMixed(MIDDLE0, MESSAGE, ROW0,
          Two(0x4746454443424140, 0x4f4e4d4c4b4a4948),
          Two(0x5756555453525150, 0x5f5e5d5c5b5a5958),
          Two(0x6766656463626160, 0x6f6e6d6c6b6a6968),
          Two(0x7776757473727170, 0x7f7e7d7c7b7a7978),
          Quad(0x87ee2c12dc562ac5, 0xe5a86d979f4273d4, 0x8d872828f3945ff4, 0x77635110f0911827),
          Quad(0xe0ef8de36d08cf56, 0xa21c4881eebdabe2, 0x716bcabab3b61390, 0x7c7c7b4242f646fb),
          Quad(0x97c8855d0faaeafc, 0x5ae5c0bb4957ddbe, 0x636a9d55d7b54898, 0x6318aae6cf452590),
          Quad(0xa859ce50aab48074, 0xa93bf237e8feab7e, 0xdfa71c8f35b77475, 0x99b519b03687dd7b));
  }

  lemma ColumnsValues1()
    ensures MixQuad(Quad(0x87ee2c12dc562ac5, 0xa93bf237e8feab7e, 0x636a9d55d7b54898, 0x7c7c7b4242f646fb), 0x7776757473727170, 0x5756555453525150) ==
            Quad(0x6c91d4882c864247, 0xc99ebc96447f0157, 0x8855b53f825329ef, 0xaaba16a0d5c0f85a)
    ensures MixQuad(Quad(0xe0ef8de36d08cf56, 0xe5a86d979f4273d4, 0xdfa71c8f35b77475, 0x6318aae6cf452590), 0x2726252423222120, 0x4746454443424140) ==
            Quad(0x5491a03dd9e3a3e5, 0xedc252f382ed50d1, 0xe96c1323a6455633, 0x299cb4b9e1e75745)
    ensures MixQuad(Quad(0x97c8855d0faaeafc, 0xa21c4881eebdabe2, 0x8d872828f3945ff4, 0x99b519b03687dd7b), 0x4f4e4d4c4b4a4948, 0x7f7e7d7c7b7a7978) ==
            Quad(0xb07b0656655a6188, 0x9032b2f53e11bf03, 0x6fd034d43f25d86b, 0x6313cf4e3b0b75dc)
    ensures MixQuad(Quad(0xa859ce50aab48074, 0x5ae5c0bb4957ddbe, 0x716bcabab3b61390, 0x77635110f0911827), 0x6f6e6d6c6b6a6968, 0x3736353433323130) ==
            Quad(0x7d0178284913c5ba, 0xb276764baee1824a, 0x8a267d5e611a0dd5, 0x68d2d2e6a7954cdd)
  {
  }

  lemma Columns1()
    ensures Sixteen(ROW1) && Columns(STATE1, MESSAGE, ROW1) == MIDDLE1
  {
    hide MixQuad, Columns;
    ColumnsValues1();
    ColumnsMixed(STATE1, MESSAGE, ROW1,
          Two(0x7776757473727170, 0x5756555453525150),
          Two(0x2726252423222120, 0x4746454443424140),
          Two(0x4f4e4d4c4b4a4948, 0x7f7e7d7c7b7a7978),
          Two(0x6f6e6d6c6b6a6968, 0x3736353433323130),
          Quad(0x6c91d4882c864247, 0xc99ebc96447f0157, 0x8855b53f825329ef, 0xaaba16a0d5c0f85a),
          Quad(0x5491a03dd9e3a3e5, 0xedc252f382ed50d1, 0xe96c1323a6455633, 0x299cb4b9e1e75745),
          Quad(0xb07b0656655a6188, 0x9032b2f53e11bf03, 0x6fd034d43f25d86b, 0x6313cf4e3b0b75dc),
          Quad(0x7d0178284913c5ba, 0xb276764baee1824a, 0x8a267d5e611a0dd5, 0x68d2d2e6a7954cdd));
  }

  lemma DiagonalsValues1()
    ensures MixQuad(Quad(0x6c91d4882c864247, 0xedc252f382ed50d1, 0x6fd034d43f25d86b, 0x68d2d2e6a7954cdd), 0x0f0e0d0c0b0a0908, 0x6766656463626160) ==
            Quad(0x0cb6b74c99372042, 0xd064149fa7beeb22, 0x53dc172fa8885753, 0xc623115e67b19887)
    ensures MixQuad(Quad(0x5491a03dd9e3a3e5, 0x9032b2f53e11bf03, 0x8a267d5e611a0dd5, 0xaaba16a0d5c0f85a), 0x0706050403020100, 0x1716151413121110) ==
            Quad(0x9ec3dd149ab55a94, 0xed04099b0b35bb5b, 0x6d616b04e9313831, 0x140351f446a6dbc5)
    ensures MixQuad(Quad(0xb07b0656655a6188, 0xb276764baee1824a, 0x8855b53f825329ef, 0x299cb4b9e1e75745), 0x5f5e5d5c5b5a5958, 0x3f3e3d3c3b3a3938) ==
            Quad(0xc8a393df5c3a5b22, 0x1472344dad7d57bf, 0x4d2c668267d74f1f, 0x366546d2f9b0b7e9)
    ensures MixQuad(Quad(0x7d0178284913c5ba, 0xc99ebc96447f0157, 0xe96c1323a6455633, 0x6313cf4e3b0b75dc), 0x2f2e2d2c2b2a2928, 0x1f1e1d1c1b1a1918) ==
            Quad(0xf0f1ffab90fca84a, 0x502f19d714a82802, 0x74120c4f37718af8, 0x06ee73467a4e8621)
  {
  }

  lemma Diagonals1()
    ensures Sixteen(ROW1) && Diagonals(MIDDLE1, MESSAGE, ROW1) == STATE2
  {
    hide MixQuad, Diagonals;
    DiagonalsValues1();
    DiagonalsMixed(MIDDLE1, MESSAGE, ROW1,
          Two(0x0f0e0d0c0b0a0908, 0x6766656463626160),
          Two(0x0706050403020100, 0x1716151413121110),
          Two(0x5f5e5d5c5b5a5958, 0x3f3e3d3c3b3a3938),
          Two(0x2f2e2d2c2b2a2928, 0x1f1e1d1c1b1a1918),
          Quad(0x0cb6b74c99372042, 0xd064149fa7beeb22, 0x53dc172fa8885753, 0xc623115e67b19887),
          Quad(0x9ec3dd149ab55a94, 0xed04099b0b35bb5b, 0x6d616b04e9313831, 0x140351f446a6dbc5),
          Quad(0xc8a393df5c3a5b22, 0x1472344dad7d57bf, 0x4d2c668267d74f1f, 0x366546d2f9b0b7e9),
          Quad(0xf0f1ffab90fca84a, 0x502f19d714a82802, 0x74120c4f37718af8, 0x06ee73467a4e8621));
  }

  lemma ColumnsValues2()
    ensures MixQuad(Quad(0x0cb6b74c99372042, 0x502f19d714a82802, 0x4d2c668267d74f1f, 0x140351f446a6dbc5), 0x5f5e5d5c5b5a5958, 0x4746454443424140) ==
            Quad(0xba7105913174ede0, 0x330c8e0cd63cd985, 0x2f60d6ca8fe767c6, 0x9294f5ee7fc89933)
    ensures MixQuad(Quad(0x9ec3dd149ab55a94, 0xd064149fa7beeb22, 0x74120c4f37718af8, 0x366546d2f9b0b7e9), 0x6766656463626160, 0x0706050403020100) ==
            Quad(0xc00c3c1cc4e278d5, 0xb7c0b372b26c20e9, 0x3997b9b9453fc0cb, 0x691f9c6a2ce32409)
    ensures MixQuad(Quad(0xc8a393df5c3a5b22, 0xed04099b0b35bb5b, 0x53dc172fa8885753, 0x06ee73467a4e8621), 0x2f2e2d2c2b2a2928, 0x1716151413121110) ==
            Quad(0xed96488c5a858036, 0x0e597a4d9e2bcce1, 0x7686d5f77bccc9f1, 0x39d60542f108b8be)
    ensures MixQuad(Quad(0xf0f1ffab90fca84a, 0x1472344dad7d57bf, 0x6d616b04e9313831, 0xc623115e67b19887), 0x7f7e7d7c7b7a7978, 0x6f6e6d6c6b6a6968) ==
            Quad(0x83e10241fad7296f, 0xb6c895dfb485ade8, 0xd4eba9b00f3a9072, 0x89445da4e347b816)
  {
  }

  lemma Columns2()
    ensures Sixteen(ROW2) && Columns(STATE2, MESSAGE, ROW2) == MIDDLE2
  {
    hide MixQuad, Columns;
    ColumnsValues2();
    ColumnsMixed(STATE2, MESSAGE, ROW2,
          Two(0x5f5e5d5c5b5a5958, 0x4746454443424140),
          Two(0x6766656463626160, 0x0706050403020100),
          Two(0x2f2e2d2c2b2a2928, 0x1716151413121110),
          Two(0x7f7e7d7c7b7a7978, 0x6f6e6d6c6b6a6968),
          Quad(0xba7105913174ede0, 0x330c8e0cd63cd985, 0x2f60d6ca8fe767c6, 0x9294f5ee7fc89933),
          Quad(0xc00c3c1cc4e278d5, 0xb7c0b372b26c20e9, 0x3997b9b9453fc0cb, 0x691f9c6a2ce32409),
          Quad(0xed96488c5a858036, 0x0e597a4d9e2bcce1, 0x7686d5f77bccc9f1, 0x39d60542f108b8be),
          Quad(0x83e10241fad7296f, 0xb6c895dfb485ade8, 0xd4eba9b00f3a9072, 0x89445da4e347b816));
  }

  lemma DiagonalsValues2()
    ensures MixQuad(Quad(0xba7105913174ede0, 0xb7c0b372b26c20e9, 0x7686d5f77bccc9f1, 0x89445da4e347b816), 0x5756555453525150, 0x7776757473727170) ==
            Quad(0x363b88c9e5c34597, 0x28b529566c856de5, 0x616790560d5fc2fc, 0x166be24f50c6a50f)
    ensures MixQuad(Quad(0xc00c3c1cc4e278d5, 0x0e597a4d9e2bcce1, 0xd4eba9b00f3a9072, 0x9294f5ee7fc89933), 0x1f1e1d1c1b1a1918, 0x3736353433323130) ==
            Quad(0x9f3444934666700e, 0xae9256b5096820b6, 0x2d33108211bff04b, 0x56669ed4836e3971)
    ensures MixQuad(Quad(0xed96488c5a858036, 0xb6c895dfb485ade8, 0x2f60d6ca8fe767c6, 0x691f9c6a2ce32409), 0x3f3e3d3c3b3a3938, 0x0f0e0d0c0b0a0908) ==
            Quad(0xdeed88d524df660c, 0x372f64aa54f6d097, 0x77d5d275e5f49de5, 0xe1ceb84bcb8aae5d)
    ensures MixQuad(Quad(0x83e10241fad7296f, 0x330c8e0cd63cd985, 0x3997b9b9453fc0cb, 0x39d60542f108b8be), 0x4f4e4d4c4b4a4948, 0x2726252423222120) ==
            Quad(0x3ea223d521a0a4af, 0x644b464b7d490145, 0xa36582305c84b7f1, 0x7c76d3f4d7571e4d)
  {
  }

  lemma Diagonals2()
    ensures Sixteen(ROW2) && Diagonals(MIDDLE2, MESSAGE, ROW2) == STATE3
  {
    hide MixQuad, Diagonals;
    DiagonalsValues2();
    DiagonalsMixed(MIDDLE2, MESSAGE, ROW2,
          Two(0x5756555453525150, 0x7776757473727170),
          Two(0x1f1e1d1c1b1a1918, 0x3736353433323130),
          Two(0x3f3e3d3c3b3a3938, 0x0f0e0d0c0b0a0908),
          Two(0x4f4e4d4c4b4a4948, 0x2726252423222120),
          Quad(0x363b88c9e5c34597, 0x28b529566c856de5, 0x616790560d5fc2fc, 0x166be24f50c6a50f),
          Quad(0x9f3444934666700e, 0xae9256b5096820b6, 0x2d33108211bff04b, 0x56669ed4836e3971),
          Quad(0xdeed88d524df660c, 0x372f64aa54f6d097, 0x77d5d275e5f49de5, 0xe1ceb84bcb8aae5d),
          Quad(0x3ea223d521a0a4af, 0x644b464b7d490145, 0xa36582305c84b7f1, 0x7c76d3f4d7571e4d));
  }

  lemma ColumnsValues3()
    ensures MixQuad(Quad(0x363b88c9e5c34597, 0x644b464b7d490145, 0x77d5d275e5f49de5, 0x56669ed4836e3971), 0x3f3e3d3c3b3a3938, 0x4f4e4d4c4b4a4948) ==
            Quad(0xfa44898e9f5e5964, 0x63a2b96e269da2df, 0x60e07347a6834167, 0xcbe1e76c30eb10fd)
    ensures MixQuad(Quad(0x9f3444934666700e, 0x28b529566c856de5, 0xa36582305c84b7f1, 0xe1ceb84bcb8aae5d), 0x1f1e1d1c1b1a1918, 0x0f0e0d0c0b0a0908) ==
            Quad(0xbe9c72921b02d022, 0x89ce98339dc1b20a, 0x8c6196998f12090a, 0xe36cbb132bc41dcb)
    ensures MixQuad(Quad(0xdeed88d524df660c, 0xae9256b5096820b6, 0x616790560d5fc2fc, 0x7c76d3f4d7571e4d), 0x6f6e6d6c6b6a6968, 0x6766656463626160) ==
            Quad(0xf495fa79d93c5a0e, 0xca34e25cfc7d664d, 0x755b3930a216bba2, 0xc50cba73141e59a4)
    ensures MixQuad(Quad(0x3ea223d521a0a4af, 0x372f64aa54f6d097, 0x2d33108211bff04b, 0x166be24f50c6a50f), 0x5f5e5d5c5b5a5958, 0x7776757473727170) ==
            Quad(0x41cda3e98a7cf98f, 0xb342eb2fb0c9f12c, 0xac863d0e9d7c4117, 0xfe1bc0fac8784938)
  {
  }

  lemma Columns3()
    ensures Sixteen(ROW3) && Columns(STATE3, MESSAGE, ROW3) == MIDDLE3
  {
    hide MixQuad, Columns;
    ColumnsValues3();
    ColumnsMixed(STATE3, MESSAGE, ROW3,
          Two(0x3f3e3d3c3b3a3938, 0x4f4e4d4c4b4a4948),
          Two(0x1f1e1d1c1b1a1918, 0x0f0e0d0c0b0a0908),
          Two(0x6f6e6d6c6b6a6968, 0x6766656463626160),
          Two(0x5f5e5d5c5b5a5958, 0x7776757473727170),
          Quad(0xfa44898e9f5e5964, 0x63a2b96e269da2df, 0x60e07347a6834167, 0xcbe1e76c30eb10fd),
          Quad(0xbe9c72921b02d022, 0x89ce98339dc1b20a, 0x8c6196998f12090a, 0xe36cbb132bc41dcb),
          Quad(0xf495fa79d93c5a0e, 0xca34e25cfc7d664d, 0x755b3930a216bba2, 0xc50cba73141e59a4),
          Quad(0x41cda3e98a7cf98f, 0xb342eb2fb0c9f12c, 0xac863d0e9d7c4117, 0xfe1bc0fac8784938));
  }

  lemma DiagonalsValues3()
    ensures MixQuad(Quad(0xfa44898e9f5e5964, 0x89ce98339dc1b20a, 0x755b3930a216bba2, 0xfe1bc0fac8784938), 0x1716151413121110, 0x3736353433323130) ==
            Quad(0x5a63308eee7a9248, 0xf41328480c08f319, 0x720a50a06d123d16, 0x6464c22965c88b48)
    ensures MixQuad(Quad(0xbe9c72921b02d022, 0xca34e25cfc7d664d, 0xac863d0e9d7c4117, 0xcbe1e76c30eb10fd), 0x2f2e2d2c2b2a2928, 0x5756555453525150) ==
            Quad(0xf7169b44896ad6cc, 0x6a87a4083d4f73ce, 0xd28311d0edc99c02, 0xb3bb8557d42ef574)
    ensures MixQuad(Quad(0xf495fa79d93c5a0e, 0xb342eb2fb0c9f12c, 0x60e07347a6834167, 0xe36cbb132bc41dcb), 0x2726252423222120, 0x0706050403020100) ==
            Quad(0xb50779263e3a64be, 0xc45ee32ea583e314, 0xbd2d18c3dcce06ee, 0xd56033eb08b713a9)
    ensures MixQuad(Quad(0x41cda3e98a7cf98f, 0x63a2b96e269da2df, 0x8c6196998f12090a, 0xc50cba73141e59a4), 0x7f7e7d7c7b7a7978, 0x4746454443424140) ==
            Quad(0xd6008ebfbe33097c, 0x8e077f9efb54f7a8, 0x2ec8d16833f1c982, 0x69dbee8bc2fd5fd1)
  {
  }

  lemma Diagonals3()
    ensures Sixteen(ROW3) && Diagonals(MIDDLE3, MESSAGE, ROW3) == STATE4
  {
    hide MixQuad, Diagonals;
    DiagonalsValues3();
    DiagonalsMixed(MIDDLE3, MESSAGE, ROW3,
          Two(0x1716151413121110, 0x3736353433323130),
          Two(0x2f2e2d2c2b2a2928, 0x5756555453525150),
          Two(0x2726252423222120, 0x0706050403020100),
          Two(0x7f7e7d7c7b7a7978, 0x4746454443424140),
          Quad(0x5a63308eee7a9248, 0xf41328480c08f319, 0x720a50a06d123d16, 0x6464c22965c88b48),
          Quad(0xf7169b44896ad6cc, 0x6a87a4083d4f73ce, 0xd28311d0edc99c02, 0xb3bb8557d42ef574),
          Quad(0xb50779263e3a64be, 0xc45ee32ea583e314, 0xbd2d18c3dcce06ee, 0xd56033eb08b713a9),
          Quad(0xd6008ebfbe33097c, 0x8e077f9efb54f7a8, 0x2ec8d16833f1c982, 0x69dbee8bc2fd5fd1));
  }

  lemma ColumnsValues4()
    ensures MixQuad(Quad(0x5a63308eee7a9248, 0x8e077f9efb54f7a8, 0xbd2d18c3dcce06ee, 0xb3bb8557d42ef574), 0x4f4e4d4c4b4a4948, 0x0706050403020100) ==
            Quad(0xc447b58e9b5c62d3, 0x79d5af212fa621c2, 0xb9626480f4939e7a, 0x1afe257093c21f5f)
    ensures MixQuad(Quad(0xf7169b44896ad6cc, 0xf41328480c08f319, 0x2ec8d16833f1c982, 0xd56033eb08b713a9), 0x2f2e2d2c2b2a2928, 0x3f3e3d3c3b3a3938) ==
            Quad(0x7b15f9f7dc727154, 0x1309529df9cdca2b, 0xa8fb654c1c7ca01a, 0xb207b33f19531345)
    ensures MixQuad(Quad(0xb50779263e3a64be, 0x6a87a4083d4f73ce, 0x720a50a06d123d16, 0x69dbee8bc2fd5fd1), 0x1716151413121110, 0x2726252423222120) ==
            Quad(0x3c35693ba860f0ad, 0x697ecd2ab555ea18, 0xead57741ac0810fd, 0x2c647053df76f71e)
    ensures MixQuad(Quad(0xd6008ebfbe33097c, 0xc45ee32ea583e314, 0xd28311d0edc99c02, 0x6464c22965c88b48), 0x5756555453525150, 0x7f7e7d7c7b7a7978) ==
            Quad(0x8a76be204caf0e7e, 0x5230b0a32c105b9b, 0xb05a21308c237aeb, 0x0b1558b70888d97e)
  {
  }

  lemma Columns4()
    ensures Sixteen(ROW4) && Columns(STATE4, MESSAGE, ROW4) == MIDDLE4
  {
    hide MixQuad, Columns;
    ColumnsValues4();
    ColumnsMixed(STATE4, MESSAGE, ROW4,
          Two(0x4f4e4d4c4b4a4948, 0x0706050403020100),
          Two(0x2f2e2d2c2b2a2928, 0x3f3e3d3c3b3a3938),
          Two(0x1716151413121110, 0x2726252423222120),
          Two(0x5756555453525150, 0x7f7e7d7c7b7a7978),
          Quad(0xc447b58e9b5c62d3, 0x79d5af212fa621c2, 0xb9626480f4939e7a, 0x1afe257093c21f5f),
          Quad(0x7b15f9f7dc727154, 0x1309529df9cdca2b, 0xa8fb654c1c7ca01a, 0xb207b33f19531345),
          Quad(0x3c35693ba860f0ad, 0x697ecd2ab555ea18, 0xead57741ac0810fd, 0x2c647053df76f71e),
          Quad(0x8a76be204caf0e7e, 0x5230b0a32c105b9b, 0xb05a21308c237aeb, 0x0b1558b70888d97e));
  }

  lemma DiagonalsValues4()
    ensures MixQuad(Quad(0xc447b58e9b5c62d3, 0x1309529df9cdca2b, 0xead57741ac0810fd, 0x0b1558b70888d97e), 0x7776757473727170, 0x0f0e0d0c0b0a0908) ==
            Quad(0x75d1c3a6f493737e, 0xad5c19dd2cf856b8, 0x415234177690e754, 0x566875c584b6b141)
    ensures MixQuad(Quad(0x7b15f9f7dc727154, 0x697ecd2ab555ea18, 0xb05a21308c237aeb, 0x1afe257093c21f5f), 0x5f5e5d5c5b5a5958, 0x6766656463626160) ==
            Quad(0x10eb6b299486f774, 0x8049b723c3c551a8, 0x25b53ad7a5e34984, 0xf67a6e0bc0b2cd8b)
    ensures MixQuad(Quad(0x3c35693ba860f0ad, 0x5230b0a32c105b9b, 0xb9626480f4939e7a, 0xb207b33f19531345), 0x3736353433323130, 0x4746454443424140) ==
            Quad(0x4ca3d1e1ad47dbf8, 0x7fcc31309cdcd184, 0x002725122c0c7582, 0x27d45253bfdcdadc)
    ensures MixQuad(Quad(0x8a76be204caf0e7e, 0x79d5af212fa621c2, 0xa8fb654c1c7ca01a, 0x2c647053df76f71e), 0x1f1e1d1c1b1a1918, 0x6f6e6d6c6b6a6968) ==
            Quad(0xc094e252c36665c4, 0x7ac88d2e8e59ab29, 0x90dfac1f87a06690, 0x9fca888d5c14cc68)
  {
  }

  lemma Diagonals4()
    ensures Sixteen(ROW4) && Diagonals(MIDDLE4, MESSAGE, ROW4) == STATE5
  {
    hide MixQuad, Diagonals;
    DiagonalsValues4();
    DiagonalsMixed(MIDDLE4, MESSAGE, ROW4,
          Two(0x7776757473727170, 0x0f0e0d0c0b0a0908),
          Two(0x5f5e5d5c5b5a5958, 0x6766656463626160),
          Two(0x3736353433323130, 0x4746454443424140),
          Two(0x1f1e1d1c1b1a1918, 0x6f6e6d6c6b6a6968),
          Quad(0x75d1c3a6f493737e, 0xad5c19dd2cf856b8, 0x415234177690e754, 0x566875c584b6b141),
          Quad(0x10eb6b299486f774, 0x8049b723c3c551a8, 0x25b53ad7a5e34984, 0xf67a6e0bc0b2cd8b),
          Quad(0x4ca3d1e1ad47dbf8, 0x7fcc31309cdcd184, 0x002725122c0c7582, 0x27d45253bfdcdadc),
          Quad(0xc094e252c36665c4, 0x7ac88d2e8e59ab29, 0x90dfac1f87a06690, 0x9fca888d5c14cc68));
  }

  lemma ColumnsValues5()
    ensures MixQuad(Quad(0x75d1c3a6f493737e, 0x7ac88d2e8e59ab29, 0x002725122c0c7582, 0xf67a6e0bc0b2cd8b), 0x1716151413121110, 0x6766656463626160) ==
            Quad(0xfe41187db6ebf2aa, 0x832ffee74b3b522d, 0x4ebdb25c1817c885, 0xf948ab0cfa414721)
    ensures MixQuad(Quad(0x10eb6b299486f774, 0xad5c19dd2cf856b8, 0x90dfac1f87a06690, 0x27d45253bfdcdadc), 0x3736353433323130, 0x5756555453525150) ==
            Quad(0xfeec5100594c4e22, 0x61028ca6bf054f50, 0x829907224ecadade, 0xa64bb581f4808be5)
    ensures MixQuad(Quad(0x4ca3d1e1ad47dbf8, 0x8049b723c3c551a8, 0x415234177690e754, 0x9fca888d5c14cc68), 0x0706050403020100, 0x5f5e5d5c5b5a5958) ==
            Quad(0x400e5c4ef70b83f9, 0xc4ae1c394de2aa17, 0xeeeb7ef58150a90a, 0x857d6815be86bb32)
    ensures MixQuad(Quad(0xc094e252c36665c4, 0x7fcc31309cdcd184, 0x25b53ad7a5e34984, 0x566875c584b6b141), 0x4746454443424140, 0x1f1e1d1c1b1a1918) ==
            Quad(0x156c7816e3d5238b, 0x6baa6a6419487296, 0x5b7237012991a8a0, 0x0e89325fb1df321a)
  {
  }

  lemma Columns5()
    ensures Sixteen(ROW5) && Columns(STATE5, MESSAGE, ROW5) == MIDDLE5
  {
    hide MixQuad, Columns;
    ColumnsValues5();
    ColumnsMixed(STATE5, MESSAGE, ROW5,
          Two(0x1716151413121110, 0x6766656463626160),
          Two(0x3736353433323130, 0x5756555453525150),
          Two(0x0706050403020100, 0x5f5e5d5c5b5a5958),
          Two(0x4746454443424140, 0x1f1e1d1c1b1a1918),
          Quad(0xfe41187db6ebf2aa, 0x832ffee74b3b522d, 0x4ebdb25c1817c885, 0xf948ab0cfa414721),
          Quad(0xfeec5100594c4e22, 0x61028ca6bf054f50, 0x829907224ecadade, 0xa64bb581f4808be5),
          Quad(0x400e5c4ef70b83f9, 0xc4ae1c394de2aa17, 0xeeeb7ef58150a90a, 0x857d6815be86bb32),
          Quad(0x156c7816e3d5238b, 0x6baa6a6419487296, 0x5b7237012991a8a0, 0x0e89325fb1df321a));
  }

  lemma DiagonalsValues5()
    ensures MixQuad(Quad(0xfe41187db6ebf2aa, 0x61028ca6bf054f50, 0xeeeb7ef58150a90a, 0x0e89325fb1df321a), 0x2726252423222120, 0x6f6e6d6c6b6a6968) ==
            Quad(0x2ac6a92bb9c11d37, 0x907346ef6e3f05ef, 0xfcd7d201025cd242, 0xe520020af82b3121)
    ensures MixQuad(Quad(0xfeec5100594c4e22, 0xc4ae1c394de2aa17, 0x5b7237012991a8a0, 0xf948ab0cfa414721), 0x3f3e3d3c3b3a3938, 0x2f2e2d2c2b2a2928) ==
            Quad(0xf506e6594244c601, 0xf027286f0334110b, 0x3b139a80b52b63ed, 0xc778ed2e9009b9d4)
    ensures MixQuad(Quad(0x400e5c4ef70b83f9, 0x6baa6a6419487296, 0x4ebdb25c1817c885, 0xa64bb581f4808be5), 0x7f7e7d7c7b7a7978, 0x7776757473727170) ==
            Quad(0x7f765f49a6053c33, 0x8ec217a5d9f77e20, 0x9ba9ae774a3fe5ac, 0xcd9d0038a4ab2b79)
    ensures MixQuad(Quad(0x156c7816e3d5238b, 0x832ffee74b3b522d, 0x829907224ecadade, 0x857d6815be86bb32), 0x0f0e0d0c0b0a0908, 0x4f4e4d4c4b4a4948) ==
            Quad(0x908da1da9f98bb42, 0x8e0c63439ff0eeed, 0x5e92e125d5cb844c, 0x575d14116428bd4f)
  {
  }

  lemma Diagonals5()
    ensures Sixteen(ROW5) && Diagonals(MIDDLE5, MESSAGE, ROW5) == STATE6
  {
    hide MixQuad, Diagonals;
    DiagonalsValues5();
    DiagonalsMixed(MIDDLE5, MESSAGE, ROW5,
          Two(0x2726252423222120, 0x6f6e6d6c6b6a6968),
          Two(0x3f3e3d3c3b3a3938, 0x2f2e2d2c2b2a2928),
          Two(0x7f7e7d7c7b7a7978, 0x7776757473727170),
          Two(0x0f0e0d0c0b0a0908, 0x4f4e4d4c4b4a4948),
          Quad(0x2ac6a92bb9c11d37, 0x907346ef6e3f05ef, 0xfcd7d201025cd242, 0xe520020af82b3121),
          Quad(0xf506e6594244c601, 0xf027286f0334110b, 0x3b139a80b52b63ed, 0xc778ed2e9009b9d4),
          Quad(0x7f765f49a6053c33, 0x8ec217a5d9f77e20, 0x9ba9ae774a3fe5ac, 0xcd9d0038a4ab2b79),
          Quad(0x908da1da9f98bb42, 0x8e0c63439ff0eeed, 0x5e92e125d5cb844c, 0x575d14116428bd4f));
  }

  lemma ColumnsValues6()
    ensures MixQuad(Quad(0x2ac6a92bb9c11d37, 0x8e0c63439ff0eeed, 0x9ba9ae774a3fe5ac, 0xc778ed2e9009b9d4), 0x6766656463626160, 0x2f2e2d2c2b2a2928) ==
            Quad(0xc0d3e346b420225a, 0xec0669a146ecbb49, 0x876f70966897d60a, 0xbea7edce37165361)
    ensures MixQuad(Quad(0xf506e6594244c601, 0x907346ef6e3f05ef, 0x5e92e125d5cb844c, 0xcd9d0038a4ab2b79), 0x0f0e0d0c0b0a0908, 0x7f7e7d7c7b7a7978) ==
            Quad(0xf3c20fbf01ae96b0, 0xea5b34c3ab72be67, 0x2a96cd8c1f1f1773, 0xacdcece4f03e58bb)
    ensures MixQuad(Quad(0x7f765f49a6053c33, 0xf027286f0334110b, 0xfcd7d201025cd242, 0x575d14116428bd4f), 0x7776757473727170, 0x6f6e6d6c6b6a6968) ==
            Quad(0xf62ce01f0613b5c7, 0x9bf8222fd6aff8d4, 0xd256649296aa71db, 0x5cfb8eafe3feb65d)
    ensures MixQuad(Quad(0x908da1da9f98bb42, 0x8ec217a5d9f77e20, 0x3b139a80b52b63ed, 0xe520020af82b3121), 0x2726252423222120, 0x5756555453525150) ==
            Quad(0x140aef0a5f162d53, 0xcf299b4d64757abf, 0x91aa76b7dd2b3cde, 0xf1fd709384a9fc43)
  {
  }

  lemma Columns6()
    ensures Sixteen(ROW6) && Columns(STATE6, MESSAGE, ROW6) == MIDDLE6
  {
    hide MixQuad, Columns;
    ColumnsValues6();
    ColumnsMixed(STATE6, MESSAGE, ROW6,
          Two(0x6766656463626160, 0x2f2e2d2c2b2a2928),
          Two(0x0f0e0d0c0b0a0908, 0x7f7e7d7c7b7a7978),
          Two(0x7776757473727170, 0x6f6e6d6c6b6a6968),
          Two(0x2726252423222120, 0x5756555453525150),
          Quad(0xc0d3e346b420225a, 0xec0669a146ecbb49, 0x876f70966897d60a, 0xbea7edce37165361),
          Quad(0xf3c20fbf01ae96b0, 0xea5b34c3ab72be67, 0x2a96cd8c1f1f1773, 0xacdcece4f03e58bb),
          Quad(0xf62ce01f0613b5c7, 0x9bf8222fd6aff8d4, 0xd256649296aa71db, 0x5cfb8eafe3feb65d),
          Quad(0x140aef0a5f162d53, 0xcf299b4d64757abf, 0x91aa76b7dd2b3cde, 0xf1fd709384a9fc43));
  }

  lemma DiagonalsValues6()
    ensures MixQuad(Quad(0xc0d3e346b420225a, 0xea5b34c3ab72be67, 0xd256649296aa71db, 0xf1fd709384a9fc43), 0x0706050403020100, 0x3f3e3d3c3b3a3938) ==
            Quad(0xf1d4799d6685f26a, 0xb1d70d59ec49a768, 0x588a99fe3e9204c5, 0x9ff717e9641f254d)
    ensures MixQuad(Quad(0xf3c20fbf01ae96b0, 0x9bf8222fd6aff8d4, 0x91aa76b7dd2b3cde, 0xbea7edce37165361), 0x3736353433323130, 0x1f1e1d1c1b1a1918) ==
            Quad(0x134da394efd37c4f, 0xd3d84a1a99d9fb99, 0xc4d33a5885c45f4f, 0xf6a22fcb30419784)
    ensures MixQuad(Quad(0xf62ce01f0613b5c7, 0xcf299b4d64757abf, 0x876f70966897d60a, 0xacdcece4f03e58bb), 0x4f4e4d4c4b4a4948, 0x1716151413121110) ==
            Quad(0xa63bb6cf3deecc23, 0x9eb959c19b867d73, 0xb5dc75e2b8ca7ffc, 0xe87fe3d697ba8596)
    ensures MixQuad(Quad(0x140aef0a5f162d53, 0xec0669a146ecbb49, 0x2a96cd8c1f1f1773, 0x5cfb8eafe3feb65d), 0x4746454443424140, 0x5f5e5d5c5b5a5958) ==
            Quad(0xce47f62598a42fb0, 0xaba591a1e0d6038e, 0x72433209a46fadbb, 0x3cf0c4fc69a48308)
  {
  }

  lemma Diagonals6()
    ensures Sixteen(ROW6) && Diagonals(MIDDLE6, MESSAGE, ROW6) == STATE7
  {
    hide MixQuad, Diagonals;
    DiagonalsValues6();
    DiagonalsMixed(MIDDLE6, MESSAGE, ROW6,
          Two(0x0706050403020100, 0x3f3e3d3c3b3a3938),
          Two(0x3736353433323130, 0x1f1e1d1c1b1a1918),
          Two(0x4f4e4d4c4b4a4948, 0x1716151413121110),
          Two(0x4746454443424140, 0x5f5e5d5c5b5a5958),
          Quad(0xf1d4799d6685f26a, 0xb1d70d59ec49a768, 0x588a99fe3e9204c5, 0x9ff717e9641f254d),
          Quad(0x134da394efd37c4f, 0xd3d84a1a99d9fb99, 0xc4d33a5885c45f4f, 0xf6a22fcb30419784),
          Quad(0xa63bb6cf3deecc23, 0x9eb959c19b867d73, 0xb5dc75e2b8ca7ffc, 0xe87fe3d697ba8596),
          Quad(0xce47f62598a42fb0, 0xaba591a1e0d6038e, 0x72433209a46fadbb, 0x3cf0c4fc69a48308));
  }

  lemma ColumnsValues7()
    ensures MixQuad(Quad(0xf1d4799d6685f26a, 0xaba591a1e0d6038e, 0xb5dc75e2b8ca7ffc, 0xf6a22fcb30419784), 0x6f6e6d6c6b6a6968, 0x5f5e5d5c5b5a5958) ==
            Quad(0x2f1ba89bcfd01f0b, 0x84367defa476d54a, 0x80cfec6413940cf6, 0x486bad9c607f359a)
    ensures MixQuad(Quad(0x134da394efd37c4f, 0xb1d70d59ec49a768, 0x72433209a46fadbb, 0xe87fe3d697ba8596), 0x3f3e3d3c3b3a3938, 0x7776757473727170) ==
            Quad(0x40f633e270d0a8db, 0xba9637bb3a5d05f2, 0x9857cb9f7b285885, 0xa526c01bea9b9ccd)
    ensures MixQuad(Quad(0xa63bb6cf3deecc23, 0xd3d84a1a99d9fb99, 0x588a99fe3e9204c5, 0x3cf0c4fc69a48308), 0x6766656463626160, 0x0f0e0d0c0b0a0908) ==
            Quad(0xb5e561d308433ba9, 0x02d58a0a4bd4e98b, 0x44362b7de7e47d40, 0x991be76acbc7d5c9)
    ensures MixQuad(Quad(0xce47f62598a42fb0, 0x9eb959c19b867d73, 0xc4d33a5885c45f4f, 0x9ff717e9641f254d), 0x1f1e1d1c1b1a1918, 0x4f4e4d4c4b4a4948) ==
            Quad(0x061504be30d31e85, 0xfc7202e62e61e4ec, 0x549e4b1d8174fd74, 0x646f2d4ee7c8233b)
  {
  }

  lemma Columns7()
    ensures Sixteen(ROW7) && Columns(STATE7, MESSAGE, ROW7) == MIDDLE7
  {
    hide MixQuad, Columns;
    ColumnsValues7();
    ColumnsMixed(STATE7, MESSAGE, ROW7,
          Two(0x6f6e6d6c6b6a6968, 0x5f5e5d5c5b5a5958),
          Two(0x3f3e3d3c3b3a3938, 0x7776757473727170),
          Two(0x6766656463626160, 0x0f0e0d0c0b0a0908),
          Two(0x1f1e1d1c1b1a1918, 0x4f4e4d4c4b4a4948),
          Quad(0x2f1ba89bcfd01f0b, 0x84367defa476d54a, 0x80cfec6413940cf6, 0x486bad9c607f359a),
          Quad(0x40f633e270d0a8db, 0xba9637bb3a5d05f2, 0x9857cb9f7b285885, 0xa526c01bea9b9ccd),
          Quad(0xb5e561d308433ba9, 0x02d58a0a4bd4e98b, 0x44362b7de7e47d40, 0x991be76acbc7d5c9),
          Quad(0x061504be30d31e85, 0xfc7202e62e61e4ec, 0x549e4b1d8174fd74, 0x646f2d4ee7c8233b));
  }

  lemma DiagonalsValues7()
    ensures MixQuad(Quad(0x2f1ba89bcfd01f0b, 0xba9637bb3a5d05f2, 0x44362b7de7e47d40, 0x646f2d4ee7c8233b), 0x2f2e2d2c2b2a2928, 0x0706050403020100) ==
            Quad(0x4e8212337c087683, 0x877f962b401f7394, 0x6d2434b9e3a09e94, 0x564e9c1d7f2d0087)
    ensures MixQuad(Quad(0x40f633e270d0a8db, 0x02d58a0a4bd4e98b, 0x549e4b1d8174fd74, 0x486bad9c607f359a), 0x7f7e7d7c7b7a7978, 0x2726252423222120) ==
            Quad(0x2cee433b83459545, 0xe5a0397b442de915, 0xb0adfe138a159ccd, 0x03b074b17d7f0864)
    ensures MixQuad(Quad(0xb5e561d308433ba9, 0xfc7202e62e61e4ec, 0x80cfec6413940cf6, 0xa526c01bea9b9ccd), 0x4746454443424140, 0x3736353433323130) ==
            Quad(0x5f661019ec052d63, 0xec810afec7757b88, 0x58d2b5975d51279a, 0x4485cc1aed01b0be)
    ensures MixQuad(Quad(0x061504be30d31e85, 0x84367defa476d54a, 0x9857cb9f7b285885, 0x991be76acbc7d5c9), 0x1716151413121110, 0x5756555453525150) ==
            Quad(0xccd46756018fb046, 0x51fbec755804b265, 0x7ce18c0569e30325, 0xc0edef4fb64039f5)
  {
  }

  lemma Diagonals7()
    ensures Sixteen(ROW7) && Diagonals(MIDDLE7, MESSAGE, ROW7) == STATE8
  {
    hide MixQuad, Diagonals;
    DiagonalsValues7();
    DiagonalsMixed(MIDDLE7, MESSAGE, ROW7,
          Two(0x2f2e2d2c2b2a2928, 0x0706050403020100),
          Two(0x7f7e7d7c7b7a7978, 0x2726252423222120),
          Two(0x4746454443424140, 0x3736353433323130),
          Two(0x1716151413121110, 0x5756555453525150),
          Quad(0x4e8212337c087683, 0x877f962b401f7394, 0x6d2434b9e3a09e94, 0x564e9c1d7f2d0087),
          Quad(0x2cee433b83459545, 0xe5a0397b442de915, 0xb0adfe138a159ccd, 0x03b074b17d7f0864),
          Quad(0x5f661019ec052d63, 0xec810afec7757b88, 0x58d2b5975d51279a, 0x4485cc1aed01b0be),
          Quad(0xccd46756018fb046, 0x51fbec755804b265, 0x7ce18c0569e30325, 0xc0edef4fb64039f5));
  }

  lemma ColumnsValues8()
    ensures MixQuad(Quad(0x4e8212337c087683, 0x51fbec755804b265, 0x58d2b5975d51279a, 0x03b074b17d7f0864), 0x3736353433323130, 0x7f7e7d7c7b7a7978) ==
            Quad(0xa91014dc6b9e34f9, 0x2eeb71cd3e249f92, 0x46a8db6477f62ea0, 0x7395d35046a0bf9a)
    ensures MixQuad(Quad(0x2cee433b83459545, 0x877f962b401f7394, 0x7ce18c0569e30325, 0x4485cc1aed01b0be), 0x7776757473727170, 0x4f4e4d4c4b4a4948) ==
            Quad(0xd7290f0749e29b2a, 0x52aa2246b1e8f7e0, 0x72a363fc9f34ac69, 0x19eb0cffc5f02683)
    ensures MixQuad(Quad(0x5f661019ec052d63, 0xe5a0397b442de915, 0x6d2434b9e3a09e94, 0xc0edef4fb64039f5), 0x5f5e5d5c5b5a5958, 0x1f1e1d1c1b1a1918) ==
            Quad(0xc7840b5cf85b2cf4, 0x287b84cfe8204250, 0x103c8528a5a38524, 0x654afa495d799cd2)
    ensures MixQuad(Quad(0xccd46756018fb046, 0xec810afec7757b88, 0xb0adfe138a159ccd, 0x564e9c1d7f2d0087), 0x0706050403020100, 0x4746454443424140) ==
            Quad(0x6695572c686a11f5, 0x00f5352785624aec, 0x5e89001c9b918691, 0xfab0d5bf7b65fe7f)
  {
  }

  lemma Columns8()
    ensures Sixteen(ROW8) && Columns(STATE8, MESSAGE, ROW8) == MIDDLE8
  {
    hide MixQuad, Columns;
    ColumnsValues8();
    ColumnsMixed(STATE8, MESSAGE, ROW8,
          Two(0x3736353433323130, 0x7f7e7d7c7b7a7978),
          Two(0x7776757473727170, 0x4f4e4d4c4b4a4948),
          Two(0x5f5e5d5c5b5a5958, 0x1f1e1d1c1b1a1918),
          Two(0x0706050403020100, 0x4746454443424140),
          Quad(0xa91014dc6b9e34f9, 0x2eeb71cd3e249f92, 0x46a8db6477f62ea0, 0x7395d35046a0bf9a),
          Quad(0xd7290f0749e29b2a, 0x52aa2246b1e8f7e0, 0x72a363fc9f34ac69, 0x19eb0cffc5f02683),
          Quad(0xc7840b5cf85b2cf4, 0x287b84cfe8204250, 0x103c8528a5a38524, 0x654afa495d799cd2),
          Quad(0x6695572c686a11f5, 0x00f5352785624aec, 0x5e89001c9b918691, 0xfab0d5bf7b65fe7f));
  }

  lemma DiagonalsValues8()
    ensures MixQuad(Quad(0xa91014dc6b9e34f9, 0x52aa2246b1e8f7e0, 0x103c8528a5a38524, 0xfab0d5bf7b65fe7f), 0x6766656463626160, 0x1716151413121110) ==
            Quad(0x55706df4f6d2c8d7, 0xad0230647c622820, 0x8db8a46b5ce63d9e, 0x81efaefc1db26f42)
    ensures MixQuad(Quad(0xd7290f0749e29b2a, 0x287b84cfe8204250, 0x5e89001c9b918691, 0x7395d35046a0bf9a), 0x6f6e6d6c6b6a6968, 0x3f3e3d3c3b3a3938) ==
            Quad(0xe66c32920624db6a, 0xf795864952fe502c, 0x43d0373684027346, 0x09793da1cbea1aa2)
    ensures MixQuad(Quad(0xc7840b5cf85b2cf4, 0x00f5352785624aec, 0x46a8db6477f62ea0, 0x19eb0cffc5f02683), 0x0f0e0d0c0b0a0908, 0x2726252423222120) ==
            Quad(0xfee85647c19e99cb, 0xd97fac464674ef84, 0x6c8535b0368e8001, 0xd8a4b3dff02c0ff2)
    ensures MixQuad(Quad(0x6695572c686a11f5, 0x2eeb71cd3e249f92, 0x72a363fc9f34ac69, 0x654afa495d799cd2), 0x5756555453525150, 0x2f2e2d2c2b2a2928) ==
            Quad(0x12154ab3fc7efb15, 0x80848f6c55f5928d, 0x364db88ffd890650, 0x1f11b68dd4b675e3)
  {
  }

  lemma Diagonals8()
    ensures Sixteen(ROW8) && Diagonals(MIDDLE8, MESSAGE, ROW8) == STATE9
  {
    hide MixQuad, Diagonals;
    DiagonalsValues8();
    DiagonalsMixed(MIDDLE8, MESSAGE, ROW8,
          Two(0x6766656463626160, 0x1716151413121110),
          Two(0x6f6e6d6c6b6a6968, 0x3f3e3d3c3b3a3938),
          Two(0x0f0e0d0c0b0a0908, 0x2726252423222120),
          Two(0x5756555453525150, 0x2f2e2d2c2b2a2928),
          Quad(0x55706df4f6d2c8d7, 0xad0230647c622820, 0x8db8a46b5ce63d9e, 0x81efaefc1db26f42),
          Quad(0xe66c32920624db6a, 0xf795864952fe502c, 0x43d0373684027346, 0x09793da1cbea1aa2),
          Quad(0xfee85647c19e99cb, 0xd97fac464674ef84, 0x6c8535b0368e8001, 0xd8a4b3dff02c0ff2),
          Quad(0x12154ab3fc7efb15, 0x80848f6c55f5928d, 0x364db88ffd890650, 0x1f11b68dd4b675e3));
  }

  lemma ColumnsValues9()
    ensures MixQuad(Quad(0x55706df4f6d2c8d7, 0x80848f6c55f5928d, 0x6c8535b0368e8001, 0x09793da1cbea1aa2), 0x5756555453525150, 0x1716151413121110) ==
            Quad(0x79df0022a49167d3, 0xa882cb5dc3238b6f, 0xe13cfdf610f56fb8, 0x08c7122fb63480a3)
    ensures MixQuad(Quad(0xe66c32920624db6a, 0xad0230647c622820, 0x364db88ffd890650, 0xd8a4b3dff02c0ff2), 0x4746454443424140, 0x2726252423222120) ==
            Quad(0xfce4e3201a1f096d, 0x0b63b2112d05338f, 0x7ebbccc9a7b13a44, 0x1288c901a818180f)
    ensures MixQuad(Quad(0xfee85647c19e99cb, 0xf795864952fe502c, 0x8db8a46b5ce63d9e, 0x1f11b68dd4b675e3), 0x3f3e3d3c3b3a3938, 0x3736353433323130) ==
            Quad(0xdaaf41e00f86d334, 0x90659fb6257ad9b9, 0xa58e3d059ec01209, 0x7c7441ce172c252b)
    ensures MixQuad(Quad(0x12154ab3fc7efb15, 0xd97fac464674ef84, 0x43d0373684027346, 0x81efaefc1db26f42), 0x0f0e0d0c0b0a0908, 0x2f2e2d2c2b2a2928) ==
            Quad(0x65c2f57fd9a07c82, 0xa2d39bd411273d2a, 0x6a9809a768ebc12c, 0xd678358d699ca2ec)
  {
  }

  lemma Columns9()
    ensures Sixteen(ROW9) && Columns(STATE9, MESSAGE, ROW9) == MIDDLE9
  {
    hide MixQuad, Columns;
    ColumnsValues9();
    ColumnsMixed(STATE9, MESSAGE, ROW9,
          Two(0x5756555453525150, 0x1716151413121110),
          Two(0x4746454443424140, 0x2726252423222120),
          Two(0x3f3e3d3c3b3a3938, 0x3736353433323130),
          Two(0x0f0e0d0c0b0a0908, 0x2f2e2d2c2b2a2928),
          Quad(0x79df0022a49167d3, 0xa882cb5dc3238b6f, 0xe13cfdf610f56fb8, 0x08c7122fb63480a3),
          Quad(0xfce4e3201a1f096d, 0x0b63b2112d05338f, 0x7ebbccc9a7b13a44, 0x1288c901a818180f),
          Quad(0xdaaf41e00f86d334, 0x90659fb6257ad9b9, 0xa58e3d059ec01209, 0x7c7441ce172c252b),
          Quad(0x65c2f57fd9a07c82, 0xa2d39bd411273d2a, 0x6a9809a768ebc12c, 0xd678358d699ca2ec));
  }

  lemma DiagonalsValues9()
    ensures MixQuad(Quad(0x79df0022a49167d3, 0x0b63b2112d05338f, 0xa58e3d059ec01209, 0xd678358d699ca2ec), 0x7f7e7d7c7b7a7978, 0x5f5e5d5c5b5a5958) ==
            Quad(0xe03f56ce20ac9b8e, 0x6fa0fc5c5466660e, 0x4bcfb7ef52721e5b, 0x81b3c4b2e0f8f215)
    ensures MixQuad(Quad(0xfce4e3201a1f096d, 0x90659fb6257ad9b9, 0x6a9809a768ebc12c, 0x08c7122fb63480a3), 0x4f4e4d4c4b4a4948, 0x7776757473727170) ==
            Quad(0x8569c5ce0b8060f6, 0xf67de03356cd4000, 0x4a64702ea64f6318, 0xa2fbb9b96903dfdf)
    ensures MixQuad(Quad(0xdaaf41e00f86d334, 0xa2d39bd411273d2a, 0xe13cfdf610f56fb8, 0x1288c901a818180f), 0x1f1e1d1c1b1a1918, 0x6766656463626160) ==
            Quad(0x3ea6040c7ddf4664, 0xa0b8fe64144e581d, 0xeac2dce5d4939780, 0x75b5ad763575f3f7)
    ensures MixQuad(Quad(0x65c2f57fd9a07c82, 0xa882cb5dc3238b6f, 0x7ebbccc9a7b13a44, 0x7c7441ce172c252b), 0x6f6e6d6c6b6a6968, 0x0706050403020100) ==
            Quad(0xd6dcda83481ad8c3, 0x0e4e985e09112b90, 0x5505eb1a3862f3a2, 0xb747c9de8ef149da)
  {
  }

  lemma Diagonals9()
    ensures Sixteen(ROW9) && Diagonals(MIDDLE9, MESSAGE, ROW9) == STATE10
  {
    hide MixQuad, Diagonals;
    DiagonalsValues9();
    DiagonalsMixed(MIDDLE9, MESSAGE, ROW9,
          Two(0x7f7e7d7c7b7a7978, 0x5f5e5d5c5b5a5958),
          Two(0x4f4e4d4c4b4a4948, 0x7776757473727170),
          Two(0x1f1e1d1c1b1a1918, 0x6766656463626160),
          Two(0x6f6e6d6c6b6a6968, 0x0706050403020100),
          Quad(0xe03f56ce20ac9b8e, 0x6fa0fc5c5466660e, 0x4bcfb7ef52721e5b, 0x81b3c4b2e0f8f215),
          Quad(0x8569c5ce0b8060f6, 0xf67de03356cd4000, 0x4a64702ea64f6318, 0xa2fbb9b96903dfdf),
          Quad(0x3ea6040c7ddf4664, 0xa0b8fe64144e581d, 0xeac2dce5d4939780, 0x75b5ad763575f3f7),
          Quad(0xd6dcda83481ad8c3, 0x0e4e985e09112b90, 0x5505eb1a3862f3a2, 0xb747c9de8ef149da));
  }

  lemma ColumnsValues10()
    ensures MixQuad(Quad(0xe03f56ce20ac9b8e, 0x0e4e985e09112b90, 0xeac2dce5d4939780, 0xa2fbb9b96903dfdf), 0x0706050403020100, 0x0f0e0d0c0b0a0908) ==
            Quad(0xef709a7a6836ca48, 0xa51c0c9b13b7ba8a, 0xb8409f73b9b72467, 0x87c1aacc8dbb3f5e)
    ensures MixQuad(Quad(0x8569c5ce0b8060f6, 0x6fa0fc5c5466660e, 0x5505eb1a3862f3a2, 0x75b5ad763575f3f7), 0x1716151413121110, 0x1f1e1d1c1b1a1918) ==
            Quad(0xc94ad94dc1fd9311, 0x37ce826d2e9b0f6e, 0x85eca5c5a4a72652, 0xe9598ec7f2aeb868)
    ensures MixQuad(Quad(0x3ea6040c7ddf4664, 0xf67de03356cd4000, 0x4bcfb7ef52721e5b, 0xb747c9de8ef149da), 0x2726252423222120, 0x2f2e2d2c2b2a2928) ==
            Quad(0x3e174ec3953f4e17, 0xc24dea8b58b64043, 0x53b9ed76de1d5d4a, 0x8eaa4728a09d7e32)
    ensures MixQuad(Quad(0xd6dcda83481ad8c3, 0xa0b8fe64144e581d, 0x4a64702ea64f6318, 0x81b3c4b2e0f8f215), 0x3736353433323130, 0x3f3e3d3c3b3a3938) ==
            Quad(0x6f8027713bd3f309, 0xe43bba1dfb7a2b58, 0xf36801178d43426d, 0x39a000e3b77414ac)
  {
  }

  lemma Columns10()
    ensures Sixteen(ROW0) && Columns(STATE10, MESSAGE, ROW0) == MIDDLE10
  {
    hide MixQuad, Columns;
    ColumnsValues10();
    ColumnsMixed(STATE10, MESSAGE, ROW0,
          Two(0x0706050403020100, 0x0f0e0d0c0b0a0908),
          Two(0x1716151413121110, 0x1f1e1d1c1b1a1918),
          Two(0x2726252423222120, 0x2f2e2d2c2b2a2928),
          Two(0x3736353433323130, 0x3f3e3d3c3b3a3938),
          Quad(0xef709a7a6836ca48, 0xa51c0c9b13b7ba8a, 0xb8409f73b9b72467, 0x87c1aacc8dbb3f5e),
          Quad(0xc94ad94dc1fd9311, 0x37ce826d2e9b0f6e, 0x85eca5c5a4a72652, 0xe9598ec7f2aeb868),
          Quad(0x3e174ec3953f4e17, 0xc24dea8b58b64043, 0x53b9ed76de1d5d4a, 0x8eaa4728a09d7e32),
          Quad(0x6f8027713bd3f309, 0xe43bba1dfb7a2b58, 0xf36801178d43426d, 0x39a000e3b77414ac));
  }

  lemma DiagonalsValues10()
    ensures MixQuad(Quad(0xef709a7a6836ca48, 0x37ce826d2e9b0f6e, 0x53b9ed76de1d5d4a, 0x39a000e3b77414ac), 0x4746454443424140, 0x4f4e4d4c4b4a4948) ==
            Quad(0x97a32c6efcd82059, 0xb4c914c5001da029, 0x03abf69457776c0f, 0x4291fac32234abfd)
    ensures MixQuad(Quad(0xc94ad94dc1fd9311, 0xc24dea8b58b64043, 0xf36801178d43426d, 0x87c1aacc8dbb3f5e), 0x5756555453525150, 0x5f5e5d5c5b5a5958) ==
            Quad(0x0a03839f325818a6, 0x8bb6178bc441aedc, 0x826d06d08ad74dc4, 0xab47e9be98655776)
    ensures MixQuad(Quad(0x3e174ec3953f4e17, 0xe43bba1dfb7a2b58, 0xb8409f73b9b72467, 0xe9598ec7f2aeb868), 0x6766656463626160, 0x6f6e6d6c6b6a6968) ==
            Quad(0xdb578d0d2d3e4b18, 0x117edd498ff4a84d, 0x6a90dffe0a4252c7, 0xab9adde2efaa4dde)
    ensures MixQuad(Quad(0x6f8027713bd3f309, 0xa51c0c9b13b7ba8a, 0x85eca5c5a4a72652, 0x8eaa4728a09d7e32), 0x7776757473727170, 0x7f7e7d7c7b7a7978) ==
            Quad(0xe33f974a8a83062f, 0x0ef3f03da3a3e102, 0xd0d788539ddb9d35, 0xe887815cf67b883b)
  {
  }

  lemma Diagonals10()
    ensures Sixteen(ROW0) && Diagonals(MIDDLE10, MESSAGE, ROW0) == STATE11
  {
    hide MixQuad, Diagonals;
    DiagonalsValues10();
    DiagonalsMixed(MIDDLE10, MESSAGE, ROW0,
          Two(0x4746454443424140, 0x4f4e4d4c4b4a4948),
          Two(0x5756555453525150, 0x5f5e5d5c5b5a5958),
          Two(0x6766656463626160, 0x6f6e6d6c6b6a6968),
          Two(0x7776757473727170, 0x7f7e7d7c7b7a7978),
          Quad(0x97a32c6efcd82059, 0xb4c914c5001da029, 0x03abf69457776c0f, 0x4291fac32234abfd),
          Quad(0x0a03839f325818a6, 0x8bb6178bc441aedc, 0x826d06d08ad74dc4, 0xab47e9be98655776),
          Quad(0xdb578d0d2d3e4b18, 0x117edd498ff4a84d, 0x6a90dffe0a4252c7, 0xab9adde2efaa4dde),
          Quad(0xe33f974a8a83062f, 0x0ef3f03da3a3e102, 0xd0d788539ddb9d35, 0xe887815cf67b883b));
  }

  lemma ColumnsValues11()
    ensures MixQuad(Quad(0x97a32c6efcd82059, 0x0ef3f03da3a3e102, 0x6a90dffe0a4252c7, 0xab47e9be98655776), 0x7776757473727170, 0x5756555453525150) ==
            Quad(0xa4934c6e57364a37, 0x11d6a0598d2a6dfc, 0x27c434d42960b0e2, 0x31a82f1869d3e27c)
    ensures MixQuad(Quad(0x0a03839f325818a6, 0xb4c914c5001da029, 0xd0d788539ddb9d35, 0xab9adde2efaa4dde), 0x2726252423222120, 0x4746454443424140) ==
            Quad(0x8b96b90c74e25d1b, 0x2db7f01f8b12f38b, 0xc8864e3019813829, 0x3d7131ab2d3d3a8a)
    ensures MixQuad(Quad(0xdb578d0d2d3e4b18, 0x8bb6178bc441aedc, 0x03abf69457776c0f, 0xe887815cf67b883b), 0x4f4e4d4c4b4a4948, 0x7f7e7d7c7b7a7978) ==
            Quad(0x484c83a7a41acd26, 0x331ea1ba2a458ff9, 0x8bfd4498fef4d78e, 0xbd9f82fd48a0fac6)
    ensures MixQuad(Quad(0xe33f974a8a83062f, 0x117edd498ff4a84d, 0x826d06d08ad74dc4, 0x4291fac32234abfd), 0x6f6e6d6c6b6a6968, 0x3736353433323130) ==
            Quad(0xfc31e16ff633e952, 0xf637a9d464292e56, 0x1bd51ed10f0b3715, 0xf1915be75d76d08e)
  {
  }

  lemma Columns11()
    ensures Sixteen(ROW1) && Columns(STATE11, MESSAGE, ROW1) == MIDDLE11
  {
    hide MixQuad, Columns;
    ColumnsValues11();
    ColumnsMixed(STATE11, MESSAGE, ROW1,
          Two(0x7776757473727170, 0x5756555453525150),
          Two(0x2726252423222120, 0x4746454443424140),
          Two(0x4f4e4d4c4b4a4948, 0x7f7e7d7c7b7a7978),
          Two(0x6f6e6d6c6b6a6968, 0x3736353433323130),
          Quad(0xa4934c6e57364a37, 0x11d6a0598d2a6dfc, 0x27c434d42960b0e2, 0x31a82f1869d3e27c),
          Quad(0x8b96b90c74e25d1b, 0x2db7f01f8b12f38b, 0xc8864e3019813829, 0x3d7131ab2d3d3a8a),
          Quad(0x484c83a7a41acd26, 0x331ea1ba2a458ff9, 0x8bfd4498fef4d78e, 0xbd9f82fd48a0fac6),
          Quad(0xfc31e16ff633e952, 0xf637a9d464292e56, 0x1bd51ed10f0b3715, 0xf1915be75d76d08e));
  }

  lemma DiagonalsValues11()
    ensures MixQuad(Quad(0xa4934c6e57364a37, 0x2db7f01f8b12f38b, 0x8bfd4498fef4d78e, 0xf1915be75d76d08e), 0x0f0e0d0c0b0a0908, 0x6766656463626160) ==
            Quad(0xf6d9360fe5e06aae, 0x35d54d904a443b60, 0xb4f321d9b008df34, 0x78d046fca04bf528)
    ensures MixQuad(Quad(0x8b96b90c74e25d1b, 0x331ea1ba2a458ff9, 0x1bd51ed10f0b3715, 0x31a82f1869d3e27c), 0x0706050403020100, 0x1716151413121110) ==
            Quad(0x37f993b386c67f4d, 0x588e73d2e6e1352b, 0xf76f273da2fa1abc, 0x0f9ffc039fdb72d5)
    ensures MixQuad(Quad(0x484c83a7a41acd26, 0xf637a9d464292e56, 0x27c434d42960b0e2, 0x3d7131ab2d3d3a8a), 0x5f5e5d5c5b5a5958, 0x3f3e3d3c3b3a3938) ==
            Quad(0xba62cb94eee374b9, 0x36e128e87f68b8d1, 0x463297f46fbebac5, 0xcfcaf4c1a5ca4e70)
    ensures MixQuad(Quad(0xfc31e16ff633e952, 0x11d6a0598d2a6dfc, 0xc8864e3019813829, 0xbd9f82fd48a0fac6), 0x2f2e2d2c2b2a2928, 0x1f1e1d1c1b1a1918) ==
            Quad(0x5c5e99d1420b52a5, 0x5aaa9dd00bc93f88, 0x2d5c83577d8c26d3, 0x7eadba76e361c2a2)
  {
  }

  lemma Diagonals11()
    ensures Sixteen(ROW1) && Diagonals(MIDDLE11, MESSAGE, ROW1) == STATE12
  {
    hide MixQuad, Diagonals;
    DiagonalsValues11();
    DiagonalsMixed(MIDDLE11, MESSAGE, ROW1,
          Two(0x0f0e0d0c0b0a0908, 0x6766656463626160),
          Two(0x0706050403020100, 0x1716151413121110),
          Two(0x5f5e5d5c5b5a5958, 0x3f3e3d3c3b3a3938),
          Two(0x2f2e2d2c2b2a2928, 0x1f1e1d1c1b1a1918),
          Quad(0xf6d9360fe5e06aae, 0x35d54d904a443b60, 0xb4f321d9b008df34, 0x78d046fca04bf528),
          Quad(0x37f993b386c67f4d, 0x588e73d2e6e1352b, 0xf76f273da2fa1abc, 0x0f9ffc039fdb72d5),
          Quad(0xba62cb94eee374b9, 0x36e128e87f68b8d1, 0x463297f46fbebac5, 0xcfcaf4c1a5ca4e70),
          Quad(0x5c5e99d1420b52a5, 0x5aaa9dd00bc93f88, 0x2d5c83577d8c26d3, 0x7eadba76e361c2a2));
  }

  lemma RoundsStep(v: seq<word>, m: seq<word>, n: nat)
    requires |v| == 16 && |m| == 16
    ensures |SIGMA| == 10 && Sixteen(SIGMA[n % 10]) && Rounds(v, m, 0) == v
    ensures Rounds(v, m, n + 1) == Round(Rounds(v, m, n), m, SIGMA[n % 10])
  {
    hide Round;
    SigmaIs(n % 10);
  }

  lemma AllRounds()
    ensures |STATE0| == 16 && |MESSAGE| == 16 && Rounds(STATE0, MESSAGE, 12) == STATE12
  {
    hide Columns, Diagonals, Rounds, Sixteen;
    RoundsStep(STATE0, MESSAGE, 0);
    SigmaRow0();
    Columns0();
    Diagonals0();
    RoundsStep(STATE0, MESSAGE, 1);
    SigmaRow1();
    Columns1();
    Diagonals1();
    RoundsStep(STATE0, MESSAGE, 2);
    SigmaRow2();
    Columns2();
    Diagonals2();
    RoundsStep(STATE0, MESSAGE, 3);
    SigmaRow3();
    Columns3();
    Diagonals3();
    RoundsStep(STATE0, MESSAGE, 4);
    SigmaRow4();
    Columns4();
    Diagonals4();
    RoundsStep(STATE0, MESSAGE, 5);
    SigmaRow5();
    Columns5();
    Diagonals5();
    RoundsStep(STATE0, MESSAGE, 6);
    SigmaRow6();
    Columns6();
    Diagonals6();
    RoundsStep(STATE0, MESSAGE, 7);
    SigmaRow7();
    Columns7();
    Diagonals7();
    RoundsStep(STATE0, MESSAGE, 8);
    SigmaRow8();
    Columns8();
    Diagonals8();
    RoundsStep(STATE0, MESSAGE, 9);
    SigmaRow9();
    Columns9();
    Diagonals9();
    RoundsStep(STATE0, MESSAGE, 10);
    SigmaRow0();
    Columns10();
    Diagonals10();
    RoundsStep(STATE0, MESSAGE, 11);
    SigmaRow1();
    Columns11();
    Diagonals11();
  }

  // ----- the digest -----

  const START: seq<word> :=
     [0x6a09e667f2bdc948, 0xbb67ae8584caa73b, 0x3c6ef372fe94f82b, 0xa54ff53a5f1d36f1] +
     [0x510e527fade682d1, 0x9b05688c2b3e6c1f, 0x1f83d9abfb41bd6b, 0x5be0cd19137e2179]

  const END: seq<word> :=
     [0xdae2479c78e31923, 0xa1c2be617f80fea5, 0x32ff193fa07f53a6, 0x0e7e4bd6bfec7ee8] +
     [0x043b33ac39f4cf8c, 0x611ad1ddc4b0190f, 0x39a0100ffec14ae2, 0x15d1a30dcc5d6c80]

  lemma Narrow(n: nat)
    requires n < 0x1_0000_0000_0000_0000
    ensures ToWord(n) == n as bv64
  {
    assert n % 0x1_0000_0000_0000_0000 == n;
  }

  lemma Numbers()
    ensures ToWord(64) == 64 && ToWord(128) == 128 && ToWord(0) == 0
  {
    hide ToWord;
    Narrow(64);
    Narrow(128);
    Narrow(0);
  }

  lemma StartIs()
    ensures Start(64) == START
  {
    hide ToWord;
    Numbers();
    assert START == IV[0 := START[0]];
  }

  lemma Begun()
    ensures Start(64) == START && Working(START, 128, true) == STATE0
  {
    hide ToWord, Start;
    Numbers();
    StartIs();
    assert 128 / 0x1_0000_0000_0000_0000 == 0;
    assert IV == [IV[0], IV[1], IV[2], IV[3]] + [IV[4], IV[5], IV[6], IV[7]];
  }

  lemma Ended()
    ensures |START| == 8 && |STATE12| == 16 && Folded(START, STATE12) == END
  {
  }

  lemma OneBlock()
    ensures Digest.ByNumber(Compress, Start(64), Ramp(), 0) == END
  {
    hide Digest.ByNumber, Rounds, MessageWords, Working, Folded, Start, Ramp;
    Digest.NumberStep(Compress, Start(64), Ramp(), 0);
    Digest.NumberEnds(Compress, Compress(Start(64), Digest.Block(Ramp(), 0), 128, true), Ramp());
    assert Digest.Block(Ramp(), 0) == Ramp();
    RampWords();
    Begun();
    AllRounds();
    Ended();
  }

  lemma LowBytes(x: word, b0: byte, b1: byte, b2: byte, b3: byte, b4: byte, b5: byte, b6: byte, b7: byte)
    requires LowByte(x) == b0 && LowByte(x >> 8) == b1 && LowByte(x >> 16) == b2 && LowByte(x >> 24) == b3
    requires LowByte(x >> 32) == b4 && LowByte(x >> 40) == b5 && LowByte(x >> 48) == b6 && LowByte(x >> 56) == b7
    ensures LeBytes(x, 8) == [b0, b1, b2, b3] + [b4, b5, b6, b7]
  {
    hide LowByte;
    assert x >> 8 >> 8 == x >> 16 && x >> 16 >> 8 == x >> 24 && x >> 24 >> 8 == x >> 32 && x >> 32 >> 8 == x >> 40;
    assert x >> 40 >> 8 == x >> 48 && x >> 48 >> 8 == x >> 56;
    assert LeBytes(x >> 56, 1) == [b7];
    assert LeBytes(x >> 48, 2) == [b6] + LeBytes(x >> 56, 1);
    assert LeBytes(x >> 40, 3) == [b5] + LeBytes(x >> 48, 2);
    assert LeBytes(x >> 32, 4) == [b4] + LeBytes(x >> 40, 3);
    assert LeBytes(x >> 24, 5) == [b3] + LeBytes(x >> 32, 4);
    assert LeBytes(x >> 16, 6) == [b2] + LeBytes(x >> 24, 5);
    assert LeBytes(x >> 8, 7) == [b1] + LeBytes(x >> 16, 6);
  }

  lemma JoinedStep(s: seq<word>, n: nat)
    requires n < |s|
    ensures Joined(s[..n + 1]) == Joined(s[..n]) + LeBytes(s[n], 8)
  {
    hide LeBytes;
    assert s[..n + 1][..n] == s[..n];
  }

  function Four(s: seq<word>, n: nat): seq<byte>
    requires n + 4 <= |s|
  {
    LeBytes(s[n], 8) + LeBytes(s[n + 1], 8) + LeBytes(s[n + 2], 8) + LeBytes(s[n + 3], 8)
  }

  lemma JoinedFour(s: seq<word>, n: nat)
    requires n + 4 <= |s|
    ensures Joined(s[..n + 4]) == Joined(s[..n]) + Four(s, n)
  {
    hide LeBytes, Joined;
    JoinedStep(s, n);
    JoinedStep(s, n + 1);
    JoinedStep(s, n + 2);
    JoinedStep(s, n + 3);
  }

  lemma JoinedEight(s: seq<word>)
    requires |s| == 8
    ensures Joined(s) == Four(s, 0) + Four(s, 4)
  {
    hide Four, Joined;
    assert s[..8] == s && s[..0] == [];
    JoinedNone();
    JoinedFour(s, 0);
    JoinedFour(s, 4);
    assert [] + Four(s, 0) == Four(s, 0);
  }

  lemma JoinedNone()
    ensures Joined([]) == []
  {
  }

  lemma Blake2bOfRamp()
    ensures Joined(Digest.ByNumber(Compress, Start(64), Ramp(), 0)) ==
            [0x23, 0x19, 0xe3, 0x78, 0x9c, 0x47, 0xe2, 0xda] +
            [0xa5, 0xfe, 0x80, 0x7f, 0x61, 0xbe, 0xc2, 0xa1] +
            [0xa6, 0x53, 0x7f, 0xa0, 0x3f, 0x19, 0xff, 0x32] +
            [0xe8, 0x7e, 0xec, 0xbf, 0xd6, 0x4b, 0x7e, 0x0e] +
            [0x8c, 0xcf, 0xf4, 0x39, 0xac, 0x33, 0x3b, 0x04] +
            [0x0f, 0x19, 0xb0, 0xc4, 0xdd, 0xd1, 0x1a, 0x61] +
            [0xe2, 0x4a, 0xc1, 0xfe, 0x0f, 0x10, 0xa0, 0x39] +
            [0x80, 0x6c, 0x5d, 0xcc, 0x0d, 0xa3, 0xd1, 0x15]
  {
    hide Digest.ByNumber, Start, Ramp, LeBytes, Joined;
    OneBlock();
    JoinedEight(END);
    EndBytes0();
    EndBytes4();
  }

  lemma EndBytes0()
    ensures |END| == 8
    ensures LeBytes(END[0], 8) == [0x23, 0x19, 0xe3, 0x78, 0x9c, 0x47, 0xe2, 0xda]
    ensures LeBytes(END[1], 8) == [0xa5, 0xfe, 0x80, 0x7f, 0x61, 0xbe, 0xc2, 0xa1]
    ensures LeBytes(END[2], 8) == [0xa6, 0x53, 0x7f, 0xa0, 0x3f, 0x19, 0xff, 0x32]
    ensures LeBytes(END[3], 8) == [0xe8, 0x7e, 0xec, 0xbf, 0xd6, 0x4b, 0x7e, 0x0e]
  {
    hide LeBytes;
    assert END[0] == 0xdae2479c78e31923;
    LowBytes(0xdae2479c78e31923, 0x23, 0x19, 0xe3, 0x78, 0x9c, 0x47, 0xe2, 0xda);
    assert END[1] == 0xa1c2be617f80fea5;
    LowBytes(0xa1c2be617f80fea5, 0xa5, 0xfe, 0x80, 0x7f, 0x61, 0xbe, 0xc2, 0xa1);
    assert END[2] == 0x32ff193fa07f53a6;
    LowBytes(0x32ff193fa07f53a6, 0xa6, 0x53, 0x7f, 0xa0, 0x3f, 0x19, 0xff, 0x32);
    assert END[3] == 0x0e7e4bd6bfec7ee8;
    LowBytes(0x0e7e4bd6bfec7ee8, 0xe8, 0x7e, 0xec, 0xbf, 0xd6, 0x4b, 0x7e, 0x0e);
  }

  lemma EndBytes4()
    ensures |END| == 8
    ensures LeBytes(END[4], 8) == [0x8c, 0xcf, 0xf4, 0x39, 0xac, 0x33, 0x3b, 0x04]
    ensures LeBytes(END[5], 8) == [0x0f, 0x19, 0xb0, 0xc4, 0xdd, 0xd1, 0x1a, 0x61]
    ensures LeBytes(END[6], 8) == [0xe2, 0x4a, 0xc1, 0xfe, 0x0f, 0x10, 0xa0, 0x39]
    ensures LeBytes(END[7], 8) == [0x80, 0x6c, 0x5d, 0xcc, 0x0d, 0xa3, 0xd1, 0x15]
  {
    hide LeBytes;
    assert END[4] == 0x043b33ac39f4cf8c;
    LowBytes(0x043b33ac39f4cf8c, 0x8c, 0xcf, 0xf4, 0x39, 0xac, 0x33, 0x3b, 0x04);
    assert END[5] == 0x611ad1ddc4b0190f;
    LowBytes(0x611ad1ddc4b0190f, 0x0f, 0x19, 0xb0, 0xc4, 0xdd, 0xd1, 0x1a, 0x61);
    assert END[6] == 0x39a0100ffec14ae2;
    LowBytes(0x39a0100ffec14ae2, 0xe2, 0x4a, 0xc1, 0xfe, 0x0f, 0x10, 0xa0, 0x39);
    assert END[7] == 0x15d1a30dcc5d6c80;
    LowBytes(0x15d1a30dcc5d6c80, 0x80, 0x6c, 0x5d, 0xcc, 0x0d, 0xa3, 0xd1, 0x15);
  }
}
