/**
  Byte and word arithmetic under the AES tables of crypto/aes_generic.c.

  The four pairs of lookup tables in the source are data.  They are given here by the
  functions of FIPS-197 that generate them: multiplication in GF(2^8), the S-box as
  inversion followed by an affine map, and MixColumns as a circulant matrix.  A 32-bit word
  holds one column of the state, row 0 in the low byte.
 */
module AesField {

  /** Multiplication by x in GF(2^8) modulo x^8 + x^4 + x^3 + x + 1. */
  function XTime(a: bv8): bv8 {
    (a << 1) ^ (if a & 0x80 != 0 then 0x1b else 0)
  }

  /** The product of `a` and `b` in GF(2^8), by Horner's rule from the top bit of `b`. */
  function Mul(a: bv8, b: bv8): bv8 {
    var p7 := if b & 0x80 != 0 then a else 0;
    var p6 := ((p7 << 1) ^ (if p7 & 0x80 != 0 then 0x1b else 0)) ^ (if b & 0x40 != 0 then a else 0);
    var p5 := ((p6 << 1) ^ (if p6 & 0x80 != 0 then 0x1b else 0)) ^ (if b & 0x20 != 0 then a else 0);
    var p4 := ((p5 << 1) ^ (if p5 & 0x80 != 0 then 0x1b else 0)) ^ (if b & 0x10 != 0 then a else 0);
    var p3 := ((p4 << 1) ^ (if p4 & 0x80 != 0 then 0x1b else 0)) ^ (if b & 0x08 != 0 then a else 0);
    var p2 := ((p3 << 1) ^ (if p3 & 0x80 != 0 then 0x1b else 0)) ^ (if b & 0x04 != 0 then a else 0);
    var p1 := ((p2 << 1) ^ (if p2 & 0x80 != 0 then 0x1b else 0)) ^ (if b & 0x02 != 0 then a else 0);
    ((p1 << 1) ^ (if p1 & 0x80 != 0 then 0x1b else 0)) ^ (if b & 0x01 != 0 then a else 0)
  }

  /** Squaring, which is linear over GF(2): bit i contributes x^(2i). */
  function Square(b: bv8): bv8 {
    (if b & 0x01 != 0 then 0x01 else 0) ^ (if b & 0x02 != 0 then 0x04 else 0)
    ^ (if b & 0x04 != 0 then 0x10 else 0) ^ (if b & 0x08 != 0 then 0x40 else 0)
    ^ (if b & 0x10 != 0 then 0x1b else 0) ^ (if b & 0x20 != 0 then 0x6c else 0)
    ^ (if b & 0x40 != 0 then 0xab else 0) ^ (if b & 0x80 != 0 then 0x9a else 0)
  }

  /** The multiplicative inverse x^254; zero is sent to zero. */
  function Inverse(x: bv8): bv8 {
    var x2 := Square(x);
    var x3 := Mul(x2, x);
    var x12 := Square(Square(x3));
    var x15 := Mul(x12, x3);
    var x240 := Square(Square(Square(Square(x15))));
    Mul(Mul(x240, x12), x2)
  }

  // The field facts are finite: the solver checks every byte, in two halves where it must.

  /** `Inverse` is the inverse of the field multiplication. */
  lemma InverseMultiplies(x: bv8)
    ensures x != 0 ==> Mul(x, Inverse(x)) == 1
  {
  }

  lemma InverseTwiceLow(x: bv8)
    requires x & 0x80 == 0
    ensures Inverse(Inverse(x)) == x
  {
  }

  lemma InverseTwiceHigh(x: bv8)
    requires x & 0x80 != 0
    ensures Inverse(Inverse(x)) == x
  {
  }

  function Affine(x: bv8): bv8 {
    x ^ ((x << 1) | (x >> 7)) ^ ((x << 2) | (x >> 6)) ^ ((x << 3) | (x >> 5)) ^ ((x << 4) | (x >> 4)) ^ 0x63
  }

  function InvAffine(x: bv8): bv8 {
    ((x << 1) | (x >> 7)) ^ ((x << 3) | (x >> 5)) ^ ((x << 6) | (x >> 2)) ^ 0x05
  }

  lemma AffineInverse(x: bv8)
    ensures InvAffine(Affine(x)) == x
  {
  }

  /** The S-box: column 0 of crypto_fl_tab. */
  function SBox(x: bv8): bv8 {
    Affine(Inverse(x))
  }

  /** The inverse S-box: column 0 of crypto_il_tab. */
  function InvSBox(x: bv8): bv8 {
    Inverse(InvAffine(x))
  }

  lemma SBoxInverse(x: bv8)
    ensures InvSBox(SBox(x)) == x
  {
    hide Inverse, Affine, InvAffine;
    AffineInverse(Inverse(x));
    if x & 0x80 == 0 { InverseTwiceLow(x); } else { InverseTwiceHigh(x); }
  }

  // ---- words ----

  function Byte0(w: bv32): bv8 { (w & 0xff) as bv8 }
  function Byte1(w: bv32): bv8 { ((w >> 8) & 0xff) as bv8 }
  function Byte2(w: bv32): bv8 { ((w >> 16) & 0xff) as bv8 }
  function Byte3(w: bv32): bv8 { (w >> 24) as bv8 }

  function Pack(b0: bv8, b1: bv8, b2: bv8, b3: bv8): bv32 {
    (b0 as bv32) | ((b1 as bv32) << 8) | ((b2 as bv32) << 16) | ((b3 as bv32) << 24)
  }

  function Ror8(x: bv32): bv32 { (x >> 8) | (x << 24) }
  function Ror16(x: bv32): bv32 { (x >> 16) | (x << 16) }
  function Ror24(x: bv32): bv32 { (x >> 24) | (x << 8) }

  lemma PackBytes(b0: bv8, b1: bv8, b2: bv8, b3: bv8)
    ensures Byte0(Pack(b0, b1, b2, b3)) == b0 && Byte1(Pack(b0, b1, b2, b3)) == b1
    ensures Byte2(Pack(b0, b1, b2, b3)) == b2 && Byte3(Pack(b0, b1, b2, b3)) == b3
  {
  }

  lemma BytesPack(w: bv32)
    ensures Pack(Byte0(w), Byte1(w), Byte2(w), Byte3(w)) == w
  {
  }

  /** Addition in GF(2^8), named so that proofs can treat it as an abstract operation. */
  function Xor(a: bv8, b: bv8): bv8 { a ^ b }

  function WordXor(a: bv32, b: bv32): bv32 { a ^ b }

  function WordXor4(a: bv32, b: bv32, c: bv32, d: bv32): bv32 { a ^ b ^ c ^ d }

  function Xor4(a: bv8, b: bv8, c: bv8, d: bv8): bv8 { a ^ b ^ c ^ d }

  lemma PackXor(a0: bv8, a1: bv8, a2: bv8, a3: bv8, b0: bv8, b1: bv8, b2: bv8, b3: bv8)
    ensures WordXor(Pack(a0, a1, a2, a3), Pack(b0, b1, b2, b3))
            == Pack(Xor(a0, b0), Xor(a1, b1), Xor(a2, b2), Xor(a3, b3))
  {
  }

  lemma ByteXor(a: bv32, b: bv32)
    ensures Byte0(WordXor(a, b)) == Xor(Byte0(a), Byte0(b)) && Byte1(WordXor(a, b)) == Xor(Byte1(a), Byte1(b))
    ensures Byte2(WordXor(a, b)) == Xor(Byte2(a), Byte2(b)) && Byte3(WordXor(a, b)) == Xor(Byte3(a), Byte3(b))
  {
    hide Xor, WordXor, Byte0, Byte1, Byte2, Byte3, Pack;
    BytesPack(a);
    BytesPack(b);
    PackXor(Byte0(a), Byte1(a), Byte2(a), Byte3(a), Byte0(b), Byte1(b), Byte2(b), Byte3(b));
    PackBytes(Xor(Byte0(a), Byte0(b)), Xor(Byte1(a), Byte1(b)), Xor(Byte2(a), Byte2(b)), Xor(Byte3(a), Byte3(b)));
  }

  // ---- MixColumns ----

  function Mul2(a: bv8): bv8 { XTime(a) }
  function Mul3(a: bv8): bv8 { Xor(Mul2(a), a) }
  function Mul4(a: bv8): bv8 { XTime(XTime(a)) }
  function Mul8(a: bv8): bv8 { XTime(XTime(XTime(a))) }
  function Mul9(a: bv8): bv8 { Xor(Mul8(a), a) }
  function MulB(a: bv8): bv8 { Xor4(Mul8(a), Mul2(a), a, 0) }
  function MulD(a: bv8): bv8 { Xor4(Mul8(a), Mul4(a), a, 0) }
  function MulE(a: bv8): bv8 { Xor4(Mul8(a), Mul4(a), Mul2(a), 0) }

  /** One row of the MixColumns matrix; the other rows rotate the arguments. */
  function MixRow(b0: bv8, b1: bv8, b2: bv8, b3: bv8): bv8 {
    Xor4(Mul2(b0), Mul3(b1), b2, b3)
  }

  function InvMixRow(b0: bv8, b1: bv8, b2: bv8, b3: bv8): bv8 {
    Xor4(MulE(b0), MulB(b1), MulD(b2), Mul9(b3))
  }

  function MixColumn(w: bv32): bv32 {
    var b0, b1, b2, b3 := Byte0(w), Byte1(w), Byte2(w), Byte3(w);
    Pack(MixRow(b0, b1, b2, b3), MixRow(b1, b2, b3, b0), MixRow(b2, b3, b0, b1), MixRow(b3, b0, b1, b2))
  }

  function InvMixColumn(w: bv32): bv32 {
    var b0, b1, b2, b3 := Byte0(w), Byte1(w), Byte2(w), Byte3(w);
    Pack(InvMixRow(b0, b1, b2, b3), InvMixRow(b1, b2, b3, b0), InvMixRow(b2, b3, b0, b1), InvMixRow(b3, b0, b1, b2))
  }

  lemma XTimeXor(a: bv8, b: bv8)
    ensures XTime(Xor(a, b)) == Xor(XTime(a), XTime(b))
  {
    if a & 0x80 == 0 {
      if b & 0x80 == 0 { assert (a ^ b) & 0x80 == 0; } else { assert (a ^ b) & 0x80 != 0; }
    } else {
      if b & 0x80 == 0 { assert (a ^ b) & 0x80 != 0; } else { assert (a ^ b) & 0x80 == 0; }
    }
  }

  lemma XorCommutes(a: bv8, b: bv8)
    ensures Xor(a, b) == Xor(b, a)
  {
  }

  lemma XorAssociates(a: bv8, b: bv8, c: bv8)
    ensures Xor(Xor(a, b), c) == Xor(a, Xor(b, c))
  {
  }

  lemma Xor4Nested(a: bv8, b: bv8, c: bv8, d: bv8)
    ensures Xor4(a, b, c, d) == Xor(Xor(Xor(a, b), c), d)
  {
  }

  lemma Xor4Halves(a: bv8, b: bv8, c: bv8, d: bv8)
    ensures Xor4(a, b, c, d) == Xor(Xor(a, b), Xor(c, d))
  {
    hide Xor, Xor4;
    Xor4Nested(a, b, c, d);
    XorAssociates(Xor(a, b), c, d);
  }

  lemma XorPairs(a: bv8, b: bv8, c: bv8, d: bv8)
    ensures Xor(Xor(a, c), Xor(b, d)) == Xor(Xor(a, b), Xor(c, d))
  {
    hide Xor;
    XorAssociates(Xor(a, c), b, d);
    XorAssociates(a, c, b);
    XorCommutes(b, c);
    XorAssociates(a, b, c);
    XorAssociates(Xor(a, b), c, d);
  }

  lemma XorSwap(a: bv8, b: bv8, c: bv8, d: bv8, e: bv8, f: bv8, g: bv8, h: bv8)
    ensures Xor4(Xor(a, e), Xor(b, f), Xor(c, g), Xor(d, h)) == Xor(Xor4(a, b, c, d), Xor4(e, f, g, h))
  {
    hide Xor, Xor4;
    Xor4Halves(Xor(a, e), Xor(b, f), Xor(c, g), Xor(d, h));
    XorPairs(a, b, e, f);
    XorPairs(c, d, g, h);
    XorPairs(Xor(a, b), Xor(c, d), Xor(e, f), Xor(g, h));
    Xor4Halves(a, b, c, d);
    Xor4Halves(e, f, g, h);
  }

  lemma XorZero()
    ensures Xor(0, 0) == 0
  {
  }

  lemma MulXor(a: bv8, b: bv8)
    ensures Mul9(Xor(a, b)) == Xor(Mul9(a), Mul9(b)) && MulB(Xor(a, b)) == Xor(MulB(a), MulB(b))
    ensures MulD(Xor(a, b)) == Xor(MulD(a), MulD(b)) && MulE(Xor(a, b)) == Xor(MulE(a), MulE(b))
  {
    hide XTime, Xor, Xor4;
    XTimeXor(a, b);
    XTimeXor(Mul2(a), Mul2(b));
    XTimeXor(Mul4(a), Mul4(b));
    XorZero();
    XorPairs(Mul8(a), a, Mul8(b), b);
    XorSwap(Mul8(a), Mul2(a), a, 0, Mul8(b), Mul2(b), b, 0);
    XorSwap(Mul8(a), Mul4(a), a, 0, Mul8(b), Mul4(b), b, 0);
    XorSwap(Mul8(a), Mul4(a), Mul2(a), 0, Mul8(b), Mul4(b), Mul2(b), 0);
  }

  lemma InvMixRowXor(a0: bv8, a1: bv8, a2: bv8, a3: bv8, b0: bv8, b1: bv8, b2: bv8, b3: bv8)
    ensures InvMixRow(Xor(a0, b0), Xor(a1, b1), Xor(a2, b2), Xor(a3, b3))
         == Xor(InvMixRow(a0, a1, a2, a3), InvMixRow(b0, b1, b2, b3))
  {
    hide MulE, MulB, MulD, Mul9, Xor, Xor4;
    MulXor(a0, b0);
    MulXor(a1, b1);
    MulXor(a2, b2);
    MulXor(a3, b3);
    XorSwap(MulE(a0), MulB(a1), MulD(a2), Mul9(a3), MulE(b0), MulB(b1), MulD(b2), Mul9(b3));
  }

  /** InvMixColumns distributes over AddRoundKey. */
  lemma InvMixColumnXor(a: bv32, b: bv32)
    ensures InvMixColumn(WordXor(a, b)) == WordXor(InvMixColumn(a), InvMixColumn(b))
  {
    hide InvMixRow, Pack, Byte0, Byte1, Byte2, Byte3, Xor, WordXor;
    var a0, a1, a2, a3 := Byte0(a), Byte1(a), Byte2(a), Byte3(a);
    var b0, b1, b2, b3 := Byte0(b), Byte1(b), Byte2(b), Byte3(b);
    ByteXor(a, b);
    InvMixRowXor(a0, a1, a2, a3, b0, b1, b2, b3);
    InvMixRowXor(a1, a2, a3, a0, b1, b2, b3, b0);
    InvMixRowXor(a2, a3, a0, a1, b2, b3, b0, b1);
    InvMixRowXor(a3, a0, a1, a2, b3, b0, b1, b2);
    PackXor(InvMixRow(a0, a1, a2, a3), InvMixRow(a1, a2, a3, a0), InvMixRow(a2, a3, a0, a1), InvMixRow(a3, a0, a1, a2),
            InvMixRow(b0, b1, b2, b3), InvMixRow(b1, b2, b3, b0), InvMixRow(b2, b3, b0, b1), InvMixRow(b3, b0, b1, b2));
  }

  /** The product of the two circulant matrices is the identity, coefficient by coefficient. */
  lemma MixCoefficients(b: bv8)
    ensures Xor4(MulE(Mul2(b)), MulB(b), MulD(b), Mul9(Mul3(b))) == b
    ensures Xor4(MulE(Mul3(b)), MulB(Mul2(b)), MulD(b), Mul9(b)) == 0
    ensures Xor4(MulE(b), MulB(Mul3(b)), MulD(Mul2(b)), Mul9(b)) == 0
    ensures Xor4(MulE(b), MulB(b), MulD(Mul3(b)), Mul9(Mul2(b))) == 0
  {
  }

  lemma MulXor4(a: bv8, b: bv8, c: bv8, d: bv8)
    ensures MulE(Xor4(a, b, c, d)) == Xor4(MulE(a), MulE(b), MulE(c), MulE(d))
    ensures MulB(Xor4(a, b, c, d)) == Xor4(MulB(a), MulB(b), MulB(c), MulB(d))
    ensures MulD(Xor4(a, b, c, d)) == Xor4(MulD(a), MulD(b), MulD(c), MulD(d))
    ensures Mul9(Xor4(a, b, c, d)) == Xor4(Mul9(a), Mul9(b), Mul9(c), Mul9(d))
  {
    hide MulE, MulB, MulD, Mul9, Xor, Xor4;
    Xor4Nested(a, b, c, d);
    MulXor(Xor(Xor(a, b), c), d);
    MulXor(Xor(a, b), c);
    MulXor(a, b);
    Xor4Nested(MulE(a), MulE(b), MulE(c), MulE(d));
    Xor4Nested(MulB(a), MulB(b), MulB(c), MulB(d));
    Xor4Nested(MulD(a), MulD(b), MulD(c), MulD(d));
    Xor4Nested(Mul9(a), Mul9(b), Mul9(c), Mul9(d));
  }

  lemma XorRotate(a: bv8, b: bv8, c: bv8, d: bv8)
    ensures Xor4(a, b, c, d) == Xor4(b, c, d, a)
    ensures Xor4(a, b, c, d) == Xor4(c, d, a, b)
    ensures Xor4(a, b, c, d) == Xor4(d, a, b, c)
  {
    hide Xor, Xor4;
    XorRotateOnce(a, b, c, d);
    XorRotateOnce(b, c, d, a);
    XorRotateOnce(c, d, a, b);
  }

  lemma XorRotateOnce(a: bv8, b: bv8, c: bv8, d: bv8)
    ensures Xor4(a, b, c, d) == Xor4(b, c, d, a)
  {
    hide Xor, Xor4;
    Xor4Nested(a, b, c, d);
    XorAssociates(a, b, c);
    XorAssociates(a, Xor(b, c), d);
    XorCommutes(a, Xor(Xor(b, c), d));
    Xor4Nested(b, c, d, a);
  }

  /** Transposing a four by four square of terms under exclusive or, two rows at a time. */
  lemma XorTranspose(a0: bv8, a1: bv8, a2: bv8, a3: bv8, b0: bv8, b1: bv8, b2: bv8, b3: bv8,
                     c0: bv8, c1: bv8, c2: bv8, c3: bv8, d0: bv8, d1: bv8, d2: bv8, d3: bv8)
    ensures Xor4(Xor4(a0, a1, a2, a3), Xor4(b0, b1, b2, b3), Xor4(c0, c1, c2, c3), Xor4(d0, d1, d2, d3))
         == Xor4(Xor4(a0, b0, c0, d0), Xor4(a1, b1, c1, d1), Xor4(a2, b2, c2, d2), Xor4(a3, b3, c3, d3))
  {
    hide Xor, Xor4;
    Xor4Halves(Xor4(a0, a1, a2, a3), Xor4(b0, b1, b2, b3), Xor4(c0, c1, c2, c3), Xor4(d0, d1, d2, d3));
    XorSwap(a0, a1, a2, a3, b0, b1, b2, b3);
    XorSwap(c0, c1, c2, c3, d0, d1, d2, d3);
    XorSwap(Xor(a0, b0), Xor(a1, b1), Xor(a2, b2), Xor(a3, b3), Xor(c0, d0), Xor(c1, d1), Xor(c2, d2), Xor(c3, d3));
    Xor4Halves(a0, b0, c0, d0);
    Xor4Halves(a1, b1, c1, d1);
    Xor4Halves(a2, b2, c2, d2);
    Xor4Halves(a3, b3, c3, d3);
  }

  lemma Xor4Zero(a: bv8)
    ensures Xor4(a, 0, 0, 0) == a
  {
  }

  lemma MixRowInverse(b0: bv8, b1: bv8, b2: bv8, b3: bv8)
    ensures InvMixRow(MixRow(b0, b1, b2, b3), MixRow(b1, b2, b3, b0), MixRow(b2, b3, b0, b1), MixRow(b3, b0, b1, b2))
            == b0
  {
    hide MulE, MulB, MulD, Mul9, Mul2, Mul3, Xor4;
    XorRotate(Mul2(b1), Mul3(b2), b3, b0);
    XorRotate(Mul2(b2), Mul3(b3), b0, b1);
    XorRotate(Mul2(b3), Mul3(b0), b1, b2);
    MulXor4(Mul2(b0), Mul3(b1), b2, b3);
    MulXor4(b0, Mul2(b1), Mul3(b2), b3);
    MulXor4(b0, b1, Mul2(b2), Mul3(b3));
    MulXor4(Mul3(b0), b1, b2, Mul2(b3));
    MixCoefficients(b0);
    MixCoefficients(b1);
    MixCoefficients(b2);
    MixCoefficients(b3);
    XorTranspose(MulE(Mul2(b0)), MulE(Mul3(b1)), MulE(b2), MulE(b3),
                 MulB(b0), MulB(Mul2(b1)), MulB(Mul3(b2)), MulB(b3),
                 MulD(b0), MulD(b1), MulD(Mul2(b2)), MulD(Mul3(b3)),
                 Mul9(Mul3(b0)), Mul9(b1), Mul9(b2), Mul9(Mul2(b3)));
    Xor4Zero(b0);
  }

  /** InvMixColumns undoes MixColumns on every column. */
  lemma MixColumnInverse(w: bv32)
    ensures InvMixColumn(MixColumn(w)) == w
  {
    hide InvMixRow, MixRow, Pack, Byte0, Byte1, Byte2, Byte3;
    var b0, b1, b2, b3 := Byte0(w), Byte1(w), Byte2(w), Byte3(w);
    PackBytes(MixRow(b0, b1, b2, b3), MixRow(b1, b2, b3, b0), MixRow(b2, b3, b0, b1), MixRow(b3, b0, b1, b2));
    MixRowInverse(b0, b1, b2, b3);
    MixRowInverse(b1, b2, b3, b0);
    MixRowInverse(b2, b3, b0, b1);
    MixRowInverse(b3, b0, b1, b2);
    BytesPack(w);
  }

  // ---- the word-parallel forms of the source ----

  /** star_x: doubles the four bytes of a word at once. */
  function StarX(x: bv32): bv32 {
    ((x & 0x7f7f7f7f) << 1) ^ (((x & 0x80808080) >> 7) * 0x1b)
  }

  lemma StarXBytes(x: bv32)
    ensures Byte0(StarX(x)) == Mul2(Byte0(x)) && Byte1(StarX(x)) == Mul2(Byte1(x))
    ensures Byte2(StarX(x)) == Mul2(Byte2(x)) && Byte3(StarX(x)) == Mul2(Byte3(x))
  {
  }

  /** imix_col: InvMixColumns by three doublings and three rotations. */
  function ImixCol(x: bv32): bv32 {
    var u := StarX(x);
    var v := StarX(u);
    var w := StarX(v);
    var t := WordXor(w, x);
    WordXor(WordXor(WordXor(u, v), w), WordXor(WordXor(Ror8(WordXor(u, t)), Ror16(WordXor(v, t))), Ror24(t)))
  }

  lemma RorBytes(x: bv32)
    ensures Byte0(Ror8(x)) == Byte1(x) && Byte1(Ror8(x)) == Byte2(x) && Byte2(Ror8(x)) == Byte3(x)
            && Byte3(Ror8(x)) == Byte0(x)
    ensures Byte0(Ror16(x)) == Byte2(x) && Byte1(Ror16(x)) == Byte3(x) && Byte2(Ror16(x)) == Byte0(x)
            && Byte3(Ror16(x)) == Byte1(x)
    ensures Byte0(Ror24(x)) == Byte3(x) && Byte1(Ror24(x)) == Byte0(x) && Byte2(Ror24(x)) == Byte1(x)
            && Byte3(Ror24(x)) == Byte2(x)
  {
  }

  /** One byte of imix_col, with u, v, w the doublings of each byte and x the byte itself. */
  lemma ImixByte(u0: bv8, v0: bv8, w0: bv8, x1: bv8, u1: bv8, w1: bv8, x2: bv8, v2: bv8, w2: bv8, x3: bv8, w3: bv8)
    ensures Xor(Xor(Xor(u0, v0), w0), Xor(Xor(Xor(u1, Xor(w1, x1)), Xor(v2, Xor(w2, x2))), Xor(w3, x3)))
         == Xor4(Xor4(w0, v0, u0, 0), Xor4(w1, u1, x1, 0), Xor4(w2, v2, x2, 0), Xor(w3, x3))
  {
  }

  lemma ImixBytes(x: bv32, u: bv32, v: bv32, w: bv32)
    requires u == StarX(x) && v == StarX(u) && w == StarX(v)
    ensures Byte0(ImixCol(x)) == Xor(Xor(Xor(Byte0(u), Byte0(v)), Byte0(w)),
                                     Xor(Xor(Xor(Byte1(u), Xor(Byte1(w), Byte1(x))),
                                         Xor(Byte2(v), Xor(Byte2(w), Byte2(x)))), Xor(Byte3(w), Byte3(x))))
    ensures Byte1(ImixCol(x)) == Xor(Xor(Xor(Byte1(u), Byte1(v)), Byte1(w)),
                                     Xor(Xor(Xor(Byte2(u), Xor(Byte2(w), Byte2(x))),
                                         Xor(Byte3(v), Xor(Byte3(w), Byte3(x)))), Xor(Byte0(w), Byte0(x))))
    ensures Byte2(ImixCol(x)) == Xor(Xor(Xor(Byte2(u), Byte2(v)), Byte2(w)),
                                     Xor(Xor(Xor(Byte3(u), Xor(Byte3(w), Byte3(x))),
                                         Xor(Byte0(v), Xor(Byte0(w), Byte0(x)))), Xor(Byte1(w), Byte1(x))))
    ensures Byte3(ImixCol(x)) == Xor(Xor(Xor(Byte3(u), Byte3(v)), Byte3(w)),
                                     Xor(Xor(Xor(Byte0(u), Xor(Byte0(w), Byte0(x))),
                                         Xor(Byte1(v), Xor(Byte1(w), Byte1(x)))), Xor(Byte2(w), Byte2(x))))
  {
    hide StarX, Byte0, Byte1, Byte2, Byte3, Xor, WordXor, Ror8, Ror16, Ror24;
    var t := WordXor(w, x);
    var p, q := WordXor(u, t), WordXor(v, t);
    ByteXor(w, x);
    ByteXor(u, t);
    ByteXor(v, t);
    ByteXor(u, v);
    ByteXor(WordXor(u, v), w);
    RorBytes(p);
    RorBytes(q);
    RorBytes(t);
    ByteXor(Ror8(p), Ror16(q));
    ByteXor(WordXor(Ror8(p), Ror16(q)), Ror24(t));
    ByteXor(WordXor(WordXor(u, v), w), WordXor(WordXor(Ror8(p), Ror16(q)), Ror24(t)));
  }

  lemma MulPowers(a: bv8)
    ensures Mul2(Mul2(a)) == Mul4(a) && Mul2(Mul4(a)) == Mul8(a)
  {
  }

  /** The word-parallel macro computes the InvMixColumns matrix. */
  lemma ImixColIsInvMixColumn(x: bv32)
    ensures ImixCol(x) == InvMixColumn(x)
  {
    hide Mul2, Mul4, Mul8, StarX, ImixCol, Pack, Byte0, Byte1, Byte2, Byte3, Xor, Xor4;
    var u := StarX(x);
    var v := StarX(u);
    var w := StarX(v);
    StarXBytes(x);
    StarXBytes(u);
    StarXBytes(v);
    MulPowers(Byte0(x));
    MulPowers(Byte1(x));
    MulPowers(Byte2(x));
    MulPowers(Byte3(x));
    ImixBytes(x, u, v, w);
    ImixByte(Byte0(u), Byte0(v), Byte0(w), Byte1(x), Byte1(u), Byte1(w), Byte2(x), Byte2(v), Byte2(w), Byte3(x),
        Byte3(w));
    ImixByte(Byte1(u), Byte1(v), Byte1(w), Byte2(x), Byte2(u), Byte2(w), Byte3(x), Byte3(v), Byte3(w), Byte0(x),
        Byte0(w));
    ImixByte(Byte2(u), Byte2(v), Byte2(w), Byte3(x), Byte3(u), Byte3(w), Byte0(x), Byte0(v), Byte0(w), Byte1(x),
        Byte1(w));
    ImixByte(Byte3(u), Byte3(v), Byte3(w), Byte0(x), Byte0(u), Byte0(w), Byte1(x), Byte1(v), Byte1(w), Byte2(x),
        Byte2(w));
    BytesPack(ImixCol(x));
  }

  // ---- lookup tables ----

  function Ft0(x: bv8): bv32 { var s := SBox(x); Pack(Mul2(s), s, s, Mul3(s)) }
  function Ft1(x: bv8): bv32 { var s := SBox(x); Pack(Mul3(s), Mul2(s), s, s) }
  function Ft2(x: bv8): bv32 { var s := SBox(x); Pack(s, Mul3(s), Mul2(s), s) }
  function Ft3(x: bv8): bv32 { var s := SBox(x); Pack(s, s, Mul3(s), Mul2(s)) }

  function It0(x: bv8): bv32 { var s := InvSBox(x); Pack(MulE(s), Mul9(s), MulD(s), MulB(s)) }
  function It1(x: bv8): bv32 { var s := InvSBox(x); Pack(MulB(s), MulE(s), Mul9(s), MulD(s)) }
  function It2(x: bv8): bv32 { var s := InvSBox(x); Pack(MulD(s), MulB(s), MulE(s), Mul9(s)) }
  function It3(x: bv8): bv32 { var s := InvSBox(x); Pack(Mul9(s), MulD(s), MulB(s), MulE(s)) }

  function Fl0(x: bv8): bv32 { SBox(x) as bv32 }
  function Fl1(x: bv8): bv32 { (SBox(x) as bv32) << 8 }
  function Fl2(x: bv8): bv32 { (SBox(x) as bv32) << 16 }
  function Fl3(x: bv8): bv32 { (SBox(x) as bv32) << 24 }

  function Il0(x: bv8): bv32 { InvSBox(x) as bv32 }
  function Il1(x: bv8): bv32 { (InvSBox(x) as bv32) << 8 }
  function Il2(x: bv8): bv32 { (InvSBox(x) as bv32) << 16 }
  function Il3(x: bv8): bv32 { (InvSBox(x) as bv32) << 24 }

  lemma PackColumns(r0: bv8, r1: bv8, r2: bv8, r3: bv8, s0: bv8, s1: bv8, s2: bv8, s3: bv8,
                    t0: bv8, t1: bv8, t2: bv8, t3: bv8, u0: bv8, u1: bv8, u2: bv8, u3: bv8)
    ensures WordXor4(Pack(r0, r1, r2, r3), Pack(s0, s1, s2, s3), Pack(t0, t1, t2, t3), Pack(u0, u1, u2, u3))
         == Pack(Xor4(r0, s0, t0, u0), Xor4(r1, s1, t1, u1), Xor4(r2, s2, t2, u2), Xor4(r3, s3, t3, u3))
  {
  }

  /** Four lookups in crypto_ft_tab apply SubBytes to four bytes and MixColumns to the column they form. */
  lemma ForwardTables(a: bv8, b: bv8, c: bv8, d: bv8)
    ensures WordXor4(Ft0(a), Ft1(b), Ft2(c), Ft3(d)) == MixColumn(Pack(SBox(a), SBox(b), SBox(c), SBox(d)))
  {
    hide SBox, Mul2, Mul3, Pack, Byte0, Byte1, Byte2, Byte3, Xor4, WordXor4;
    var s, t, u, v := SBox(a), SBox(b), SBox(c), SBox(d);
    PackColumns(Mul2(s), s, s, Mul3(s), Mul3(t), Mul2(t), t, t, u, Mul3(u), Mul2(u), u, v, v, Mul3(v), Mul2(v));
    PackBytes(s, t, u, v);
    XorRotate(s, Mul2(t), Mul3(u), v);
    XorRotate(s, t, Mul2(u), Mul3(v));
    XorRotate(Mul3(s), t, u, Mul2(v));
  }

  /** Four lookups in crypto_it_tab apply InvSubBytes and then InvMixColumns. */
  lemma InverseTables(a: bv8, b: bv8, c: bv8, d: bv8)
    ensures WordXor4(It0(a), It1(b), It2(c), It3(d))
            == InvMixColumn(Pack(InvSBox(a), InvSBox(b), InvSBox(c), InvSBox(d)))
  {
    hide InvSBox, MulE, MulB, MulD, Mul9, Pack, Byte0, Byte1, Byte2, Byte3, Xor4, WordXor4;
    var s, t, u, v := InvSBox(a), InvSBox(b), InvSBox(c), InvSBox(d);
    PackColumns(MulE(s), Mul9(s), MulD(s), MulB(s), MulB(t), MulE(t), Mul9(t), MulD(t),
                MulD(u), MulB(u), MulE(u), Mul9(u), Mul9(v), MulD(v), MulB(v), MulE(v));
    PackBytes(s, t, u, v);
    XorRotate(Mul9(s), MulE(t), MulB(u), MulD(v));
    XorRotate(MulD(s), Mul9(t), MulE(u), MulB(v));
    XorRotate(MulB(s), MulD(t), Mul9(u), MulE(v));
  }

  /** The last-round tables hold one S-box byte each, so four lookups assemble a word. */
  lemma LastRoundTables(a: bv8, b: bv8, c: bv8, d: bv8)
    ensures WordXor4(Fl0(a), Fl1(b), Fl2(c), Fl3(d)) == Pack(SBox(a), SBox(b), SBox(c), SBox(d))
    ensures WordXor4(Il0(a), Il1(b), Il2(c), Il3(d)) == Pack(InvSBox(a), InvSBox(b), InvSBox(c), InvSBox(d))
  {
    hide SBox, InvSBox, Pack, WordXor4;
    ShiftedBytes(SBox(a), SBox(b), SBox(c), SBox(d));
    ShiftedBytes(InvSBox(a), InvSBox(b), InvSBox(c), InvSBox(d));
  }

  lemma ShiftedBytes(a: bv8, b: bv8, c: bv8, d: bv8)
    ensures WordXor4(a as bv32, (b as bv32) << 8, (c as bv32) << 16, (d as bv32) << 24) == Pack(a, b, c, d)
  {
  }
}
