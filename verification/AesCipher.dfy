/**
  The AES cipher and the equivalent inverse cipher as FIPS-197 describes them, one
  transformation at a time, and the theorem that the second inverts the first.
 */
module AesCipher {
  import opened AesField

  /** Four columns of the state. */
  type Block = s: seq<bv32> | |s| == 4 witness [0, 0, 0, 0]

  function SubWord(w: bv32): bv32 {
    Pack(SBox(Byte0(w)), SBox(Byte1(w)), SBox(Byte2(w)), SBox(Byte3(w)))
  }

  function InvSubWord(w: bv32): bv32 {
    Pack(InvSBox(Byte0(w)), InvSBox(Byte1(w)), InvSBox(Byte2(w)), InvSBox(Byte3(w)))
  }

  function SubBytes(s: Block): Block {
    [SubWord(s[0]), SubWord(s[1]), SubWord(s[2]), SubWord(s[3])]
  }

  function InvSubBytes(s: Block): Block {
    [InvSubWord(s[0]), InvSubWord(s[1]), InvSubWord(s[2]), InvSubWord(s[3])]
  }

  /** The column whose row i comes from the i-th argument. */
  function Column(a: bv32, b: bv32, c: bv32, d: bv32): bv32 {
    Pack(Byte0(a), Byte1(b), Byte2(c), Byte3(d))
  }

  function ShiftRows(s: Block): Block {
    [Column(s[0], s[1], s[2], s[3]), Column(s[1], s[2], s[3], s[0]), Column(s[2], s[3], s[0], s[1]),
        Column(s[3], s[0], s[1], s[2])]
  }

  function InvShiftRows(s: Block): Block {
    [Column(s[0], s[3], s[2], s[1]), Column(s[1], s[0], s[3], s[2]), Column(s[2], s[1], s[0], s[3]),
        Column(s[3], s[2], s[1], s[0])]
  }

  function MixColumns(s: Block): Block {
    [MixColumn(s[0]), MixColumn(s[1]), MixColumn(s[2]), MixColumn(s[3])]
  }

  function InvMixColumns(s: Block): Block {
    [InvMixColumn(s[0]), InvMixColumn(s[1]), InvMixColumn(s[2]), InvMixColumn(s[3])]
  }

  function AddRoundKey(s: Block, k: Block): Block {
    [WordXor(s[0], k[0]), WordXor(s[1], k[1]), WordXor(s[2], k[2]), WordXor(s[3], k[3])]
  }

  function Round(s: Block, k: Block): Block {
    AddRoundKey(MixColumns(ShiftRows(SubBytes(s))), k)
  }

  function LastRound(s: Block, k: Block): Block {
    AddRoundKey(ShiftRows(SubBytes(s)), k)
  }

  function InvRound(s: Block, k: Block): Block {
    AddRoundKey(InvMixColumns(InvShiftRows(InvSubBytes(s))), k)
  }

  function InvLastRound(s: Block, k: Block): Block {
    AddRoundKey(InvShiftRows(InvSubBytes(s)), k)
  }

  // ---- whole ciphers ----

  function RoundKey(keys: seq<bv32>, r: nat): Block
    requires 4 * r + 4 <= |keys|
  {
    keys[4 * r..4 * r + 4]
  }

  /** The state after the initial key addition and `r` full rounds (section 5.1 of FIPS-197). */
  function Rounds(p: Block, keys: seq<bv32>, r: nat): Block
    requires 4 * r + 4 <= |keys|
  {
    if r == 0 then AddRoundKey(p, RoundKey(keys, 0)) else Round(Rounds(p, keys, r - 1), RoundKey(keys, r))
  }

  function Cipher(p: Block, keys: seq<bv32>, nr: nat): Block
    requires 1 <= nr && 4 * nr + 4 <= |keys|
  {
    LastRound(Rounds(p, keys, nr - 1), RoundKey(keys, nr))
  }

  /** The state after `r` rounds of the equivalent inverse cipher (section 5.3.5 of FIPS-197). */
  function InvRounds(c: Block, keys: seq<bv32>, r: nat): Block
    requires 4 * r + 4 <= |keys|
  {
    if r == 0 then AddRoundKey(c, RoundKey(keys, 0)) else InvRound(InvRounds(c, keys, r - 1), RoundKey(keys, r))
  }

  function InvCipher(c: Block, keys: seq<bv32>, nr: nat): Block
    requires 1 <= nr && 4 * nr + 4 <= |keys|
  {
    InvLastRound(InvRounds(c, keys, nr - 1), RoundKey(keys, nr))
  }

  /** The decryption keys are the encryption keys in reverse, the inner ones through InvMixColumns. */
  ghost predicate InverseSchedule(enc: seq<bv32>, dec: seq<bv32>, nr: nat) {
    && 1 <= nr && 4 * nr + 4 <= |enc| && 4 * nr + 4 <= |dec|
    && RoundKey(dec, 0) == RoundKey(enc, nr)
    && RoundKey(dec, nr) == RoundKey(enc, 0)
    && forall r | 0 < r < nr :: RoundKey(dec, r) == InvMixColumns(RoundKey(enc, nr - r))
  }

  /** Where word i of one schedule of 4 * nr + 4 words belongs in the other. */
  function Mirror(nr: nat, i: nat): (j: nat)
    requires i < 4 * nr + 4
    ensures j < 4 * nr + 4 && j % 4 == i % 4 && j / 4 == nr - i / 4
  {
    4 * nr - 4 * (i / 4) + i % 4
  }

  lemma MirrorIndex(nr: nat, r: nat, c: nat)
    requires 0 < r < nr && c < 4
    ensures Mirror(nr, 4 * (nr - r) + c) == 4 * r + c
  {
  }

  lemma MirroredRound(enc: seq<bv32>, dec: seq<bv32>, nr: nat, r: nat)
    requires 0 < r < nr && 4 * nr + 4 <= |enc| && 4 * nr + 4 <= |dec|
    requires forall i | 4 <= i < 4 * nr :: dec[Mirror(nr, i)] == InvMixColumn(enc[i])
    ensures RoundKey(dec, r) == InvMixColumns(RoundKey(enc, nr - r))
  {
    hide InvMixColumn, Mirror;
    var i := 4 * (nr - r);
    assert 4 <= i && i + 3 < 4 * nr;
    MirrorIndex(nr, r, 0);
    MirrorIndex(nr, r, 1);
    MirrorIndex(nr, r, 2);
    MirrorIndex(nr, r, 3);
    assert dec[Mirror(nr, i)] == InvMixColumn(enc[i]) && dec[Mirror(nr, i + 1)] == InvMixColumn(enc[i + 1]);
    assert dec[Mirror(nr, i + 2)] == InvMixColumn(enc[i + 2]) && dec[Mirror(nr, i + 3)] == InvMixColumn(enc[i + 3]);
  }

  /** A schedule mirrored word by word is mirrored round key by round key. */
  lemma MirroredWords(enc: seq<bv32>, dec: seq<bv32>, nr: nat)
    requires 1 <= nr && 4 * nr + 4 <= |enc| && 4 * nr + 4 <= |dec|
    requires RoundKey(dec, 0) == RoundKey(enc, nr) && RoundKey(dec, nr) == RoundKey(enc, 0)
    requires forall i | 4 <= i < 4 * nr :: dec[Mirror(nr, i)] == InvMixColumn(enc[i])
    ensures InverseSchedule(enc, dec, nr)
  {
    hide InvMixColumn, InvMixColumns, RoundKey, Mirror;
    forall r | 0 < r < nr
      ensures RoundKey(dec, r) == InvMixColumns(RoundKey(enc, nr - r))
    {
      MirroredRound(enc, dec, nr, r);
    }
  }

  lemma RoundsStart(p: Block, keys: seq<bv32>)
    requires 4 <= |keys|
    ensures Rounds(p, keys, 0)
            == [WordXor(p[0], keys[0]), WordXor(p[1], keys[1]), WordXor(p[2], keys[2]), WordXor(p[3], keys[3])]
  {
  }

  lemma InvRoundsStart(c: Block, keys: seq<bv32>)
    requires 4 <= |keys|
    ensures InvRounds(c, keys, 0)
            == [WordXor(c[0], keys[0]), WordXor(c[1], keys[1]), WordXor(c[2], keys[2]), WordXor(c[3], keys[3])]
  {
  }

  lemma RoundsStep(p: Block, keys: seq<bv32>, r: nat)
    requires 4 * r + 8 <= |keys|
    ensures Rounds(p, keys, r + 1) == Round(Rounds(p, keys, r), keys[4 * r + 4..4 * r + 8])
  {
    hide Round, WordXor;
  }

  lemma InvRoundsStep(c: Block, keys: seq<bv32>, r: nat)
    requires 4 * r + 8 <= |keys|
    ensures InvRounds(c, keys, r + 1) == InvRound(InvRounds(c, keys, r), keys[4 * r + 4..4 * r + 8])
  {
    hide InvRound, WordXor;
  }

  // ---- every transformation is undone by its partner ----

  lemma SubWordInverse(w: bv32)
    ensures InvSubWord(SubWord(w)) == w
  {
    hide SBox, InvSBox, Pack, Byte0, Byte1, Byte2, Byte3;
    PackBytes(SBox(Byte0(w)), SBox(Byte1(w)), SBox(Byte2(w)), SBox(Byte3(w)));
    SBoxInverse(Byte0(w));
    SBoxInverse(Byte1(w));
    SBoxInverse(Byte2(w));
    SBoxInverse(Byte3(w));
    BytesPack(w);
  }

  lemma SubBytesInverse(s: Block)
    ensures InvSubBytes(SubBytes(s)) == s
  {
    hide SubWord, InvSubWord;
    SubWordInverse(s[0]);
    SubWordInverse(s[1]);
    SubWordInverse(s[2]);
    SubWordInverse(s[3]);
  }

  lemma ColumnBytes(a: bv32, b: bv32, c: bv32, d: bv32)
    ensures Byte0(Column(a, b, c, d)) == Byte0(a) && Byte1(Column(a, b, c, d)) == Byte1(b)
    ensures Byte2(Column(a, b, c, d)) == Byte2(c) && Byte3(Column(a, b, c, d)) == Byte3(d)
  {
    hide Pack, Byte0, Byte1, Byte2, Byte3;
    PackBytes(Byte0(a), Byte1(b), Byte2(c), Byte3(d));
  }

  /** Substituting bytes and moving bytes commute. */
  lemma InvSubShift(s: Block)
    ensures InvShiftRows(InvSubBytes(ShiftRows(SubBytes(s)))) == s
  {
    hide SubWord, InvSubWord, Column, SubBytes, InvSubBytes;
    var t := SubBytes(s);
    InvSubColumn(t[0], t[1], t[2], t[3]);
    InvSubColumn(t[1], t[2], t[3], t[0]);
    InvSubColumn(t[2], t[3], t[0], t[1]);
    InvSubColumn(t[3], t[0], t[1], t[2]);
    var u := InvSubBytes(t);
    InvSubBytesAt(t);
    InvSubBytesAt(ShiftRows(t));
    assert InvSubBytes(ShiftRows(t)) == ShiftRows(u);
    ShiftRowsInverse(u);
    SubBytesInverse(s);
  }

  lemma InvSubBytesAt(s: Block)
    ensures InvSubBytes(s) == [InvSubWord(s[0]), InvSubWord(s[1]), InvSubWord(s[2]), InvSubWord(s[3])]
  {
  }

  lemma InvSubColumn(a: bv32, b: bv32, c: bv32, d: bv32)
    ensures InvSubWord(Column(a, b, c, d)) == Column(InvSubWord(a), InvSubWord(b), InvSubWord(c), InvSubWord(d))
  {
    hide InvSBox, Pack, Byte0, Byte1, Byte2, Byte3;
    ColumnBytes(a, b, c, d);
    InvSubWordBytes(a);
    InvSubWordBytes(b);
    InvSubWordBytes(c);
    InvSubWordBytes(d);
  }

  lemma InvSubWordBytes(w: bv32)
    ensures Byte0(InvSubWord(w)) == InvSBox(Byte0(w)) && Byte1(InvSubWord(w)) == InvSBox(Byte1(w))
    ensures Byte2(InvSubWord(w)) == InvSBox(Byte2(w)) && Byte3(InvSubWord(w)) == InvSBox(Byte3(w))
  {
    hide InvSBox, Pack, Byte0, Byte1, Byte2, Byte3;
    PackBytes(InvSBox(Byte0(w)), InvSBox(Byte1(w)), InvSBox(Byte2(w)), InvSBox(Byte3(w)));
  }

  lemma ShiftRowsInverse(s: Block)
    ensures InvShiftRows(ShiftRows(s)) == s
  {
    hide Pack, Column, Byte0, Byte1, Byte2, Byte3;
    ColumnBytes(s[0], s[1], s[2], s[3]);
    ColumnBytes(s[1], s[2], s[3], s[0]);
    ColumnBytes(s[2], s[3], s[0], s[1]);
    ColumnBytes(s[3], s[0], s[1], s[2]);
    ColumnOf(ShiftRows(s)[0], ShiftRows(s)[3], ShiftRows(s)[2], ShiftRows(s)[1], s[0]);
    ColumnOf(ShiftRows(s)[1], ShiftRows(s)[0], ShiftRows(s)[3], ShiftRows(s)[2], s[1]);
    ColumnOf(ShiftRows(s)[2], ShiftRows(s)[1], ShiftRows(s)[0], ShiftRows(s)[3], s[2]);
    ColumnOf(ShiftRows(s)[3], ShiftRows(s)[2], ShiftRows(s)[1], ShiftRows(s)[0], s[3]);
  }

  lemma ColumnOf(a: bv32, b: bv32, c: bv32, d: bv32, w: bv32)
    requires Byte0(a) == Byte0(w) && Byte1(b) == Byte1(w) && Byte2(c) == Byte2(w) && Byte3(d) == Byte3(w)
    ensures Column(a, b, c, d) == w
  {
    hide Pack, Byte0, Byte1, Byte2, Byte3;
    BytesPack(w);
  }

  lemma WordXorTwice(a: bv32, b: bv32)
    ensures WordXor(WordXor(a, b), b) == a
  {
  }

  lemma AddRoundKeyTwice(s: Block, k: Block)
    ensures AddRoundKey(AddRoundKey(s, k), k) == s
  {
    hide WordXor;
    WordXorTwice(s[0], k[0]);
    WordXorTwice(s[1], k[1]);
    WordXorTwice(s[2], k[2]);
    WordXorTwice(s[3], k[3]);
  }

  /** InvMixColumns moves past the key addition when the key is transformed too. */
  lemma InvMixColumnsOfRound(s: Block, k: Block)
    ensures InvMixColumns(AddRoundKey(MixColumns(s), k)) == AddRoundKey(s, InvMixColumns(k))
  {
    hide WordXor, MixColumn, InvMixColumn;
    InvMixColumnXor(MixColumn(s[0]), k[0]);
    InvMixColumnXor(MixColumn(s[1]), k[1]);
    InvMixColumnXor(MixColumn(s[2]), k[2]);
    InvMixColumnXor(MixColumn(s[3]), k[3]);
    MixColumnInverse(s[0]);
    MixColumnInverse(s[1]);
    MixColumnInverse(s[2]);
    MixColumnInverse(s[3]);
  }

  // ---- the inverse, round by round ----

  /** One inverse round, with the transformed key, takes the middle of round r to the middle of round r - 1. */
  lemma InvRoundStep(s: Block, k: Block)
    ensures InvRound(ShiftRows(SubBytes(Round(s, k))), InvMixColumns(k)) == ShiftRows(SubBytes(s))
  {
    hide SubBytes, ShiftRows, InvSubBytes, InvShiftRows, MixColumns, InvMixColumns, AddRoundKey;
    InvSubShift(Round(s, k));
    InvMixColumnsOfRound(ShiftRows(SubBytes(s)), k);
    AddRoundKeyTwice(ShiftRows(SubBytes(s)), InvMixColumns(k));
  }

  /** After r inverse rounds the state is the middle of forward round nr - r. */
  lemma {:induction false} InvRoundsMiddle(p: Block, enc: seq<bv32>, dec: seq<bv32>, nr: nat, r: nat)
    requires InverseSchedule(enc, dec, nr) && r < nr
    ensures InvRounds(Cipher(p, enc, nr), dec, r) == ShiftRows(SubBytes(Rounds(p, enc, nr - 1 - r)))
  {
    hide SubBytes, ShiftRows, InvMixColumns, AddRoundKey, Round, InvRound;
    if r == 0 {
      AddRoundKeyTwice(ShiftRows(SubBytes(Rounds(p, enc, nr - 1))), RoundKey(enc, nr));
    } else {
      InvRoundsMiddle(p, enc, dec, nr, r - 1);
      InvRoundStep(Rounds(p, enc, nr - 1 - r), RoundKey(enc, nr - r));
    }
  }

  /** The equivalent inverse cipher inverts the cipher, for every block and every key schedule. */
  lemma DecryptInvertsEncrypt(p: Block, enc: seq<bv32>, dec: seq<bv32>, nr: nat)
    requires InverseSchedule(enc, dec, nr)
    ensures InvCipher(Cipher(p, enc, nr), dec, nr) == p
  {
    hide SubBytes, ShiftRows, InvSubBytes, InvShiftRows, InvMixColumns, AddRoundKey;
    InvRoundsMiddle(p, enc, dec, nr, nr - 1);
    InvSubShift(Rounds(p, enc, 0));
    AddRoundKeyTwice(p, RoundKey(enc, 0));
  }

  // ---- key schedule (section 5.2 of FIPS-197) ----

  /** The byte x^i of GF(2^8). */
  function RconByte(i: nat): bv8 {
    if i == 0 then 1 else XTime(RconByte(i - 1))
  }

  /** Word i of the schedule expanded from a key of nk words. */
  function ScheduleWord(key: seq<bv32>, i: nat): bv32
    requires |key| > 0
  {
    var nk := |key|;
    if i < nk then key[i] else
      WordXor(Feedback(nk, i, ScheduleWord(key, i - 1)), ScheduleWord(key, i - nk))
  }

  /** What is added to word i - nk: the previous word, transformed at the start of each key-length group. */
  function Feedback(nk: nat, i: nat, previous: bv32): bv32
    requires 0 < nk <= i
  {
    assert i / nk >= 1;
    if i % nk == 0 then WordXor(SubWord(Ror8(previous)), RconByte(i / nk - 1) as bv32)
    else if nk > 6 && i % nk == 4 then SubWord(previous)
    else previous
  }

  /** The word that opens a group of the schedule. */
  lemma GroupStart(key: seq<bv32>, n: nat)
    requires 0 < |key| <= n && n % |key| == 0 && n / |key| >= 1
    ensures ScheduleWord(key, n)
         == WordXor(WordXor(SubWord(Ror8(ScheduleWord(key, n - 1))), RconByte(n / |key| - 1) as bv32),
             ScheduleWord(key, n - |key|))
  {
    hide WordXor, SubWord, Ror8, RconByte;
  }

  /** The extra substitution in the middle of a group of eight. */
  lemma GroupMiddle(key: seq<bv32>, n: nat)
    requires |key| == 8 && n >= 8 && n % 8 == 4
    ensures ScheduleWord(key, n) == WordXor(SubWord(ScheduleWord(key, n - 1)), ScheduleWord(key, n - 8))
  {
    hide WordXor, SubWord, Ror8, RconByte;
  }

  /** Every other word only adds the previous one. */
  lemma GroupRest(key: seq<bv32>, n: nat)
    requires 0 < |key| <= n && n % |key| != 0 && !(|key| > 6 && n % |key| == 4)
    ensures ScheduleWord(key, n) == WordXor(ScheduleWord(key, n - 1), ScheduleWord(key, n - |key|))
  {
    hide WordXor, SubWord, Ror8, RconByte;
  }
}
