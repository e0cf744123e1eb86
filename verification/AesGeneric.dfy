/**
  The table-driven implementation: crypto_aes_expand_key, aes_encrypt and aes_decrypt.
 */
module AesGeneric {
  import opened AesField
  import opened AesCipher

  const EINVAL := 22

  const RCO_TAB: seq<bv32> := [1, 2, 4, 8, 16, 32, 64, 128, 27, 54]

  lemma RcoTabIsRcon(i: nat)
    requires i < 10
    ensures RCO_TAB[i] == RconByte(i) as bv32
  {
    assert RconByte(3) == 8;
    assert RconByte(6) == 64;
    assert RconByte(8) == 27;
  }

  // ---- bytes and words ----

  function LoadWord(b: seq<bv8>, i: nat): bv32
    requires 4 * i + 4 <= |b|
  {
    Pack(b[4 * i], b[4 * i + 1], b[4 * i + 2], b[4 * i + 3])
  }

  function LoadBlock(b: seq<bv8>): Block
    requires |b| == 16
  {
    [LoadWord(b, 0), LoadWord(b, 1), LoadWord(b, 2), LoadWord(b, 3)]
  }

  function KeyWords(key: seq<bv8>): seq<bv32> {
    seq(|key| / 4, i requires 0 <= i < |key| / 4 => LoadWord(key, i))
  }

  function StoreWord(w: bv32): (b: seq<bv8>)
    ensures |b| == 4
  {
    [Byte0(w), Byte1(w), Byte2(w), Byte3(w)]
  }

  function StoreBlock(s: Block): (b: seq<bv8>)
    ensures |b| == 16
  {
    StoreWord(s[0]) + StoreWord(s[1]) + StoreWord(s[2]) + StoreWord(s[3])
  }

  lemma StoreLoad(b: seq<bv8>)
    requires |b| == 16
    ensures StoreBlock(LoadBlock(b)) == b
  {
    hide Pack, Byte0, Byte1, Byte2, Byte3;
    PackBytes(b[0], b[1], b[2], b[3]);
    PackBytes(b[4], b[5], b[6], b[7]);
    PackBytes(b[8], b[9], b[10], b[11]);
    PackBytes(b[12], b[13], b[14], b[15]);
  }

  lemma LoadStore(s: Block)
    ensures LoadBlock(StoreBlock(s)) == s
  {
    hide Pack, Byte0, Byte1, Byte2, Byte3;
    BytesPack(s[0]);
    BytesPack(s[1]);
    BytesPack(s[2]);
    BytesPack(s[3]);
  }

  // ---- one output word of each kind of round ----

  function ForwardWord(a: bv32, b: bv32, c: bv32, d: bv32, k: bv32): bv32 {
    WordXor(WordXor4(Ft0(Byte0(a)), Ft1(Byte1(b)), Ft2(Byte2(c)), Ft3(Byte3(d))), k)
  }

  function ForwardLastWord(a: bv32, b: bv32, c: bv32, d: bv32, k: bv32): bv32 {
    WordXor(WordXor4(Fl0(Byte0(a)), Fl1(Byte1(b)), Fl2(Byte2(c)), Fl3(Byte3(d))), k)
  }

  function InverseWord(a: bv32, b: bv32, c: bv32, d: bv32, k: bv32): bv32 {
    WordXor(WordXor4(It0(Byte0(a)), It1(Byte1(b)), It2(Byte2(c)), It3(Byte3(d))), k)
  }

  function InverseLastWord(a: bv32, b: bv32, c: bv32, d: bv32, k: bv32): bv32 {
    WordXor(WordXor4(Il0(Byte0(a)), Il1(Byte1(b)), Il2(Byte2(c)), Il3(Byte3(d))), k)
  }

  lemma SubWordBytes(w: bv32)
    ensures Byte0(SubWord(w)) == SBox(Byte0(w)) && Byte1(SubWord(w)) == SBox(Byte1(w))
    ensures Byte2(SubWord(w)) == SBox(Byte2(w)) && Byte3(SubWord(w)) == SBox(Byte3(w))
  {
    hide SBox, Pack, Byte0, Byte1, Byte2, Byte3;
    PackBytes(SBox(Byte0(w)), SBox(Byte1(w)), SBox(Byte2(w)), SBox(Byte3(w)));
  }

  lemma ForwardWordMeaning(a: bv32, b: bv32, c: bv32, d: bv32, k: bv32)
    ensures ForwardWord(a, b, c, d, k) == WordXor(MixColumn(Column(SubWord(a), SubWord(b), SubWord(c), SubWord(d))), k)
  {
    hide SBox, Pack, Byte0, Byte1, Byte2, Byte3, WordXor, WordXor4, SubWord, Ft0, Ft1, Ft2, Ft3, MixColumn;
    SubWordBytes(a);
    SubWordBytes(b);
    SubWordBytes(c);
    SubWordBytes(d);
    ForwardTables(Byte0(a), Byte1(b), Byte2(c), Byte3(d));
  }

  lemma ForwardLastWordMeaning(a: bv32, b: bv32, c: bv32, d: bv32, k: bv32)
    ensures ForwardLastWord(a, b, c, d, k) == WordXor(Column(SubWord(a), SubWord(b), SubWord(c), SubWord(d)), k)
  {
    hide SBox, Pack, Byte0, Byte1, Byte2, Byte3, WordXor, WordXor4, SubWord, Fl0, Fl1, Fl2, Fl3;
    SubWordBytes(a);
    SubWordBytes(b);
    SubWordBytes(c);
    SubWordBytes(d);
    LastRoundTables(Byte0(a), Byte1(b), Byte2(c), Byte3(d));
  }

  lemma InverseWordMeaning(a: bv32, b: bv32, c: bv32, d: bv32, k: bv32)
    ensures InverseWord(a, b, c, d, k)
            == WordXor(InvMixColumn(Column(InvSubWord(a), InvSubWord(b), InvSubWord(c), InvSubWord(d))), k)
  {
    hide InvSBox, Pack, Byte0, Byte1, Byte2, Byte3, WordXor, WordXor4, InvSubWord, It0, It1, It2, It3, InvMixColumn;
    InvSubWordBytes(a);
    InvSubWordBytes(b);
    InvSubWordBytes(c);
    InvSubWordBytes(d);
    InverseTables(Byte0(a), Byte1(b), Byte2(c), Byte3(d));
  }

  lemma InverseLastWordMeaning(a: bv32, b: bv32, c: bv32, d: bv32, k: bv32)
    ensures InverseLastWord(a, b, c, d, k)
            == WordXor(Column(InvSubWord(a), InvSubWord(b), InvSubWord(c), InvSubWord(d)), k)
  {
    hide InvSBox, Pack, Byte0, Byte1, Byte2, Byte3, WordXor, WordXor4, InvSubWord, Il0, Il1, Il2, Il3;
    InvSubWordBytes(a);
    InvSubWordBytes(b);
    InvSubWordBytes(c);
    InvSubWordBytes(d);
    LastRoundTables(Byte0(a), Byte1(b), Byte2(c), Byte3(d));
  }

  /** ls_box */
  function LsBox(x: bv32): bv32 {
    WordXor4(Fl0(Byte0(x)), Fl1(Byte1(x)), Fl2(Byte2(x)), Fl3(Byte3(x)))
  }

  lemma LsBoxIsSubWord(x: bv32)
    ensures LsBox(x) == SubWord(x)
  {
    hide SBox, Pack, Byte0, Byte1, Byte2, Byte3, WordXor4, Fl0, Fl1, Fl2, Fl3;
    LastRoundTables(Byte0(x), Byte1(x), Byte2(x), Byte3(x));
  }

  lemma WordXorCommutes(a: bv32, b: bv32)
    ensures WordXor(a, b) == WordXor(b, a)
  {
  }

  // ---- rounds, writing one block array from the other ----

  /** f_nround */
  method ForwardRound(bo: array<bv32>, bi: array<bv32>, key: array<bv32>, kp: nat)
    requires bo.Length == 4 && bi.Length == 4 && bo != bi && bo != key && kp + 4 <= key.Length
    modifies bo
    ensures bo[..] == Round(bi[..], key[kp..kp + 4])
  {
    hide ForwardWord, WordXor, MixColumn, Column, SubWord;
    bo[0] := ForwardWord(bi[0], bi[1], bi[2], bi[3], key[kp]);
    bo[1] := ForwardWord(bi[1], bi[2], bi[3], bi[0], key[kp + 1]);
    bo[2] := ForwardWord(bi[2], bi[3], bi[0], bi[1], key[kp + 2]);
    bo[3] := ForwardWord(bi[3], bi[0], bi[1], bi[2], key[kp + 3]);
    ForwardWordMeaning(bi[0], bi[1], bi[2], bi[3], key[kp]);
    ForwardWordMeaning(bi[1], bi[2], bi[3], bi[0], key[kp + 1]);
    ForwardWordMeaning(bi[2], bi[3], bi[0], bi[1], key[kp + 2]);
    ForwardWordMeaning(bi[3], bi[0], bi[1], bi[2], key[kp + 3]);
  }

  /** f_lround */
  method ForwardLastRound(bo: array<bv32>, bi: array<bv32>, key: array<bv32>, kp: nat)
    requires bo.Length == 4 && bi.Length == 4 && bo != bi && bo != key && kp + 4 <= key.Length
    modifies bo
    ensures bo[..] == LastRound(bi[..], key[kp..kp + 4])
  {
    hide ForwardLastWord, WordXor, Column, SubWord;
    bo[0] := ForwardLastWord(bi[0], bi[1], bi[2], bi[3], key[kp]);
    bo[1] := ForwardLastWord(bi[1], bi[2], bi[3], bi[0], key[kp + 1]);
    bo[2] := ForwardLastWord(bi[2], bi[3], bi[0], bi[1], key[kp + 2]);
    bo[3] := ForwardLastWord(bi[3], bi[0], bi[1], bi[2], key[kp + 3]);
    ForwardLastWordMeaning(bi[0], bi[1], bi[2], bi[3], key[kp]);
    ForwardLastWordMeaning(bi[1], bi[2], bi[3], bi[0], key[kp + 1]);
    ForwardLastWordMeaning(bi[2], bi[3], bi[0], bi[1], key[kp + 2]);
    ForwardLastWordMeaning(bi[3], bi[0], bi[1], bi[2], key[kp + 3]);
  }

  /** i_nround */
  method InverseRound(bo: array<bv32>, bi: array<bv32>, key: array<bv32>, kp: nat)
    requires bo.Length == 4 && bi.Length == 4 && bo != bi && bo != key && kp + 4 <= key.Length
    modifies bo
    ensures bo[..] == InvRound(bi[..], key[kp..kp + 4])
  {
    hide InverseWord, WordXor, InvMixColumn, Column, InvSubWord;
    bo[0] := InverseWord(bi[0], bi[3], bi[2], bi[1], key[kp]);
    bo[1] := InverseWord(bi[1], bi[0], bi[3], bi[2], key[kp + 1]);
    bo[2] := InverseWord(bi[2], bi[1], bi[0], bi[3], key[kp + 2]);
    bo[3] := InverseWord(bi[3], bi[2], bi[1], bi[0], key[kp + 3]);
    InverseWordMeaning(bi[0], bi[3], bi[2], bi[1], key[kp]);
    InverseWordMeaning(bi[1], bi[0], bi[3], bi[2], key[kp + 1]);
    InverseWordMeaning(bi[2], bi[1], bi[0], bi[3], key[kp + 2]);
    InverseWordMeaning(bi[3], bi[2], bi[1], bi[0], key[kp + 3]);
  }

  /** i_lround */
  method InverseLastRound(bo: array<bv32>, bi: array<bv32>, key: array<bv32>, kp: nat)
    requires bo.Length == 4 && bi.Length == 4 && bo != bi && bo != key && kp + 4 <= key.Length
    modifies bo
    ensures bo[..] == InvLastRound(bi[..], key[kp..kp + 4])
  {
    hide InverseLastWord, WordXor, Column, InvSubWord;
    bo[0] := InverseLastWord(bi[0], bi[3], bi[2], bi[1], key[kp]);
    bo[1] := InverseLastWord(bi[1], bi[0], bi[3], bi[2], key[kp + 1]);
    bo[2] := InverseLastWord(bi[2], bi[1], bi[0], bi[3], key[kp + 2]);
    bo[3] := InverseLastWord(bi[3], bi[2], bi[1], bi[0], key[kp + 3]);
    InverseLastWordMeaning(bi[0], bi[3], bi[2], bi[1], key[kp]);
    InverseLastWordMeaning(bi[1], bi[0], bi[3], bi[2], key[kp + 1]);
    InverseLastWordMeaning(bi[2], bi[1], bi[0], bi[3], key[kp + 2]);
    InverseLastWordMeaning(bi[3], bi[2], bi[1], bi[0], key[kp + 3]);
  }

  // ---- the cipher context ----

  predicate ValidKeyLength(n: nat) { n == 16 || n == 24 || n == 32 }

  /** Rounds for a key of `n` bytes. */
  function NumRounds(n: nat): nat { n / 4 + 6 }

  function EncryptBytes(input: seq<bv8>, enc: seq<bv32>, nr: nat): seq<bv8>
    requires |input| == 16 && 1 <= nr && 4 * nr + 4 <= |enc|
  {
    StoreBlock(Cipher(LoadBlock(input), enc, nr))
  }

  function DecryptBytes(input: seq<bv8>, dec: seq<bv32>, nr: nat): seq<bv8>
    requires |input| == 16 && 1 <= nr && 4 * nr + 4 <= |dec|
  {
    StoreBlock(InvCipher(LoadBlock(input), dec, nr))
  }

  class CryptoAesCtx {
    const keyEnc: array<bv32>
    const keyDec: array<bv32>
    var keyLength: nat

    constructor ()
      ensures fresh(keyEnc) && fresh(keyDec) && Allocated() && keyLength == 0
    {
      keyEnc := new bv32[60];
      keyDec := new bv32[60];
      keyLength := 0;
    }

    ghost predicate Allocated() {
      keyEnc.Length == 60 && keyDec.Length == 60 && keyEnc != keyDec
    }

    /** The schedules belong to some key, and the second is the inverse of the first. */
    ghost predicate Ready()
      reads this, keyEnc, keyDec
    {
      Allocated() && ValidKeyLength(keyLength) && InverseSchedule(keyEnc[..], keyDec[..], NumRounds(keyLength))
    }

    /** A key of some accepted length has been installed. */
    ghost predicate Keyed()
      reads this
    {
      Allocated() && ValidKeyLength(keyLength)
    }

    /** The first `n` words of the encryption schedule are those of the standard. */
    ghost predicate Expanded(key: seq<bv32>, n: nat)
      requires |key| > 0
      reads keyEnc
    {
      n <= keyEnc.Length && forall j | 0 <= j < n :: keyEnc[j] == ScheduleWord(key, j)
    }

    method Put(n: nat, t: bv32, ghost key: seq<bv32>)
      requires Allocated() && |key| > 0 && n < 60 && Expanded(key, n) && t == ScheduleWord(key, n)
      modifies keyEnc
      ensures Expanded(key, n + 1)
    {
      keyEnc[n] := t;
    }

    /** The opening word of a group, shared by the three loop macros. */
    method OpenGroup(n: nat, i: nat, t0: bv32, nk: nat, ghost key: seq<bv32>) returns (t: bv32)
      requires Allocated() && |key| == nk && 0 < nk <= n < 60 && n % nk == 0 && i < 10 && n / nk == i + 1
      requires Expanded(key, n) && t0 == ScheduleWord(key, n - 1)
      modifies keyEnc
      ensures Expanded(key, n + 1) && t == ScheduleWord(key, n)
    {
      hide WordXor, LsBox, SubWord, Ror8, RconByte, ScheduleWord;
      t := Ror8(t0);
      LsBoxIsSubWord(t);
      RcoTabIsRcon(i);
      t := WordXor(LsBox(t), RCO_TAB[i]);
      t := WordXor(t, keyEnc[n - nk]);
      GroupStart(key, n);
      Put(n, t, key);
    }

    /** Each of the next `count` words adds the word one group earlier to the running t. */
    method ExtendGroup(n: nat, count: nat, t0: bv32, nk: nat, ghost key: seq<bv32>) returns (t: bv32)
      requires Allocated() && |key| == nk && 0 < nk <= n && n + count <= 60
      requires forall m | n <= m < n + count :: m % nk != 0 && !(nk > 6 && m % nk == 4)
      requires Expanded(key, n) && t0 == ScheduleWord(key, n - 1)
      modifies keyEnc
      ensures Expanded(key, n + count) && t == ScheduleWord(key, n + count - 1)
    {
      hide WordXor, ScheduleWord;
      t := t0;
      for m := n to n + count
        invariant Expanded(key, m) && t == ScheduleWord(key, m - 1)
      {
        t := WordXor(t, keyEnc[m - nk]);
        GroupRest(key, m);
        Put(m, t, key);
      }
    }

    method Loop4(i: nat, t0: bv32, ghost key: seq<bv32>) returns (t: bv32)
      requires Allocated() && |key| == 4 && i < 10
      requires Expanded(key, 4 * i + 4) && t0 == ScheduleWord(key, 4 * i + 3)
      modifies keyEnc
      ensures Expanded(key, 4 * i + 8) && t == ScheduleWord(key, 4 * i + 7)
    {
      hide ScheduleWord;
      t := OpenGroup(4 * i + 4, i, t0, 4, key);
      t := ExtendGroup(4 * i + 5, 3, t, 4, key);
    }

    method Loop6(i: nat, t0: bv32, ghost key: seq<bv32>) returns (t: bv32)
      requires Allocated() && |key| == 6 && i < 8
      requires Expanded(key, 6 * i + 6) && t0 == ScheduleWord(key, 6 * i + 5)
      modifies keyEnc
      ensures Expanded(key, 6 * i + 12) && t == ScheduleWord(key, 6 * i + 11)
    {
      hide ScheduleWord;
      t := OpenGroup(6 * i + 6, i, t0, 6, key);
      t := ExtendGroup(6 * i + 7, 5, t, 6, key);
    }

    method Loop8TopHalf(i: nat, t0: bv32, ghost key: seq<bv32>) returns (t: bv32)
      requires Allocated() && |key| == 8 && i < 7
      requires Expanded(key, 8 * i + 8) && t0 == ScheduleWord(key, 8 * i + 7)
      modifies keyEnc
      ensures Expanded(key, 8 * i + 12) && t == ScheduleWord(key, 8 * i + 11)
    {
      hide ScheduleWord;
      t := OpenGroup(8 * i + 8, i, t0, 8, key);
      t := ExtendGroup(8 * i + 9, 3, t, 8, key);
    }

    method Loop8(i: nat, t0: bv32, ghost key: seq<bv32>) returns (t: bv32)
      requires Allocated() && |key| == 8 && i < 6
      requires Expanded(key, 8 * i + 8) && t0 == ScheduleWord(key, 8 * i + 7)
      modifies keyEnc
      ensures Expanded(key, 8 * i + 16) && t == ScheduleWord(key, 8 * i + 15)
    {
      hide ScheduleWord, WordXor, LsBox, SubWord;
      t := Loop8TopHalf(i, t0, key);
      LsBoxIsSubWord(t);
      GroupMiddle(key, 8 * i + 12);
      WordXorCommutes(keyEnc[8 * i + 4], LsBox(t));
      t := WordXor(keyEnc[8 * i + 4], LsBox(t));
      Put(8 * i + 12, t, key);
      t := ExtendGroup(8 * i + 13, 3, t, 8, key);
    }

    method LoadKey(key: seq<bv32>)
      requires Allocated() && 0 < |key| <= 8
      modifies keyEnc
      ensures Expanded(key, |key|)
    {
      for i := 0 to |key|
        invariant Expanded(key, i)
      {
        keyEnc[i] := key[i];
      }
    }

    /** The encryption half of crypto_aes_expand_key. */
    method ExpandEncryption(key: seq<bv32>)
      requires Allocated() && (|key| == 4 || |key| == 6 || |key| == 8)
      modifies keyEnc
      ensures Expanded(key, 4 * |key| + 28)
    {
      hide ScheduleWord;
      LoadKey(key);
      var t := keyEnc[|key| - 1];
      if |key| == 4 {
        for i := 0 to 10
          invariant Expanded(key, 4 * i + 4) && t == ScheduleWord(key, 4 * i + 3)
        {
          t := Loop4(i, t, key);
        }
      } else if |key| == 6 {
        for i := 0 to 8
          invariant Expanded(key, 6 * i + 6) && t == ScheduleWord(key, 6 * i + 5)
        {
          t := Loop6(i, t, key);
        }
      } else {
        for i := 0 to 6
          invariant Expanded(key, 8 * i + 8) && t == ScheduleWord(key, 8 * i + 7)
        {
          t := Loop8(i, t, key);
        }
        t := Loop8TopHalf(6, t, key);
      }
    }

    /** The outer round keys of the decryption schedule are copied across. */
    method CopyOuterKeys(nr: nat)
      requires Allocated() && 1 <= nr <= 14
      modifies keyDec
      ensures keyDec[..4] == keyEnc[4 * nr..4 * nr + 4] && keyDec[4 * nr..4 * nr + 4] == keyEnc[..4]
    {
      keyDec[4 * nr], keyDec[4 * nr + 1], keyDec[4 * nr + 2], keyDec[4 * nr + 3] :=
        keyEnc[0], keyEnc[1], keyEnc[2], keyEnc[3];
      keyDec[0], keyDec[1], keyDec[2], keyDec[3] :=
        keyEnc[4 * nr], keyEnc[4 * nr + 1], keyEnc[4 * nr + 2], keyEnc[4 * nr + 3];
      assert keyDec[..4] == [keyDec[0], keyDec[1], keyDec[2], keyDec[3]];
      assert keyEnc[4 * nr..4 * nr + 4] == [keyEnc[4 * nr], keyEnc[4 * nr + 1], keyEnc[4 * nr + 2], keyEnc[4 * nr + 3]];
    }

    /** The inner ones go through imix_col. */
    method MixInnerKeys(nr: nat)
      requires Allocated() && 1 <= nr <= 14
      modifies keyDec
      ensures forall i | 4 <= i < 4 * nr :: keyDec[Mirror(nr, i)] == InvMixColumn(keyEnc[i])
      ensures keyDec[..4] == old(keyDec[..4]) && keyDec[4 * nr..4 * nr + 4] == old(keyDec[4 * nr..4 * nr + 4])
    {
      hide ImixCol, InvMixColumn;
      for i := 4 to 4 * nr
        invariant keyDec[..4] == old(keyDec[..4]) && keyDec[4 * nr..4 * nr + 4] == old(keyDec[4 * nr..4 * nr + 4])
        invariant forall k | 4 <= k < i :: keyDec[Mirror(nr, k)] == InvMixColumn(keyEnc[k])
      {
        keyDec[Mirror(nr, i)] := ImixCol(keyEnc[i]);
        ImixColIsInvMixColumn(keyEnc[i]);
      }
    }

    /** The decryption half of crypto_aes_expand_key. */
    method MirrorKeys(nr: nat)
      requires Allocated() && 1 <= nr <= 14
      modifies keyDec
      ensures InverseSchedule(keyEnc[..], keyDec[..], nr)
    {
      hide InvMixColumn, InverseSchedule, Mirror;
      CopyOuterKeys(nr);
      MixInnerKeys(nr);
      MirroredWords(keyEnc[..], keyDec[..], nr);
    }

    /** crypto_aes_expand_key */
    method ExpandKey(inKey: seq<bv8>) returns (err: int)
      requires Allocated()
      modifies this, keyEnc, keyDec
      ensures err == if ValidKeyLength(|inKey|) then 0 else -EINVAL
      ensures err == 0 ==> Ready() && keyLength == |inKey| && Expanded(KeyWords(inKey), |inKey| + 28)
      ensures err != 0 ==> keyLength == old(keyLength) && keyEnc[..] == old(keyEnc[..]) && keyDec[..] == old(keyDec[..])
    {
      if !ValidKeyLength(|inKey|) {
        return -EINVAL;
      }
      keyLength := |inKey|;
      ExpandEncryption(KeyWords(inKey));
      MirrorKeys(NumRounds(|inKey|));
      return 0;
    }

    /** The round that produces state r, which starts at key word 4 * r. */
    method ForwardStep(bo: array<bv32>, bi: array<bv32>, r: nat, ghost p: Block)
      requires bo.Length == 4 && bi.Length == 4 && bo != bi && bo != keyEnc && 1 <= r && 4 * r + 4 <= keyEnc.Length
      requires bi[..] == Rounds(p, keyEnc[..], r - 1)
      modifies bo
      ensures bo[..] == Rounds(p, keyEnc[..], r)
    {
      hide Rounds, Round;
      ForwardRound(bo, bi, keyEnc, 4 * r);
      RoundsStep(p, keyEnc[..], r - 1);
      assert keyEnc[..][4 * r..4 * r + 4] == keyEnc[4 * r..4 * r + 4];
    }

    method ForwardLoad(input: seq<bv8>) returns (b0: array<bv32>)
      requires Allocated() && |input| == 16
      ensures fresh(b0) && b0.Length == 4 && b0[..] == Rounds(LoadBlock(input), keyEnc[..], 0)
    {
      hide Rounds, LoadWord, WordXor;
      b0 := new bv32[4];
      b0[0] := WordXor(LoadWord(input, 0), keyEnc[0]);
      b0[1] := WordXor(LoadWord(input, 1), keyEnc[1]);
      b0[2] := WordXor(LoadWord(input, 2), keyEnc[2]);
      b0[3] := WordXor(LoadWord(input, 3), keyEnc[3]);
      RoundsStart(LoadBlock(input), keyEnc[..]);
    }

    /** The rounds that only longer keys have. */
    method ForwardExtra(b0: array<bv32>, b1: array<bv32>, ghost p: Block) returns (r: nat)
      requires Keyed() && b0.Length == 4 && b1.Length == 4 && b0 != b1 && keyEnc !in {b0, b1}
      requires b0[..] == Rounds(p, keyEnc[..], 0)
      modifies b0, b1
      ensures r == NumRounds(keyLength) - 10 && b0[..] == Rounds(p, keyEnc[..], r)
    {
      hide Rounds;
      r := 0;
      if keyLength > 24 {
        ForwardStep(b1, b0, r + 1, p);
        ForwardStep(b0, b1, r + 2, p);
        r := r + 2;
      }
      if keyLength > 16 {
        ForwardStep(b1, b0, r + 1, p);
        ForwardStep(b0, b1, r + 2, p);
        r := r + 2;
      }
    }

    /** aes_encrypt */
    method Encrypt(input: seq<bv8>) returns (output: seq<bv8>)
      requires Keyed() && |input| == 16
      ensures output == EncryptBytes(input, keyEnc[..], NumRounds(keyLength))
    {
      hide Rounds, LastRound, LoadBlock, StoreBlock;
      var b0 := ForwardLoad(input);
      var b1 := new bv32[4];
      ghost var p := LoadBlock(input);
      var r := ForwardExtra(b0, b1, p);
      ForwardStep(b1, b0, r + 1, p);
      ForwardStep(b0, b1, r + 2, p);
      ForwardStep(b1, b0, r + 3, p);
      ForwardStep(b0, b1, r + 4, p);
      ForwardStep(b1, b0, r + 5, p);
      ForwardStep(b0, b1, r + 6, p);
      ForwardStep(b1, b0, r + 7, p);
      ForwardStep(b0, b1, r + 8, p);
      ForwardStep(b1, b0, r + 9, p);
      ForwardLastRound(b0, b1, keyEnc, 4 * (r + 10));
      assert keyEnc[..][4 * (r + 10)..4 * (r + 10) + 4] == keyEnc[4 * (r + 10)..4 * (r + 10) + 4];
      output := StoreBlock(b0[..]);
    }

    /** The round that produces state r, which starts at key word 4 * r. */
    method InverseStep(bo: array<bv32>, bi: array<bv32>, r: nat, ghost c: Block)
      requires bo.Length == 4 && bi.Length == 4 && bo != bi && bo != keyDec && 1 <= r && 4 * r + 4 <= keyDec.Length
      requires bi[..] == InvRounds(c, keyDec[..], r - 1)
      modifies bo
      ensures bo[..] == InvRounds(c, keyDec[..], r)
    {
      hide InvRounds, InvRound;
      InverseRound(bo, bi, keyDec, 4 * r);
      InvRoundsStep(c, keyDec[..], r - 1);
      assert keyDec[..][4 * r..4 * r + 4] == keyDec[4 * r..4 * r + 4];
    }

    method InverseLoad(input: seq<bv8>) returns (b0: array<bv32>)
      requires Allocated() && |input| == 16
      ensures fresh(b0) && b0.Length == 4 && b0[..] == InvRounds(LoadBlock(input), keyDec[..], 0)
    {
      hide InvRounds, LoadWord, WordXor;
      b0 := new bv32[4];
      b0[0] := WordXor(LoadWord(input, 0), keyDec[0]);
      b0[1] := WordXor(LoadWord(input, 1), keyDec[1]);
      b0[2] := WordXor(LoadWord(input, 2), keyDec[2]);
      b0[3] := WordXor(LoadWord(input, 3), keyDec[3]);
      InvRoundsStart(LoadBlock(input), keyDec[..]);
    }

    /** The rounds that only longer keys have. */
    method InverseExtra(b0: array<bv32>, b1: array<bv32>, ghost c: Block) returns (r: nat)
      requires Keyed() && b0.Length == 4 && b1.Length == 4 && b0 != b1 && keyDec !in {b0, b1}
      requires b0[..] == InvRounds(c, keyDec[..], 0)
      modifies b0, b1
      ensures r == NumRounds(keyLength) - 10 && b0[..] == InvRounds(c, keyDec[..], r)
    {
      hide InvRounds;
      r := 0;
      if keyLength > 24 {
        InverseStep(b1, b0, r + 1, c);
        InverseStep(b0, b1, r + 2, c);
        r := r + 2;
      }
      if keyLength > 16 {
        InverseStep(b1, b0, r + 1, c);
        InverseStep(b0, b1, r + 2, c);
        r := r + 2;
      }
    }

    /** aes_decrypt */
    method Decrypt(input: seq<bv8>) returns (output: seq<bv8>)
      requires Keyed() && |input| == 16
      ensures output == DecryptBytes(input, keyDec[..], NumRounds(keyLength))
    {
      hide InvRounds, InvLastRound, LoadBlock, StoreBlock;
      var b0 := InverseLoad(input);
      var b1 := new bv32[4];
      ghost var c := LoadBlock(input);
      var r := InverseExtra(b0, b1, c);
      InverseStep(b1, b0, r + 1, c);
      InverseStep(b0, b1, r + 2, c);
      InverseStep(b1, b0, r + 3, c);
      InverseStep(b0, b1, r + 4, c);
      InverseStep(b1, b0, r + 5, c);
      InverseStep(b0, b1, r + 6, c);
      InverseStep(b1, b0, r + 7, c);
      InverseStep(b0, b1, r + 8, c);
      InverseStep(b1, b0, r + 9, c);
      InverseLastRound(b0, b1, keyDec, 4 * (r + 10));
      assert keyDec[..][4 * (r + 10)..4 * (r + 10) + 4] == keyDec[4 * (r + 10)..4 * (r + 10) + 4];
      output := StoreBlock(b0[..]);
    }
  }

  /** Decrypting an encrypted block gives it back, for every pair of mirrored schedules. */
  lemma RoundTrip(input: seq<bv8>, enc: seq<bv32>, dec: seq<bv32>, nr: nat)
    requires |input| == 16 && InverseSchedule(enc, dec, nr)
    ensures DecryptBytes(EncryptBytes(input, enc, nr), dec, nr) == input
  {
    hide Cipher, InvCipher, StoreBlock, LoadBlock, InverseSchedule;
    assert 1 <= nr && 4 * nr + 4 <= |enc| && 4 * nr + 4 <= |dec| by { ScheduleLengths(enc, dec, nr); }
    LoadStore(Cipher(LoadBlock(input), enc, nr));
    DecryptInvertsEncrypt(LoadBlock(input), enc, dec, nr);
    StoreLoad(input);
  }

  lemma ScheduleLengths(enc: seq<bv32>, dec: seq<bv32>, nr: nat)
    requires InverseSchedule(enc, dec, nr)
    ensures 1 <= nr && 4 * nr + 4 <= |enc| && 4 * nr + 4 <= |dec|
  {
  }

  /** Any context after any accepted key, used in both directions on any block. */
  method EncryptThenDecrypt(ctx: CryptoAesCtx, key: seq<bv8>, input: seq<bv8>) returns (output: seq<bv8>)
    requires ctx.Allocated() && |input| == 16 && ValidKeyLength(|key|)
    modifies ctx, ctx.keyEnc, ctx.keyDec
    ensures output == input
  {
    var err := ctx.ExpandKey(key);
    var middle := ctx.Encrypt(input);
    output := ctx.Decrypt(middle);
    RoundTrip(input, ctx.keyEnc[..], ctx.keyDec[..], NumRounds(ctx.keyLength));
  }
}
