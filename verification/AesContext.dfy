/**
struct crypto_aes_ctx and the functions that fill and use it in place: crypto_aes_expand_key,
aes_encrypt and aes_decrypt.
*/
module AesContext {
  import opened AesTables
  import opened AesField
  import opened AesRounds
  import opened Aes

  const MAX_KEYLENGTH_U32: nat := 60

  lemma AddWComm(x: bv32, y: bv32)
    ensures AddW(x, y) == AddW(y, x)
  {
  }

  /** ls_box. */
  function LsBox(x: bv32): (r: bv32)
    ensures r == SubWord(x)
  {
    hide FlColumn, SubBytesWord;
    FlColumnIsSub(Byte0(x), Byte1(x), Byte2(x), Byte3(x));
    FlColumn(Byte0(x), Byte1(x), Byte2(x), Byte3(x))
  }

  class Context {
    const keyEnc: array<bv32>
    const keyDec: array<bv32>
    var keyLength: nat

    constructor ()
      ensures Valid() && fresh(keyEnc) && fresh(keyDec)
    {
      keyEnc := new bv32[MAX_KEYLENGTH_U32];
      keyDec := new bv32[MAX_KEYLENGTH_U32];
      keyLength := 0;
    }

    ghost predicate Valid()
      reads this
    {
      keyEnc.Length == MAX_KEYLENGTH_U32 && keyDec.Length == MAX_KEYLENGTH_U32 && keyEnc != keyDec
    }

    /** The first `n` words of the encryption schedule are in place. */
    ghost predicate Filled(key: seq<bv8>, n: nat)
      requires Valid() && KeyLength(|key|)
      reads this, keyEnc
    {
      && n <= MAX_KEYLENGTH_U32 && n <= 11 * (|key| / 4)
      && forall i: nat :: i < n ==> keyEnc[i] == ExpandedWord(key, i)
    }

    /** Both schedules for `key` are in place. */
    ghost predicate Ready(key: seq<bv8>)
      reads this, keyEnc, keyDec
    {
      && Valid() && KeyLength(|key|) && keyLength == |key|
      && keyEnc[..|key| + 28] == EncSchedule(key)
      && keyDec[..|key| + 28] == DecSchedule(EncSchedule(key), Rounds(|key|))
    }

    // -------------------------------------------------------------- the key schedule

    /** The words of a group that only mix with the group before: t ^= key_enc[j]; key_enc[j + nk] = t. */
    method Fill(ghost key: seq<bv8>, from: nat, to: nat, nk: nat, t0: bv32) returns (t: bv32)
      requires Valid() && KeyLength(|key|) && nk == |key| / 4 && nk < from <= to <= MAX_KEYLENGTH_U32
      requires to <= 11 * nk && Filled(key, from) && t0 == ExpandedWord(key, from - 1)
      requires forall i :: from <= i < to ==> i % nk != 0 && !(nk > 6 && i % nk == 4)
      modifies keyEnc
      ensures Filled(key, to) && t == ExpandedWord(key, to - 1)
    {
      hide SubWord, AddW, ExpandedWord;
      t := t0;
      for i := from to to
        invariant Filled(key, i) && t == ExpandedWord(key, i - 1)
      {
        PlainWord(key, nk, i);
        t := AddW(t, keyEnc[i - nk]);
        keyEnc[i] := t;
      }
    }

    /** The first word of group `i + 1`, shared by loop4, loop6 and loop8. */
    method GroupStart(ghost key: seq<bv8>, i: nat, nk: nat, t0: bv32) returns (t: bv32)
      requires Valid() && KeyLength(|key|) && nk == |key| / 4
      requires i < 10 && nk * (i + 1) < MAX_KEYLENGTH_U32
      requires Filled(key, nk * (i + 1)) && t0 == ExpandedWord(key, nk * (i + 1) - 1)
      modifies keyEnc
      ensures Filled(key, nk * (i + 1) + 1) && t == ExpandedWord(key, nk * (i + 1))
    {
      hide SubWord, AddW, Ror8, ExpandedWord;
      GroupWord(key, i);
      t := Ror8(t0);
      t := AddW(LsBox(t), Rcon(i));
      t := AddW(t, keyEnc[nk * i]);
      keyEnc[nk * (i + 1)] := t;
    }

    /** loop4 and loop6. */
    method Loop(ghost key: seq<bv8>, i: nat, nk: nat, t0: bv32) returns (t: bv32)
      requires Valid() && KeyLength(|key|) && nk == |key| / 4 && nk < 8
      requires i < 10 && nk * (i + 2) <= MAX_KEYLENGTH_U32
      requires Filled(key, nk * (i + 1)) && t0 == ExpandedWord(key, nk * (i + 1) - 1)
      modifies keyEnc
      ensures Filled(key, nk * (i + 2)) && t == ExpandedWord(key, nk * (i + 2) - 1)
    {
      hide ExpandedWord, SubWord;
      InGroup(nk, i);
      t := GroupStart(key, i, nk, t0);
      t := Fill(key, nk * (i + 1) + 1, nk * (i + 2), nk, t);
    }

    /** loop8tophalf. */
    method Loop8TopHalf(ghost key: seq<bv8>, i: nat, t0: bv32) returns (t: bv32)
      requires Valid() && |key| == 32 && i < 7
      requires Filled(key, 8 * (i + 1)) && t0 == ExpandedWord(key, 8 * (i + 1) - 1)
      modifies keyEnc
      ensures Filled(key, 8 * (i + 1) + 4) && t == ExpandedWord(key, 8 * (i + 1) + 3)
    {
      hide ExpandedWord, SubWord;
      t := GroupStart(key, i, 8, t0);
      InGroup(8, i);
      t := Fill(key, 8 * (i + 1) + 1, 8 * (i + 1) + 4, 8, t);
    }

    /** loop8. */
    method Loop8(ghost key: seq<bv8>, i: nat, t0: bv32) returns (t: bv32)
      requires Valid() && |key| == 32 && i < 6
      requires Filled(key, 8 * (i + 1)) && t0 == ExpandedWord(key, 8 * (i + 1) - 1)
      modifies keyEnc
      ensures Filled(key, 8 * (i + 2)) && t == ExpandedWord(key, 8 * (i + 2) - 1)
    {
      hide SubWord, AddW, ExpandedWord;
      t := Loop8TopHalf(key, i, t0);
      InGroup(8, i);
      HalfWord(key, i);
      AddWComm(keyEnc[8 * i + 4], LsBox(t));
      t := AddW(keyEnc[8 * i + 4], LsBox(t));
      keyEnc[8 * (i + 1) + 4] := t;
      t := Fill(key, 8 * (i + 1) + 5, 8 * (i + 2), 8, t);
    }

    /** The encryption half of crypto_aes_expand_key. */
    method FillEnc(key: seq<bv8>)
      requires Valid() && KeyLength(|key|)
      modifies keyEnc
      ensures Filled(key, |key| + 28)
    {
      hide LoadWord, ExpandedWord;
      var nk := |key| / 4;
      for i := 0 to nk
        invariant Filled(key, i)
      {
        LoadedWord(key, i);
        keyEnc[i] := LoadWord(key, i);
      }
      var t := keyEnc[nk - 1];
      if |key| == 32 {
        for i := 0 to 6
          invariant Filled(key, 8 * (i + 1)) && t == ExpandedWord(key, 8 * (i + 1) - 1)
        {
          t := Loop8(key, i, t);
        }
        t := Loop8TopHalf(key, 6, t);
      } else {
        var groups := if nk == 4 then 10 else 8;
        for i := 0 to groups
          invariant Filled(key, nk * (i + 1)) && t == ExpandedWord(key, nk * (i + 1) - 1)
        {
          t := Loop(key, i, nk, t);
        }
      }
    }

    /** The first and the last four words of the decryption schedule. */
    method FillDecEnds(last: nat, ghost k: seq<bv32>, ghost nr: nat)
      requires Valid() && last + 4 <= MAX_KEYLENGTH_U32 && last == 4 * nr && nr > 0
      requires k == keyEnc[..last + 4]
      modifies keyDec
      ensures forall i: nat :: i < 4 || last <= i < last + 4 ==> keyDec[i] == DecSchedule(k, nr)[i]
    {
      hide ImixCol, DecSchedule;
      for c := 0 to 4
        invariant forall i: nat :: i < c || last <= i < last + c ==> keyDec[i] == DecSchedule(k, nr)[i]
      {
        DecWord(k, nr, 0, c);
        DecWord(k, nr, nr, c);
        keyDec[last + c] := keyEnc[c];
        keyDec[c] := keyEnc[last + c];
      }
    }

    /** The decryption half of crypto_aes_expand_key. */
    method FillDec(keyLen: nat)
      requires Valid() && KeyLength(keyLen)
      modifies keyDec
      ensures keyDec[..keyLen + 28] == DecSchedule(keyEnc[..keyLen + 28], Rounds(keyLen))
    {
      hide ImixCol, DecSchedule, DecIndex;
      var last := keyLen + 24;
      ghost var k, nr := keyEnc[..keyLen + 28], Rounds(keyLen);
      ghost var d := DecSchedule(k, nr);
      FillDecEnds(last, k, nr);
      forall m: nat | 4 <= m < last ensures DecIndex(last, m) >= 4 {
        DecIndexTwice(last, m);
      }
      for i := 4 to last
        invariant forall m: nat :: m < 4 || last <= m < last + 4 ==> keyDec[m] == d[m]
        invariant forall m: nat :: 4 <= m < last && DecIndex(last, m) < i ==> keyDec[m] == d[m]
      {
        DecIndexTwice(last, i);
        DecWordAt(k, nr, i);
        keyDec[DecIndex(last, i)] := ImixCol(keyEnc[i]);
        forall m: nat | 4 <= m < last && DecIndex(last, m) < i + 1 ensures keyDec[m] == d[m] {
          DecIndexTwice(last, m);
        }
      }
      forall m: nat | m < last + 4 ensures keyDec[m] == d[m] {
        if 4 <= m < last {
          DecIndexTwice(last, m);
        }
      }
    }

    /** crypto_aes_expand_key: it fails only on an unsupported key size. */
    method ExpandKey(key: seq<bv8>) returns (ok: bool)
      requires Valid()
      modifies this, keyEnc, keyDec
      ensures ok <==> KeyLength(|key|)
      ensures ok ==> Ready(key)
      ensures !ok ==> keyEnc[..] == old(keyEnc[..]) && keyDec[..] == old(keyDec[..])
                      && keyLength == old(keyLength)
    {
      if !KeyLength(|key|) {
        return false;
      }
      keyLength := |key|;
      FillEnc(key);
      assert keyEnc[..|key| + 28] == EncSchedule(key);
      FillDec(|key|);
      return true;
    }

    // -------------------------------------------------------------- aes_encrypt

    /** f_nround: round `r` from bi into bo. */
    method EncRound(bo: array<bv32>, bi: array<bv32>, r: nat, ghost s: Cols)
      requires Valid() && bo.Length == 4 && bi.Length == 4 && bo != bi
      requires {keyEnc, keyDec} !! {bo, bi} && 0 < r && 4 * r + 3 < MAX_KEYLENGTH_U32
      requires ColsOf(bi) == CipherRounds(keyEnc[..], r - 1, s)
      modifies bo
      ensures ColsOf(bo) == CipherRounds(keyEnc[..], r, s)
    {
      hide FColumn, Byte0, Byte1, Byte2, Byte3, AddW, MixColumns, SubShift;
      FNroundIsRound(ColsOf(bi), RoundKey(keyEnc[..], r));
      bo[0] := AddW(FColumn(Byte0(bi[0]), Byte1(bi[1]), Byte2(bi[2]), Byte3(bi[3])), keyEnc[4 * r]);
      bo[1] := AddW(FColumn(Byte0(bi[1]), Byte1(bi[2]), Byte2(bi[3]), Byte3(bi[0])), keyEnc[4 * r + 1]);
      bo[2] := AddW(FColumn(Byte0(bi[2]), Byte1(bi[3]), Byte2(bi[0]), Byte3(bi[1])), keyEnc[4 * r + 2]);
      bo[3] := AddW(FColumn(Byte0(bi[3]), Byte1(bi[0]), Byte2(bi[1]), Byte3(bi[2])), keyEnc[4 * r + 3]);
    }

    /** f_lround. */
    method EncLast(bo: array<bv32>, bi: array<bv32>, r: nat, ghost s: Cols)
      requires Valid() && bo.Length == 4 && bi.Length == 4 && bo != bi
      requires {keyEnc, keyDec} !! {bo, bi} && 0 < r && 4 * r + 3 < MAX_KEYLENGTH_U32
      requires ColsOf(bi) == CipherRounds(keyEnc[..], r - 1, s)
      modifies bo
      ensures ColsOf(bo) == Cipher(keyEnc[..], r, s)
    {
      hide FlColumn, Byte0, Byte1, Byte2, Byte3, AddW, SubShift;
      FLroundIsRound(ColsOf(bi), RoundKey(keyEnc[..], r));
      bo[0] := AddW(FlColumn(Byte0(bi[0]), Byte1(bi[1]), Byte2(bi[2]), Byte3(bi[3])), keyEnc[4 * r]);
      bo[1] := AddW(FlColumn(Byte0(bi[1]), Byte1(bi[2]), Byte2(bi[3]), Byte3(bi[0])), keyEnc[4 * r + 1]);
      bo[2] := AddW(FlColumn(Byte0(bi[2]), Byte1(bi[3]), Byte2(bi[0]), Byte3(bi[1])), keyEnc[4 * r + 2]);
      bo[3] := AddW(FlColumn(Byte0(bi[3]), Byte1(bi[0]), Byte2(bi[1]), Byte3(bi[2])), keyEnc[4 * r + 3]);
    }

    /** Two rounds, from b0 through b1 back into b0. */
    method EncPair(b0: array<bv32>, b1: array<bv32>, r: nat, ghost s: Cols)
      requires Valid() && b0.Length == 4 && b1.Length == 4 && b0 != b1
      requires {keyEnc, keyDec} !! {b0, b1} && 0 < r && 4 * r + 7 < MAX_KEYLENGTH_U32
      requires ColsOf(b0) == CipherRounds(keyEnc[..], r - 1, s)
      modifies b0, b1
      ensures ColsOf(b0) == CipherRounds(keyEnc[..], r + 1, s)
    {
      hide CipherRounds;
      EncRound(b1, b0, r, s);
      EncRound(b0, b1, r + 1, s);
    }

    /** The ten rounds that every key length has. */
    method EncTail(b0: array<bv32>, b1: array<bv32>, r: nat, ghost s: Cols)
      requires Valid() && b0.Length == 4 && b1.Length == 4 && b0 != b1
      requires {keyEnc, keyDec} !! {b0, b1} && 0 < r && 4 * r + 39 < MAX_KEYLENGTH_U32
      requires ColsOf(b0) == CipherRounds(keyEnc[..], r - 1, s)
      modifies b0, b1
      ensures ColsOf(b0) == Cipher(keyEnc[..], r + 9, s)
    {
      hide CipherRounds, Cipher;
      EncPair(b0, b1, r, s);
      EncPair(b0, b1, r + 2, s);
      EncPair(b0, b1, r + 4, s);
      EncPair(b0, b1, r + 6, s);
      EncRound(b1, b0, r + 8, s);
      EncLast(b0, b1, r + 9, s);
    }

    method EncStart(b0: array<bv32>, input: seq<bv8>)
      requires Valid() && b0.Length == 4 && |input| == 16 && b0 !in {keyEnc, keyDec}
      modifies b0
      ensures ColsOf(b0) == CipherRounds(keyEnc[..], 0, LoadCols(input))
    {
      hide LoadWord, AddW, CipherRounds;
      b0[0] := AddW(LoadWord(input, 0), keyEnc[0]);
      b0[1] := AddW(LoadWord(input, 1), keyEnc[1]);
      b0[2] := AddW(LoadWord(input, 2), keyEnc[2]);
      b0[3] := AddW(LoadWord(input, 3), keyEnc[3]);
      CipherStart(keyEnc[..], LoadCols(input));
    }

    /** aes_encrypt. */
    method Encrypt(input: seq<bv8>, ghost key: seq<bv8>) returns (out: seq<bv8>)
      requires Ready(key) && |input| == 16
      ensures out == Aes.Encrypt(key, input)
    {
      hide EncSchedule, DecSchedule, LoadWord, StoreCols, Cipher, AddW, CipherRounds;
      ghost var s := LoadCols(input);
      var b0, b1 := new bv32[4], new bv32[4];
      EncStart(b0, input);
      var r := 1;
      if keyLength > 24 {
        EncPair(b0, b1, r, s);
        r := r + 2;
      }
      if keyLength > 16 {
        EncPair(b0, b1, r, s);
        r := r + 2;
      }
      EncTail(b0, b1, r, s);
      CipherPrefix(keyEnc[..], keyEnc[..keyLength + 28], Rounds(keyLength), s);
      out := StoreCols(Cols(b0[0], b0[1], b0[2], b0[3]));
    }

    // -------------------------------------------------------------- aes_decrypt

    /** i_nround: round `r` from bi into bo. */
    method DecRound(bo: array<bv32>, bi: array<bv32>, r: nat, ghost s: Cols)
      requires Valid() && bo.Length == 4 && bi.Length == 4 && bo != bi
      requires {keyEnc, keyDec} !! {bo, bi} && 0 < r && 4 * r + 3 < MAX_KEYLENGTH_U32
      requires ColsOf(bi) == EqInvRounds(keyDec[..], r - 1, s)
      modifies bo
      ensures ColsOf(bo) == EqInvRounds(keyDec[..], r, s)
    {
      hide IColumn, Byte0, Byte1, Byte2, Byte3, AddW, InvMixColumns, InvSubShift;
      INroundIsRound(ColsOf(bi), RoundKey(keyDec[..], r));
      bo[0] := AddW(IColumn(Byte0(bi[0]), Byte1(bi[3]), Byte2(bi[2]), Byte3(bi[1])), keyDec[4 * r]);
      bo[1] := AddW(IColumn(Byte0(bi[1]), Byte1(bi[0]), Byte2(bi[3]), Byte3(bi[2])), keyDec[4 * r + 1]);
      bo[2] := AddW(IColumn(Byte0(bi[2]), Byte1(bi[1]), Byte2(bi[0]), Byte3(bi[3])), keyDec[4 * r + 2]);
      bo[3] := AddW(IColumn(Byte0(bi[3]), Byte1(bi[2]), Byte2(bi[1]), Byte3(bi[0])), keyDec[4 * r + 3]);
    }

    /** i_lround. */
    method DecLast(bo: array<bv32>, bi: array<bv32>, r: nat, ghost s: Cols)
      requires Valid() && bo.Length == 4 && bi.Length == 4 && bo != bi
      requires {keyEnc, keyDec} !! {bo, bi} && 0 < r && 4 * r + 3 < MAX_KEYLENGTH_U32
      requires ColsOf(bi) == EqInvRounds(keyDec[..], r - 1, s)
      modifies bo
      ensures ColsOf(bo) == EqInvCipher(keyDec[..], r, s)
    {
      hide IlColumn, Byte0, Byte1, Byte2, Byte3, AddW, InvSubShift;
      ILroundIsRound(ColsOf(bi), RoundKey(keyDec[..], r));
      bo[0] := AddW(IlColumn(Byte0(bi[0]), Byte1(bi[3]), Byte2(bi[2]), Byte3(bi[1])), keyDec[4 * r]);
      bo[1] := AddW(IlColumn(Byte0(bi[1]), Byte1(bi[0]), Byte2(bi[3]), Byte3(bi[2])), keyDec[4 * r + 1]);
      bo[2] := AddW(IlColumn(Byte0(bi[2]), Byte1(bi[1]), Byte2(bi[0]), Byte3(bi[3])), keyDec[4 * r + 2]);
      bo[3] := AddW(IlColumn(Byte0(bi[3]), Byte1(bi[2]), Byte2(bi[1]), Byte3(bi[0])), keyDec[4 * r + 3]);
    }

    /** Two rounds, from b0 through b1 back into b0. */
    method DecPair(b0: array<bv32>, b1: array<bv32>, r: nat, ghost s: Cols)
      requires Valid() && b0.Length == 4 && b1.Length == 4 && b0 != b1
      requires {keyEnc, keyDec} !! {b0, b1} && 0 < r && 4 * r + 7 < MAX_KEYLENGTH_U32
      requires ColsOf(b0) == EqInvRounds(keyDec[..], r - 1, s)
      modifies b0, b1
      ensures ColsOf(b0) == EqInvRounds(keyDec[..], r + 1, s)
    {
      hide EqInvRounds;
      DecRound(b1, b0, r, s);
      DecRound(b0, b1, r + 1, s);
    }

    /** The ten rounds that every key length has. */
    method DecTail(b0: array<bv32>, b1: array<bv32>, r: nat, ghost s: Cols)
      requires Valid() && b0.Length == 4 && b1.Length == 4 && b0 != b1
      requires {keyEnc, keyDec} !! {b0, b1} && 0 < r && 4 * r + 39 < MAX_KEYLENGTH_U32
      requires ColsOf(b0) == EqInvRounds(keyDec[..], r - 1, s)
      modifies b0, b1
      ensures ColsOf(b0) == EqInvCipher(keyDec[..], r + 9, s)
    {
      hide EqInvRounds, EqInvCipher;
      DecPair(b0, b1, r, s);
      DecPair(b0, b1, r + 2, s);
      DecPair(b0, b1, r + 4, s);
      DecPair(b0, b1, r + 6, s);
      DecRound(b1, b0, r + 8, s);
      DecLast(b0, b1, r + 9, s);
    }

    method DecStart(b0: array<bv32>, input: seq<bv8>)
      requires Valid() && b0.Length == 4 && |input| == 16 && b0 !in {keyEnc, keyDec}
      modifies b0
      ensures ColsOf(b0) == EqInvRounds(keyDec[..], 0, LoadCols(input))
    {
      hide LoadWord, AddW, EqInvRounds;
      b0[0] := AddW(LoadWord(input, 0), keyDec[0]);
      b0[1] := AddW(LoadWord(input, 1), keyDec[1]);
      b0[2] := AddW(LoadWord(input, 2), keyDec[2]);
      b0[3] := AddW(LoadWord(input, 3), keyDec[3]);
      EqInvStart(keyDec[..], LoadCols(input));
    }

    /** aes_decrypt. */
    method Decrypt(input: seq<bv8>, ghost key: seq<bv8>) returns (out: seq<bv8>)
      requires Ready(key) && |input| == 16
      ensures out == Aes.Decrypt(key, input)
    {
      hide EncSchedule, DecSchedule, LoadWord, StoreCols, EqInvCipher, AddW, EqInvRounds;
      ghost var s := LoadCols(input);
      var b0, b1 := new bv32[4], new bv32[4];
      DecStart(b0, input);
      var r := 1;
      if keyLength > 24 {
        DecPair(b0, b1, r, s);
        r := r + 2;
      }
      if keyLength > 16 {
        DecPair(b0, b1, r, s);
        r := r + 2;
      }
      DecTail(b0, b1, r, s);
      EqInvPrefix(keyDec[..], keyDec[..keyLength + 28], Rounds(keyLength), s);
      out := StoreCols(Cols(b0[0], b0[1], b0[2], b0[3]));
    }
  }

  ghost function ColsOf(b: array<bv32>): Cols
    requires b.Length == 4
    reads b
  {
    Cols(b[0], b[1], b[2], b[3])
  }

  lemma CipherStart(k: seq<bv32>, s: Cols)
    requires 3 < |k|
    ensures CipherRounds(k, 0, s)
         == Cols(AddW(s.w0, k[0]), AddW(s.w1, k[1]), AddW(s.w2, k[2]), AddW(s.w3, k[3]))
  {
    hide AddW;
  }

  lemma EqInvStart(d: seq<bv32>, s: Cols)
    requires 3 < |d|
    ensures EqInvRounds(d, 0, s)
         == Cols(AddW(s.w0, d[0]), AddW(s.w1, d[1]), AddW(s.w2, d[2]), AddW(s.w3, d[3]))
  {
    hide AddW;
  }

  /** Only the words up to the last round key matter. */
  lemma {:induction false} RoundsPrefix(k: seq<bv32>, k': seq<bv32>, r: nat, s: Cols)
    requires 4 * r + 3 < |k'| <= |k| && k' == k[..|k'|]
    ensures CipherRounds(k, r, s) == CipherRounds(k', r, s)
    ensures EqInvRounds(k, r, s) == EqInvRounds(k', r, s)
  {
    hide AddKey, MixColumns, SubShift, InvMixColumns, InvSubShift;
    assert RoundKey(k, r) == RoundKey(k', r);
    if r > 0 {
      RoundsPrefix(k, k', r - 1, s);
    }
  }

  lemma CipherPrefix(k: seq<bv32>, k': seq<bv32>, nr: nat, s: Cols)
    requires nr > 0 && 4 * nr + 3 < |k'| <= |k| && k' == k[..|k'|]
    ensures Cipher(k, nr, s) == Cipher(k', nr, s)
  {
    hide AddKey, SubShift, CipherRounds;
    RoundsPrefix(k, k', nr - 1, s);
    assert RoundKey(k, nr) == RoundKey(k', nr);
  }

  lemma EqInvPrefix(d: seq<bv32>, d': seq<bv32>, nr: nat, s: Cols)
    requires nr > 0 && 4 * nr + 3 < |d'| <= |d| && d' == d[..|d'|]
    ensures EqInvCipher(d, nr, s) == EqInvCipher(d', nr, s)
  {
    hide AddKey, InvSubShift, EqInvRounds;
    RoundsPrefix(d, d', nr - 1, s);
    assert RoundKey(d, nr) == RoundKey(d', nr);
  }

  lemma GroupWord(key: seq<bv8>, i: nat)
    requires KeyLength(|key|) && i < 10
    ensures var nk := |key| / 4;
      && nk * i < nk * (i + 1) < 11 * nk
      && ExpandedWord(key, nk * (i + 1))
         == AddW(AddW(SubWord(Ror8(ExpandedWord(key, nk * (i + 1) - 1))), Rcon(i)), ExpandedWord(key, nk * i))
  {
    hide SubWord, AddW, Ror8, Rcon, ExpandedWord;
    var nk := |key| / 4;
    Group(nk, i);
    ExpandedStep(key, nk, nk * (i + 1), nk * i, i);
  }

  lemma ExpandedStep(key: seq<bv8>, nk: nat, m: nat, before: nat, i: nat)
    requires KeyLength(|key|) && nk == |key| / 4 && nk <= m < 11 * nk && before == m - nk
    requires m % nk == 0 && m / nk == i + 1 && i < 10
    ensures ExpandedWord(key, m)
         == AddW(AddW(SubWord(Ror8(ExpandedWord(key, m - 1))), Rcon(i)), ExpandedWord(key, before))
  {
    hide SubWord, AddW, Ror8, Rcon;
  }

  lemma PlainWord(key: seq<bv8>, nk: nat, i: nat)
    requires KeyLength(|key|) && nk == |key| / 4 && nk < i < 11 * nk
    requires i % nk != 0 && !(nk > 6 && i % nk == 4)
    ensures ExpandedWord(key, i) == AddW(ExpandedWord(key, i - 1), ExpandedWord(key, i - nk))
  {
    hide SubWord, AddW, Ror8, Rcon;
  }

  lemma HalfWord(key: seq<bv8>, i: nat)
    requires |key| == 32 && i < 6
    ensures ExpandedWord(key, 8 * (i + 1) + 4)
         == AddW(SubWord(ExpandedWord(key, 8 * (i + 1) + 3)), ExpandedWord(key, 8 * i + 4))
  {
    hide SubWord, AddW, Ror8, Rcon;
  }

  lemma LoadedWord(key: seq<bv8>, i: nat)
    requires KeyLength(|key|) && i < |key| / 4
    ensures ExpandedWord(key, i) == LoadWord(key, i)
  {
  }

  lemma Group(nk: nat, i: nat)
    requires nk in {4, 6, 8}
    ensures (nk * (i + 1)) % nk == 0 && (nk * (i + 1)) / nk == i + 1 && nk * (i + 1) - nk == nk * i
  {
  }

  lemma InGroup(nk: nat, i: nat)
    requires nk in {4, 6, 8}
    ensures nk * (i + 2) == nk * (i + 1) + nk && nk * (i + 1) == nk * i + nk
    ensures forall j :: nk * (i + 1) < j < nk * (i + 2) ==> j % nk == j - nk * (i + 1)
  {
  }

  /** Where word `i` of the encryption schedule goes: last - (i & ~3) + (i & 3). */
  function DecIndex(last: nat, i: nat): int {
    last - (i - i % 4) + i % 4
  }

  lemma DecIndexTwice(last: nat, i: nat)
    requires last % 4 == 0 && 4 <= i < last
    ensures 4 <= DecIndex(last, i) < last && DecIndex(last, DecIndex(last, i)) == i
  {
  }

  lemma DecWordAt(k: seq<bv32>, nr: nat, i: nat)
    requires |k| == 4 * nr + 4 && 4 <= i < 4 * nr
    ensures 4 <= DecIndex(4 * nr, i) < 4 * nr
    ensures DecSchedule(k, nr)[DecIndex(4 * nr, i)] == ImixCol(k[i])
  {
    hide ImixCol, DecSchedule;
    DecWord(k, nr, nr - i / 4, i % 4);
  }
}
