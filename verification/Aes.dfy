/**
AES as crypto/aes_generic.c runs it: the cipher, the equivalent inverse cipher, the key schedule
of FIPS 197 and the round trip.
*/
module Aes {
  import opened AesTables
  import opened AesField
  import opened AesRounds

  // ---------------------------------------------------------------- blocks and keys

  function LoadWord(b: seq<bv8>, i: nat): bv32
    requires 4 * i + 3 < |b|
  {
    Word(b[4 * i], b[4 * i + 1], b[4 * i + 2], b[4 * i + 3])
  }

  function LoadCols(b: seq<bv8>): Cols
    requires |b| == 16
  {
    Cols(LoadWord(b, 0), LoadWord(b, 1), LoadWord(b, 2), LoadWord(b, 3))
  }

  function StoreWord(w: bv32): seq<bv8> { [Byte0(w), Byte1(w), Byte2(w), Byte3(w)] }

  function StoreCols(s: Cols): seq<bv8> {
    StoreWord(s.w0) + StoreWord(s.w1) + StoreWord(s.w2) + StoreWord(s.w3)
  }

  lemma StoreLoad(b: seq<bv8>)
    requires |b| == 16
    ensures StoreCols(LoadCols(b)) == b
  {
    hide StoreWord, LoadWord;
    StoreLoadWord(b, 0);
    StoreLoadWord(b, 1);
    StoreLoadWord(b, 2);
    StoreLoadWord(b, 3);
    assert b == b[0..4] + b[4..8] + b[8..12] + b[12..16];
  }

  lemma StoreLoadWord(b: seq<bv8>, i: nat)
    requires 4 * i + 3 < |b|
    ensures StoreWord(LoadWord(b, i)) == b[4 * i..4 * i + 4]
  {
    hide Word, Byte0, Byte1, Byte2, Byte3;
    Byte0OfWord(b[4 * i], b[4 * i + 1], b[4 * i + 2], b[4 * i + 3]);
    Byte1OfWord(b[4 * i], b[4 * i + 1], b[4 * i + 2], b[4 * i + 3]);
    Byte2OfWord(b[4 * i], b[4 * i + 1], b[4 * i + 2], b[4 * i + 3]);
    Byte3OfWord(b[4 * i], b[4 * i + 1], b[4 * i + 2], b[4 * i + 3]);
  }

  lemma LoadStore(s: Cols)
    ensures |StoreCols(s)| == 16 && LoadCols(StoreCols(s)) == s
  {
    hide Word, Byte0, Byte1, Byte2, Byte3;
    WordOfBytes(s.w0);
    WordOfBytes(s.w1);
    WordOfBytes(s.w2);
    WordOfBytes(s.w3);
  }

  /** The columns of round key `r` in an expanded key. */
  function RoundKey(k: seq<bv32>, r: nat): Cols
    requires 4 * r + 3 < |k|
  {
    Cols(k[4 * r], k[4 * r + 1], k[4 * r + 2], k[4 * r + 3])
  }

  // ---------------------------------------------------------------- the rounds of the code

  /** f_nround. */
  function FNround(s: Cols, k: Cols): Cols {
    AddKey(Cols(FColumn(Byte0(s.w0), Byte1(s.w1), Byte2(s.w2), Byte3(s.w3)),
                FColumn(Byte0(s.w1), Byte1(s.w2), Byte2(s.w3), Byte3(s.w0)),
                FColumn(Byte0(s.w2), Byte1(s.w3), Byte2(s.w0), Byte3(s.w1)),
                FColumn(Byte0(s.w3), Byte1(s.w0), Byte2(s.w1), Byte3(s.w2))), k)
  }

  /** f_lround. */
  function FLround(s: Cols, k: Cols): Cols {
    AddKey(Cols(FlColumn(Byte0(s.w0), Byte1(s.w1), Byte2(s.w2), Byte3(s.w3)),
                FlColumn(Byte0(s.w1), Byte1(s.w2), Byte2(s.w3), Byte3(s.w0)),
                FlColumn(Byte0(s.w2), Byte1(s.w3), Byte2(s.w0), Byte3(s.w1)),
                FlColumn(Byte0(s.w3), Byte1(s.w0), Byte2(s.w1), Byte3(s.w2))), k)
  }

  /** i_nround. */
  function INround(s: Cols, k: Cols): Cols {
    AddKey(Cols(IColumn(Byte0(s.w0), Byte1(s.w3), Byte2(s.w2), Byte3(s.w1)),
                IColumn(Byte0(s.w1), Byte1(s.w0), Byte2(s.w3), Byte3(s.w2)),
                IColumn(Byte0(s.w2), Byte1(s.w1), Byte2(s.w0), Byte3(s.w3)),
                IColumn(Byte0(s.w3), Byte1(s.w2), Byte2(s.w1), Byte3(s.w0))), k)
  }

  /** i_lround. */
  function ILround(s: Cols, k: Cols): Cols {
    AddKey(Cols(IlColumn(Byte0(s.w0), Byte1(s.w3), Byte2(s.w2), Byte3(s.w1)),
                IlColumn(Byte0(s.w1), Byte1(s.w0), Byte2(s.w3), Byte3(s.w2)),
                IlColumn(Byte0(s.w2), Byte1(s.w1), Byte2(s.w0), Byte3(s.w3)),
                IlColumn(Byte0(s.w3), Byte1(s.w2), Byte2(s.w1), Byte3(s.w0))), k)
  }

  lemma MixOfSub(a: bv8, b: bv8, c: bv8, d: bv8)
    ensures FColumn(a, b, c, d) == MixCol(SubBytesWord(a, b, c, d))
  {
    hide Word, Byte0, Byte1, Byte2, Byte3, Sbox, MixBytes, FColumn;
    FColumnIsMix(a, b, c, d);
    Byte0OfWord(Sbox(a), Sbox(b), Sbox(c), Sbox(d));
    Byte1OfWord(Sbox(a), Sbox(b), Sbox(c), Sbox(d));
    Byte2OfWord(Sbox(a), Sbox(b), Sbox(c), Sbox(d));
    Byte3OfWord(Sbox(a), Sbox(b), Sbox(c), Sbox(d));
  }

  /** One table round is SubBytes, ShiftRows, MixColumns and AddRoundKey. */
  lemma FNroundIsRound(s: Cols, k: Cols)
    ensures FNround(s, k) == AddKey(MixColumns(SubShift(s)), k)
  {
    hide FColumn, MixCol, SubBytesWord, Byte0, Byte1, Byte2, Byte3, AddW;
    MixOfSub(Byte0(s.w0), Byte1(s.w1), Byte2(s.w2), Byte3(s.w3));
    MixOfSub(Byte0(s.w1), Byte1(s.w2), Byte2(s.w3), Byte3(s.w0));
    MixOfSub(Byte0(s.w2), Byte1(s.w3), Byte2(s.w0), Byte3(s.w1));
    MixOfSub(Byte0(s.w3), Byte1(s.w0), Byte2(s.w1), Byte3(s.w2));
  }

  lemma FLroundIsRound(s: Cols, k: Cols)
    ensures FLround(s, k) == AddKey(SubShift(s), k)
  {
    hide FlColumn, SubBytesWord, Byte0, Byte1, Byte2, Byte3, AddW;
    FlColumnIsSub(Byte0(s.w0), Byte1(s.w1), Byte2(s.w2), Byte3(s.w3));
    FlColumnIsSub(Byte0(s.w1), Byte1(s.w2), Byte2(s.w3), Byte3(s.w0));
    FlColumnIsSub(Byte0(s.w2), Byte1(s.w3), Byte2(s.w0), Byte3(s.w1));
    FlColumnIsSub(Byte0(s.w3), Byte1(s.w0), Byte2(s.w1), Byte3(s.w2));
  }

  lemma INroundIsRound(s: Cols, k: Cols)
    ensures INround(s, k) == AddKey(InvMixColumns(InvSubShift(s)), k)
  {
    hide IColumn, ImixCol, InvSubBytesWord, Byte0, Byte1, Byte2, Byte3, AddW;
    IColumnIsInvMix(Byte0(s.w0), Byte1(s.w3), Byte2(s.w2), Byte3(s.w1));
    IColumnIsInvMix(Byte0(s.w1), Byte1(s.w0), Byte2(s.w3), Byte3(s.w2));
    IColumnIsInvMix(Byte0(s.w2), Byte1(s.w1), Byte2(s.w0), Byte3(s.w3));
    IColumnIsInvMix(Byte0(s.w3), Byte1(s.w2), Byte2(s.w1), Byte3(s.w0));
  }

  lemma ILroundIsRound(s: Cols, k: Cols)
    ensures ILround(s, k) == AddKey(InvSubShift(s), k)
  {
    hide IlColumn, InvSubBytesWord, Byte0, Byte1, Byte2, Byte3, AddW;
    IlColumnIsInvSub(Byte0(s.w0), Byte1(s.w3), Byte2(s.w2), Byte3(s.w1));
    IlColumnIsInvSub(Byte0(s.w1), Byte1(s.w0), Byte2(s.w3), Byte3(s.w2));
    IlColumnIsInvSub(Byte0(s.w2), Byte1(s.w1), Byte2(s.w0), Byte3(s.w3));
    IlColumnIsInvSub(Byte0(s.w3), Byte1(s.w2), Byte2(s.w1), Byte3(s.w0));
  }

  // ---------------------------------------------------------------- FIPS 197, sections 5.1 and 5.3.5

  /** The state after AddRoundKey and `r` full rounds of Cipher. */
  function CipherRounds(k: seq<bv32>, r: nat, s: Cols): Cols
    requires 4 * r + 3 < |k|
  {
    if r == 0 then AddKey(s, RoundKey(k, 0))
    else AddKey(MixColumns(SubShift(CipherRounds(k, r - 1, s))), RoundKey(k, r))
  }

  function Cipher(k: seq<bv32>, nr: nat, s: Cols): Cols
    requires nr > 0 && 4 * nr + 3 < |k|
  {
    AddKey(SubShift(CipherRounds(k, nr - 1, s)), RoundKey(k, nr))
  }

  /** The state after AddRoundKey and `r` full rounds of EqInvCipher. */
  function EqInvRounds(d: seq<bv32>, r: nat, s: Cols): Cols
    requires 4 * r + 3 < |d|
  {
    if r == 0 then AddKey(s, RoundKey(d, 0))
    else AddKey(InvMixColumns(InvSubShift(EqInvRounds(d, r - 1, s))), RoundKey(d, r))
  }

  function EqInvCipher(d: seq<bv32>, nr: nat, s: Cols): Cols
    requires nr > 0 && 4 * nr + 3 < |d|
  {
    AddKey(InvSubShift(EqInvRounds(d, nr - 1, s)), RoundKey(d, nr))
  }

  /** The decryption schedule: the round keys reversed, the inner ones through InvMixColumns. */
  ghost predicate IsDecKey(k: seq<bv32>, d: seq<bv32>, nr: nat)
    requires 4 * nr + 3 < |k| && 4 * nr + 3 < |d|
  {
    && RoundKey(d, 0) == RoundKey(k, nr)
    && RoundKey(d, nr) == RoundKey(k, 0)
    && forall r :: 0 < r < nr ==> RoundKey(d, r) == InvMixColumns(RoundKey(k, nr - r))
  }

  /** After `r` rounds of decryption the state is where encryption stood `r` rounds before its end. */
  lemma {:induction false} Peel(k: seq<bv32>, d: seq<bv32>, nr: nat, s: Cols, r: nat)
    requires nr > 0 && 4 * nr + 3 < |k| && 4 * nr + 3 < |d| && IsDecKey(k, d, nr) && r < nr
    ensures EqInvRounds(d, r, Cipher(k, nr, s)) == SubShift(CipherRounds(k, nr - 1 - r, s))
  {
    hide AddKey, SubShift, InvSubShift, MixColumns, InvMixColumns, RoundKey;
    if r == 0 {
      AddKeyTwice(SubShift(CipherRounds(k, nr - 1, s)), RoundKey(k, nr));
    } else {
      Peel(k, d, nr, s, r - 1);
      var outer, inner := CipherRounds(k, nr - r, s), CipherRounds(k, nr - 1 - r, s);
      InvSubShiftUndoes(outer);
      assert outer == AddKey(MixColumns(SubShift(inner)), RoundKey(k, nr - r));
      InvMixColumnsAddKey(MixColumns(SubShift(inner)), RoundKey(k, nr - r));
      InvMixColumnsUndoes(SubShift(inner));
      AddKeyTwice(SubShift(inner), InvMixColumns(RoundKey(k, nr - r)));
    }
  }

  lemma EqInvCipherUndoes(k: seq<bv32>, d: seq<bv32>, nr: nat, s: Cols)
    requires nr > 0 && 4 * nr + 3 < |k| && 4 * nr + 3 < |d| && IsDecKey(k, d, nr)
    ensures EqInvCipher(d, nr, Cipher(k, nr, s)) == s
  {
    hide AddKey, SubShift, InvSubShift, Cipher, RoundKey;
    Peel(k, d, nr, s, nr - 1);
    InvSubShiftUndoes(CipherRounds(k, 0, s));
    AddKeyTwice(s, RoundKey(k, 0));
  }

  // ---------------------------------------------------------------- the key schedule

  predicate KeyLength(n: nat) { n == 16 || n == 24 || n == 32 }

  function Rounds(keyLen: nat): nat { keyLen / 4 + 6 }

  function SubWord(w: bv32): bv32 { SubBytesWord(Byte0(w), Byte1(w), Byte2(w), Byte3(w)) }

  /** The round constants are the powers of two in GF(2^8). */
  lemma RconPowers(i: nat)
    requires i < 10
    ensures Byte1(Rcon(i)) == 0 && Byte2(Rcon(i)) == 0 && Byte3(Rcon(i)) == 0
    ensures Byte0(Rcon(i)) == if i == 0 then 1 else Xtime(Byte0(Rcon(i - 1)))
  {
    assert i == 0 || i == 1 || i == 2 || i == 3 || i == 4 || i == 5 || i == 6 || i == 7 || i == 8 || i == 9;
  }

  /** Word `i` of KeyExpansion (section 5.2 of FIPS 197); RotWord is Ror8 on packed columns. */
  function ExpandedWord(key: seq<bv8>, i: nat): bv32
    requires KeyLength(|key|) && i < 11 * (|key| / 4)
  {
    var nk := |key| / 4;
    if i < nk then LoadWord(key, i)
    else
      var prev := ExpandedWord(key, i - 1);
      var temp := if i % nk == 0 then AddW(SubWord(Ror8(prev)), Rcon(i / nk - 1))
                  else if nk > 6 && i % nk == 4 then SubWord(prev)
                  else prev;
      AddW(temp, ExpandedWord(key, i - nk))
  }

  function EncSchedule(key: seq<bv8>): (k: seq<bv32>)
    requires KeyLength(|key|)
    ensures |k| == |key| + 28
  {
    seq(|key| + 28, i requires 0 <= i < |key| + 28 => ExpandedWord(key, i))
  }

  /** key_dec, word by word. */
  function DecSchedule(k: seq<bv32>, nr: nat): (d: seq<bv32>)
    requires |k| == 4 * nr + 4
    ensures |d| == |k|
  {
    seq(|k|, i requires 0 <= i < |k| =>
      var w := k[4 * (nr - i / 4) + i % 4];
      if i / 4 == 0 || i / 4 == nr then w else ImixCol(w))
  }

  lemma DecWord(k: seq<bv32>, nr: nat, r: nat, c: nat)
    requires |k| == 4 * nr + 4 && r <= nr && c < 4
    ensures DecSchedule(k, nr)[4 * r + c]
         == if r == 0 || r == nr then k[4 * (nr - r) + c] else ImixCol(k[4 * (nr - r) + c])
  {
    hide ImixCol;
    assert (4 * r + c) / 4 == r && (4 * r + c) % 4 == c;
  }

  lemma DecRoundKey(k: seq<bv32>, nr: nat, r: nat)
    requires |k| == 4 * nr + 4 && r <= nr
    ensures RoundKey(DecSchedule(k, nr), r)
         == if r == 0 || r == nr then RoundKey(k, nr - r) else InvMixColumns(RoundKey(k, nr - r))
  {
    hide ImixCol, DecSchedule;
    DecWord(k, nr, r, 0);
    DecWord(k, nr, r, 1);
    DecWord(k, nr, r, 2);
    DecWord(k, nr, r, 3);
  }

  lemma DecScheduleIsDecKey(k: seq<bv32>, nr: nat)
    requires nr > 0 && |k| == 4 * nr + 4
    ensures IsDecKey(k, DecSchedule(k, nr), nr)
  {
    hide InvMixColumns, DecSchedule, RoundKey;
    DecRoundKey(k, nr, 0);
    DecRoundKey(k, nr, nr);
    forall r | 0 < r < nr ensures RoundKey(DecSchedule(k, nr), r) == InvMixColumns(RoundKey(k, nr - r)) {
      DecRoundKey(k, nr, r);
    }
  }

  // ---------------------------------------------------------------- the round trip

  function Encrypt(key: seq<bv8>, block: seq<bv8>): seq<bv8>
    requires KeyLength(|key|) && |block| == 16
  {
    StoreCols(Cipher(EncSchedule(key), Rounds(|key|), LoadCols(block)))
  }

  function Decrypt(key: seq<bv8>, block: seq<bv8>): seq<bv8>
    requires KeyLength(|key|) && |block| == 16
  {
    StoreCols(EqInvCipher(DecSchedule(EncSchedule(key), Rounds(|key|)), Rounds(|key|), LoadCols(block)))
  }

  /** For every key of every length and every block, decryption undoes encryption. */
  lemma RoundTrip(key: seq<bv8>, block: seq<bv8>)
    requires KeyLength(|key|) && |block| == 16
    ensures |Encrypt(key, block)| == 16
    ensures Decrypt(key, Encrypt(key, block)) == block
  {
    hide Cipher, EqInvCipher, StoreCols, LoadCols, EncSchedule, DecSchedule, IsDecKey;
    var k, nr := EncSchedule(key), Rounds(|key|);
    var d, s := DecSchedule(k, nr), LoadCols(block);
    DecScheduleIsDecKey(k, nr);
    EqInvCipherUndoes(k, d, nr, s);
    LoadStore(Cipher(k, nr, s));
    StoreLoad(block);
  }
}
