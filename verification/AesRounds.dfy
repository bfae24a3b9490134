/**
The table-driven rounds of crypto/aes_generic.c against the rounds of FIPS 197: one look-up per
byte does SubBytes, ShiftRows and MixColumns (or their inverses) at once.
*/
module AesRounds {
  import opened AesTables
  import opened AesField

  /** The state: four columns, as in the arrays b0 and b1. */
  datatype Cols = Cols(w0: bv32, w1: bv32, w2: bv32, w3: bv32)

  // ---------------------------------------------------------------- FIPS 197

  function SubBytesWord(a: bv8, b: bv8, c: bv8, d: bv8): bv32 {
    Word(Sbox(a), Sbox(b), Sbox(c), Sbox(d))
  }

  function InvSubBytesWord(a: bv8, b: bv8, c: bv8, d: bv8): bv32 {
    Word(InvSbox(a), InvSbox(b), InvSbox(c), InvSbox(d))
  }

  /** SubBytes and ShiftRows: row r of column c comes from column c + r. */
  function SubShift(s: Cols): Cols {
    Cols(SubBytesWord(Byte0(s.w0), Byte1(s.w1), Byte2(s.w2), Byte3(s.w3)),
         SubBytesWord(Byte0(s.w1), Byte1(s.w2), Byte2(s.w3), Byte3(s.w0)),
         SubBytesWord(Byte0(s.w2), Byte1(s.w3), Byte2(s.w0), Byte3(s.w1)),
         SubBytesWord(Byte0(s.w3), Byte1(s.w0), Byte2(s.w1), Byte3(s.w2)))
  }

  /** InvSubBytes and InvShiftRows: row r of column c comes from column c - r. */
  function InvSubShift(s: Cols): Cols {
    Cols(InvSubBytesWord(Byte0(s.w0), Byte1(s.w3), Byte2(s.w2), Byte3(s.w1)),
         InvSubBytesWord(Byte0(s.w1), Byte1(s.w0), Byte2(s.w3), Byte3(s.w2)),
         InvSubBytesWord(Byte0(s.w2), Byte1(s.w1), Byte2(s.w0), Byte3(s.w3)),
         InvSubBytesWord(Byte0(s.w3), Byte1(s.w2), Byte2(s.w1), Byte3(s.w0)))
  }

  function MixColumns(s: Cols): Cols {
    Cols(MixCol(s.w0), MixCol(s.w1), MixCol(s.w2), MixCol(s.w3))
  }

  function InvMixColumns(s: Cols): Cols {
    Cols(ImixCol(s.w0), ImixCol(s.w1), ImixCol(s.w2), ImixCol(s.w3))
  }

  function AddKey(s: Cols, k: Cols): Cols {
    Cols(AddW(s.w0, k.w0), AddW(s.w1, k.w1), AddW(s.w2, k.w2), AddW(s.w3, k.w3))
  }

  // ---------------------------------------------------------------- the S-box

  /** The affine map of section 5.1.1 of FIPS 197. */
  function Affine(x: bv8): bv8 {
    x ^ ((x << 1) | (x >> 7)) ^ ((x << 2) | (x >> 6)) ^ ((x << 3) | (x >> 5)) ^ ((x << 4) | (x >> 4)) ^ 0x63
  }

  /** Its inverse. */
  function InvAffine(x: bv8): bv8 {
    ((x << 1) | (x >> 7)) ^ ((x << 3) | (x >> 5)) ^ ((x << 6) | (x >> 2)) ^ 0x05
  }

  /** All ones if bit `i` of `b` is set, else zero. */
  function BitMask(b: bv8, i: bv3): bv8 { 0 - ((b >> i) & 1) }

  /** Multiplication in GF(2^8). */
  function GfMul(a: bv8, b: bv8): bv8 {
    var a1 := Xtime(a); var a2 := Xtime(a1); var a3 := Xtime(a2); var a4 := Xtime(a3);
    var a5 := Xtime(a4); var a6 := Xtime(a5); var a7 := Xtime(a6);
    (a & BitMask(b, 0)) ^ (a1 & BitMask(b, 1)) ^ (a2 & BitMask(b, 2)) ^ (a3 & BitMask(b, 3))
    ^ (a4 & BitMask(b, 4)) ^ (a5 & BitMask(b, 5)) ^ (a6 & BitMask(b, 6)) ^ (a7 & BitMask(b, 7))
  }

  lemma AffineUndoes(y: bv8)
    ensures Affine(InvAffine(y)) == y
  {
  }

  lemma SboxProduct(x: bv8)
    ensures GfMul(x, InvAffine(Sbox(x))) == if x == 0 then 0 else 1
  {
  }

  lemma SboxOfZero()
    ensures InvAffine(Sbox(0)) == 0
  {
  }

  /** The table is the affine map of the multiplicative inverse, with 0 for 0. */
  lemma SboxInverts(x: bv8) returns (inverse: bv8)
    ensures Sbox(x) == Affine(inverse)
    ensures if x == 0 then inverse == 0 else GfMul(x, inverse) == 1
  {
    hide Sbox, Affine, InvAffine, GfMul;
    inverse := InvAffine(Sbox(x));
    AffineUndoes(Sbox(x));
    SboxProduct(x);
    SboxOfZero();
  }

  // ---------------------------------------------------------------- what undoes what

  lemma SboxInverse(x: bv8)
    ensures InvSbox(Sbox(x)) == x
  {
  }

  lemma InvSubUndoesSub(a: bv8, b: bv8, c: bv8, d: bv8)
    ensures var w := SubBytesWord(a, b, c, d);
      && InvSbox(Byte0(w)) == a && InvSbox(Byte1(w)) == b
      && InvSbox(Byte2(w)) == c && InvSbox(Byte3(w)) == d
  {
    hide Word, Byte0, Byte1, Byte2, Byte3, Sbox, InvSbox;
    Byte0OfWord(Sbox(a), Sbox(b), Sbox(c), Sbox(d));
    Byte1OfWord(Sbox(a), Sbox(b), Sbox(c), Sbox(d));
    Byte2OfWord(Sbox(a), Sbox(b), Sbox(c), Sbox(d));
    Byte3OfWord(Sbox(a), Sbox(b), Sbox(c), Sbox(d));
    SboxInverse(a);
    SboxInverse(b);
    SboxInverse(c);
    SboxInverse(d);
  }

  lemma InvSubShiftUndoes(s: Cols)
    ensures InvSubShift(SubShift(s)) == s
  {
    hide Word, Byte0, Byte1, Byte2, Byte3, Sbox, InvSbox, SubBytesWord;
    InvSubUndoesSub(Byte0(s.w0), Byte1(s.w1), Byte2(s.w2), Byte3(s.w3));
    InvSubUndoesSub(Byte0(s.w1), Byte1(s.w2), Byte2(s.w3), Byte3(s.w0));
    InvSubUndoesSub(Byte0(s.w2), Byte1(s.w3), Byte2(s.w0), Byte3(s.w1));
    InvSubUndoesSub(Byte0(s.w3), Byte1(s.w0), Byte2(s.w1), Byte3(s.w2));
    WordOfBytes(s.w0);
    WordOfBytes(s.w1);
    WordOfBytes(s.w2);
    WordOfBytes(s.w3);
  }

  lemma InvMixColumnsUndoes(s: Cols)
    ensures InvMixColumns(MixColumns(s)) == s
  {
    hide MixCol, ImixCol;
    ImixColCancels(s.w0);
    ImixColCancels(s.w1);
    ImixColCancels(s.w2);
    ImixColCancels(s.w3);
  }

  lemma InvMixColumnsAddKey(s: Cols, k: Cols)
    ensures InvMixColumns(AddKey(s, k)) == AddKey(InvMixColumns(s), InvMixColumns(k))
  {
    hide AddW, ImixCol;
    ImixColAdd(s.w0, k.w0);
    ImixColAdd(s.w1, k.w1);
    ImixColAdd(s.w2, k.w2);
    ImixColAdd(s.w3, k.w3);
  }

  lemma AddKeyTwice(s: Cols, k: Cols)
    ensures AddKey(AddKey(s, k), k) == s
  {
    hide AddW;
    AddWCancel(s.w0, k.w0);
    AddWCancel(s.w1, k.w1);
    AddWCancel(s.w2, k.w2);
    AddWCancel(s.w3, k.w3);
  }

  // ---------------------------------------------------------------- the tables

  function FtTab1(x: bv8): bv32 { Ror24(FtTab0(x)) }
  function FtTab2(x: bv8): bv32 { Ror16(FtTab0(x)) }
  function FtTab3(x: bv8): bv32 { Ror8(FtTab0(x)) }

  function ItTab1(x: bv8): bv32 { Ror24(ItTab0(x)) }
  function ItTab2(x: bv8): bv32 { Ror16(ItTab0(x)) }
  function ItTab3(x: bv8): bv32 { Ror8(ItTab0(x)) }

  function FlTab0(x: bv8): bv32 { Sbox(x) as bv32 }
  function FlTab1(x: bv8): bv32 { Ror24(FlTab0(x)) }
  function FlTab2(x: bv8): bv32 { Ror16(FlTab0(x)) }
  function FlTab3(x: bv8): bv32 { Ror8(FlTab0(x)) }

  function IlTab0(x: bv8): bv32 { InvSbox(x) as bv32 }
  function IlTab1(x: bv8): bv32 { Ror24(IlTab0(x)) }
  function IlTab2(x: bv8): bv32 { Ror16(IlTab0(x)) }
  function IlTab3(x: bv8): bv32 { Ror8(IlTab0(x)) }

  /** Every entry of crypto_ft_tab[0] is the S-box value times the column 02, 01, 01, 03. */
  lemma FtTabIsMix(x: bv8)
    ensures FtTab0(x) == Word(Xtime(Sbox(x)), Sbox(x), Sbox(x), Mul3(Sbox(x)))
  {
  }

  /** Every entry of crypto_it_tab[0] is the inverse S-box value times 0e, 09, 0d, 0b. */
  lemma ItTabIsInvMix(x: bv8)
    ensures ItTab0(x) == Word(Mul14(InvSbox(x)), Mul9(InvSbox(x)), Mul13(InvSbox(x)), Mul11(InvSbox(x)))
  {
  }

  function Xor4(p: bv32, q: bv32, r: bv32, s: bv32): bv32 { AddW(AddW(AddW(p, q), r), s) }

  /** The column f_rn computes, before the key. */
  function FColumn(a: bv8, b: bv8, c: bv8, d: bv8): bv32 {
    Xor4(FtTab0(a), FtTab1(b), FtTab2(c), FtTab3(d))
  }

  /** The column i_rn computes, before the key. */
  function IColumn(a: bv8, b: bv8, c: bv8, d: bv8): bv32 {
    Xor4(ItTab0(a), ItTab1(b), ItTab2(c), ItTab3(d))
  }

  /** f_rl, and ls_box. */
  function FlColumn(a: bv8, b: bv8, c: bv8, d: bv8): bv32 {
    Xor4(FlTab0(a), FlTab1(b), FlTab2(c), FlTab3(d))
  }

  /** i_rl. */
  function IlColumn(a: bv8, b: bv8, c: bv8, d: bv8): bv32 {
    Xor4(IlTab0(a), IlTab1(b), IlTab2(c), IlTab3(d))
  }

  lemma WordSum4(a: bv8, b: bv8, c: bv8, d: bv8, a': bv8, b': bv8, c': bv8, d': bv8,
                 a'': bv8, b'': bv8, c'': bv8, d'': bv8, a3: bv8, b3: bv8, c3: bv8, d3: bv8)
    ensures Xor4(Word(a, b, c, d), Word(a', b', c', d'), Word(a'', b'', c'', d''), Word(a3, b3, c3, d3))
         == Word(Sum4(a, a', a'', a3), Sum4(b, b', b'', b3), Sum4(c, c', c'', c3), Sum4(d, d', d'', d3))
  {
    hide Word, Add, AddW;
    WordAdd(a, b, c, d, a', b', c', d');
    WordAdd(Add(a, a'), Add(b, b'), Add(c, c'), Add(d, d'), a'', b'', c'', d'');
    WordAdd(Add(Add(a, a'), a''), Add(Add(b, b'), b''), Add(Add(c, c'), c''), Add(Add(d, d'), d''),
            a3, b3, c3, d3);
  }

  lemma FColumnIsMix(a: bv8, b: bv8, c: bv8, d: bv8)
    ensures FColumn(a, b, c, d) == MixBytes(Sbox(a), Sbox(b), Sbox(c), Sbox(d))
  {
    hide Word, FtTab0, Sbox, Ror8, Ror16, Ror24, Xor4, Xtime, Mul3, Sum4;
    var p, q, r, s := Sbox(a), Sbox(b), Sbox(c), Sbox(d);
    FtTabIsMix(a);
    FtTabIsMix(b);
    FtTabIsMix(c);
    FtTabIsMix(d);
    Ror24Word(Xtime(q), q, q, Mul3(q));
    Ror16Word(Xtime(r), r, r, Mul3(r));
    Ror8Word(Xtime(s), s, s, Mul3(s));
    WordSum4(Xtime(p), p, p, Mul3(p), Mul3(q), Xtime(q), q, q,
             r, Mul3(r), Xtime(r), r, s, s, Mul3(s), Xtime(s));
    Sum4Rotate(Xtime(q), Mul3(r), s, p);
    Sum4Rotate(Xtime(r), Mul3(s), p, q);
    Sum4Rotate(q, Xtime(r), Mul3(s), p);
    Sum4Rotate(Xtime(s), Mul3(p), q, r);
    Sum4Rotate(r, Xtime(s), Mul3(p), q);
    Sum4Rotate(q, r, Xtime(s), Mul3(p));
  }

  lemma Sum4Right(a: bv8, b: bv8, c: bv8, d: bv8)
    ensures Sum4(a, b, c, d) == Add(a, Add(Add(b, c), d))
  {
    hide Add;
    AddAssoc(a, b, c);
    AddAssoc(a, Add(b, c), d);
  }

  lemma IColumnIsInvMix(a: bv8, b: bv8, c: bv8, d: bv8)
    ensures IColumn(a, b, c, d) == ImixCol(InvSubBytesWord(a, b, c, d))
  {
    hide Word, ItTab0, InvSbox, Ror8, Ror16, Ror24, Xor4, Mul9, Mul11, Mul13, Mul14, Sum4, ImixCol, Add;
    var p, q, r, s := InvSbox(a), InvSbox(b), InvSbox(c), InvSbox(d);
    ItTabIsInvMix(a);
    ItTabIsInvMix(b);
    ItTabIsInvMix(c);
    ItTabIsInvMix(d);
    Ror24Word(Mul14(q), Mul9(q), Mul13(q), Mul11(q));
    Ror16Word(Mul14(r), Mul9(r), Mul13(r), Mul11(r));
    Ror8Word(Mul14(s), Mul9(s), Mul13(s), Mul11(s));
    WordSum4(Mul14(p), Mul9(p), Mul13(p), Mul11(p), Mul11(q), Mul14(q), Mul9(q), Mul13(q),
             Mul13(r), Mul11(r), Mul14(r), Mul9(r), Mul9(s), Mul13(s), Mul11(s), Mul14(s));
    ImixColIsInvMix(p, q, r, s);
    Sum4Right(Mul14(p), Mul11(q), Mul13(r), Mul9(s));
    Sum4Rotate(Mul14(q), Mul11(r), Mul13(s), Mul9(p));
    Sum4Right(Mul14(q), Mul11(r), Mul13(s), Mul9(p));
    Sum4Rotate(Mul14(r), Mul11(s), Mul13(p), Mul9(q));
    Sum4Rotate(Mul9(q), Mul14(r), Mul11(s), Mul13(p));
    Sum4Right(Mul14(r), Mul11(s), Mul13(p), Mul9(q));
    Sum4Rotate(Mul14(s), Mul11(p), Mul13(q), Mul9(r));
    Sum4Rotate(Mul9(r), Mul14(s), Mul11(p), Mul13(q));
    Sum4Rotate(Mul13(q), Mul9(r), Mul14(s), Mul11(p));
    Sum4Right(Mul14(s), Mul11(p), Mul13(q), Mul9(r));
  }

  lemma PackFour(a: bv8, b: bv8, c: bv8, d: bv8)
    ensures Xor4(a as bv32, Ror24(b as bv32), Ror16(c as bv32), Ror8(d as bv32)) == Word(a, b, c, d)
  {
  }

  lemma FlColumnIsSub(a: bv8, b: bv8, c: bv8, d: bv8)
    ensures FlColumn(a, b, c, d) == SubBytesWord(a, b, c, d)
  {
    hide Sbox, Xor4, Ror8, Ror16, Ror24, Word;
    PackFour(Sbox(a), Sbox(b), Sbox(c), Sbox(d));
  }

  lemma IlColumnIsInvSub(a: bv8, b: bv8, c: bv8, d: bv8)
    ensures IlColumn(a, b, c, d) == InvSubBytesWord(a, b, c, d)
  {
    hide InvSbox, Xor4, Ror8, Ror16, Ror24, Word;
    PackFour(InvSbox(a), InvSbox(b), InvSbox(c), InvSbox(d));
  }
}
