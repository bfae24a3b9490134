/**
The arithmetic under AES: bytes as elements of GF(2^8) and columns of four bytes packed into a
32-bit word, least significant byte first (FIPS 197, sections 4 and 5).
*/
module AesField {

  // ---------------------------------------------------------------- words and bytes

  function Word(a: bv8, b: bv8, c: bv8, d: bv8): bv32 {
    (a as bv32) | ((b as bv32) << 8) | ((c as bv32) << 16) | ((d as bv32) << 24)
  }

  function Byte0(w: bv32): bv8 { (w & 0xff) as bv8 }
  function Byte1(w: bv32): bv8 { ((w >> 8) & 0xff) as bv8 }
  function Byte2(w: bv32): bv8 { ((w >> 16) & 0xff) as bv8 }
  function Byte3(w: bv32): bv8 { ((w >> 24) & 0xff) as bv8 }

  function Ror8(w: bv32): bv32 { (w >> 8) | (w << 24) }
  function Ror16(w: bv32): bv32 { (w >> 16) | (w << 16) }
  function Ror24(w: bv32): bv32 { (w >> 24) | (w << 8) }

  lemma WordOfBytes(w: bv32)
    ensures Word(Byte0(w), Byte1(w), Byte2(w), Byte3(w)) == w
  {
  }

  lemma Byte0OfWord(a: bv8, b: bv8, c: bv8, d: bv8)
    ensures Byte0(Word(a, b, c, d)) == a
  {
  }

  lemma Byte1OfWord(a: bv8, b: bv8, c: bv8, d: bv8)
    ensures Byte1(Word(a, b, c, d)) == b
  {
  }

  lemma Byte2OfWord(a: bv8, b: bv8, c: bv8, d: bv8)
    ensures Byte2(Word(a, b, c, d)) == c
  {
  }

  lemma Byte3OfWord(a: bv8, b: bv8, c: bv8, d: bv8)
    ensures Byte3(Word(a, b, c, d)) == d
  {
  }

  /** Addition of packed columns. */
  function AddW(x: bv32, y: bv32): bv32 { x ^ y }

  /** Addition in GF(2^8). */
  function Add(a: bv8, b: bv8): bv8 { a ^ b }

  lemma AddComm(a: bv8, b: bv8)
    ensures Add(a, b) == Add(b, a)
  {
  }

  lemma AddAssoc(a: bv8, b: bv8, c: bv8)
    ensures Add(Add(a, b), c) == Add(a, Add(b, c))
  {
  }

  lemma AddSwap(a: bv8, b: bv8, c: bv8, d: bv8)
    ensures Add(Add(a, b), Add(c, d)) == Add(Add(a, c), Add(b, d))
  {
    hide Add;
    AddAssoc(a, b, Add(c, d));
    AddAssoc(b, c, d);
    AddComm(b, c);
    AddAssoc(c, b, d);
    AddAssoc(a, c, Add(b, d));
  }

  lemma WordAdd(a: bv8, b: bv8, c: bv8, d: bv8, a': bv8, b': bv8, c': bv8, d': bv8)
    ensures AddW(Word(a, b, c, d), Word(a', b', c', d'))
         == Word(Add(a, a'), Add(b, b'), Add(c, c'), Add(d, d'))
  {
  }

  lemma Ror8Word(a: bv8, b: bv8, c: bv8, d: bv8)
    ensures Ror8(Word(a, b, c, d)) == Word(b, c, d, a)
  {
  }

  lemma Ror16Word(a: bv8, b: bv8, c: bv8, d: bv8)
    ensures Ror16(Word(a, b, c, d)) == Word(c, d, a, b)
  {
  }

  lemma Ror24Word(a: bv8, b: bv8, c: bv8, d: bv8)
    ensures Ror24(Word(a, b, c, d)) == Word(d, a, b, c)
  {
  }

  // ---------------------------------------------------------------- multiplication

  /** Multiplication by x in GF(2^8): shift, and fold x^8 back as x^4 + x^3 + x + 1. */
  function Xtime(b: bv8): bv8 {
    (b << 1) ^ (b >> 7) ^ ((b >> 7) << 1) ^ ((b >> 7) << 3) ^ ((b >> 7) << 4)
  }

  /** xtime as section 4.2.1 of FIPS 197 words it. */
  lemma XtimeFips(b: bv8)
    ensures Xtime(b) == (b << 1) ^ (if b & 0x80 == 0 then 0 else 0x1b)
  {
  }

  lemma XtimeAdd(a: bv8, b: bv8)
    ensures Xtime(Add(a, b)) == Add(Xtime(a), Xtime(b))
  {
  }

  function Xtime2(b: bv8): bv8 { Xtime(Xtime(b)) }
  function Xtime3(b: bv8): bv8 { Xtime(Xtime2(b)) }

  function Mul3(b: bv8): bv8 { Add(Xtime(b), b) }
  function Mul9(b: bv8): bv8 { Add(Xtime3(b), b) }
  function Mul11(b: bv8): bv8 { Add(Xtime(b), Mul9(b)) }
  function Mul13(b: bv8): bv8 { Add(Xtime2(b), Mul9(b)) }
  function Mul14(b: bv8): bv8 { Add(Add(Xtime(b), Xtime2(b)), Xtime3(b)) }

  lemma MulAdd(a: bv8, b: bv8)
    ensures Mul9(Add(a, b)) == Add(Mul9(a), Mul9(b))
    ensures Mul11(Add(a, b)) == Add(Mul11(a), Mul11(b))
    ensures Mul13(Add(a, b)) == Add(Mul13(a), Mul13(b))
    ensures Mul14(Add(a, b)) == Add(Mul14(a), Mul14(b))
  {
    hide Add, Xtime;
    XtimeAdd(a, b);
    XtimeAdd(Xtime(a), Xtime(b));
    XtimeAdd(Xtime2(a), Xtime2(b));
    AddSwap(Xtime3(a), Xtime3(b), a, b);
    AddSwap(Xtime(a), Xtime(b), Mul9(a), Mul9(b));
    AddSwap(Xtime2(a), Xtime2(b), Mul9(a), Mul9(b));
    AddSwap(Xtime(a), Xtime(b), Xtime2(a), Xtime2(b));
    AddSwap(Add(Xtime(a), Xtime2(a)), Add(Xtime(b), Xtime2(b)), Xtime3(a), Xtime3(b));
  }

  // ---------------------------------------------------------------- packed multiplication

  /** star_x. */
  function StarX(x: bv32): bv32 {
    ((x & 0x7f7f7f7f) << 1) ^ (((x & 0x80808080) >> 7) * 0x1b)
  }

  /** star_x with its multiplication written as shifts. */
  function StarShift(x: bv32): bv32 {
    var y := (x & 0x80808080) >> 7;
    ((x & 0x7f7f7f7f) << 1) ^ y ^ (y << 1) ^ (y << 3) ^ (y << 4)
  }

  lemma Spread(y: bv32)
    requires y == y & 0x01010101
    ensures y * 0x1b == y ^ (y << 1) ^ (y << 3) ^ (y << 4)
  {
  }

  lemma TopBits(x: bv32)
    ensures (x & 0x80808080) >> 7 == ((x & 0x80808080) >> 7) & 0x01010101
  {
  }

  lemma XorAssoc(a: bv32, b: bv32, c: bv32, d: bv32, e: bv32)
    ensures a ^ (b ^ c ^ d ^ e) == a ^ b ^ c ^ d ^ e
  {
  }

  lemma StarXIsShift(x: bv32)
    ensures StarX(x) == StarShift(x)
  {
    var y := (x & 0x80808080) >> 7;
    TopBits(x);
    Spread(y);
    XorAssoc((x & 0x7f7f7f7f) << 1, y, y << 1, y << 3, y << 4);
  }

  lemma StarShiftBytes(a: bv8, b: bv8, c: bv8, d: bv8)
    ensures StarShift(Word(a, b, c, d)) == Word(Xtime(a), Xtime(b), Xtime(c), Xtime(d))
  {
  }

  /** star_x multiplies the four bytes of a word by x, each on its own. */
  lemma StarXIsXtime(a: bv8, b: bv8, c: bv8, d: bv8)
    ensures StarX(Word(a, b, c, d)) == Word(Xtime(a), Xtime(b), Xtime(c), Xtime(d))
  {
    hide Word, Xtime, StarX, StarShift;
    StarXIsShift(Word(a, b, c, d));
    StarShiftBytes(a, b, c, d);
  }

  // ---------------------------------------------------------------- MixColumns

  function Sum4(a: bv8, b: bv8, c: bv8, d: bv8): bv8 { Add(Add(Add(a, b), c), d) }

  /** A row of MixColumns: 02, 03, 01, 01. */
  function MixRow(a: bv8, b: bv8, c: bv8, d: bv8): bv8 { Sum4(Xtime(a), Mul3(b), c, d) }

  /** A row of InvMixColumns: 0e, 0b, 0d, 09. */
  function InvMixRow(a: bv8, b: bv8, c: bv8, d: bv8): bv8 {
    Add(Mul14(a), Add(Add(Mul11(b), Mul13(c)), Mul9(d)))
  }

  function MixBytes(a: bv8, b: bv8, c: bv8, d: bv8): bv32 {
    Word(MixRow(a, b, c, d), MixRow(b, c, d, a), MixRow(c, d, a, b), MixRow(d, a, b, c))
  }

  function InvMixBytes(a: bv8, b: bv8, c: bv8, d: bv8): bv32 {
    Word(InvMixRow(a, b, c, d), InvMixRow(b, c, d, a), InvMixRow(c, d, a, b), InvMixRow(d, a, b, c))
  }

  /** MixColumns on a packed column. */
  function MixCol(w: bv32): bv32 { MixBytes(Byte0(w), Byte1(w), Byte2(w), Byte3(w)) }

  /** imix_col. */
  function ImixCol(x: bv32): bv32 {
    var u := StarX(x);
    var v := StarX(u);
    var w := StarX(v);
    var t := AddW(w, x);
    AddW(AddW(AddW(u, v), w), AddW(AddW(Ror8(AddW(u, t)), Ror16(AddW(v, t))), Ror24(t)))
  }

  /** imix_col is InvMixColumns of FIPS 197 on the packed column. */
  lemma ImixColIsInvMix(a: bv8, b: bv8, c: bv8, d: bv8)
    ensures ImixCol(Word(a, b, c, d)) == InvMixBytes(a, b, c, d)
  {
    hide Word, Xtime, StarX, Ror8, Ror16, Ror24, Add, AddW;
    var a1, b1, c1, d1 := Xtime(a), Xtime(b), Xtime(c), Xtime(d);
    var a2, b2, c2, d2 := Xtime(a1), Xtime(b1), Xtime(c1), Xtime(d1);
    var a3, b3, c3, d3 := Xtime(a2), Xtime(b2), Xtime(c2), Xtime(d2);
    StarXIsXtime(a, b, c, d);
    StarXIsXtime(a1, b1, c1, d1);
    StarXIsXtime(a2, b2, c2, d2);
    WordAdd(a1, b1, c1, d1, a2, b2, c2, d2);
    WordAdd(Add(a1, a2), Add(b1, b2), Add(c1, c2), Add(d1, d2), a3, b3, c3, d3);
    var ta, tb, tc, td := Mul9(a), Mul9(b), Mul9(c), Mul9(d);
    WordAdd(a3, b3, c3, d3, a, b, c, d);
    WordAdd(a1, b1, c1, d1, ta, tb, tc, td);
    WordAdd(a2, b2, c2, d2, ta, tb, tc, td);
    Ror8Word(Mul11(a), Mul11(b), Mul11(c), Mul11(d));
    Ror16Word(Mul13(a), Mul13(b), Mul13(c), Mul13(d));
    Ror24Word(ta, tb, tc, td);
    WordAdd(Mul11(b), Mul11(c), Mul11(d), Mul11(a), Mul13(c), Mul13(d), Mul13(a), Mul13(b));
    WordAdd(Add(Mul11(b), Mul13(c)), Add(Mul11(c), Mul13(d)), Add(Mul11(d), Mul13(a)),
            Add(Mul11(a), Mul13(b)), td, ta, tb, tc);
    WordAdd(Mul14(a), Mul14(b), Mul14(c), Mul14(d),
            Add(Add(Mul11(b), Mul13(c)), td), Add(Add(Mul11(c), Mul13(d)), ta),
            Add(Add(Mul11(d), Mul13(a)), tb), Add(Add(Mul11(a), Mul13(b)), tc));
  }

  // ---------------------------------------------------------------- the inverse

  lemma MulSum4(a: bv8, b: bv8, c: bv8, d: bv8)
    ensures Mul9(Sum4(a, b, c, d)) == Sum4(Mul9(a), Mul9(b), Mul9(c), Mul9(d))
    ensures Mul11(Sum4(a, b, c, d)) == Sum4(Mul11(a), Mul11(b), Mul11(c), Mul11(d))
    ensures Mul13(Sum4(a, b, c, d)) == Sum4(Mul13(a), Mul13(b), Mul13(c), Mul13(d))
    ensures Mul14(Sum4(a, b, c, d)) == Sum4(Mul14(a), Mul14(b), Mul14(c), Mul14(d))
  {
    hide Add, Mul9, Mul11, Mul13, Mul14;
    MulAdd(a, b);
    MulAdd(Add(a, b), c);
    MulAdd(Add(Add(a, b), c), d);
  }

  lemma Sum4Add(a: bv8, b: bv8, c: bv8, d: bv8, a': bv8, b': bv8, c': bv8, d': bv8)
    ensures Add(Sum4(a, b, c, d), Sum4(a', b', c', d'))
         == Sum4(Add(a, a'), Add(b, b'), Add(c, c'), Add(d, d'))
  {
    hide Add;
    AddSwap(Add(Add(a, b), c), d, Add(Add(a', b'), c'), d');
    AddSwap(Add(a, b), c, Add(a', b'), c');
    AddSwap(a, b, a', b');
  }

  /** InvMixColumns is linear in the column. */
  lemma InvMixRowSum4(p1: bv8, p2: bv8, p3: bv8, p4: bv8, q1: bv8, q2: bv8, q3: bv8, q4: bv8,
                      r1: bv8, r2: bv8, r3: bv8, r4: bv8, s1: bv8, s2: bv8, s3: bv8, s4: bv8)
    ensures InvMixRow(Sum4(p1, p2, p3, p4), Sum4(q1, q2, q3, q4), Sum4(r1, r2, r3, r4), Sum4(s1, s2, s3, s4))
         == Sum4(InvMixRow(p1, q1, r1, s1), InvMixRow(p2, q2, r2, s2),
                 InvMixRow(p3, q3, r3, s3), InvMixRow(p4, q4, r4, s4))
  {
    hide Add, Mul9, Mul11, Mul13, Mul14, Sum4;
    MulSum4(p1, p2, p3, p4);
    MulSum4(q1, q2, q3, q4);
    MulSum4(r1, r2, r3, r4);
    MulSum4(s1, s2, s3, s4);
    var q, r, s := (Mul11(q1), Mul11(q2), Mul11(q3), Mul11(q4)),
                   (Mul13(r1), Mul13(r2), Mul13(r3), Mul13(r4)),
                   (Mul9(s1), Mul9(s2), Mul9(s3), Mul9(s4));
    Sum4Add(q.0, q.1, q.2, q.3, r.0, r.1, r.2, r.3);
    Sum4Add(Add(q.0, r.0), Add(q.1, r.1), Add(q.2, r.2), Add(q.3, r.3), s.0, s.1, s.2, s.3);
    Sum4Add(Mul14(p1), Mul14(p2), Mul14(p3), Mul14(p4),
            Add(Add(q.0, r.0), s.0), Add(Add(q.1, r.1), s.1),
            Add(Add(q.2, r.2), s.2), Add(Add(q.3, r.3), s.3));
  }

  lemma Diagonal(a: bv8)
    ensures InvMixRow(Xtime(a), a, a, Mul3(a)) == a
  {
  }

  lemma OffDiagonal1(b: bv8)
    ensures InvMixRow(Mul3(b), Xtime(b), b, b) == 0
  {
  }

  lemma OffDiagonal2(c: bv8)
    ensures InvMixRow(c, Mul3(c), Xtime(c), c) == 0
  {
  }

  lemma OffDiagonal3(d: bv8)
    ensures InvMixRow(d, d, Mul3(d), Xtime(d)) == 0
  {
  }

  /** Bring the terms of a row of MixColumns into the order of the columns. */
  lemma Sum4Rotate(a: bv8, b: bv8, c: bv8, d: bv8)
    ensures Sum4(a, b, c, d) == Sum4(d, a, b, c)
  {
    hide Add;
    AddComm(Add(Add(a, b), c), d);
    AddAssoc(d, Add(a, b), c);
    AddAssoc(d, a, b);
  }

  lemma RowCancels(a: bv8, b: bv8, c: bv8, d: bv8)
    ensures InvMixRow(MixRow(a, b, c, d), MixRow(b, c, d, a), MixRow(c, d, a, b), MixRow(d, a, b, c)) == a
  {
    hide Add, Xtime, Mul3, InvMixRow, Sum4;
    Sum4Rotate(Xtime(b), Mul3(c), d, a);
    Sum4Rotate(Xtime(c), Mul3(d), a, b);
    Sum4Rotate(b, Xtime(c), Mul3(d), a);
    Sum4Rotate(Xtime(d), Mul3(a), b, c);
    Sum4Rotate(c, Xtime(d), Mul3(a), b);
    Sum4Rotate(b, c, Xtime(d), Mul3(a));
    InvMixRowSum4(Xtime(a), Mul3(b), c, d,
                  a, Xtime(b), Mul3(c), d,
                  a, b, Xtime(c), Mul3(d),
                  Mul3(a), b, c, Xtime(d));
    Diagonal(a);
    OffDiagonal1(b);
    OffDiagonal2(c);
    OffDiagonal3(d);
    Sum4Zero(a);
  }

  lemma Sum4Zero(a: bv8)
    ensures Sum4(a, 0, 0, 0) == a
  {
  }

  /** imix_col undoes MixColumns. */
  lemma ImixColCancels(w: bv32)
    ensures ImixCol(MixCol(w)) == w
  {
    hide Word, ImixCol, MixRow, InvMixRow, Byte0, Byte1, Byte2, Byte3;
    var a, b, c, d := Byte0(w), Byte1(w), Byte2(w), Byte3(w);
    ImixColIsInvMix(MixRow(a, b, c, d), MixRow(b, c, d, a), MixRow(c, d, a, b), MixRow(d, a, b, c));
    RowCancels(a, b, c, d);
    RowCancels(b, c, d, a);
    RowCancels(c, d, a, b);
    RowCancels(d, a, b, c);
    WordOfBytes(w);
  }

  // ---------------------------------------------------------------- linearity

  lemma InvMixRowAdd(a: bv8, b: bv8, c: bv8, d: bv8, a': bv8, b': bv8, c': bv8, d': bv8)
    ensures InvMixRow(Add(a, a'), Add(b, b'), Add(c, c'), Add(d, d'))
         == Add(InvMixRow(a, b, c, d), InvMixRow(a', b', c', d'))
  {
    hide Add, Mul9, Mul11, Mul13, Mul14;
    MulAdd(a, a');
    MulAdd(b, b');
    MulAdd(c, c');
    MulAdd(d, d');
    AddSwap(Mul11(b), Mul11(b'), Mul13(c), Mul13(c'));
    AddSwap(Add(Mul11(b), Mul13(c)), Add(Mul11(b'), Mul13(c')), Mul9(d), Mul9(d'));
    AddSwap(Mul14(a), Mul14(a'), Add(Add(Mul11(b), Mul13(c)), Mul9(d)),
            Add(Add(Mul11(b'), Mul13(c')), Mul9(d')));
  }

  lemma ImixColAdd(x: bv32, y: bv32)
    ensures ImixCol(AddW(x, y)) == AddW(ImixCol(x), ImixCol(y))
  {
    hide Word, ImixCol, InvMixRow, Add, AddW, Byte0, Byte1, Byte2, Byte3;
    var a, b, c, d := Byte0(x), Byte1(x), Byte2(x), Byte3(x);
    var a', b', c', d' := Byte0(y), Byte1(y), Byte2(y), Byte3(y);
    WordOfBytes(x);
    WordOfBytes(y);
    WordAdd(a, b, c, d, a', b', c', d');
    ImixColIsInvMix(a, b, c, d);
    ImixColIsInvMix(a', b', c', d');
    ImixColIsInvMix(Add(a, a'), Add(b, b'), Add(c, c'), Add(d, d'));
    InvMixRowAdd(a, b, c, d, a', b', c', d');
    InvMixRowAdd(b, c, d, a, b', c', d', a');
    InvMixRowAdd(c, d, a, b, c', d', a', b');
    InvMixRowAdd(d, a, b, c, d', a', b', c');
    WordAdd(InvMixRow(a, b, c, d), InvMixRow(b, c, d, a), InvMixRow(c, d, a, b), InvMixRow(d, a, b, c),
            InvMixRow(a', b', c', d'), InvMixRow(b', c', d', a'), InvMixRow(c', d', a', b'),
            InvMixRow(d', a', b', c'));
  }

  lemma AddWCancel(x: bv32, y: bv32)
    ensures AddW(AddW(x, y), y) == x
  {
  }
}
