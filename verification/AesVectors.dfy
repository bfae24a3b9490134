/** The worked example of appendix C.1 of FIPS 197: what one block is enciphered to, round by round. */
module AesVectors {
  import opened AesTables
  import opened AesField
  import opened AesRounds
  import opened Aes

  // ---------------------------------------------------------------- the key

  /** Four words of an expanded 128-bit key. */
  function Group(key: seq<bv8>, g: nat): Cols
    requires |key| == 16 && g < 11
  {
    Cols(ExpandedWord(key, 4 * g), ExpandedWord(key, 4 * g + 1), ExpandedWord(key, 4 * g + 2),
         ExpandedWord(key, 4 * g + 3))
  }

  /** The first word of a group from the group before. */
  function GroupWord(k: Cols, g: nat): bv32
    requires 0 < g < 11
  {
    AddW(AddW(SubWord(Ror8(k.w3)), Rcon(g - 1)), k.w0)
  }

  lemma WordStep(key: seq<bv8>, nk: nat, i: nat)
    requires KeyLength(|key|) && nk == |key| / 4 && nk <= i < 11 * nk
    ensures ExpandedWord(key, i) ==
      AddW(if i % nk == 0 then AddW(SubWord(Ror8(ExpandedWord(key, i - 1))), Rcon(i / nk - 1))
           else if nk > 6 && i % nk == 4 then SubWord(ExpandedWord(key, i - 1))
           else ExpandedWord(key, i - 1), ExpandedWord(key, i - nk))
  {
    hide SubWord, AddW, Rcon;
  }

  lemma WordStep4(key: seq<bv8>, i: nat)
    requires |key| == 16 && 4 <= i < 44
    ensures ExpandedWord(key, i) ==
      AddW(if i % 4 == 0 then AddW(SubWord(Ror8(ExpandedWord(key, i - 1))), Rcon(i / 4 - 1))
           else ExpandedWord(key, i - 1), ExpandedWord(key, i - 4))
  {
    hide SubWord, AddW, Rcon, ExpandedWord;
    WordStep(key, 4, i);
  }

  lemma GroupStep(key: seq<bv8>, g: nat)
    requires |key| == 16 && 0 < g < 11
    ensures var (k, k') := (Group(key, g - 1), Group(key, g));
      && k'.w0 == GroupWord(k, g) && k'.w1 == AddW(k'.w0, k.w1)
      && k'.w2 == AddW(k'.w1, k.w2) && k'.w3 == AddW(k'.w2, k.w3)
  {
    hide SubWord, AddW, Rcon, Ror8, ExpandedWord;
    WordStep4(key, 4 * g);
    WordStep4(key, 4 * g + 1);
    WordStep4(key, 4 * g + 2);
    WordStep4(key, 4 * g + 3);
    assert 4 * g % 4 == 0 && (4 * g + 1) % 4 == 1 && (4 * g + 2) % 4 == 2 && (4 * g + 3) % 4 == 3;
  }

  lemma GroupWord1()
    ensures GroupWord(Cols(0x03020100, 0x07060504, 0x0b0a0908, 0x0f0e0d0c), 1) == 0xfd74aad6
  {
  }

  lemma Group1(key: seq<bv8>)
    requires |key| == 16 && Group(key, 0) == Cols(0x03020100, 0x07060504, 0x0b0a0908, 0x0f0e0d0c)
    ensures Group(key, 1) == Cols(0xfd74aad6, 0xfa72afd2, 0xf178a6da, 0xfe76abd6)
  {
    hide GroupWord, Group;
    GroupWord1();
    GroupStep(key, 1);
  }

  lemma GroupWord2()
    ensures GroupWord(Cols(0xfd74aad6, 0xfa72afd2, 0xf178a6da, 0xfe76abd6), 2) == 0x0bcf92b6
  {
  }

  lemma Group2(key: seq<bv8>)
    requires |key| == 16 && Group(key, 0) == Cols(0x03020100, 0x07060504, 0x0b0a0908, 0x0f0e0d0c)
    ensures Group(key, 2) == Cols(0x0bcf92b6, 0xf1bd3d64, 0x00c59bbe, 0xfeb33068)
  {
    hide GroupWord, Group;
    Group1(key);
    GroupWord2();
    GroupStep(key, 2);
  }

  lemma GroupWord3()
    ensures GroupWord(Cols(0x0bcf92b6, 0xf1bd3d64, 0x00c59bbe, 0xfeb33068), 3) == 0x4e74ffb6
  {
  }

  lemma Group3(key: seq<bv8>)
    requires |key| == 16 && Group(key, 0) == Cols(0x03020100, 0x07060504, 0x0b0a0908, 0x0f0e0d0c)
    ensures Group(key, 3) == Cols(0x4e74ffb6, 0xbfc9c2d2, 0xbf0c596c, 0x41bf6904)
  {
    hide GroupWord, Group;
    Group2(key);
    GroupWord3();
    GroupStep(key, 3);
  }

  lemma GroupWord4()
    ensures GroupWord(Cols(0x4e74ffb6, 0xbfc9c2d2, 0xbf0c596c, 0x41bf6904), 4) == 0xbcf7f747
  {
  }

  lemma Group4(key: seq<bv8>)
    requires |key| == 16 && Group(key, 0) == Cols(0x03020100, 0x07060504, 0x0b0a0908, 0x0f0e0d0c)
    ensures Group(key, 4) == Cols(0xbcf7f747, 0x033e3595, 0xbc326cf9, 0xfd8d05fd)
  {
    hide GroupWord, Group;
    Group3(key);
    GroupWord4();
    GroupStep(key, 4);
  }

  lemma GroupWord5()
    ensures GroupWord(Cols(0xbcf7f747, 0x033e3595, 0xbc326cf9, 0xfd8d05fd), 5) == 0xe8a3aa3c
  {
  }

  lemma Group5(key: seq<bv8>)
    requires |key| == 16 && Group(key, 0) == Cols(0x03020100, 0x07060504, 0x0b0a0908, 0x0f0e0d0c)
    ensures Group(key, 5) == Cols(0xe8a3aa3c, 0xeb9d9fa9, 0x57aff350, 0xaa22f6ad)
  {
    hide GroupWord, Group;
    Group4(key);
    GroupWord5();
    GroupStep(key, 5);
  }

  lemma GroupWord6()
    ensures GroupWord(Cols(0xe8a3aa3c, 0xeb9d9fa9, 0x57aff350, 0xaa22f6ad), 6) == 0x7d0f395e
  {
  }

  lemma Group6(key: seq<bv8>)
    requires |key| == 16 && Group(key, 0) == Cols(0x03020100, 0x07060504, 0x0b0a0908, 0x0f0e0d0c)
    ensures Group(key, 6) == Cols(0x7d0f395e, 0x9692a6f7, 0xc13d55a7, 0x6b1fa30a)
  {
    hide GroupWord, Group;
    Group5(key);
    GroupWord6();
    GroupStep(key, 6);
  }

  lemma GroupWord7()
    ensures GroupWord(Cols(0x7d0f395e, 0x9692a6f7, 0xc13d55a7, 0x6b1fa30a), 7) == 0x1a70f914
  {
  }

  lemma Group7(key: seq<bv8>)
    requires |key| == 16 && Group(key, 0) == Cols(0x03020100, 0x07060504, 0x0b0a0908, 0x0f0e0d0c)
    ensures Group(key, 7) == Cols(0x1a70f914, 0x8ce25fe3, 0x4ddf0a44, 0x26c0a94e)
  {
    hide GroupWord, Group;
    Group6(key);
    GroupWord7();
    GroupStep(key, 7);
  }

  lemma GroupWord8()
    ensures GroupWord(Cols(0x1a70f914, 0x8ce25fe3, 0x4ddf0a44, 0x26c0a94e), 8) == 0x35874347
  {
  }

  lemma Group8(key: seq<bv8>)
    requires |key| == 16 && Group(key, 0) == Cols(0x03020100, 0x07060504, 0x0b0a0908, 0x0f0e0d0c)
    ensures Group(key, 8) == Cols(0x35874347, 0xb9651ca4, 0xf4ba16e0, 0xd27abfae)
  {
    hide GroupWord, Group;
    Group7(key);
    GroupWord8();
    GroupStep(key, 8);
  }

  lemma GroupWord9()
    ensures GroupWord(Cols(0x35874347, 0xb9651ca4, 0xf4ba16e0, 0xd27abfae), 9) == 0xd1329954
  {
  }

  lemma Group9(key: seq<bv8>)
    requires |key| == 16 && Group(key, 0) == Cols(0x03020100, 0x07060504, 0x0b0a0908, 0x0f0e0d0c)
    ensures Group(key, 9) == Cols(0xd1329954, 0x685785f0, 0x9ced9310, 0x4e972cbe)
  {
    hide GroupWord, Group;
    Group8(key);
    GroupWord9();
    GroupStep(key, 9);
  }

  lemma GroupWord10()
    ensures GroupWord(Cols(0xd1329954, 0x685785f0, 0x9ced9310, 0x4e972cbe), 10) == 0x7f1d1113
  {
  }

  lemma Group10(key: seq<bv8>)
    requires |key| == 16 && Group(key, 0) == Cols(0x03020100, 0x07060504, 0x0b0a0908, 0x0f0e0d0c)
    ensures Group(key, 10) == Cols(0x7f1d1113, 0x174a94e3, 0x8ba707f3, 0xc5302b4d)
  {
    hide GroupWord, Group;
    Group9(key);
    GroupWord10();
    GroupStep(key, 10);
  }

  // ---------------------------------------------------------------- the rounds

  lemma KeyOfRound(key: seq<bv8>, r: nat)
    requires |key| == 16 && r < 11
    ensures RoundKey(EncSchedule(key), r) == Group(key, r)
  {
    hide ExpandedWord;
  }

  lemma Round1()
    ensures FNround(Cols(0x30201000, 0x70605040, 0xb0a09080, 0xf0e0d0c0),
                    Cols(0xfd74aad6, 0xfa72afd2, 0xf178a6da, 0xfe76abd6))
         == Cols(0xe810d889, 0x68ce5a85, 0xd843182d, 0xe48f12cb)
  {
  }

  lemma Round2()
    ensures FNround(Cols(0xe810d889, 0x68ce5a85, 0xd843182d, 0xe48f12cb),
                    Cols(0x0bcf92b6, 0xf1bd3d64, 0x00c59bbe, 0xfeb33068))
         == Cols(0x8f591549, 0xa0d7e555, 0xfa94cada, 0xf7630a1f)
  {
  }

  lemma Round3()
    ensures FNround(Cols(0x8f591549, 0xa0d7e555, 0xfa94cada, 0xf7630a1f),
                    Cols(0x4e74ffb6, 0xbfc9c2d2, 0xbf0c596c, 0x41bf6904))
         == Cols(0x286a63fa, 0xc939b325, 0x318a6640, 0x174d2457)
  {
  }

  lemma Round4()
    ensures FNround(Cols(0x286a63fa, 0xc939b325, 0x318a6640, 0x174d2457),
                    Cols(0xbcf7f747, 0x033e3595, 0xbc326cf9, 0xfd8d05fd))
         == Cols(0x23407224, 0xfab36669, 0x3275d26e, 0x6c5b4288)
  {
  }

  lemma Round5()
    ensures FNround(Cols(0x23407224, 0xfab36669, 0x3275d26e, 0x6c5b4288),
                    Cols(0xe8a3aa3c, 0xeb9d9fa9, 0x57aff350, 0xaa22f6ad))
         == Cols(0xbc7716c8, 0x3bc97a9b, 0x92790225, 0x961926b0)
  {
  }

  lemma Round6()
    ensures FNround(Cols(0xbc7716c8, 0x3bc97a9b, 0x92790225, 0x961926b0),
                    Cols(0x7d0f395e, 0x9692a6f7, 0xc13d55a7, 0x6b1fa30a))
         == Cols(0x09e12fc6, 0xc3ed5ef7, 0x5d3979cc, 0x5dcff984)
  {
  }

  lemma Round7()
    ensures FNround(Cols(0x09e12fc6, 0xc3ed5ef7, 0x5d3979cc, 0x5dcff984),
                    Cols(0x1a70f914, 0x8ce25fe3, 0x4ddf0a44, 0x26c0a94e))
         == Cols(0x0f6c87d1, 0x0a30c479, 0xad9455b4, 0x1ff46fd6)
  {
  }

  lemma Round8()
    ensures FNround(Cols(0x0f6c87d1, 0x0a30c479, 0xad9455b4, 0x1ff46fd6),
                    Cols(0x35874347, 0xb9651ca4, 0xf4ba16e0, 0xd27abfae))
         == Cols(0xd2bae3fd, 0xd7d0e505, 0x4e964735, 0xf137fef1)
  {
  }

  lemma Round9()
    ensures FNround(Cols(0xd2bae3fd, 0xd7d0e505, 0x4e964735, 0xf137fef1),
                    Cols(0xd1329954, 0x685785f0, 0x9ced9310, 0x4e972cbe))
         == Cols(0x3d7c6ebd, 0x9e77b5f2, 0x6e21610b, 0x89b6108b)
  {
  }

  lemma Round10()
    ensures FLround(Cols(0x3d7c6ebd, 0x9e77b5f2, 0x6e21610b, 0x89b6108b),
                    Cols(0x7f1d1113, 0x174a94e3, 0x8ba707f3, 0xc5302b4d))
         == Cols(0xd8e0c469, 0x30047b6a, 0x80b7cdd8, 0x5ac5b470)
  {
  }

  lemma State0(key: seq<bv8>, s: Cols)
    requires |key| == 16 && Group(key, 0) == Cols(0x03020100, 0x07060504, 0x0b0a0908, 0x0f0e0d0c)
    requires s == Cols(0x33221100, 0x77665544, 0xbbaa9988, 0xffeeddcc)
    ensures CipherRounds(EncSchedule(key), 0, s) == Cols(0x30201000, 0x70605040, 0xb0a09080, 0xf0e0d0c0)
  {
    hide Group;
    KeyOfRound(key, 0);
  }

  lemma State1(key: seq<bv8>, s: Cols)
    requires |key| == 16 && Group(key, 0) == Cols(0x03020100, 0x07060504, 0x0b0a0908, 0x0f0e0d0c)
    requires s == Cols(0x33221100, 0x77665544, 0xbbaa9988, 0xffeeddcc)
    ensures CipherRounds(EncSchedule(key), 1, s) == Cols(0xe810d889, 0x68ce5a85, 0xd843182d, 0xe48f12cb)
  {
    hide Group, FNround, MixColumns, SubShift, AddKey, EncSchedule, RoundKey;
    State0(key, s);
    Group1(key);
    KeyOfRound(key, 1);
    Round1();
    FNroundIsRound(CipherRounds(EncSchedule(key), 0, s), RoundKey(EncSchedule(key), 1));
  }

  lemma State2(key: seq<bv8>, s: Cols)
    requires |key| == 16 && Group(key, 0) == Cols(0x03020100, 0x07060504, 0x0b0a0908, 0x0f0e0d0c)
    requires s == Cols(0x33221100, 0x77665544, 0xbbaa9988, 0xffeeddcc)
    ensures CipherRounds(EncSchedule(key), 2, s) == Cols(0x8f591549, 0xa0d7e555, 0xfa94cada, 0xf7630a1f)
  {
    hide Group, FNround, MixColumns, SubShift, AddKey, EncSchedule, RoundKey;
    State1(key, s);
    Group2(key);
    KeyOfRound(key, 2);
    Round2();
    FNroundIsRound(CipherRounds(EncSchedule(key), 1, s), RoundKey(EncSchedule(key), 2));
  }

  lemma State3(key: seq<bv8>, s: Cols)
    requires |key| == 16 && Group(key, 0) == Cols(0x03020100, 0x07060504, 0x0b0a0908, 0x0f0e0d0c)
    requires s == Cols(0x33221100, 0x77665544, 0xbbaa9988, 0xffeeddcc)
    ensures CipherRounds(EncSchedule(key), 3, s) == Cols(0x286a63fa, 0xc939b325, 0x318a6640, 0x174d2457)
  {
    hide Group, FNround, MixColumns, SubShift, AddKey, EncSchedule, RoundKey;
    State2(key, s);
    Group3(key);
    KeyOfRound(key, 3);
    Round3();
    FNroundIsRound(CipherRounds(EncSchedule(key), 2, s), RoundKey(EncSchedule(key), 3));
  }

  lemma State4(key: seq<bv8>, s: Cols)
    requires |key| == 16 && Group(key, 0) == Cols(0x03020100, 0x07060504, 0x0b0a0908, 0x0f0e0d0c)
    requires s == Cols(0x33221100, 0x77665544, 0xbbaa9988, 0xffeeddcc)
    ensures CipherRounds(EncSchedule(key), 4, s) == Cols(0x23407224, 0xfab36669, 0x3275d26e, 0x6c5b4288)
  {
    hide Group, FNround, MixColumns, SubShift, AddKey, EncSchedule, RoundKey;
    State3(key, s);
    Group4(key);
    KeyOfRound(key, 4);
    Round4();
    FNroundIsRound(CipherRounds(EncSchedule(key), 3, s), RoundKey(EncSchedule(key), 4));
  }

  lemma State5(key: seq<bv8>, s: Cols)
    requires |key| == 16 && Group(key, 0) == Cols(0x03020100, 0x07060504, 0x0b0a0908, 0x0f0e0d0c)
    requires s == Cols(0x33221100, 0x77665544, 0xbbaa9988, 0xffeeddcc)
    ensures CipherRounds(EncSchedule(key), 5, s) == Cols(0xbc7716c8, 0x3bc97a9b, 0x92790225, 0x961926b0)
  {
    hide Group, FNround, MixColumns, SubShift, AddKey, EncSchedule, RoundKey;
    State4(key, s);
    Group5(key);
    KeyOfRound(key, 5);
    Round5();
    FNroundIsRound(CipherRounds(EncSchedule(key), 4, s), RoundKey(EncSchedule(key), 5));
  }

  lemma State6(key: seq<bv8>, s: Cols)
    requires |key| == 16 && Group(key, 0) == Cols(0x03020100, 0x07060504, 0x0b0a0908, 0x0f0e0d0c)
    requires s == Cols(0x33221100, 0x77665544, 0xbbaa9988, 0xffeeddcc)
    ensures CipherRounds(EncSchedule(key), 6, s) == Cols(0x09e12fc6, 0xc3ed5ef7, 0x5d3979cc, 0x5dcff984)
  {
    hide Group, FNround, MixColumns, SubShift, AddKey, EncSchedule, RoundKey;
    State5(key, s);
    Group6(key);
    KeyOfRound(key, 6);
    Round6();
    FNroundIsRound(CipherRounds(EncSchedule(key), 5, s), RoundKey(EncSchedule(key), 6));
  }

  lemma State7(key: seq<bv8>, s: Cols)
    requires |key| == 16 && Group(key, 0) == Cols(0x03020100, 0x07060504, 0x0b0a0908, 0x0f0e0d0c)
    requires s == Cols(0x33221100, 0x77665544, 0xbbaa9988, 0xffeeddcc)
    ensures CipherRounds(EncSchedule(key), 7, s) == Cols(0x0f6c87d1, 0x0a30c479, 0xad9455b4, 0x1ff46fd6)
  {
    hide Group, FNround, MixColumns, SubShift, AddKey, EncSchedule, RoundKey;
    State6(key, s);
    Group7(key);
    KeyOfRound(key, 7);
    Round7();
    FNroundIsRound(CipherRounds(EncSchedule(key), 6, s), RoundKey(EncSchedule(key), 7));
  }

  lemma State8(key: seq<bv8>, s: Cols)
    requires |key| == 16 && Group(key, 0) == Cols(0x03020100, 0x07060504, 0x0b0a0908, 0x0f0e0d0c)
    requires s == Cols(0x33221100, 0x77665544, 0xbbaa9988, 0xffeeddcc)
    ensures CipherRounds(EncSchedule(key), 8, s) == Cols(0xd2bae3fd, 0xd7d0e505, 0x4e964735, 0xf137fef1)
  {
    hide Group, FNround, MixColumns, SubShift, AddKey, EncSchedule, RoundKey;
    State7(key, s);
    Group8(key);
    KeyOfRound(key, 8);
    Round8();
    FNroundIsRound(CipherRounds(EncSchedule(key), 7, s), RoundKey(EncSchedule(key), 8));
  }

  lemma State9(key: seq<bv8>, s: Cols)
    requires |key| == 16 && Group(key, 0) == Cols(0x03020100, 0x07060504, 0x0b0a0908, 0x0f0e0d0c)
    requires s == Cols(0x33221100, 0x77665544, 0xbbaa9988, 0xffeeddcc)
    ensures CipherRounds(EncSchedule(key), 9, s) == Cols(0x3d7c6ebd, 0x9e77b5f2, 0x6e21610b, 0x89b6108b)
  {
    hide Group, FNround, MixColumns, SubShift, AddKey, EncSchedule, RoundKey;
    State8(key, s);
    Group9(key);
    KeyOfRound(key, 9);
    Round9();
    FNroundIsRound(CipherRounds(EncSchedule(key), 8, s), RoundKey(EncSchedule(key), 9));
  }

  lemma StateLast(key: seq<bv8>, s: Cols)
    requires |key| == 16 && Group(key, 0) == Cols(0x03020100, 0x07060504, 0x0b0a0908, 0x0f0e0d0c)
    requires s == Cols(0x33221100, 0x77665544, 0xbbaa9988, 0xffeeddcc)
    ensures Cipher(EncSchedule(key), 10, s) == Cols(0xd8e0c469, 0x30047b6a, 0x80b7cdd8, 0x5ac5b470)
  {
    hide Group, FLround, SubShift, AddKey, EncSchedule, RoundKey, CipherRounds;
    State9(key, s);
    Group10(key);
    KeyOfRound(key, 10);
    Round10();
    FLroundIsRound(CipherRounds(EncSchedule(key), 9, s), RoundKey(EncSchedule(key), 10));
  }

  // ---------------------------------------------------------------- bytes

  lemma LoadKey(key: seq<bv8>)
    requires key == [0x00, 0x01, 0x02, 0x03, 0x04, 0x05, 0x06, 0x07, 0x08, 0x09, 0x0a, 0x0b, 0x0c, 0x0d, 0x0e, 0x0f]
    ensures Group(key, 0) == Cols(0x03020100, 0x07060504, 0x0b0a0908, 0x0f0e0d0c)
  {
    assert Group(key, 0) == Cols(LoadWord(key, 0), LoadWord(key, 1), LoadWord(key, 2), LoadWord(key, 3));
  }

  lemma LoadBlock(block: seq<bv8>)
    requires block == [0x00, 0x11, 0x22, 0x33, 0x44, 0x55, 0x66, 0x77, 0x88, 0x99, 0xaa, 0xbb, 0xcc, 0xdd, 0xee, 0xff]
    ensures LoadCols(block) == Cols(0x33221100, 0x77665544, 0xbbaa9988, 0xffeeddcc)
  {
  }

  lemma StoreBlock(s: Cols)
    requires s == Cols(0xd8e0c469, 0x30047b6a, 0x80b7cdd8, 0x5ac5b470)
    ensures StoreCols(s) ==
      [0x69, 0xc4, 0xe0, 0xd8, 0x6a, 0x7b, 0x04, 0x30, 0xd8, 0xcd, 0xb7, 0x80, 0x70, 0xb4, 0xc5, 0x5a]
  {
  }

  /** The key 00 01 .. 0f enciphers the block 00 11 .. ff as the standard says, and deciphers it back. */
  lemma Example(key: seq<bv8>, block: seq<bv8>)
    requires key == [0x00, 0x01, 0x02, 0x03, 0x04, 0x05, 0x06, 0x07, 0x08, 0x09, 0x0a, 0x0b, 0x0c, 0x0d, 0x0e, 0x0f]
    requires block == [0x00, 0x11, 0x22, 0x33, 0x44, 0x55, 0x66, 0x77, 0x88, 0x99, 0xaa, 0xbb, 0xcc, 0xdd, 0xee, 0xff]
    ensures Encrypt(key, block) ==
      [0x69, 0xc4, 0xe0, 0xd8, 0x6a, 0x7b, 0x04, 0x30, 0xd8, 0xcd, 0xb7, 0x80, 0x70, 0xb4, 0xc5, 0x5a]
    ensures |Encrypt(key, block)| == 16 && Decrypt(key, Encrypt(key, block)) == block
  {
    hide Cipher, EncSchedule, StoreCols, LoadCols, Group, Decrypt;
    LoadKey(key);
    LoadBlock(block);
    StateLast(key, LoadCols(block));
    StoreBlock(Cipher(EncSchedule(key), 10, LoadCols(block)));
    RoundTrip(key, block);
  }

  // ---------------------------------------------------------------- longer keys

  lemma FirstWords(key: seq<bv8>, nk: nat)
    requires KeyLength(|key|) && nk == |key| / 4
    ensures forall i: nat :: i < nk ==> ExpandedWord(key, i) == LoadWord(key, i)
  {
    hide SubWord, LoadWord;
  }

  lemma Load192(key: seq<bv8>)
    requires key == [0x8e, 0x73, 0xb0, 0xf7, 0xda, 0x0e, 0x64, 0x52, 0xc8, 0x10, 0xf3, 0x2b,
                     0x80, 0x90, 0x79, 0xe5, 0x62, 0xf8, 0xea, 0xd2, 0x52, 0x2c, 0x6b, 0x7b]
    ensures LoadWord(key, 0) == 0xf7b0738e && LoadWord(key, 1) == 0x52640eda && LoadWord(key, 5) == 0x7b6b2c52
  {
  }

  lemma First192()
    ensures AddW(AddW(SubWord(Ror8(0x7b6b2c52)), Rcon(0)), 0xf7b0738e) == 0xf7910cfe
    ensures AddW(0xf7910cfe, 0x52640eda) == 0xa5f50224
  {
  }

  /** The first words that the expansion of a key of 192 bits adds (appendix A.2). */
  lemma Words192(key: seq<bv8>)
    requires key == [0x8e, 0x73, 0xb0, 0xf7, 0xda, 0x0e, 0x64, 0x52, 0xc8, 0x10, 0xf3, 0x2b,
                     0x80, 0x90, 0x79, 0xe5, 0x62, 0xf8, 0xea, 0xd2, 0x52, 0x2c, 0x6b, 0x7b]
    ensures ExpandedWord(key, 6) == 0xf7910cfe && ExpandedWord(key, 7) == 0xa5f50224
  {
    hide ExpandedWord, LoadWord, SubWord, AddW, Ror8, Rcon;
    Load192(key);
    FirstWords(key, 6);
    WordStep(key, 6, 6);
    WordStep(key, 6, 7);
    First192();
  }

  lemma Load256(key: seq<bv8>)
    requires key == [0x60, 0x3d, 0xeb, 0x10, 0x15, 0xca, 0x71, 0xbe, 0x2b, 0x73, 0xae, 0xf0,
                     0x85, 0x7d, 0x77, 0x81, 0x1f, 0x35, 0x2c, 0x07, 0x3b, 0x61, 0x08, 0xd7,
                     0x2d, 0x98, 0x10, 0xa3, 0x09, 0x14, 0xdf, 0xf4]
    ensures LoadWord(key, 0) == 0x10eb3d60 && LoadWord(key, 1) == 0xbe71ca15 && LoadWord(key, 2) == 0xf0ae732b
  {
  }

  lemma Load256Rest(key: seq<bv8>)
    requires key == [0x60, 0x3d, 0xeb, 0x10, 0x15, 0xca, 0x71, 0xbe, 0x2b, 0x73, 0xae, 0xf0,
                     0x85, 0x7d, 0x77, 0x81, 0x1f, 0x35, 0x2c, 0x07, 0x3b, 0x61, 0x08, 0xd7,
                     0x2d, 0x98, 0x10, 0xa3, 0x09, 0x14, 0xdf, 0xf4]
    ensures LoadWord(key, 3) == 0x81777d85 && LoadWord(key, 4) == 0x072c351f && LoadWord(key, 7) == 0xf4df1409
  {
  }

  lemma First256()
    ensures AddW(AddW(SubWord(Ror8(0xf4df1409)), Rcon(0)), 0x10eb3d60) == 0x1154a39b
    ensures AddW(0x1154a39b, 0xbe71ca15) == 0xaf25698e && AddW(0xaf25698e, 0xf0ae732b) == 0x5f8b1aa5
    ensures AddW(0x5f8b1aa5, 0x81777d85) == 0xdefc6720 && AddW(SubWord(0xdefc6720), 0x072c351f) == 0x1a9cb0a8
  {
  }

  /** With 256 bits the fifth word of a group is substituted as well (appendix A.3). */
  lemma Words256(key: seq<bv8>)
    requires key == [0x60, 0x3d, 0xeb, 0x10, 0x15, 0xca, 0x71, 0xbe, 0x2b, 0x73, 0xae, 0xf0,
                     0x85, 0x7d, 0x77, 0x81, 0x1f, 0x35, 0x2c, 0x07, 0x3b, 0x61, 0x08, 0xd7,
                     0x2d, 0x98, 0x10, 0xa3, 0x09, 0x14, 0xdf, 0xf4]
    ensures ExpandedWord(key, 8) == 0x1154a39b && ExpandedWord(key, 11) == 0xdefc6720
    ensures ExpandedWord(key, 12) == 0x1a9cb0a8
  {
    hide ExpandedWord, LoadWord, SubWord, AddW, Ror8, Rcon;
    Load256(key);
    Load256Rest(key);
    FirstWords(key, 8);
    WordStep(key, 8, 8);
    WordStep(key, 8, 9);
    WordStep(key, 8, 10);
    WordStep(key, 8, 11);
    WordStep(key, 8, 12);
    First256();
  }
}
