/** A known answer: the digest of "abc", as in appendix B.1 of FIPS 180-2. It goes through every constant, rotation and
    byte order of the algorithm. */
module Sha256Example {
  import opened Sha256

  const ABC: seq<bv8> := [0x61, 0x62, 0x63]

  /** The padded message. */
  predicate AbcBlock(b: Block) {
    && b[0] == 0x61 && b[1] == 0x62 && b[2] == 0x63 && b[3] == 0x80 && b[63] == 0x18
    && forall i | 4 <= i < 63 :: b[i] == 0
  }

  lemma AbcPadded()
    ensures |Pad(ABC)| == 64 && AbcBlock(Pad(ABC))
  {
    hide Low, Shifted, LowBytes;
    var b, n := Pad(ABC), Length(24);
    assert Gap(3) == 52 && |n| == 8;
    forall i | 0 <= i < 8 ensures n[i] == if i == 7 then 0x18 else 0 {
      LengthByte(i);
    }
  }

  lemma LengthByte(i: nat)
    requires i < 8
    ensures Length(24)[i] == if i == 7 then 0x18 else 0
  {
    hide Low;
    assert Shifted(24, 0) == 24 && Shifted(24, 1) == 0;
    if i < 7 {
      ShiftedOut(6 - i);
    }
    LowValues();
  }

  lemma {:induction false} ShiftedOut(k: nat)
    ensures Shifted(24, k + 1) == 0
  {
    NothingShifted(k);
  }

  lemma {:induction false} NothingShifted(k: nat)
    ensures Shifted(0, k) == 0
  {
    if k > 0 {
      NothingShifted(k - 1);
    }
  }

  lemma LowValues()
    ensures Low(24) == 0x18 && Low(0) == 0
  {
  }

  // ---------------------------------------------------------------- the schedule

  lemma FirstWords(b: Block)
    requires AbcBlock(b)
    ensures W(b, 0) == 0x61626380 && W(b, 15) == 0x18 && forall t | 1 <= t < 15 :: W(b, t) == 0
  {
    forall t | 1 <= t < 15 ensures W(b, t) == 0 {
      assert 4 <= 4 * t && 4 * t + 3 < 63;
    }
  }

  lemma WordsFrom16(b: Block)
    requires AbcBlock(b)
    ensures W(b, 16) == 0x61626380 && W(b, 17) == 0x000f0000 && W(b, 18) == 0x7da86405 && W(b, 19) == 0x600003c6
    ensures W(b, 20) == 0x3e9d7b78 && W(b, 21) == 0x0183fc00 && W(b, 22) == 0x12dcbfdb && W(b, 23) == 0xe2e2c38e
  {
    hide AbcBlock;
    FirstWords(b);
  }

  lemma WordsFrom24(b: Block)
    requires AbcBlock(b)
    ensures W(b, 24) == 0xc8215c1a && W(b, 25) == 0xb73679a2 && W(b, 26) == 0xe5bc3909 && W(b, 27) == 0x32663c5b
    ensures W(b, 28) == 0x9d209d67 && W(b, 29) == 0xec8726cb && W(b, 30) == 0x702138a4 && W(b, 31) == 0xd3b7973b
  {
    hide AbcBlock;
    FirstWords(b);
    WordsFrom16(b);
  }

  lemma WordsFrom32(b: Block)
    requires AbcBlock(b)
    ensures W(b, 32) == 0x93f5997f && W(b, 33) == 0x3b68ba73 && W(b, 34) == 0xaff4ffc1 && W(b, 35) == 0xf10a5c62
    ensures W(b, 36) == 0x0a8b3996 && W(b, 37) == 0x72af830a && W(b, 38) == 0x9409e33e && W(b, 39) == 0x24641522
  {
    hide AbcBlock;
    WordsFrom24(b);
    WordsFrom16(b);
  }

  lemma WordsFrom40(b: Block)
    requires AbcBlock(b)
    ensures W(b, 40) == 0x9f47bf94 && W(b, 41) == 0xf0a64f5a && W(b, 42) == 0x3e246a79 && W(b, 43) == 0x27333ba3
    ensures W(b, 44) == 0x0c4763f2 && W(b, 45) == 0x840abf27 && W(b, 46) == 0x7a290d5d && W(b, 47) == 0x065c43da
  {
    hide AbcBlock;
    WordsFrom32(b);
    WordsFrom24(b);
  }

  lemma WordsFrom48(b: Block)
    requires AbcBlock(b)
    ensures W(b, 48) == 0xfb3e89cb && W(b, 49) == 0xcc7617db && W(b, 50) == 0xb9e66c34 && W(b, 51) == 0xa9993667
    ensures W(b, 52) == 0x84badedd && W(b, 53) == 0xc21462bc && W(b, 54) == 0x1487472c && W(b, 55) == 0xb20f7a99
  {
    hide AbcBlock;
    WordsFrom40(b);
    WordsFrom32(b);
  }

  lemma WordsFrom56(b: Block)
    requires AbcBlock(b)
    ensures W(b, 56) == 0xef57b9cd && W(b, 57) == 0xebe6b238 && W(b, 58) == 0x9fe3095e && W(b, 59) == 0x78bc8d4b
    ensures W(b, 60) == 0xa43fcf15 && W(b, 61) == 0x668b2ff8 && W(b, 62) == 0xeeaba2cc && W(b, 63) == 0x12b1edeb
  {
    hide AbcBlock;
    WordsFrom48(b);
    WordsFrom40(b);
  }

  // ---------------------------------------------------------------- the rounds

  lemma NoRounds(b: Block)
    ensures Rounds(b, INITIAL, 0) == INITIAL
  {
  }

  lemma FourRounds(b: Block, t: nat)
    requires t + 4 <= 64
    ensures Rounds(b, INITIAL, t + 4) ==
      Round(Round(Round(Round(Rounds(b, INITIAL, t), K[t], W(b, t)), K[t + 1], W(b, t + 1)), K[t + 2], W(b, t + 2)),
        K[t + 3], W(b, t + 3))
  {
    hide Round, W;
    assert Rounds(b, INITIAL, t + 1) == Round(Rounds(b, INITIAL, t), K[t], W(b, t));
    assert Rounds(b, INITIAL, t + 2) == Round(Rounds(b, INITIAL, t + 1), K[t + 1], W(b, t + 1));
    assert Rounds(b, INITIAL, t + 3) == Round(Rounds(b, INITIAL, t + 2), K[t + 2], W(b, t + 2));
  }

  lemma ConstantsFrom0()
    ensures K[0] == 0x428a2f98 && K[1] == 0x71374491 && K[2] == 0xb5c0fbcf && K[3] == 0xe9b5dba5
  {
  }

  lemma RoundsTo4(b: Block)
    requires AbcBlock(b)
    ensures Rounds(b, INITIAL, 4) ==
      Vars(0xd550f666, 0xc8c347a7, 0x5a6ad9ad, 0x5d6aebcd, 0x24e00850, 0xf92939eb, 0x78ce7989, 0xfa2a4622)
  {
    hide AbcBlock, W, Rounds, FIRST, SECOND, THIRD, FOURTH, K;
    FourRounds(b, 0);
    ConstantsFrom0();
    NoRounds(b);
    FirstWords(b);
  }

  lemma ConstantsFrom4()
    ensures K[4] == 0x3956c25b && K[5] == 0x59f111f1 && K[6] == 0x923f82a4 && K[7] == 0xab1c5ed5
  {
  }

  lemma RoundsTo8(b: Block)
    requires AbcBlock(b)
    ensures Rounds(b, INITIAL, 8) ==
      Vars(0x85a07b5f, 0xe5030380, 0x2b4209f5, 0x04409a6a, 0x0c657a79, 0x9b27a401, 0x714260ad, 0x43ada245)
  {
    hide AbcBlock, W, Rounds, FIRST, SECOND, THIRD, FOURTH, K;
    FourRounds(b, 4);
    ConstantsFrom4();
    RoundsTo4(b);
    FirstWords(b);
  }

  lemma ConstantsFrom8()
    ensures K[8] == 0xd807aa98 && K[9] == 0x12835b01 && K[10] == 0x243185be && K[11] == 0x550c7dc3
  {
  }

  lemma RoundsTo12(b: Block)
    requires AbcBlock(b)
    ensures Rounds(b, INITIAL, 12) ==
      Vars(0xf71fc5a9, 0x4798a3f4, 0x8c87346b, 0x8e04ecb9, 0x816fd6e9, 0x436b23e8, 0x1cc92596, 0x32ca2d8c)
  {
    hide AbcBlock, W, Rounds, FIRST, SECOND, THIRD, FOURTH, K;
    FourRounds(b, 8);
    ConstantsFrom8();
    RoundsTo8(b);
    FirstWords(b);
  }

  lemma ConstantsFrom12()
    ensures K[12] == 0x72be5d74 && K[13] == 0x80deb1fe && K[14] == 0x9bdc06a7 && K[15] == 0xc19bf174
  {
  }

  lemma RoundsTo16(b: Block)
    requires AbcBlock(b)
    ensures Rounds(b, INITIAL, 16) ==
      Vars(0xb0fa238e, 0xc0645fde, 0xd932eb16, 0x87912990, 0x07590dcd, 0x0b92f20c, 0x745a48de, 0x1e578218)
  {
    hide AbcBlock, W, Rounds, FIRST, SECOND, THIRD, FOURTH, K;
    FourRounds(b, 12);
    ConstantsFrom12();
    RoundsTo12(b);
    FirstWords(b);
  }

  lemma ConstantsFrom16()
    ensures K[16] == 0xe49b69c1 && K[17] == 0xefbe4786 && K[18] == 0x0fc19dc6 && K[19] == 0x240ca1cc
  {
  }

  lemma RoundsTo20(b: Block)
    requires AbcBlock(b)
    ensures Rounds(b, INITIAL, 20) ==
      Vars(0xe1f20c33, 0xfe777bbf, 0xc2fbd9d1, 0x21da9a9b, 0xb0638179, 0xcc899961, 0x846ee454, 0x8034229c)
  {
    hide AbcBlock, W, Rounds, FIRST, SECOND, THIRD, FOURTH, K;
    FourRounds(b, 16);
    ConstantsFrom16();
    RoundsTo16(b);
    WordsFrom16(b);
  }

  lemma ConstantsFrom20()
    ensures K[20] == 0x2de92c6f && K[21] == 0x4a7484aa && K[22] == 0x5cb0a9dc && K[23] == 0x76f988da
  {
  }

  lemma RoundsTo24(b: Block)
    requires AbcBlock(b)
    ensures Rounds(b, INITIAL, 24) ==
      Vars(0xc5d53d8d, 0xa7a3623f, 0xc2606d6d, 0x9dc68b63, 0xaa47c347, 0x49f5114a, 0xe1257970, 0x8ada8930)
  {
    hide AbcBlock, W, Rounds, FIRST, SECOND, THIRD, FOURTH, K;
    FourRounds(b, 20);
    ConstantsFrom20();
    RoundsTo20(b);
    WordsFrom16(b);
  }

  lemma ConstantsFrom24()
    ensures K[24] == 0x983e5152 && K[25] == 0xa831c66d && K[26] == 0xb00327c8 && K[27] == 0xbf597fc7
  {
  }

  lemma RoundsTo28(b: Block)
    requires AbcBlock(b)
    ensures Rounds(b, INITIAL, 28) ==
      Vars(0x77d37528, 0xb62ec4bc, 0xcde8037d, 0x1c2c2838, 0xedffbff8, 0xc74c6516, 0x14383d8e, 0x2823ef91)
  {
    hide AbcBlock, W, Rounds, FIRST, SECOND, THIRD, FOURTH, K;
    FourRounds(b, 24);
    ConstantsFrom24();
    RoundsTo24(b);
    WordsFrom24(b);
  }

  lemma ConstantsFrom28()
    ensures K[28] == 0xc6e00bf3 && K[29] == 0xd5a79147 && K[30] == 0x06ca6351 && K[31] == 0x14292967
  {
  }

  lemma RoundsTo32(b: Block)
    requires AbcBlock(b)
    ensures Rounds(b, INITIAL, 32) ==
      Vars(0x73b33bf5, 0xea992a22, 0xa0060b30, 0x363482c9, 0xba591112, 0x0109ab3a, 0xade79437, 0x6112a3b7)
  {
    hide AbcBlock, W, Rounds, FIRST, SECOND, THIRD, FOURTH, K;
    FourRounds(b, 28);
    ConstantsFrom28();
    RoundsTo28(b);
    WordsFrom24(b);
  }

  lemma ConstantsFrom32()
    ensures K[32] == 0x27b70a85 && K[33] == 0x2e1b2138 && K[34] == 0x4d2c6dfc && K[35] == 0x53380d13
  {
  }

  lemma RoundsTo36(b: Block)
    requires AbcBlock(b)
    ensures Rounds(b, INITIAL, 36) ==
      Vars(0x65a0cfe4, 0xa9a7738c, 0xfe604df5, 0x98e12507, 0xf4b002d6, 0x085f3833, 0x59249dd3, 0x9cd9f5f6)
  {
    hide AbcBlock, W, Rounds, FIRST, SECOND, THIRD, FOURTH, K;
    FourRounds(b, 32);
    ConstantsFrom32();
    RoundsTo32(b);
    WordsFrom32(b);
  }

  lemma ConstantsFrom36()
    ensures K[36] == 0x650a7354 && K[37] == 0x766a0abb && K[38] == 0x81c2c92e && K[39] == 0x92722c85
  {
  }

  lemma RoundsTo40(b: Block)
    requires AbcBlock(b)
    ensures Rounds(b, INITIAL, 40) ==
      Vars(0x79ea687a, 0x6dc57a8a, 0x34df1604, 0x41a65cb1, 0x1efbc0a0, 0xf0781bc8, 0xa507a53d, 0x0772a26b)
  {
    hide AbcBlock, W, Rounds, FIRST, SECOND, THIRD, FOURTH, K;
    FourRounds(b, 36);
    ConstantsFrom36();
    RoundsTo36(b);
    WordsFrom32(b);
  }

  lemma ConstantsFrom40()
    ensures K[40] == 0xa2bfe8a1 && K[41] == 0xa81a664b && K[42] == 0xc24b8b70 && K[43] == 0xc76c51a3
  {
  }

  lemma RoundsTo44(b: Block)
    requires AbcBlock(b)
    ensures Rounds(b, INITIAL, 44) ==
      Vars(0x9d4baf93, 0x17aa0dfe, 0xdf46652f, 0xd6670766, 0xfda24c2e, 0xdecd4715, 0x838b2711, 0x26352d63)
  {
    hide AbcBlock, W, Rounds, FIRST, SECOND, THIRD, FOURTH, K;
    FourRounds(b, 40);
    ConstantsFrom40();
    RoundsTo40(b);
    WordsFrom40(b);
  }

  lemma ConstantsFrom44()
    ensures K[44] == 0xd192e819 && K[45] == 0xd6990624 && K[46] == 0xf40e3585 && K[47] == 0x106aa070
  {
  }

  lemma RoundsTo48(b: Block)
    requires AbcBlock(b)
    ensures Rounds(b, INITIAL, 48) ==
      Vars(0x4172328d, 0xa14c14b0, 0x72ab4b91, 0x26628815, 0xfecf0bc6, 0xd57b94a9, 0xb7755da1, 0xa80f11f0)
  {
    hide AbcBlock, W, Rounds, FIRST, SECOND, THIRD, FOURTH, K;
    FourRounds(b, 44);
    ConstantsFrom44();
    RoundsTo44(b);
    WordsFrom40(b);
  }

  lemma ConstantsFrom48()
    ensures K[48] == 0x19a4c116 && K[49] == 0x1e376c08 && K[50] == 0x2748774c && K[51] == 0x34b0bcb5
  {
  }

  lemma RoundsTo52(b: Block)
    requires AbcBlock(b)
    ensures Rounds(b, INITIAL, 52) ==
      Vars(0x886e7a22, 0x7a0508a1, 0xf11bfaa8, 0x05757ceb, 0x49231c1e, 0x52f1ccf7, 0x6e5c390c, 0xbd714038)
  {
    hide AbcBlock, W, Rounds, FIRST, SECOND, THIRD, FOURTH, K;
    FourRounds(b, 48);
    ConstantsFrom48();
    RoundsTo48(b);
    WordsFrom48(b);
  }

  lemma ConstantsFrom52()
    ensures K[52] == 0x391c0cb3 && K[53] == 0x4ed8aa4a && K[54] == 0x5b9cca4f && K[55] == 0x682e6ff3
  {
  }

  lemma RoundsTo56(b: Block)
    requires AbcBlock(b)
    ensures Rounds(b, INITIAL, 56) ==
      Vars(0x38cc9913, 0x3ec45cdb, 0xf5702fdb, 0x101fd28f, 0x54cb266b, 0xe50e1b4f, 0x9f4787c3, 0x529e7d00)
  {
    hide AbcBlock, W, Rounds, FIRST, SECOND, THIRD, FOURTH, K;
    FourRounds(b, 52);
    ConstantsFrom52();
    RoundsTo52(b);
    WordsFrom48(b);
  }

  lemma ConstantsFrom56()
    ensures K[56] == 0x748f82ee && K[57] == 0x78a5636f && K[58] == 0x84c87814 && K[59] == 0x8cc70208
  {
  }

  lemma RoundsTo60(b: Block)
    requires AbcBlock(b)
    ensures Rounds(b, INITIAL, 60) ==
      Vars(0xb6ae8fff, 0xffb70472, 0xc062d46f, 0xfcd1887b, 0xb21bad3d, 0x6d83bfc6, 0x7e44008e, 0x9b5e906c)
  {
    hide AbcBlock, W, Rounds, FIRST, SECOND, THIRD, FOURTH, K;
    FourRounds(b, 56);
    ConstantsFrom56();
    RoundsTo56(b);
    WordsFrom56(b);
  }

  lemma ConstantsFrom60()
    ensures K[60] == 0x90befffa && K[61] == 0xa4506ceb && K[62] == 0xbef9a3f7 && K[63] == 0xc67178f2
  {
  }

  lemma RoundsTo64(b: Block)
    requires AbcBlock(b)
    ensures Rounds(b, INITIAL, 64) ==
      Vars(0x506e3058, 0xd39a2165, 0x04d24d6c, 0xb85e2ce9, 0x5ef50f24, 0xfb121210, 0x948d25b6, 0x961f4894)
  {
    hide AbcBlock, W, Rounds, FIRST, SECOND, THIRD, FOURTH, K;
    FourRounds(b, 60);
    ConstantsFrom60();
    RoundsTo60(b);
    WordsFrom56(b);
  }

  lemma AbcCompressed(b: Block)
    requires AbcBlock(b)
    ensures Compress(INITIAL, b) ==
      Vars(0xba7816bf, 0x8f01cfea, 0x414140de, 0x5dae2223, 0xb00361a3, 0x96177a9c, 0xb410ff61, 0xf20015ad)
  {
    hide AbcBlock, Rounds;
    RoundsTo64(b);
  }


  lemma FirstHalf(w: word)
    ensures ByteAt(w, 0) == ((w >> 24) & 0xff) as bv8 && ByteAt(w, 1) == ((w >> 16) & 0xff) as bv8
  {
  }

  lemma SecondHalf(w: word)
    ensures ByteAt(w, 2) == ((w >> 8) & 0xff) as bv8 && ByteAt(w, 3) == (w & 0xff) as bv8
  {
  }

  lemma BigIs(w: word)
    ensures Big(w) ==
      [((w >> 24) & 0xff) as bv8, ((w >> 16) & 0xff) as bv8, ((w >> 8) & 0xff) as bv8, (w & 0xff) as bv8]
  {
    hide ByteAt;
    FirstHalf(w);
    SecondHalf(w);
  }

  lemma OutputNext(v: Vars, n: nat)
    requires 0 < n <= 8
    ensures Output(v, n) == Output(v, n - 1) + Big(Pick(v, n - 1)) && Output(v, 0) == []
  {
  }

  lemma OutputIs(v: Vars)
    ensures Output(v, 8) == Big(v.a) + Big(v.b) + Big(v.c) + Big(v.d) + Big(v.e) + Big(v.f) + Big(v.g) + Big(v.h)
  {
    hide Big, Output;
    OutputNext(v, 1);
    OutputNext(v, 2);
    OutputNext(v, 3);
    OutputNext(v, 4);
    OutputNext(v, 5);
    OutputNext(v, 6);
    OutputNext(v, 7);
    OutputNext(v, 8);
    assert [] + Big(v.a) == Big(v.a);
  }

  lemma AbcBytes()
    ensures Big(0xba7816bf) == [0xba, 0x78, 0x16, 0xbf] && Big(0x8f01cfea) == [0x8f, 0x01, 0xcf, 0xea]
    ensures Big(0x414140de) == [0x41, 0x41, 0x40, 0xde] && Big(0x5dae2223) == [0x5d, 0xae, 0x22, 0x23]
    ensures Big(0xb00361a3) == [0xb0, 0x03, 0x61, 0xa3] && Big(0x96177a9c) == [0x96, 0x17, 0x7a, 0x9c]
    ensures Big(0xb410ff61) == [0xb4, 0x10, 0xff, 0x61] && Big(0xf20015ad) == [0xf2, 0x00, 0x15, 0xad]
  {
    hide Big;
    BigIs(0xba7816bf);
    BigIs(0x8f01cfea);
    BigIs(0x414140de);
    BigIs(0x5dae2223);
    BigIs(0xb00361a3);
    BigIs(0x96177a9c);
    BigIs(0xb410ff61);
    BigIs(0xf20015ad);
  }

  lemma AbcBlocks()
    ensures |Pad(ABC)| == 64 && Blocks(Pad(ABC)) ==
      Vars(0xba7816bf, 0x8f01cfea, 0x414140de, 0x5dae2223, 0xb00361a3, 0x96177a9c, 0xb410ff61, 0xf20015ad)
  {
    hide AbcBlock, Compress, Pad;
    AbcPadded();
    var b := Pad(ABC);
    AbcCompressed(b);
    assert b[..0] == [] && b[0..] == b;
    assert Blocks(b) == Compress(INITIAL, b);
  }

  /** The digest of "abc". */
  lemma AbcDigest()
    ensures Digest(ABC) ==
      [0xba, 0x78, 0x16, 0xbf] + [0x8f, 0x01, 0xcf, 0xea] + [0x41, 0x41, 0x40, 0xde] + [0x5d, 0xae, 0x22, 0x23] +
      [0xb0, 0x03, 0x61, 0xa3] + [0x96, 0x17, 0x7a, 0x9c] + [0xb4, 0x10, 0xff, 0x61] + [0xf2, 0x00, 0x15, 0xad]
  {
    hide Blocks, Pad, Big, Output;
    AbcBlocks();
    OutputIs(Blocks(Pad(ABC)));
    AbcBytes();
  }
}
