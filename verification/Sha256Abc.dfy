/**
 The digest of the three letters abc, word by word and round by round: the example in appendix B.1 of FIPS 180-2.
 It fixes the rotation amounts, the order of bytes, words and variables, and the hexadecimal digits.
 */
module Sha256Abc {
  import opened Sha256
  import opened Sha256Context

  const ABC: seq<Byte> := [0x61, 0x62, 0x63]

  /** The one block of the padded message. */
  function Block(): (block: seq<Byte>)
    ensures |block| == 64
  {
    ABC + [0x80] + Zeros(52) + [0, 0, 0, 0, 0, 0, 0, 24]
  }

  lemma PaddedIsBlock()
    ensures Padded(ABC) == Block()
  {
    hide LowBytes, ByteOf, Zeros;
    LowBytesByShifts(24);
    SmallBytes();
    assert ZeroBytes(3) == 52;
  }

  lemma SmallBytes()
    ensures ByteOf(0) == 0 && ByteOf(24) == 24
  {}

  // ---- The message schedule ------------------------------------------------------------

  lemma WordsOfBlock()
    ensures WordAt(Block(), 0) == 0x61626380 && WordAt(Block(), 15) == 24
    ensures forall t | 1 <= t < 15 :: WordAt(Block(), t) == 0
  {
    assert BigEndian(0, 0, 0, 0) == 0 && BigEndian(0, 0, 0, 24) == 24;
    assert BigEndian(0x61, 0x62, 0x63, 0x80) == 0x61626380;
    hide BigEndian;
  }

  lemma NextWords16()
    ensures NextWord(0x00000000, 0x00000000, 0x00000000, 0x61626380) == 0x61626380
    ensures NextWord(0x00000018, 0x00000000, 0x00000000, 0x00000000) == 0x000f0000
    ensures NextWord(0x61626380, 0x00000000, 0x00000000, 0x00000000) == 0x7da86405
    ensures NextWord(0x000f0000, 0x00000000, 0x00000000, 0x00000000) == 0x600003c6
    ensures NextWord(0x7da86405, 0x00000000, 0x00000000, 0x00000000) == 0x3e9d7b78
    ensures NextWord(0x600003c6, 0x00000000, 0x00000000, 0x00000000) == 0x0183fc00
    ensures NextWord(0x3e9d7b78, 0x00000018, 0x00000000, 0x00000000) == 0x12dcbfdb
    ensures NextWord(0x0183fc00, 0x61626380, 0x00000000, 0x00000000) == 0xe2e2c38e
    ensures NextWord(0x12dcbfdb, 0x000f0000, 0x00000000, 0x00000000) == 0xc8215c1a
    ensures NextWord(0xe2e2c38e, 0x7da86405, 0x00000000, 0x00000000) == 0xb73679a2
    ensures NextWord(0xc8215c1a, 0x600003c6, 0x00000000, 0x00000000) == 0xe5bc3909
    ensures NextWord(0xb73679a2, 0x3e9d7b78, 0x00000000, 0x00000000) == 0x32663c5b
    ensures NextWord(0xe5bc3909, 0x0183fc00, 0x00000000, 0x00000000) == 0x9d209d67
    ensures NextWord(0x32663c5b, 0x12dcbfdb, 0x00000000, 0x00000000) == 0xec8726cb
    ensures NextWord(0x9d209d67, 0xe2e2c38e, 0x00000018, 0x00000000) == 0x702138a4
    ensures NextWord(0xec8726cb, 0xc8215c1a, 0x61626380, 0x00000018) == 0xd3b7973b
  {}

  lemma NextWords32()
    ensures NextWord(0x702138a4, 0xb73679a2, 0x000f0000, 0x61626380) == 0x93f5997f
    ensures NextWord(0xd3b7973b, 0xe5bc3909, 0x7da86405, 0x000f0000) == 0x3b68ba73
    ensures NextWord(0x93f5997f, 0x32663c5b, 0x600003c6, 0x7da86405) == 0xaff4ffc1
    ensures NextWord(0x3b68ba73, 0x9d209d67, 0x3e9d7b78, 0x600003c6) == 0xf10a5c62
    ensures NextWord(0xaff4ffc1, 0xec8726cb, 0x0183fc00, 0x3e9d7b78) == 0x0a8b3996
    ensures NextWord(0xf10a5c62, 0x702138a4, 0x12dcbfdb, 0x0183fc00) == 0x72af830a
    ensures NextWord(0x0a8b3996, 0xd3b7973b, 0xe2e2c38e, 0x12dcbfdb) == 0x9409e33e
    ensures NextWord(0x72af830a, 0x93f5997f, 0xc8215c1a, 0xe2e2c38e) == 0x24641522
    ensures NextWord(0x9409e33e, 0x3b68ba73, 0xb73679a2, 0xc8215c1a) == 0x9f47bf94
    ensures NextWord(0x24641522, 0xaff4ffc1, 0xe5bc3909, 0xb73679a2) == 0xf0a64f5a
    ensures NextWord(0x9f47bf94, 0xf10a5c62, 0x32663c5b, 0xe5bc3909) == 0x3e246a79
    ensures NextWord(0xf0a64f5a, 0x0a8b3996, 0x9d209d67, 0x32663c5b) == 0x27333ba3
    ensures NextWord(0x3e246a79, 0x72af830a, 0xec8726cb, 0x9d209d67) == 0x0c4763f2
    ensures NextWord(0x27333ba3, 0x9409e33e, 0x702138a4, 0xec8726cb) == 0x840abf27
    ensures NextWord(0x0c4763f2, 0x24641522, 0xd3b7973b, 0x702138a4) == 0x7a290d5d
    ensures NextWord(0x840abf27, 0x9f47bf94, 0x93f5997f, 0xd3b7973b) == 0x065c43da
  {}

  lemma NextWords48()
    ensures NextWord(0x7a290d5d, 0xf0a64f5a, 0x3b68ba73, 0x93f5997f) == 0xfb3e89cb
    ensures NextWord(0x065c43da, 0x3e246a79, 0xaff4ffc1, 0x3b68ba73) == 0xcc7617db
    ensures NextWord(0xfb3e89cb, 0x27333ba3, 0xf10a5c62, 0xaff4ffc1) == 0xb9e66c34
    ensures NextWord(0xcc7617db, 0x0c4763f2, 0x0a8b3996, 0xf10a5c62) == 0xa9993667
    ensures NextWord(0xb9e66c34, 0x840abf27, 0x72af830a, 0x0a8b3996) == 0x84badedd
    ensures NextWord(0xa9993667, 0x7a290d5d, 0x9409e33e, 0x72af830a) == 0xc21462bc
    ensures NextWord(0x84badedd, 0x065c43da, 0x24641522, 0x9409e33e) == 0x1487472c
    ensures NextWord(0xc21462bc, 0xfb3e89cb, 0x9f47bf94, 0x24641522) == 0xb20f7a99
    ensures NextWord(0x1487472c, 0xcc7617db, 0xf0a64f5a, 0x9f47bf94) == 0xef57b9cd
    ensures NextWord(0xb20f7a99, 0xb9e66c34, 0x3e246a79, 0xf0a64f5a) == 0xebe6b238
    ensures NextWord(0xef57b9cd, 0xa9993667, 0x27333ba3, 0x3e246a79) == 0x9fe3095e
    ensures NextWord(0xebe6b238, 0x84badedd, 0x0c4763f2, 0x27333ba3) == 0x78bc8d4b
    ensures NextWord(0x9fe3095e, 0xc21462bc, 0x840abf27, 0x0c4763f2) == 0xa43fcf15
    ensures NextWord(0x78bc8d4b, 0x1487472c, 0x7a290d5d, 0x840abf27) == 0x668b2ff8
    ensures NextWord(0xa43fcf15, 0xb20f7a99, 0x065c43da, 0x7a290d5d) == 0xeeaba2cc
    ensures NextWord(0x668b2ff8, 0xef57b9cd, 0xfb3e89cb, 0x065c43da) == 0x12b1edeb
  {}

  lemma Words0(b: seq<Byte>)
    requires b == Block()
    ensures Schedule(b, 0) == 0x61626380 && Schedule(b, 1) == 0x00000000 && Schedule(b, 2) == 0x00000000 &&
            Schedule(b, 3) == 0x00000000 && Schedule(b, 4) == 0x00000000 && Schedule(b, 5) == 0x00000000 &&
            Schedule(b, 6) == 0x00000000 && Schedule(b, 7) == 0x00000000 && Schedule(b, 8) == 0x00000000 &&
            Schedule(b, 9) == 0x00000000 && Schedule(b, 10) == 0x00000000 && Schedule(b, 11) == 0x00000000 &&
            Schedule(b, 12) == 0x00000000 && Schedule(b, 13) == 0x00000000 && Schedule(b, 14) == 0x00000000 &&
            Schedule(b, 15) == 0x00000018
  {
    hide Schedule, NextWord, WordAt, BigEndian, Block;
    WordsOfBlock();
    ScheduleUnfolds(b, 0); ScheduleUnfolds(b, 1); ScheduleUnfolds(b, 2); ScheduleUnfolds(b, 3);
    ScheduleUnfolds(b, 4); ScheduleUnfolds(b, 5); ScheduleUnfolds(b, 6); ScheduleUnfolds(b, 7);
    ScheduleUnfolds(b, 8); ScheduleUnfolds(b, 9); ScheduleUnfolds(b, 10); ScheduleUnfolds(b, 11);
    ScheduleUnfolds(b, 12); ScheduleUnfolds(b, 13); ScheduleUnfolds(b, 14); ScheduleUnfolds(b, 15);
  }

  lemma Words16(b: seq<Byte>)
    requires b == Block()
    ensures Schedule(b, 16) == 0x61626380 && Schedule(b, 17) == 0x000f0000 && Schedule(b, 18) == 0x7da86405 &&
            Schedule(b, 19) == 0x600003c6 && Schedule(b, 20) == 0x3e9d7b78 && Schedule(b, 21) == 0x0183fc00 &&
            Schedule(b, 22) == 0x12dcbfdb && Schedule(b, 23) == 0xe2e2c38e && Schedule(b, 24) == 0xc8215c1a &&
            Schedule(b, 25) == 0xb73679a2 && Schedule(b, 26) == 0xe5bc3909 && Schedule(b, 27) == 0x32663c5b &&
            Schedule(b, 28) == 0x9d209d67 && Schedule(b, 29) == 0xec8726cb && Schedule(b, 30) == 0x702138a4 &&
            Schedule(b, 31) == 0xd3b7973b
  {
    hide Schedule, NextWord, WordAt, BigEndian, Block;
    Words0(b);
    NextWords16();
    ScheduleUnfolds(b, 16); ScheduleUnfolds(b, 17); ScheduleUnfolds(b, 18); ScheduleUnfolds(b, 19);
    ScheduleUnfolds(b, 20); ScheduleUnfolds(b, 21); ScheduleUnfolds(b, 22); ScheduleUnfolds(b, 23);
    ScheduleUnfolds(b, 24); ScheduleUnfolds(b, 25); ScheduleUnfolds(b, 26); ScheduleUnfolds(b, 27);
    ScheduleUnfolds(b, 28); ScheduleUnfolds(b, 29); ScheduleUnfolds(b, 30); ScheduleUnfolds(b, 31);
  }

  lemma Words32(b: seq<Byte>)
    requires b == Block()
    ensures Schedule(b, 32) == 0x93f5997f && Schedule(b, 33) == 0x3b68ba73 && Schedule(b, 34) == 0xaff4ffc1 &&
            Schedule(b, 35) == 0xf10a5c62 && Schedule(b, 36) == 0x0a8b3996 && Schedule(b, 37) == 0x72af830a &&
            Schedule(b, 38) == 0x9409e33e && Schedule(b, 39) == 0x24641522 && Schedule(b, 40) == 0x9f47bf94 &&
            Schedule(b, 41) == 0xf0a64f5a && Schedule(b, 42) == 0x3e246a79 && Schedule(b, 43) == 0x27333ba3 &&
            Schedule(b, 44) == 0x0c4763f2 && Schedule(b, 45) == 0x840abf27 && Schedule(b, 46) == 0x7a290d5d &&
            Schedule(b, 47) == 0x065c43da
  {
    hide Schedule, NextWord, WordAt, BigEndian, Block;
    Words16(b);
    NextWords32();
    ScheduleUnfolds(b, 32); ScheduleUnfolds(b, 33); ScheduleUnfolds(b, 34); ScheduleUnfolds(b, 35);
    ScheduleUnfolds(b, 36); ScheduleUnfolds(b, 37); ScheduleUnfolds(b, 38); ScheduleUnfolds(b, 39);
    ScheduleUnfolds(b, 40); ScheduleUnfolds(b, 41); ScheduleUnfolds(b, 42); ScheduleUnfolds(b, 43);
    ScheduleUnfolds(b, 44); ScheduleUnfolds(b, 45); ScheduleUnfolds(b, 46); ScheduleUnfolds(b, 47);
  }

  lemma Words48(b: seq<Byte>)
    requires b == Block()
    ensures Schedule(b, 48) == 0xfb3e89cb && Schedule(b, 49) == 0xcc7617db && Schedule(b, 50) == 0xb9e66c34 &&
            Schedule(b, 51) == 0xa9993667 && Schedule(b, 52) == 0x84badedd && Schedule(b, 53) == 0xc21462bc &&
            Schedule(b, 54) == 0x1487472c && Schedule(b, 55) == 0xb20f7a99 && Schedule(b, 56) == 0xef57b9cd &&
            Schedule(b, 57) == 0xebe6b238 && Schedule(b, 58) == 0x9fe3095e && Schedule(b, 59) == 0x78bc8d4b &&
            Schedule(b, 60) == 0xa43fcf15 && Schedule(b, 61) == 0x668b2ff8 && Schedule(b, 62) == 0xeeaba2cc &&
            Schedule(b, 63) == 0x12b1edeb
  {
    hide Schedule, NextWord, WordAt, BigEndian, Block;
    Words32(b);
    NextWords48();
    ScheduleUnfolds(b, 48); ScheduleUnfolds(b, 49); ScheduleUnfolds(b, 50); ScheduleUnfolds(b, 51);
    ScheduleUnfolds(b, 52); ScheduleUnfolds(b, 53); ScheduleUnfolds(b, 54); ScheduleUnfolds(b, 55);
    ScheduleUnfolds(b, 56); ScheduleUnfolds(b, 57); ScheduleUnfolds(b, 58); ScheduleUnfolds(b, 59);
    ScheduleUnfolds(b, 60); ScheduleUnfolds(b, 61); ScheduleUnfolds(b, 62); ScheduleUnfolds(b, 63);
  }

  // ---- The rounds ----------------------------------------------------------------------

  predicate Goes(a: Word, b: Word, c: Word, d: Word, e: Word, f: Word, g: Word, h: Word, k: Word, w: Word, a': Word,
                 e': Word)
  {
    Round(Eight(a, b, c, d, e, f, g, h), k, w) == Eight(a', a, b, c, e', e, f, g)
  }

  lemma Goes0()
    ensures Goes(0x6a09e667, 0xbb67ae85, 0x3c6ef372, 0xa54ff53a, 0x510e527f, 0x9b05688c, 0x1f83d9ab, 0x5be0cd19,
                 0x428a2f98, 0x61626380, 0x5d6aebcd, 0xfa2a4622)
    ensures Goes(0x5d6aebcd, 0x6a09e667, 0xbb67ae85, 0x3c6ef372, 0xfa2a4622, 0x510e527f, 0x9b05688c, 0x1f83d9ab,
                 0x71374491, 0x00000000, 0x5a6ad9ad, 0x78ce7989)
    ensures Goes(0x5a6ad9ad, 0x5d6aebcd, 0x6a09e667, 0xbb67ae85, 0x78ce7989, 0xfa2a4622, 0x510e527f, 0x9b05688c,
                 0xb5c0fbcf, 0x00000000, 0xc8c347a7, 0xf92939eb)
    ensures Goes(0xc8c347a7, 0x5a6ad9ad, 0x5d6aebcd, 0x6a09e667, 0xf92939eb, 0x78ce7989, 0xfa2a4622, 0x510e527f,
                 0xe9b5dba5, 0x00000000, 0xd550f666, 0x24e00850)
    ensures Goes(0xd550f666, 0xc8c347a7, 0x5a6ad9ad, 0x5d6aebcd, 0x24e00850, 0xf92939eb, 0x78ce7989, 0xfa2a4622,
                 0x3956c25b, 0x00000000, 0x04409a6a, 0x43ada245)
    ensures Goes(0x04409a6a, 0xd550f666, 0xc8c347a7, 0x5a6ad9ad, 0x43ada245, 0x24e00850, 0xf92939eb, 0x78ce7989,
                 0x59f111f1, 0x00000000, 0x2b4209f5, 0x714260ad)
    ensures Goes(0x2b4209f5, 0x04409a6a, 0xd550f666, 0xc8c347a7, 0x714260ad, 0x43ada245, 0x24e00850, 0xf92939eb,
                 0x923f82a4, 0x00000000, 0xe5030380, 0x9b27a401)
    ensures Goes(0xe5030380, 0x2b4209f5, 0x04409a6a, 0xd550f666, 0x9b27a401, 0x714260ad, 0x43ada245, 0x24e00850,
                 0xab1c5ed5, 0x00000000, 0x85a07b5f, 0x0c657a79)
    ensures Goes(0x85a07b5f, 0xe5030380, 0x2b4209f5, 0x04409a6a, 0x0c657a79, 0x9b27a401, 0x714260ad, 0x43ada245,
                 0xd807aa98, 0x00000000, 0x8e04ecb9, 0x32ca2d8c)
    ensures Goes(0x8e04ecb9, 0x85a07b5f, 0xe5030380, 0x2b4209f5, 0x32ca2d8c, 0x0c657a79, 0x9b27a401, 0x714260ad,
                 0x12835b01, 0x00000000, 0x8c87346b, 0x1cc92596)
    ensures Goes(0x8c87346b, 0x8e04ecb9, 0x85a07b5f, 0xe5030380, 0x1cc92596, 0x32ca2d8c, 0x0c657a79, 0x9b27a401,
                 0x243185be, 0x00000000, 0x4798a3f4, 0x436b23e8)
    ensures Goes(0x4798a3f4, 0x8c87346b, 0x8e04ecb9, 0x85a07b5f, 0x436b23e8, 0x1cc92596, 0x32ca2d8c, 0x0c657a79,
                 0x550c7dc3, 0x00000000, 0xf71fc5a9, 0x816fd6e9)
    ensures Goes(0xf71fc5a9, 0x4798a3f4, 0x8c87346b, 0x8e04ecb9, 0x816fd6e9, 0x436b23e8, 0x1cc92596, 0x32ca2d8c,
                 0x72be5d74, 0x00000000, 0x87912990, 0x1e578218)
    ensures Goes(0x87912990, 0xf71fc5a9, 0x4798a3f4, 0x8c87346b, 0x1e578218, 0x816fd6e9, 0x436b23e8, 0x1cc92596,
                 0x80deb1fe, 0x00000000, 0xd932eb16, 0x745a48de)
    ensures Goes(0xd932eb16, 0x87912990, 0xf71fc5a9, 0x4798a3f4, 0x745a48de, 0x1e578218, 0x816fd6e9, 0x436b23e8,
                 0x9bdc06a7, 0x00000000, 0xc0645fde, 0x0b92f20c)
    ensures Goes(0xc0645fde, 0xd932eb16, 0x87912990, 0xf71fc5a9, 0x0b92f20c, 0x745a48de, 0x1e578218, 0x816fd6e9,
                 0xc19bf174, 0x00000018, 0xb0fa238e, 0x07590dcd)
  {}

  lemma Goes16()
    ensures Goes(0xb0fa238e, 0xc0645fde, 0xd932eb16, 0x87912990, 0x07590dcd, 0x0b92f20c, 0x745a48de, 0x1e578218,
                 0xe49b69c1, 0x61626380, 0x21da9a9b, 0x8034229c)
    ensures Goes(0x21da9a9b, 0xb0fa238e, 0xc0645fde, 0xd932eb16, 0x8034229c, 0x07590dcd, 0x0b92f20c, 0x745a48de,
                 0xefbe4786, 0x000f0000, 0xc2fbd9d1, 0x846ee454)
    ensures Goes(0xc2fbd9d1, 0x21da9a9b, 0xb0fa238e, 0xc0645fde, 0x846ee454, 0x8034229c, 0x07590dcd, 0x0b92f20c,
                 0x0fc19dc6, 0x7da86405, 0xfe777bbf, 0xcc899961)
    ensures Goes(0xfe777bbf, 0xc2fbd9d1, 0x21da9a9b, 0xb0fa238e, 0xcc899961, 0x846ee454, 0x8034229c, 0x07590dcd,
                 0x240ca1cc, 0x600003c6, 0xe1f20c33, 0xb0638179)
    ensures Goes(0xe1f20c33, 0xfe777bbf, 0xc2fbd9d1, 0x21da9a9b, 0xb0638179, 0xcc899961, 0x846ee454, 0x8034229c,
                 0x2de92c6f, 0x3e9d7b78, 0x9dc68b63, 0x8ada8930)
    ensures Goes(0x9dc68b63, 0xe1f20c33, 0xfe777bbf, 0xc2fbd9d1, 0x8ada8930, 0xb0638179, 0xcc899961, 0x846ee454,
                 0x4a7484aa, 0x0183fc00, 0xc2606d6d, 0xe1257970)
    ensures Goes(0xc2606d6d, 0x9dc68b63, 0xe1f20c33, 0xfe777bbf, 0xe1257970, 0x8ada8930, 0xb0638179, 0xcc899961,
                 0x5cb0a9dc, 0x12dcbfdb, 0xa7a3623f, 0x49f5114a)
    ensures Goes(0xa7a3623f, 0xc2606d6d, 0x9dc68b63, 0xe1f20c33, 0x49f5114a, 0xe1257970, 0x8ada8930, 0xb0638179,
                 0x76f988da, 0xe2e2c38e, 0xc5d53d8d, 0xaa47c347)
    ensures Goes(0xc5d53d8d, 0xa7a3623f, 0xc2606d6d, 0x9dc68b63, 0xaa47c347, 0x49f5114a, 0xe1257970, 0x8ada8930,
                 0x983e5152, 0xc8215c1a, 0x1c2c2838, 0x2823ef91)
    ensures Goes(0x1c2c2838, 0xc5d53d8d, 0xa7a3623f, 0xc2606d6d, 0x2823ef91, 0xaa47c347, 0x49f5114a, 0xe1257970,
                 0xa831c66d, 0xb73679a2, 0xcde8037d, 0x14383d8e)
    ensures Goes(0xcde8037d, 0x1c2c2838, 0xc5d53d8d, 0xa7a3623f, 0x14383d8e, 0x2823ef91, 0xaa47c347, 0x49f5114a,
                 0xb00327c8, 0xe5bc3909, 0xb62ec4bc, 0xc74c6516)
    ensures Goes(0xb62ec4bc, 0xcde8037d, 0x1c2c2838, 0xc5d53d8d, 0xc74c6516, 0x14383d8e, 0x2823ef91, 0xaa47c347,
                 0xbf597fc7, 0x32663c5b, 0x77d37528, 0xedffbff8)
    ensures Goes(0x77d37528, 0xb62ec4bc, 0xcde8037d, 0x1c2c2838, 0xedffbff8, 0xc74c6516, 0x14383d8e, 0x2823ef91,
                 0xc6e00bf3, 0x9d209d67, 0x363482c9, 0x6112a3b7)
    ensures Goes(0x363482c9, 0x77d37528, 0xb62ec4bc, 0xcde8037d, 0x6112a3b7, 0xedffbff8, 0xc74c6516, 0x14383d8e,
                 0xd5a79147, 0xec8726cb, 0xa0060b30, 0xade79437)
    ensures Goes(0xa0060b30, 0x363482c9, 0x77d37528, 0xb62ec4bc, 0xade79437, 0x6112a3b7, 0xedffbff8, 0xc74c6516,
                 0x06ca6351, 0x702138a4, 0xea992a22, 0x0109ab3a)
    ensures Goes(0xea992a22, 0xa0060b30, 0x363482c9, 0x77d37528, 0x0109ab3a, 0xade79437, 0x6112a3b7, 0xedffbff8,
                 0x14292967, 0xd3b7973b, 0x73b33bf5, 0xba591112)
  {}

  lemma Goes32()
    ensures Goes(0x73b33bf5, 0xea992a22, 0xa0060b30, 0x363482c9, 0xba591112, 0x0109ab3a, 0xade79437, 0x6112a3b7,
                 0x27b70a85, 0x93f5997f, 0x98e12507, 0x9cd9f5f6)
    ensures Goes(0x98e12507, 0x73b33bf5, 0xea992a22, 0xa0060b30, 0x9cd9f5f6, 0xba591112, 0x0109ab3a, 0xade79437,
                 0x2e1b2138, 0x3b68ba73, 0xfe604df5, 0x59249dd3)
    ensures Goes(0xfe604df5, 0x98e12507, 0x73b33bf5, 0xea992a22, 0x59249dd3, 0x9cd9f5f6, 0xba591112, 0x0109ab3a,
                 0x4d2c6dfc, 0xaff4ffc1, 0xa9a7738c, 0x085f3833)
    ensures Goes(0xa9a7738c, 0xfe604df5, 0x98e12507, 0x73b33bf5, 0x085f3833, 0x59249dd3, 0x9cd9f5f6, 0xba591112,
                 0x53380d13, 0xf10a5c62, 0x65a0cfe4, 0xf4b002d6)
    ensures Goes(0x65a0cfe4, 0xa9a7738c, 0xfe604df5, 0x98e12507, 0xf4b002d6, 0x085f3833, 0x59249dd3, 0x9cd9f5f6,
                 0x650a7354, 0x0a8b3996, 0x41a65cb1, 0x0772a26b)
    ensures Goes(0x41a65cb1, 0x65a0cfe4, 0xa9a7738c, 0xfe604df5, 0x0772a26b, 0xf4b002d6, 0x085f3833, 0x59249dd3,
                 0x766a0abb, 0x72af830a, 0x34df1604, 0xa507a53d)
    ensures Goes(0x34df1604, 0x41a65cb1, 0x65a0cfe4, 0xa9a7738c, 0xa507a53d, 0x0772a26b, 0xf4b002d6, 0x085f3833,
                 0x81c2c92e, 0x9409e33e, 0x6dc57a8a, 0xf0781bc8)
    ensures Goes(0x6dc57a8a, 0x34df1604, 0x41a65cb1, 0x65a0cfe4, 0xf0781bc8, 0xa507a53d, 0x0772a26b, 0xf4b002d6,
                 0x92722c85, 0x24641522, 0x79ea687a, 0x1efbc0a0)
    ensures Goes(0x79ea687a, 0x6dc57a8a, 0x34df1604, 0x41a65cb1, 0x1efbc0a0, 0xf0781bc8, 0xa507a53d, 0x0772a26b,
                 0xa2bfe8a1, 0x9f47bf94, 0xd6670766, 0x26352d63)
    ensures Goes(0xd6670766, 0x79ea687a, 0x6dc57a8a, 0x34df1604, 0x26352d63, 0x1efbc0a0, 0xf0781bc8, 0xa507a53d,
                 0xa81a664b, 0xf0a64f5a, 0xdf46652f, 0x838b2711)
    ensures Goes(0xdf46652f, 0xd6670766, 0x79ea687a, 0x6dc57a8a, 0x838b2711, 0x26352d63, 0x1efbc0a0, 0xf0781bc8,
                 0xc24b8b70, 0x3e246a79, 0x17aa0dfe, 0xdecd4715)
    ensures Goes(0x17aa0dfe, 0xdf46652f, 0xd6670766, 0x79ea687a, 0xdecd4715, 0x838b2711, 0x26352d63, 0x1efbc0a0,
                 0xc76c51a3, 0x27333ba3, 0x9d4baf93, 0xfda24c2e)
    ensures Goes(0x9d4baf93, 0x17aa0dfe, 0xdf46652f, 0xd6670766, 0xfda24c2e, 0xdecd4715, 0x838b2711, 0x26352d63,
                 0xd192e819, 0x0c4763f2, 0x26628815, 0xa80f11f0)
    ensures Goes(0x26628815, 0x9d4baf93, 0x17aa0dfe, 0xdf46652f, 0xa80f11f0, 0xfda24c2e, 0xdecd4715, 0x838b2711,
                 0xd6990624, 0x840abf27, 0x72ab4b91, 0xb7755da1)
    ensures Goes(0x72ab4b91, 0x26628815, 0x9d4baf93, 0x17aa0dfe, 0xb7755da1, 0xa80f11f0, 0xfda24c2e, 0xdecd4715,
                 0xf40e3585, 0x7a290d5d, 0xa14c14b0, 0xd57b94a9)
    ensures Goes(0xa14c14b0, 0x72ab4b91, 0x26628815, 0x9d4baf93, 0xd57b94a9, 0xb7755da1, 0xa80f11f0, 0xfda24c2e,
                 0x106aa070, 0x065c43da, 0x4172328d, 0xfecf0bc6)
  {}

  lemma Goes48()
    ensures Goes(0x4172328d, 0xa14c14b0, 0x72ab4b91, 0x26628815, 0xfecf0bc6, 0xd57b94a9, 0xb7755da1, 0xa80f11f0,
                 0x19a4c116, 0xfb3e89cb, 0x05757ceb, 0xbd714038)
    ensures Goes(0x05757ceb, 0x4172328d, 0xa14c14b0, 0x72ab4b91, 0xbd714038, 0xfecf0bc6, 0xd57b94a9, 0xb7755da1,
                 0x1e376c08, 0xcc7617db, 0xf11bfaa8, 0x6e5c390c)
    ensures Goes(0xf11bfaa8, 0x05757ceb, 0x4172328d, 0xa14c14b0, 0x6e5c390c, 0xbd714038, 0xfecf0bc6, 0xd57b94a9,
                 0x2748774c, 0xb9e66c34, 0x7a0508a1, 0x52f1ccf7)
    ensures Goes(0x7a0508a1, 0xf11bfaa8, 0x05757ceb, 0x4172328d, 0x52f1ccf7, 0x6e5c390c, 0xbd714038, 0xfecf0bc6,
                 0x34b0bcb5, 0xa9993667, 0x886e7a22, 0x49231c1e)
    ensures Goes(0x886e7a22, 0x7a0508a1, 0xf11bfaa8, 0x05757ceb, 0x49231c1e, 0x52f1ccf7, 0x6e5c390c, 0xbd714038,
                 0x391c0cb3, 0x84badedd, 0x101fd28f, 0x529e7d00)
    ensures Goes(0x101fd28f, 0x886e7a22, 0x7a0508a1, 0xf11bfaa8, 0x529e7d00, 0x49231c1e, 0x52f1ccf7, 0x6e5c390c,
                 0x4ed8aa4a, 0xc21462bc, 0xf5702fdb, 0x9f4787c3)
    ensures Goes(0xf5702fdb, 0x101fd28f, 0x886e7a22, 0x7a0508a1, 0x9f4787c3, 0x529e7d00, 0x49231c1e, 0x52f1ccf7,
                 0x5b9cca4f, 0x1487472c, 0x3ec45cdb, 0xe50e1b4f)
    ensures Goes(0x3ec45cdb, 0xf5702fdb, 0x101fd28f, 0x886e7a22, 0xe50e1b4f, 0x9f4787c3, 0x529e7d00, 0x49231c1e,
                 0x682e6ff3, 0xb20f7a99, 0x38cc9913, 0x54cb266b)
    ensures Goes(0x38cc9913, 0x3ec45cdb, 0xf5702fdb, 0x101fd28f, 0x54cb266b, 0xe50e1b4f, 0x9f4787c3, 0x529e7d00,
                 0x748f82ee, 0xef57b9cd, 0xfcd1887b, 0x9b5e906c)
    ensures Goes(0xfcd1887b, 0x38cc9913, 0x3ec45cdb, 0xf5702fdb, 0x9b5e906c, 0x54cb266b, 0xe50e1b4f, 0x9f4787c3,
                 0x78a5636f, 0xebe6b238, 0xc062d46f, 0x7e44008e)
    ensures Goes(0xc062d46f, 0xfcd1887b, 0x38cc9913, 0x3ec45cdb, 0x7e44008e, 0x9b5e906c, 0x54cb266b, 0xe50e1b4f,
                 0x84c87814, 0x9fe3095e, 0xffb70472, 0x6d83bfc6)
    ensures Goes(0xffb70472, 0xc062d46f, 0xfcd1887b, 0x38cc9913, 0x6d83bfc6, 0x7e44008e, 0x9b5e906c, 0x54cb266b,
                 0x8cc70208, 0x78bc8d4b, 0xb6ae8fff, 0xb21bad3d)
    ensures Goes(0xb6ae8fff, 0xffb70472, 0xc062d46f, 0xfcd1887b, 0xb21bad3d, 0x6d83bfc6, 0x7e44008e, 0x9b5e906c,
                 0x90befffa, 0xa43fcf15, 0xb85e2ce9, 0x961f4894)
    ensures Goes(0xb85e2ce9, 0xb6ae8fff, 0xffb70472, 0xc062d46f, 0x961f4894, 0xb21bad3d, 0x6d83bfc6, 0x7e44008e,
                 0xa4506ceb, 0x668b2ff8, 0x04d24d6c, 0x948d25b6)
    ensures Goes(0x04d24d6c, 0xb85e2ce9, 0xb6ae8fff, 0xffb70472, 0x948d25b6, 0x961f4894, 0xb21bad3d, 0x6d83bfc6,
                 0xbef9a3f7, 0xeeaba2cc, 0xd39a2165, 0xfb121210)
    ensures Goes(0xd39a2165, 0x04d24d6c, 0xb85e2ce9, 0xb6ae8fff, 0xfb121210, 0x948d25b6, 0x961f4894, 0xb21bad3d,
                 0xc67178f2, 0x12b1edeb, 0x506e3058, 0x5ef50f24)
  {}

  lemma Constants0()
    ensures K(0) == 0x428a2f98 && K(1) == 0x71374491 && K(2) == 0xb5c0fbcf && K(3) == 0xe9b5dba5 &&
            K(4) == 0x3956c25b && K(5) == 0x59f111f1 && K(6) == 0x923f82a4 && K(7) == 0xab1c5ed5
    ensures K(8) == 0xd807aa98 && K(9) == 0x12835b01 && K(10) == 0x243185be && K(11) == 0x550c7dc3 &&
            K(12) == 0x72be5d74 && K(13) == 0x80deb1fe && K(14) == 0x9bdc06a7 && K(15) == 0xc19bf174
  {}

  lemma Constants16()
    ensures K(16) == 0xe49b69c1 && K(17) == 0xefbe4786 && K(18) == 0x0fc19dc6 && K(19) == 0x240ca1cc &&
            K(20) == 0x2de92c6f && K(21) == 0x4a7484aa && K(22) == 0x5cb0a9dc && K(23) == 0x76f988da
    ensures K(24) == 0x983e5152 && K(25) == 0xa831c66d && K(26) == 0xb00327c8 && K(27) == 0xbf597fc7 &&
            K(28) == 0xc6e00bf3 && K(29) == 0xd5a79147 && K(30) == 0x06ca6351 && K(31) == 0x14292967
  {}

  lemma Constants32()
    ensures K(32) == 0x27b70a85 && K(33) == 0x2e1b2138 && K(34) == 0x4d2c6dfc && K(35) == 0x53380d13 &&
            K(36) == 0x650a7354 && K(37) == 0x766a0abb && K(38) == 0x81c2c92e && K(39) == 0x92722c85
    ensures K(40) == 0xa2bfe8a1 && K(41) == 0xa81a664b && K(42) == 0xc24b8b70 && K(43) == 0xc76c51a3 &&
            K(44) == 0xd192e819 && K(45) == 0xd6990624 && K(46) == 0xf40e3585 && K(47) == 0x106aa070
  {}

  lemma Constants48()
    ensures K(48) == 0x19a4c116 && K(49) == 0x1e376c08 && K(50) == 0x2748774c && K(51) == 0x34b0bcb5 &&
            K(52) == 0x391c0cb3 && K(53) == 0x4ed8aa4a && K(54) == 0x5b9cca4f && K(55) == 0x682e6ff3
    ensures K(56) == 0x748f82ee && K(57) == 0x78a5636f && K(58) == 0x84c87814 && K(59) == 0x8cc70208 &&
            K(60) == 0x90befffa && K(61) == 0xa4506ceb && K(62) == 0xbef9a3f7 && K(63) == 0xc67178f2
  {}

  lemma Rounds16(b: seq<Byte>)
    requires b == Block()
    ensures Rounds(InitialHash(), b, 16) ==
            Eight(0xb0fa238e, 0xc0645fde, 0xd932eb16, 0x87912990,
                  0x07590dcd, 0x0b92f20c, 0x745a48de, 0x1e578218)
  {
    hide Rounds, Round, Schedule, Block, K, InitialHash;
    Words0(b);
    InitialHashIs();
    Step(b, 0);
    Goes0();
    Constants0();
    Step(b, 1); Step(b, 2); Step(b, 3); Step(b, 4); Step(b, 5); Step(b, 6); Step(b, 7); Step(b, 8);
    Step(b, 9); Step(b, 10); Step(b, 11); Step(b, 12); Step(b, 13); Step(b, 14); Step(b, 15); Step(b, 16);
  }

  lemma Rounds32(b: seq<Byte>)
    requires b == Block()
    ensures Rounds(InitialHash(), b, 32) ==
            Eight(0x73b33bf5, 0xea992a22, 0xa0060b30, 0x363482c9,
                  0xba591112, 0x0109ab3a, 0xade79437, 0x6112a3b7)
  {
    hide Rounds, Round, Schedule, Block, K, InitialHash;
    Words16(b);
    Rounds16(b);
    Goes16();
    Constants16();
    Step(b, 17); Step(b, 18); Step(b, 19); Step(b, 20); Step(b, 21); Step(b, 22); Step(b, 23); Step(b, 24);
    Step(b, 25); Step(b, 26); Step(b, 27); Step(b, 28); Step(b, 29); Step(b, 30); Step(b, 31); Step(b, 32);
  }

  lemma Rounds48(b: seq<Byte>)
    requires b == Block()
    ensures Rounds(InitialHash(), b, 48) ==
            Eight(0x4172328d, 0xa14c14b0, 0x72ab4b91, 0x26628815,
                  0xfecf0bc6, 0xd57b94a9, 0xb7755da1, 0xa80f11f0)
  {
    hide Rounds, Round, Schedule, Block, K, InitialHash;
    Words32(b);
    Rounds32(b);
    Goes32();
    Constants32();
    Step(b, 33); Step(b, 34); Step(b, 35); Step(b, 36); Step(b, 37); Step(b, 38); Step(b, 39); Step(b, 40);
    Step(b, 41); Step(b, 42); Step(b, 43); Step(b, 44); Step(b, 45); Step(b, 46); Step(b, 47); Step(b, 48);
  }

  lemma Rounds64(b: seq<Byte>)
    requires b == Block()
    ensures Rounds(InitialHash(), b, 64) ==
            Eight(0x506e3058, 0xd39a2165, 0x04d24d6c, 0xb85e2ce9,
                  0x5ef50f24, 0xfb121210, 0x948d25b6, 0x961f4894)
  {
    hide Rounds, Round, Schedule, Block, K, InitialHash;
    Words48(b);
    Rounds48(b);
    Goes48();
    Constants48();
    Step(b, 49); Step(b, 50); Step(b, 51); Step(b, 52); Step(b, 53); Step(b, 54); Step(b, 55); Step(b, 56);
    Step(b, 57); Step(b, 58); Step(b, 59); Step(b, 60); Step(b, 61); Step(b, 62); Step(b, 63); Step(b, 64);
  }

  lemma InitialHashIs()
    ensures InitialHash() ==
            Eight(0x6a09e667, 0xbb67ae85, 0x3c6ef372, 0xa54ff53a,
                  0x510e527f, 0x9b05688c, 0x1f83d9ab, 0x5be0cd19)
  {}

  lemma Step(b: seq<Byte>, n: nat)
    requires |b| == 64 && n <= 64
    ensures Rounds(InitialHash(), b, n) ==
            if n == 0 then InitialHash()
            else Round(Rounds(InitialHash(), b, n - 1), K(n - 1), Schedule(b, n - 1))
  {
    hide Round, K, Schedule, InitialHash;
  }

  lemma HashOfAbc()
    ensures HashBlocks(Padded(ABC), |Padded(ABC)| / 64) ==
            Eight(0xba7816bf, 0x8f01cfea, 0x414140de, 0x5dae2223,
                  0xb00361a3, 0x96177a9c, 0xb410ff61, 0xf20015ad)
  {
    hide HashBlocks, Rounds, Padded, InitialHash, Block, Add;
    PaddedIsBlock();
    Rounds64(Block());
    InitialHashIs();
    OneBlock(Block());
    SumOfAbc();
  }

  lemma OneBlock(block: seq<Byte>)
    requires |block| == 64
    ensures HashBlocks(block, |block| / 64) == Add(InitialHash(), Rounds(InitialHash(), block, 64))
  {
    hide HashBlocks, Compress, Rounds, InitialHash, Add;
    FirstBlock(block);
    HashBlocksZero(block);
    assert block[0..64] == block;
    CompressIs(InitialHash(), block);
  }

  lemma FirstBlock(block: seq<Byte>)
    requires |block| == 64
    ensures HashBlocks(block, 1) == Compress(HashBlocks(block, 0), block[0..64])
  {
    hide HashBlocks, Compress;
    HashBlocksUnfolds(block, 1);
  }

  lemma CompressIs(h: Eight, block: seq<Byte>)
    requires |block| == 64
    ensures Compress(h, block) == Add(h, Rounds(h, block, 64))
  {
    hide Add, Rounds;
  }

  lemma SumOfAbc()
    ensures Add(Eight(0x6a09e667, 0xbb67ae85, 0x3c6ef372, 0xa54ff53a,
                      0x510e527f, 0x9b05688c, 0x1f83d9ab, 0x5be0cd19),
                Eight(0x506e3058, 0xd39a2165, 0x04d24d6c, 0xb85e2ce9,
                      0x5ef50f24, 0xfb121210, 0x948d25b6, 0x961f4894)) ==
            Eight(0xba7816bf, 0x8f01cfea, 0x414140de, 0x5dae2223,
                  0xb00361a3, 0x96177a9c, 0xb410ff61, 0xf20015ad)
  {}

  // ---- The digits ----------------------------------------------------------------------

  lemma OctetsOfHash()
    ensures Octet(0xba7816bf, 24) == 0xba && Octet(0xba7816bf, 16) == 0x78 &&
            Octet(0xba7816bf, 8) == 0x16 && Octet(0xba7816bf, 0) == 0xbf
    ensures Octet(0x8f01cfea, 24) == 0x8f && Octet(0x8f01cfea, 16) == 0x01 &&
            Octet(0x8f01cfea, 8) == 0xcf && Octet(0x8f01cfea, 0) == 0xea
    ensures Octet(0x414140de, 24) == 0x41 && Octet(0x414140de, 16) == 0x41 &&
            Octet(0x414140de, 8) == 0x40 && Octet(0x414140de, 0) == 0xde
    ensures Octet(0x5dae2223, 24) == 0x5d && Octet(0x5dae2223, 16) == 0xae &&
            Octet(0x5dae2223, 8) == 0x22 && Octet(0x5dae2223, 0) == 0x23
    ensures Octet(0xb00361a3, 24) == 0xb0 && Octet(0xb00361a3, 16) == 0x03 &&
            Octet(0xb00361a3, 8) == 0x61 && Octet(0xb00361a3, 0) == 0xa3
    ensures Octet(0x96177a9c, 24) == 0x96 && Octet(0x96177a9c, 16) == 0x17 &&
            Octet(0x96177a9c, 8) == 0x7a && Octet(0x96177a9c, 0) == 0x9c
    ensures Octet(0xb410ff61, 24) == 0xb4 && Octet(0xb410ff61, 16) == 0x10 &&
            Octet(0xb410ff61, 8) == 0xff && Octet(0xb410ff61, 0) == 0x61
    ensures Octet(0xf20015ad, 24) == 0xf2 && Octet(0xf20015ad, 16) == 0x00 &&
            Octet(0xf20015ad, 8) == 0x15 && Octet(0xf20015ad, 0) == 0xad
  {}

  /** Each word of the digest is spelled by eight digits. */
  lemma {:induction false} HexAppend(x: seq<Byte>, y: seq<Byte>)
    ensures Hex(x + y) == Hex(x) + Hex(y)
    decreases |y|
  {
    hide HighDigit, LowDigit;
    if y == [] {
      assert x + y == x;
    } else {
      var n := |y| - 1;
      assert x + y == (x + y[..n]) + [y[n]] && (x + y)[..|x + y| - 1] == x + y[..n];
      HexAppend(x, y[..n]);
    }
  }

  lemma HexOfParts(a: seq<Byte>, b: seq<Byte>, c: seq<Byte>, d: seq<Byte>,
                   e: seq<Byte>, f: seq<Byte>, g: seq<Byte>, h: seq<Byte>)
    ensures Hex(a + b + c + d + e + f + g + h) ==
            Hex(a) + Hex(b) + Hex(c) + Hex(d) + Hex(e) + Hex(f) + Hex(g) + Hex(h)
  {
    hide Hex;
    HexAppend(a, b);
    HexAppend(a + b, c);
    HexAppend(a + b + c, d);
    HexAppend(a + b + c + d, e);
    HexAppend(a + b + c + d + e, f);
    HexAppend(a + b + c + d + e + f, g);
    HexAppend(a + b + c + d + e + f + g, h);
  }

  lemma HexOfFour(a: Byte, b: Byte, c: Byte, d: Byte)
    ensures Hex([a, b, c, d]) ==
            [HighDigit(a), LowDigit(a), HighDigit(b), LowDigit(b), HighDigit(c), LowDigit(c), HighDigit(d), LowDigit(d)]
  {
    hide HighDigit, LowDigit;
    assert [] + [a] == [a] && [a] + [b] == [a, b] && [a, b] + [c] == [a, b, c];
    HexSnoc([], a);
    HexSnoc([a], b);
    HexSnoc([a, b], c);
    HexSnoc([a, b, c], d);
    assert [a, b, c] + [d] == [a, b, c, d];
  }

  lemma HexSnoc(x: seq<Byte>, b: Byte)
    ensures Hex(x + [b]) == Hex(x) + [HighDigit(b), LowDigit(b)]
  {
    hide HighDigit, LowDigit;
    assert (x + [b])[..|x|] == x;
  }

  lemma BytesOfAbc()
    ensures Digest(ABC) ==
            [0xba, 0x78, 0x16, 0xbf] + [0x8f, 0x01, 0xcf, 0xea] +
            [0x41, 0x41, 0x40, 0xde] + [0x5d, 0xae, 0x22, 0x23] +
            [0xb0, 0x03, 0x61, 0xa3] + [0x96, 0x17, 0x7a, 0x9c] +
            [0xb4, 0x10, 0xff, 0x61] + [0xf2, 0x00, 0x15, 0xad]
  {
    hide HashBlocks, Padded, Octet;
    HashOfAbc();
    OctetsOfHash();
  }

  lemma FirstDigits()
    ensures Hex([0xba, 0x78, 0x16, 0xbf]) == "ba7816bf"
    ensures Hex([0x8f, 0x01, 0xcf, 0xea]) == "8f01cfea"
    ensures Hex([0x41, 0x41, 0x40, 0xde]) == "414140de"
    ensures Hex([0x5d, 0xae, 0x22, 0x23]) == "5dae2223"
  {
    hide Hex;
    HexOfFour(0xba, 0x78, 0x16, 0xbf);
    HexOfFour(0x8f, 0x01, 0xcf, 0xea);
    HexOfFour(0x41, 0x41, 0x40, 0xde);
    HexOfFour(0x5d, 0xae, 0x22, 0x23);
  }

  lemma LastDigits()
    ensures Hex([0xb0, 0x03, 0x61, 0xa3]) == "b00361a3"
    ensures Hex([0x96, 0x17, 0x7a, 0x9c]) == "96177a9c"
    ensures Hex([0xb4, 0x10, 0xff, 0x61]) == "b410ff61"
    ensures Hex([0xf2, 0x00, 0x15, 0xad]) == "f20015ad"
  {
    hide Hex;
    HexOfFour(0xb0, 0x03, 0x61, 0xa3);
    HexOfFour(0x96, 0x17, 0x7a, 0x9c);
    HexOfFour(0xb4, 0x10, 0xff, 0x61);
    HexOfFour(0xf2, 0x00, 0x15, 0xad);
  }

  /** The digest of the appendix. */
  lemma DigestOfAbc(text: seq<Byte>)
    requires text == [0x61, 0x62, 0x63]
    ensures Hex(Digest(text)) ==
            "ba7816bf" + "8f01cfea" + "414140de" + "5dae2223" +
            "b00361a3" + "96177a9c" + "b410ff61" + "f20015ad"
  {
    hide Digest, Hex;
    BytesOfAbc();
    FirstDigits();
    LastDigits();
    HexOfParts([0xba, 0x78, 0x16, 0xbf], [0x8f, 0x01, 0xcf, 0xea],
               [0x41, 0x41, 0x40, 0xde], [0x5d, 0xae, 0x22, 0x23],
               [0xb0, 0x03, 0x61, 0xa3], [0x96, 0x17, 0x7a, 0x9c],
               [0xb4, 0x10, 0xff, 0x61], [0xf2, 0x00, 0x15, 0xad]);
  }
}
