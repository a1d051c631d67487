/**
 The digest of the message "abc", whose value is the example of the standard: every word of the schedule and every state
 of the 64 rounds, as literals.
 */
module Sha256Abc {
  import opened Sha256
  import opened Sha256Functions
  import opened Hex

  // ---------------------------------------------------------------- the padded message

  const ABC: seq<Byte> := [0x61, 0x62, 0x63]

  lemma {:induction false} NoBytes(width: nat)
    ensures BigEndian(0, width) == Zeros(width)
  {
    if width > 0 {
      NoBytes(width - 1);
    }
  }

  /** One block: the message, the bit 1, zeros, and the length of 24 bits. */
  lemma PaddedAbc()
    ensures var p := Pad(ABC);
            && |p| == 64 && p[0] == 0x61 && p[1] == 0x62 && p[2] == 0x63 && p[3] == 0x80 && p[63] == 24
            && forall i | 4 <= i < 63 :: p[i] == 0
  {
    assert ZeroBytes(3) == 52 && BitLength(3) == 24;
    var front: seq<Byte> := ABC + [0x80];
    NoBytes(7);
    assert BigEndian(24, 8) == Zeros(7) + [24];
    assert Pad(ABC) == front + Zeros(52) + (Zeros(7) + [24]);
  }

  lemma AbcWords(block: seq<Byte>)
    requires block == Pad(ABC)
    ensures |block| == 64 && MessageWord(block, 0) == 0x61626380 && MessageWord(block, 15) == 0x18
    ensures forall t: nat | 0 < t < 15 :: MessageWord(block, t) == 0
  {
    hide Pad;
    PaddedAbc();
    FirstWord();
    NoWord();
    LastWord();
    hide BigEndianWord;
  }

  lemma FirstWord()
    ensures BigEndianWord(0x61, 0x62, 0x63, 0x80) == 0x61626380
  {
  }

  lemma NoWord()
    ensures BigEndianWord(0, 0, 0, 0) == 0
  {
  }

  lemma LastWord()
    ensures BigEndianWord(0, 0, 0, 24) == 0x18
  {
  }

  // ---------------------------------------------------------------- the message schedule

  const W0: seq<Word> := [0x61626380, 0x00000000, 0x00000000, 0x00000000, 0x00000000, 0x00000000, 0x00000000, 0x00000000]
  const W1: seq<Word> := [0x00000000, 0x00000000, 0x00000000, 0x00000000, 0x00000000, 0x00000000, 0x00000000, 0x00000018]
  const W2: seq<Word> := [0x61626380, 0x000f0000, 0x7da86405, 0x600003c6, 0x3e9d7b78, 0x0183fc00, 0x12dcbfdb, 0xe2e2c38e]
  const W3: seq<Word> := [0xc8215c1a, 0xb73679a2, 0xe5bc3909, 0x32663c5b, 0x9d209d67, 0xec8726cb, 0x702138a4, 0xd3b7973b]
  const W4: seq<Word> := [0x93f5997f, 0x3b68ba73, 0xaff4ffc1, 0xf10a5c62, 0x0a8b3996, 0x72af830a, 0x9409e33e, 0x24641522]
  const W5: seq<Word> := [0x9f47bf94, 0xf0a64f5a, 0x3e246a79, 0x27333ba3, 0x0c4763f2, 0x840abf27, 0x7a290d5d, 0x065c43da]
  const W6: seq<Word> := [0xfb3e89cb, 0xcc7617db, 0xb9e66c34, 0xa9993667, 0x84badedd, 0xc21462bc, 0x1487472c, 0xb20f7a99]
  const W7: seq<Word> := [0xef57b9cd, 0xebe6b238, 0x9fe3095e, 0x78bc8d4b, 0xa43fcf15, 0x668b2ff8, 0xeeaba2cc, 0x12b1edeb]

  /** The t-th word of the schedule. */
  function WordAt(t: nat): Word
    requires t < 64
  {
    if t < 8 then W0[t] else if t < 16 then W1[t - 8] else if t < 24 then W2[t - 16] else if t < 32 then W3[t - 24]
    else if t < 40 then W4[t - 32] else if t < 48 then W5[t - 40] else if t < 56 then W6[t - 48] else W7[t - 56]
  }

  ghost predicate Recurs(t: nat)
    requires 16 <= t < 64
  {
    WordAt(t) == Sum4(SmallSigma1(WordAt(t - 2)), WordAt(t - 7), SmallSigma0(WordAt(t - 15)), WordAt(t - 16))
  }

  lemma Recurs16()
    ensures Recurs(16) && Recurs(17) && Recurs(18) && Recurs(19)
    ensures Recurs(20) && Recurs(21) && Recurs(22) && Recurs(23)
  {
  }

  lemma Recurs24()
    ensures Recurs(24) && Recurs(25) && Recurs(26) && Recurs(27)
    ensures Recurs(28) && Recurs(29) && Recurs(30) && Recurs(31)
  {
  }

  lemma Recurs32()
    ensures Recurs(32) && Recurs(33) && Recurs(34) && Recurs(35)
    ensures Recurs(36) && Recurs(37) && Recurs(38) && Recurs(39)
  {
  }

  lemma Recurs40()
    ensures Recurs(40) && Recurs(41) && Recurs(42) && Recurs(43)
    ensures Recurs(44) && Recurs(45) && Recurs(46) && Recurs(47)
  {
  }

  lemma Recurs48()
    ensures Recurs(48) && Recurs(49) && Recurs(50) && Recurs(51)
    ensures Recurs(52) && Recurs(53) && Recurs(54) && Recurs(55)
  {
  }

  lemma Recurs56()
    ensures Recurs(56) && Recurs(57) && Recurs(58) && Recurs(59)
    ensures Recurs(60) && Recurs(61) && Recurs(62) && Recurs(63)
  {
  }

  /** The first `n` words are those of the table. */
  ghost predicate Known(block: seq<Byte>, n: nat) {
    |block| == 64 && n <= 64 && forall t: nat | t < n :: MessageSchedule(block, 64)[t] == WordAt(t)
  }

  lemma KnownFirst(block: seq<Byte>)
    requires block == Pad(ABC)
    ensures Known(block, 16)
  {
    hide Pad, MessageSchedule, MessageWord;
    AbcWords(block);
    forall t: nat | t < 16 ensures MessageSchedule(block, 64)[t] == WordAt(t) {
      ScheduleRecurrence(block, 64, t);
    }
  }

  lemma KnownNext(block: seq<Byte>, t: nat)
    requires 16 <= t < 64 && Known(block, t) && Recurs(t)
    ensures Known(block, t + 1)
  {
    hide MessageSchedule, MessageWord, SmallSigma0, SmallSigma1, Sum4, WordAt;
    ScheduleRecurrence(block, 64, t);
  }

  lemma Words16(block: seq<Byte>)
    requires Known(block, 16)
    ensures Known(block, 24)
  {
    hide Known, Recurs;
    Recurs16();
    KnownNext(block, 16); KnownNext(block, 17); KnownNext(block, 18); KnownNext(block, 19);
    KnownNext(block, 20); KnownNext(block, 21); KnownNext(block, 22); KnownNext(block, 23);
  }

  lemma Words24(block: seq<Byte>)
    requires Known(block, 24)
    ensures Known(block, 32)
  {
    hide Known, Recurs;
    Recurs24();
    KnownNext(block, 24); KnownNext(block, 25); KnownNext(block, 26); KnownNext(block, 27);
    KnownNext(block, 28); KnownNext(block, 29); KnownNext(block, 30); KnownNext(block, 31);
  }

  lemma Words32(block: seq<Byte>)
    requires Known(block, 32)
    ensures Known(block, 40)
  {
    hide Known, Recurs;
    Recurs32();
    KnownNext(block, 32); KnownNext(block, 33); KnownNext(block, 34); KnownNext(block, 35);
    KnownNext(block, 36); KnownNext(block, 37); KnownNext(block, 38); KnownNext(block, 39);
  }

  lemma Words40(block: seq<Byte>)
    requires Known(block, 40)
    ensures Known(block, 48)
  {
    hide Known, Recurs;
    Recurs40();
    KnownNext(block, 40); KnownNext(block, 41); KnownNext(block, 42); KnownNext(block, 43);
    KnownNext(block, 44); KnownNext(block, 45); KnownNext(block, 46); KnownNext(block, 47);
  }

  lemma Words48(block: seq<Byte>)
    requires Known(block, 48)
    ensures Known(block, 56)
  {
    hide Known, Recurs;
    Recurs48();
    KnownNext(block, 48); KnownNext(block, 49); KnownNext(block, 50); KnownNext(block, 51);
    KnownNext(block, 52); KnownNext(block, 53); KnownNext(block, 54); KnownNext(block, 55);
  }

  lemma Words56(block: seq<Byte>)
    requires Known(block, 56)
    ensures Known(block, 64)
  {
    hide Known, Recurs;
    Recurs56();
    KnownNext(block, 56); KnownNext(block, 57); KnownNext(block, 58); KnownNext(block, 59);
    KnownNext(block, 60); KnownNext(block, 61); KnownNext(block, 62); KnownNext(block, 63);
  }

  lemma WordsAre(block: seq<Byte>)
    requires block == Pad(ABC)
    ensures Known(block, 64)
  {
    hide Pad, Known;
    KnownFirst(block);
    Words16(block);
    Words24(block);
    Words32(block);
    Words40(block);
    Words48(block);
    Words56(block);
  }

  // ---------------------------------------------------------------- the rounds

  function KAt(t: nat): Word
    requires t < 64
  {
    if t < 8 then K0[t] else if t < 16 then K1[t - 8] else if t < 24 then K2[t - 16] else if t < 32 then K3[t - 24]
    else if t < 40 then K4[t - 32] else if t < 48 then K5[t - 40] else if t < 56 then K6[t - 48] else K7[t - 56]
  }

  lemma KAtIs(t: nat)
    requires t < 64
    ensures SHA256_K[t] == KAt(t)
  {
  }

  /** After `t` rounds of these words the state is `v`. */
  ghost predicate At(w: seq<Word>, t: nat, v: Vars) {
    |w| == 64 && (forall i: nat | i < 64 :: w[i] == WordAt(i)) && t <= 64 && Rounds(H0, w, t) == v
  }

  ghost predicate Inputs(t: nat, k: Word, x: Word) { t < 64 && KAt(t) == k && WordAt(t) == x }

  /** One round with its intermediate values: those of the sigmas, Ch, Maj and the sum of five. */
  lemma Next(w: seq<Word>, t: nat, v: Vars, k: Word, x: Word, s1: Word, ch: Word, t1: Word, s0: Word, maj: Word,
             next: Vars)
    requires At(w, t, v) && Inputs(t, k, x)
    requires BigSigma1(v.e) == s1 && Ch(v.e, v.f, v.g) == ch && Sum5(v.h, s1, ch, k, x) == t1
    requires BigSigma0(v.a) == s0 && Maj(v.a, v.b, v.c) == maj
    requires WrappingAdd(t1, WrappingAdd(s0, maj)) == next.a && WrappingAdd(v.d, t1) == next.e
    requires next.b == v.a && next.c == v.b && next.d == v.c && next.f == v.e && next.g == v.f && next.h == v.g
    ensures At(w, t + 1, next)
  {
    hide BigSigma0, BigSigma1, Ch, Maj, Sum5, WrappingAdd, WordAt, KAt;
    KAtIs(t);
    assert Round(v, k, x) == next;
  }

  lemma Rounds0(w: seq<Word>)
    requires At(w, 0, Vars(0x6a09e667, 0xbb67ae85, 0x3c6ef372, 0xa54ff53a, 0x510e527f, 0x9b05688c, 0x1f83d9ab, 0x5be0cd19))
    ensures At(w, 8, Vars(0x85a07b5f, 0xe5030380, 0x2b4209f5, 0x04409a6a, 0x0c657a79, 0x9b27a401, 0x714260ad, 0x43ada245))
  {
    hide At;
    Next(w, 0, Vars(0x6a09e667, 0xbb67ae85, 0x3c6ef372, 0xa54ff53a, 0x510e527f, 0x9b05688c, 0x1f83d9ab, 0x5be0cd19),
         0x428a2f98, 0x61626380, 0x3587272b, 0x1f85c98c, 0x54da50e8, 0xce20b47e, 0x3a6fe667,
         Vars(0x5d6aebcd, 0x6a09e667, 0xbb67ae85, 0x3c6ef372, 0xfa2a4622, 0x510e527f, 0x9b05688c, 0x1f83d9ab));
    Next(w, 1, Vars(0x5d6aebcd, 0x6a09e667, 0xbb67ae85, 0x3c6ef372, 0xfa2a4622, 0x510e527f, 0x9b05688c, 0x1f83d9ab),
         0x71374491, 0x00000000, 0x5a94fd2d, 0x510f6aae, 0x3c5f8617, 0xa29f64d1, 0x7b6beec5,
         Vars(0x5a6ad9ad, 0x5d6aebcd, 0x6a09e667, 0xbb67ae85, 0x78ce7989, 0xfa2a4622, 0x510e527f, 0x9b05688c));
    Next(w, 2, Vars(0x5a6ad9ad, 0x5d6aebcd, 0x6a09e667, 0xbb67ae85, 0x78ce7989, 0xfa2a4622, 0x510e527f, 0x9b05688c),
         0xb5c0fbcf, 0x00000000, 0x73f0e495, 0x790a4276, 0x3dc18b66, 0x3096d054, 0x5a6aebed,
         Vars(0xc8c347a7, 0x5a6ad9ad, 0x5d6aebcd, 0x6a09e667, 0xf92939eb, 0x78ce7989, 0xfa2a4622, 0x510e527f));
    Next(w, 3, Vars(0xc8c347a7, 0x5a6ad9ad, 0x5d6aebcd, 0x6a09e667, 0xf92939eb, 0x78ce7989, 0xfa2a4622, 0x510e527f),
         0xe9b5dba5, 0x00000000, 0x0607743c, 0x7a0a7f89, 0xbad621e9, 0xc21008d0, 0x586acbad,
         Vars(0xd550f666, 0xc8c347a7, 0x5a6ad9ad, 0x5d6aebcd, 0x24e00850, 0xf92939eb, 0x78ce7989, 0xfa2a4622));
    Next(w, 4, Vars(0xd550f666, 0xc8c347a7, 0x5a6ad9ad, 0x5d6aebcd, 0x24e00850, 0xf92939eb, 0x78ce7989, 0xfa2a4622),
         0x3956c25b, 0x00000000, 0x3a933432, 0x782e79c9, 0xe642b678, 0x45bb0c4b, 0xd842d7a7,
         Vars(0x04409a6a, 0xd550f666, 0xc8c347a7, 0x5a6ad9ad, 0x43ada245, 0x24e00850, 0xf92939eb, 0x78ce7989));
    Next(w, 5, Vars(0x04409a6a, 0xd550f666, 0xc8c347a7, 0x5a6ad9ad, 0x43ada245, 0x24e00850, 0xf92939eb, 0x78ce7989),
         0x59f111f1, 0x00000000, 0x8b77e19c, 0xb8a019ea, 0x16d78700, 0x5029ac8f, 0xc440d666,
         Vars(0x2b4209f5, 0x04409a6a, 0xd550f666, 0xc8c347a7, 0x714260ad, 0x43ada245, 0x24e00850, 0xf92939eb));
    Next(w, 6, Vars(0x2b4209f5, 0x04409a6a, 0xd550f666, 0xc8c347a7, 0x714260ad, 0x43ada245, 0x24e00850, 0xf92939eb),
         0x923f82a4, 0x00000000, 0x015b7776, 0x45a02855, 0xd2645c5a, 0x0d5e0cc0, 0x05409a66,
         Vars(0xe5030380, 0x2b4209f5, 0x04409a6a, 0xd550f666, 0x9b27a401, 0x714260ad, 0x43ada245, 0x24e00850));
    Next(w, 7, Vars(0xe5030380, 0x2b4209f5, 0x04409a6a, 0xd550f666, 0x9b27a401, 0x714260ad, 0x43ada245, 0x24e00850),
         0xab1c5ed5, 0x00000000, 0x158dfaa9, 0x518a2245, 0x37148413, 0x2949eb6c, 0x25420be0,
         Vars(0x85a07b5f, 0xe5030380, 0x2b4209f5, 0x04409a6a, 0x0c657a79, 0x9b27a401, 0x714260ad, 0x43ada245));
  }

  lemma Rounds8(w: seq<Word>)
    requires At(w, 8, Vars(0x85a07b5f, 0xe5030380, 0x2b4209f5, 0x04409a6a, 0x0c657a79, 0x9b27a401, 0x714260ad, 0x43ada245))
    ensures At(w, 16, Vars(0xb0fa238e, 0xc0645fde, 0xd932eb16, 0x87912990, 0x07590dcd, 0x0b92f20c, 0x745a48de, 0x1e578218))
  {
    hide At;
    Next(w, 8, Vars(0x85a07b5f, 0xe5030380, 0x2b4209f5, 0x04409a6a, 0x0c657a79, 0x9b27a401, 0x714260ad, 0x43ada245),
         0xd807aa98, 0x00000000, 0x99ad25c0, 0x79272085, 0x2e899322, 0xba794dc2, 0xa5020bd5,
         Vars(0x8e04ecb9, 0x85a07b5f, 0xe5030380, 0x2b4209f5, 0x32ca2d8c, 0x0c657a79, 0x9b27a401, 0x714260ad));
    Next(w, 9, Vars(0x8e04ecb9, 0x85a07b5f, 0xe5030380, 0x2b4209f5, 0x32ca2d8c, 0x0c657a79, 0x9b27a401, 0x714260ad),
         0x12835b01, 0x00000000, 0xe45bb7ea, 0x8965a809, 0xf1871ba1, 0x15ffad31, 0x85006b99,
         Vars(0x8c87346b, 0x8e04ecb9, 0x85a07b5f, 0xe5030380, 0x1cc92596, 0x32ca2d8c, 0x0c657a79, 0x9b27a401));
    Next(w, 10, Vars(0x8c87346b, 0x8e04ecb9, 0x85a07b5f, 0xe5030380, 0x1cc92596, 0x32ca2d8c, 0x0c657a79, 0x9b27a401),
         0x243185be, 0x00000000, 0x8e2276bc, 0x10ec7fed, 0x5e682068, 0x5cac0711, 0x8c847c7b,
         Vars(0x4798a3f4, 0x8c87346b, 0x8e04ecb9, 0x85a07b5f, 0x436b23e8, 0x1cc92596, 0x32ca2d8c, 0x0c657a79));
    Next(w, 11, Vars(0x4798a3f4, 0x8c87346b, 0x8e04ecb9, 0x85a07b5f, 0x436b23e8, 0x1cc92596, 0x32ca2d8c, 0x0c657a79),
         0x550c7dc3, 0x00000000, 0x699435ca, 0x30c92d84, 0xfbcf5b8a, 0x6ccbc526, 0x8e84a4f9,
         Vars(0xf71fc5a9, 0x4798a3f4, 0x8c87346b, 0x8e04ecb9, 0x816fd6e9, 0x436b23e8, 0x1cc92596, 0x32ca2d8c));
    Next(w, 12, Vars(0xf71fc5a9, 0x4798a3f4, 0x8c87346b, 0x8e04ecb9, 0x816fd6e9, 0x436b23e8, 0x1cc92596, 0x32ca2d8c),
         0x72be5d74, 0x00000000, 0xccdee661, 0x1deb23fe, 0x9052955f, 0x2f9eee48, 0xc79fa5e9,
         Vars(0x87912990, 0xf71fc5a9, 0x4798a3f4, 0x8c87346b, 0x1e578218, 0x816fd6e9, 0x436b23e8, 0x1cc92596));
    Next(w, 13, Vars(0x87912990, 0xf71fc5a9, 0x4798a3f4, 0x8c87346b, 0x1e578218, 0x816fd6e9, 0x436b23e8, 0x1cc92596),
         0x80deb1fe, 0x00000000, 0x08bb98f7, 0x416fa3e8, 0xe7d31473, 0x29c634f3, 0xc799a1b0,
         Vars(0xd932eb16, 0x87912990, 0xf71fc5a9, 0x4798a3f4, 0x745a48de, 0x1e578218, 0x816fd6e9, 0x436b23e8));
    Next(w, 14, Vars(0xd932eb16, 0x87912990, 0xf71fc5a9, 0x4798a3f4, 0x745a48de, 0x1e578218, 0x816fd6e9, 0x436b23e8),
         0x9bdc06a7, 0x00000000, 0x4f3b8d50, 0x95779639, 0xc3fa4e18, 0x25562836, 0xd713e990,
         Vars(0xc0645fde, 0xd932eb16, 0x87912990, 0xf71fc5a9, 0x0b92f20c, 0x745a48de, 0x1e578218, 0x816fd6e9));
    Next(w, 15, Vars(0xc0645fde, 0xd932eb16, 0x87912990, 0xf71fc5a9, 0x0b92f20c, 0x745a48de, 0x1e578218, 0x816fd6e9),
         0xc19bf174, 0x00000018, 0xb8d63f93, 0x1457401c, 0x10394824, 0xdf906fd4, 0xc1306b96,
         Vars(0xb0fa238e, 0xc0645fde, 0xd932eb16, 0x87912990, 0x07590dcd, 0x0b92f20c, 0x745a48de, 0x1e578218));
  }

  lemma Rounds16(w: seq<Word>)
    requires At(w, 16, Vars(0xb0fa238e, 0xc0645fde, 0xd932eb16, 0x87912990, 0x07590dcd, 0x0b92f20c, 0x745a48de, 0x1e578218))
    ensures At(w, 24, Vars(0xc5d53d8d, 0xa7a3623f, 0xc2606d6d, 0x9dc68b63, 0xaa47c347, 0x49f5114a, 0xe1257970, 0x8ada8930))
  {
    hide At;
    Next(w, 16, Vars(0xb0fa238e, 0xc0645fde, 0xd932eb16, 0x87912990, 0x07590dcd, 0x0b92f20c, 0x745a48de, 0x1e578218),
         0xe49b69c1, 0x61626380, 0x213b6995, 0x7312401e, 0xf8a2f90c, 0x58c535f1, 0xd0726b9e,
         Vars(0x21da9a9b, 0xb0fa238e, 0xc0645fde, 0xd932eb16, 0x8034229c, 0x07590dcd, 0x0b92f20c, 0x745a48de));
    Next(w, 17, Vars(0x21da9a9b, 0xb0fa238e, 0xc0645fde, 0xd932eb16, 0x8034229c, 0x07590dcd, 0x0b92f20c, 0x745a48de),
         0xefbe4786, 0x000f0000, 0x3b81984e, 0x0b92d08c, 0xab3bf93e, 0x76c5c4f5, 0xa0fa1b9e,
         Vars(0xc2fbd9d1, 0x21da9a9b, 0xb0fa238e, 0xc0645fde, 0x846ee454, 0x8034229c, 0x07590dcd, 0x0b92f20c));
    Next(w, 18, Vars(0xc2fbd9d1, 0x21da9a9b, 0xb0fa238e, 0xc0645fde, 0x846ee454, 0x8034229c, 0x07590dcd, 0x0b92f20c),
         0x0fc19dc6, 0x7da86405, 0xeff31c0f, 0x8335299d, 0x0c253983, 0x5157a6a1, 0xa0fa9b9b,
         Vars(0xfe777bbf, 0xc2fbd9d1, 0x21da9a9b, 0xb0fa238e, 0xcc899961, 0x846ee454, 0x8034229c, 0x07590dcd));
    Next(w, 19, Vars(0xfe777bbf, 0xc2fbd9d1, 0x21da9a9b, 0xb0fa238e, 0xcc899961, 0x846ee454, 0x8034229c, 0x07590dcd),
         0x240ca1cc, 0x600003c6, 0xefc707b0, 0x843ca2dc, 0xff695deb, 0xff8cd2ad, 0xe2fbdb9b,
         Vars(0xe1f20c33, 0xfe777bbf, 0xc2fbd9d1, 0x21da9a9b, 0xb0638179, 0xcc899961, 0x846ee454, 0x8034229c));
    Next(w, 20, Vars(0xe1f20c33, 0xfe777bbf, 0xc2fbd9d1, 0x21da9a9b, 0xb0638179, 0xcc899961, 0x846ee454, 0x8034229c),
         0x2de92c6f, 0x3e9d7b78, 0xf8373ead, 0x840de565, 0x68ffee95, 0x51d3431b, 0xe2f359b3,
         Vars(0x9dc68b63, 0xe1f20c33, 0xfe777bbf, 0xc2fbd9d1, 0x8ada8930, 0xb0638179, 0xcc899961, 0x846ee454));
    Next(w, 21, Vars(0x9dc68b63, 0xe1f20c33, 0xfe777bbf, 0xc2fbd9d1, 0x8ada8930, 0xb0638179, 0xcc899961, 0x846ee454),
         0x4a7484aa, 0x0183fc00, 0x897ea930, 0xc4439171, 0x1e299f9f, 0xa640c29b, 0xfdf60b33,
         Vars(0xc2606d6d, 0x9dc68b63, 0xe1f20c33, 0xfe777bbf, 0xe1257970, 0x8ada8930, 0xb0638179, 0xcc899961));
    Next(w, 22, Vars(0xc2606d6d, 0x9dc68b63, 0xe1f20c33, 0xfe777bbf, 0xe1257970, 0x8ada8930, 0xb0638179, 0xcc899961),
         0x5cb0a9dc, 0x12dcbfdb, 0x7f24093a, 0x90428939, 0x4b7d958b, 0x9a43bf51, 0xc1e20d63,
         Vars(0xa7a3623f, 0xc2606d6d, 0x9dc68b63, 0xe1f20c33, 0x49f5114a, 0xe1257970, 0x8ada8930, 0xb0638179));
    Next(w, 23, Vars(0xa7a3623f, 0xc2606d6d, 0x9dc68b63, 0xe1f20c33, 0x49f5114a, 0xe1257970, 0x8ada8930, 0xb0638179),
         0x76f988da, 0xe2e2c38e, 0xfae64fc3, 0xc32f9970, 0xc855b714, 0x759d1b0a, 0x87e26b6f,
         Vars(0xc5d53d8d, 0xa7a3623f, 0xc2606d6d, 0x9dc68b63, 0xaa47c347, 0x49f5114a, 0xe1257970, 0x8ada8930));
  }

  lemma Rounds24(w: seq<Word>)
    requires At(w, 24, Vars(0xc5d53d8d, 0xa7a3623f, 0xc2606d6d, 0x9dc68b63, 0xaa47c347, 0x49f5114a, 0xe1257970, 0x8ada8930))
    ensures At(w, 32, Vars(0x73b33bf5, 0xea992a22, 0xa0060b30, 0x363482c9, 0xba591112, 0x0109ab3a, 0xade79437, 0x6112a3b7))
  {
    hide At;
    Next(w, 24, Vars(0xc5d53d8d, 0xa7a3623f, 0xc2606d6d, 0x9dc68b63, 0xaa47c347, 0x49f5114a, 0xe1257970, 0x8ada8930),
         0x983e5152, 0xc8215c1a, 0x55bdf420, 0x49653972, 0x8a5d642e, 0xc9ed56dd, 0xc7e16d2d,
         Vars(0x1c2c2838, 0xc5d53d8d, 0xa7a3623f, 0xc2606d6d, 0x2823ef91, 0xaa47c347, 0x49f5114a, 0xe1257970));
    Next(w, 25, Vars(0x1c2c2838, 0xc5d53d8d, 0xa7a3623f, 0xc2606d6d, 0x2823ef91, 0xaa47c347, 0x49f5114a, 0xe1257970),
         0xa831c66d, 0xb73679a2, 0xa7724357, 0x69d7d34b, 0x51d7d021, 0xf66b0b1f, 0x85a5283d,
         Vars(0xcde8037d, 0x1c2c2838, 0xc5d53d8d, 0xa7a3623f, 0x14383d8e, 0x2823ef91, 0xaa47c347, 0x49f5114a));
    Next(w, 26, Vars(0xcde8037d, 0x1c2c2838, 0xc5d53d8d, 0xa7a3623f, 0x14383d8e, 0x2823ef91, 0xaa47c347, 0x49f5114a),
         0xb00327c8, 0xe5bc3909, 0x958ca0fb, 0xaa67efc1, 0x1fa902d7, 0xc89998a8, 0xcdec293d,
         Vars(0xb62ec4bc, 0xcde8037d, 0x1c2c2838, 0xc5d53d8d, 0xc74c6516, 0x14383d8e, 0x2823ef91, 0xaa47c347));
    Next(w, 27, Vars(0xb62ec4bc, 0xcde8037d, 0x1c2c2838, 0xc5d53d8d, 0xc74c6516, 0x14383d8e, 0x2823ef91, 0xaa47c347),
         0xbf597fc7, 0x32663c5b, 0x5ff7537b, 0x2c2baf87, 0x282a826b, 0xb37cf281, 0x9c2c003c,
         Vars(0x77d37528, 0xb62ec4bc, 0xcde8037d, 0x1c2c2838, 0xedffbff8, 0xc74c6516, 0x14383d8e, 0x2823ef91));
    Next(w, 28, Vars(0x77d37528, 0xb62ec4bc, 0xcde8037d, 0x1c2c2838, 0xedffbff8, 0xc74c6516, 0x14383d8e, 0x2823ef91),
         0xc6e00bf3, 0x9d209d67, 0xe375bd7e, 0xd54c2516, 0x44e67b7f, 0xf963c20e, 0xf7ea453c,
         Vars(0x363482c9, 0x77d37528, 0xb62ec4bc, 0xcde8037d, 0x6112a3b7, 0xedffbff8, 0xc74c6516, 0x14383d8e));
    Next(w, 29, Vars(0x363482c9, 0x77d37528, 0xb62ec4bc, 0xcde8037d, 0x6112a3b7, 0xedffbff8, 0xc74c6516, 0x14383d8e),
         0xd5a79147, 0xec8726cb, 0x2239b36a, 0xe75ee7b0, 0xdfff90ba, 0x89cfb5ce, 0x3636c4a8,
         Vars(0xa0060b30, 0x363482c9, 0x77d37528, 0xb62ec4bc, 0xade79437, 0x6112a3b7, 0xedffbff8, 0xc74c6516));
    Next(w, 30, Vars(0xa0060b30, 0x363482c9, 0x77d37528, 0xb62ec4bc, 0xade79437, 0x6112a3b7, 0xedffbff8, 0xc74c6516),
         0x06ca6351, 0x702138a4, 0xab883974, 0x611aabff, 0x4adae67e, 0x69a8407c, 0x36160328,
         Vars(0xea992a22, 0xa0060b30, 0x363482c9, 0x77d37528, 0x0109ab3a, 0xade79437, 0x6112a3b7, 0xedffbff8));
    Next(w, 31, Vars(0xea992a22, 0xa0060b30, 0x363482c9, 0x77d37528, 0x0109ab3a, 0xade79437, 0x6112a3b7, 0xedffbff8),
         0x14292967, 0xd3b7973b, 0x0b919a99, 0x611380b7, 0x42859bea, 0x8f1995eb, 0xa2140a20,
         Vars(0x73b33bf5, 0xea992a22, 0xa0060b30, 0x363482c9, 0xba591112, 0x0109ab3a, 0xade79437, 0x6112a3b7));
  }

  lemma Rounds32(w: seq<Word>)
    requires At(w, 32, Vars(0x73b33bf5, 0xea992a22, 0xa0060b30, 0x363482c9, 0xba591112, 0x0109ab3a, 0xade79437, 0x6112a3b7))
    ensures At(w, 40, Vars(0x79ea687a, 0x6dc57a8a, 0x34df1604, 0x41a65cb1, 0x1efbc0a0, 0xf0781bc8, 0xa507a53d, 0x0772a26b))
  {
    hide At;
    Next(w, 32, Vars(0x73b33bf5, 0xea992a22, 0xa0060b30, 0x363482c9, 0xba591112, 0x0109ab3a, 0xade79437, 0x6112a3b7),
         0x27b70a85, 0x93f5997f, 0x4436a63b, 0x05af8537, 0x66a5732d, 0x4fa886aa, 0xe2932b30,
         Vars(0x98e12507, 0x73b33bf5, 0xea992a22, 0xa0060b30, 0x9cd9f5f6, 0xba591112, 0x0109ab3a, 0xade79437));
    Next(w, 33, Vars(0x98e12507, 0x73b33bf5, 0xea992a22, 0xa0060b30, 0x9cd9f5f6, 0xba591112, 0x0109ab3a, 0xade79437),
         0x2e1b2138, 0x3b68ba73, 0x085a07a7, 0x99591b1a, 0xb91e92a3, 0x4a90902b, 0xfab12b27,
         Vars(0xfe604df5, 0x98e12507, 0x73b33bf5, 0xea992a22, 0x59249dd3, 0x9cd9f5f6, 0xba591112, 0x0109ab3a));
    Next(w, 34, Vars(0xfe604df5, 0x98e12507, 0x73b33bf5, 0xea992a22, 0x59249dd3, 0x9cd9f5f6, 0xba591112, 0x0109ab3a),
         0x4d2c6dfc, 0xaff4ffc1, 0x65415f48, 0xba5995d2, 0x1dc60e11, 0x91003786, 0xfae12df5,
         Vars(0xa9a7738c, 0xfe604df5, 0x98e12507, 0x73b33bf5, 0x085f3833, 0x59249dd3, 0x9cd9f5f6, 0xba591112));
    Next(w, 35, Vars(0xa9a7738c, 0xfe604df5, 0x98e12507, 0x73b33bf5, 0x085f3833, 0x59249dd3, 0x9cd9f5f6, 0xba591112),
         0x53380d13, 0xf10a5c62, 0xe5dc6e83, 0x9c84ddd7, 0x80fcc6e1, 0x2bc2a37e, 0xb8e16585,
         Vars(0x65a0cfe4, 0xa9a7738c, 0xfe604df5, 0x98e12507, 0xf4b002d6, 0x085f3833, 0x59249dd3, 0x9cd9f5f6));
    Next(w, 36, Vars(0x65a0cfe4, 0xa9a7738c, 0xfe604df5, 0x98e12507, 0xf4b002d6, 0x085f3833, 0x59249dd3, 0x9cd9f5f6),
         0x650a7354, 0x0a8b3996, 0x590d3d71, 0x09149d13, 0x6e917d64, 0xe5748f69, 0xeda04fe4,
         Vars(0x41a65cb1, 0x65a0cfe4, 0xa9a7738c, 0xfe604df5, 0x0772a26b, 0xf4b002d6, 0x085f3833, 0x59249dd3));
    Next(w, 37, Vars(0x41a65cb1, 0x65a0cfe4, 0xa9a7738c, 0xfe604df5, 0x0772a26b, 0xf4b002d6, 0x085f3833, 0x59249dd3),
         0x766a0abb, 0x72af830a, 0x582c115e, 0x0c3d1a52, 0xa6a75748, 0x2c915f18, 0x61a65fa4,
         Vars(0x34df1604, 0x41a65cb1, 0x65a0cfe4, 0xa9a7738c, 0xa507a53d, 0x0772a26b, 0xf4b002d6, 0x085f3833));
    Next(w, 38, Vars(0x34df1604, 0x41a65cb1, 0x65a0cfe4, 0xa9a7738c, 0xa507a53d, 0x0772a26b, 0xf4b002d6, 0x085f3833),
         0x81c2c92e, 0x9409e33e, 0xd2f220b2, 0x55b2a2eb, 0x46d0a83c, 0xc14e73aa, 0x65a65ea4,
         Vars(0x6dc57a8a, 0x34df1604, 0x41a65cb1, 0x65a0cfe4, 0xf0781bc8, 0xa507a53d, 0x0772a26b, 0xf4b002d6));
    Next(w, 39, Vars(0x6dc57a8a, 0x34df1604, 0x41a65cb1, 0x65a0cfe4, 0xf0781bc8, 0xa507a53d, 0x0772a26b, 0xf4b002d6),
         0x92722c85, 0x24641522, 0x66d20b14, 0xa702a12b, 0xb95af0bc, 0x5ac8193e, 0x65c75e80,
         Vars(0x79ea687a, 0x6dc57a8a, 0x34df1604, 0x41a65cb1, 0x1efbc0a0, 0xf0781bc8, 0xa507a53d, 0x0772a26b));
  }

  lemma Rounds40(w: seq<Word>)
    requires At(w, 40, Vars(0x79ea687a, 0x6dc57a8a, 0x34df1604, 0x41a65cb1, 0x1efbc0a0, 0xf0781bc8, 0xa507a53d, 0x0772a26b))
    ensures At(w, 48, Vars(0x4172328d, 0xa14c14b0, 0x72ab4b91, 0x26628815, 0xfecf0bc6, 0xd57b94a9, 0xb7755da1, 0xa80f11f0))
  {
    hide At;
    Next(w, 40, Vars(0x79ea687a, 0x6dc57a8a, 0x34df1604, 0x41a65cb1, 0x1efbc0a0, 0xf0781bc8, 0xa507a53d, 0x0772a26b),
         0xa2bfe8a1, 0x9f47bf94, 0xe9986075, 0xb17c259d, 0xe48ed0b2, 0x7408bcaa, 0x7dcf7a0a,
         Vars(0xd6670766, 0x79ea687a, 0x6dc57a8a, 0x34df1604, 0x26352d63, 0x1efbc0a0, 0xf0781bc8, 0xa507a53d));
    Next(w, 41, Vars(0xd6670766, 0x79ea687a, 0x6dc57a8a, 0x34df1604, 0x26352d63, 0x1efbc0a0, 0xf0781bc8, 0xa507a53d),
         0xa81a664b, 0xf0a64f5a, 0x3a6aa383, 0xd67912a8, 0x4eac110d, 0x12b2e9b8, 0x7de76a6a,
         Vars(0xdf46652f, 0xd6670766, 0x79ea687a, 0x6dc57a8a, 0x838b2711, 0x26352d63, 0x1efbc0a0, 0xf0781bc8));
    Next(w, 42, Vars(0xdf46652f, 0xd6670766, 0x79ea687a, 0x6dc57a8a, 0x838b2711, 0x26352d63, 0x1efbc0a0, 0xf0781bc8),
         0xc24b8b70, 0x3e246a79, 0x61add539, 0x1e71e5a1, 0x7107cc8b, 0xc73bdc05, 0xdf66656e,
         Vars(0x17aa0dfe, 0xdf46652f, 0xd6670766, 0x79ea687a, 0xdecd4715, 0x838b2711, 0x26352d63, 0x1efbc0a0));
    Next(w, 43, Vars(0x17aa0dfe, 0xdf46652f, 0xd6670766, 0x79ea687a, 0xdecd4715, 0x838b2711, 0x26352d63, 0x1efbc0a0),
         0xc76c51a3, 0x27333ba3, 0xd363665b, 0xa2b92f73, 0x83b7e3b4, 0x422dc671, 0xd766056e,
         Vars(0x9d4baf93, 0x17aa0dfe, 0xdf46652f, 0xd6670766, 0xfda24c2e, 0xdecd4715, 0x838b2711, 0x26352d63));
    Next(w, 44, Vars(0x9d4baf93, 0x17aa0dfe, 0xdf46652f, 0xd6670766, 0xfda24c2e, 0xdecd4715, 0x838b2711, 0x26352d63),
         0xd192e819, 0x0c4763f2, 0xef0f2a07, 0xde896715, 0xd1a80a8a, 0xb5704fcc, 0x9f4a2dbf,
         Vars(0x26628815, 0x9d4baf93, 0x17aa0dfe, 0xdf46652f, 0xa80f11f0, 0xfda24c2e, 0xdecd4715, 0x838b2711));
    Next(w, 45, Vars(0x26628815, 0x9d4baf93, 0x17aa0dfe, 0xdf46652f, 0xa80f11f0, 0xfda24c2e, 0xdecd4715, 0x838b2711),
         0xd6990624, 0x840abf27, 0xfb3dc5f1, 0xfec24625, 0xd82ef872, 0x8311c588, 0x176a8d97,
         Vars(0x72ab4b91, 0x26628815, 0x9d4baf93, 0x17aa0dfe, 0xb7755da1, 0xa80f11f0, 0xfda24c2e, 0xdecd4715));
    Next(w, 46, Vars(0x72ab4b91, 0x26628815, 0x9d4baf93, 0x17aa0dfe, 0xb7755da1, 0xa80f11f0, 0xfda24c2e, 0xdecd4715),
         0xf40e3585, 0x7a290d5d, 0x8845eb06, 0xe88711ae, 0xbdd186ab, 0xad0f0274, 0x366b8b91,
         Vars(0xa14c14b0, 0x72ab4b91, 0x26628815, 0x9d4baf93, 0xd57b94a9, 0xb7755da1, 0xa80f11f0, 0xfda24c2e));
    Next(w, 47, Vars(0xa14c14b0, 0x72ab4b91, 0x26628815, 0x9d4baf93, 0xd57b94a9, 0xb7755da1, 0xa80f11f0, 0xfda24c2e),
         0x106aa070, 0x065c43da, 0x8fa515ca, 0xbd7515f1, 0x61835c33, 0xbd84cdc9, 0x226a0891,
         Vars(0x4172328d, 0xa14c14b0, 0x72ab4b91, 0x26628815, 0xfecf0bc6, 0xd57b94a9, 0xb7755da1, 0xa80f11f0));
  }

  lemma Rounds48(w: seq<Word>)
    requires At(w, 48, Vars(0x4172328d, 0xa14c14b0, 0x72ab4b91, 0x26628815, 0xfecf0bc6, 0xd57b94a9, 0xb7755da1, 0xa80f11f0))
    ensures At(w, 56, Vars(0x38cc9913, 0x3ec45cdb, 0xf5702fdb, 0x101fd28f, 0x54cb266b, 0xe50e1b4f, 0x9f4787c3, 0x529e7d00))
  {
    hide At;
    Next(w, 48, Vars(0x4172328d, 0xa14c14b0, 0x72ab4b91, 0x26628815, 0xfecf0bc6, 0xd57b94a9, 0xb7755da1, 0xa80f11f0),
         0x19a4c116, 0xfb3e89cb, 0x04a106b1, 0xd57b54a1, 0x970eb823, 0x0cfcb237, 0x616a1291,
         Vars(0x05757ceb, 0x4172328d, 0xa14c14b0, 0x72ab4b91, 0xbd714038, 0xfecf0bc6, 0xd57b94a9, 0xb7755da1));
    Next(w, 49, Vars(0x05757ceb, 0x4172328d, 0xa14c14b0, 0x72ab4b91, 0xbd714038, 0xfecf0bc6, 0xd57b94a9, 0xb7755da1),
         0x1e376c08, 0xcc7617db, 0x5d427776, 0xfc4b9481, 0xfbb0ed7b, 0xf3f6d884, 0x017434a9,
         Vars(0xf11bfaa8, 0x05757ceb, 0x4172328d, 0xa14c14b0, 0x6e5c390c, 0xbd714038, 0xfecf0bc6, 0xd57b94a9));
    Next(w, 50, Vars(0xf11bfaa8, 0x05757ceb, 0x4172328d, 0xa14c14b0, 0x6e5c390c, 0xbd714038, 0xfecf0bc6, 0xd57b94a9),
         0x2748774c, 0xb9e66c34, 0x3e283d54, 0xbcd302ca, 0xb1a5b847, 0x86ebd5b1, 0x41737aa9,
         Vars(0x7a0508a1, 0xf11bfaa8, 0x05757ceb, 0x4172328d, 0x52f1ccf7, 0x6e5c390c, 0xbd714038, 0xfecf0bc6));
    Next(w, 51, Vars(0x7a0508a1, 0xf11bfaa8, 0x05757ceb, 0x4172328d, 0x52f1ccf7, 0x6e5c390c, 0xbd714038, 0xfecf0bc6),
         0x34b0bcb5, 0xa9993667, 0x3b47e2a3, 0xef50080c, 0x07b0e991, 0x0fa817e8, 0x711578a9,
         Vars(0x886e7a22, 0x7a0508a1, 0xf11bfaa8, 0x05757ceb, 0x49231c1e, 0x52f1ccf7, 0x6e5c390c, 0xbd714038));
    Next(w, 52, Vars(0x886e7a22, 0x7a0508a1, 0xf11bfaa8, 0x05757ceb, 0x49231c1e, 0x52f1ccf7, 0x6e5c390c, 0xbd714038),
         0x391c0cb3, 0x84badedd, 0x6b63a737, 0x667d2d16, 0x4d290015, 0xcae757da, 0xf80f7aa0,
         Vars(0x101fd28f, 0x886e7a22, 0x7a0508a1, 0xf11bfaa8, 0x529e7d00, 0x49231c1e, 0x52f1ccf7, 0x6e5c390c));
    Next(w, 53, Vars(0x101fd28f, 0x886e7a22, 0x7a0508a1, 0xf11bfaa8, 0x529e7d00, 0x49231c1e, 0x52f1ccf7, 0x6e5c390c),
         0x4ed8aa4a, 0xc21462bc, 0xee7eaa12, 0x40639cf7, 0xae2b8d1b, 0x2f35481d, 0x180f5aa3,
         Vars(0xf5702fdb, 0x101fd28f, 0x886e7a22, 0x7a0508a1, 0x9f4787c3, 0x529e7d00, 0x49231c1e, 0x52f1ccf7));
    Next(w, 54, Vars(0xf5702fdb, 0x101fd28f, 0x886e7a22, 0x7a0508a1, 0x9f4787c3, 0x529e7d00, 0x49231c1e, 0x52f1ccf7),
         0x5b9cca4f, 0x1487472c, 0x55cd1720, 0x52261d1c, 0x6b0912ae, 0x433ccfa2, 0x907e7a8b,
         Vars(0x3ec45cdb, 0xf5702fdb, 0x101fd28f, 0x886e7a22, 0xe50e1b4f, 0x9f4787c3, 0x529e7d00, 0x49231c1e));
    Next(w, 55, Vars(0x3ec45cdb, 0xf5702fdb, 0x101fd28f, 0x886e7a22, 0xe50e1b4f, 0x9f4787c3, 0x529e7d00, 0x49231c1e),
         0x682e6ff3, 0xb20f7a99, 0xd1653e5c, 0x97966743, 0xcc5cac49, 0x381b8def, 0x34545edb,
         Vars(0x38cc9913, 0x3ec45cdb, 0xf5702fdb, 0x101fd28f, 0x54cb266b, 0xe50e1b4f, 0x9f4787c3, 0x529e7d00));
  }

  lemma Rounds56(w: seq<Word>)
    requires At(w, 56, Vars(0x38cc9913, 0x3ec45cdb, 0xf5702fdb, 0x101fd28f, 0x54cb266b, 0xe50e1b4f, 0x9f4787c3, 0x529e7d00))
    ensures At(w, 64, Vars(0x506e3058, 0xd39a2165, 0x04d24d6c, 0xb85e2ce9, 0x5ef50f24, 0xfb121210, 0x948d25b6, 0x961f4894))
  {
    hide At;
    Next(w, 56, Vars(0x38cc9913, 0x3ec45cdb, 0xf5702fdb, 0x101fd28f, 0x54cb266b, 0xe50e1b4f, 0x9f4787c3, 0x529e7d00),
         0x748f82ee, 0xef57b9cd, 0x05aa8057, 0xcf0e83cb, 0x8b3ebddd, 0x34ceacc3, 0x3cc41ddb,
         Vars(0xfcd1887b, 0x38cc9913, 0x3ec45cdb, 0xf5702fdb, 0x9b5e906c, 0x54cb266b, 0xe50e1b4f, 0x9f4787c3));
    Next(w, 57, Vars(0xfcd1887b, 0x38cc9913, 0x3ec45cdb, 0xf5702fdb, 0x9b5e906c, 0x54cb266b, 0xe50e1b4f, 0x9f4787c3),
         0x78a5636f, 0xebe6b238, 0x10b627de, 0x744a0b6b, 0x88d3d0b3, 0xfaca6b61, 0x3cc4985b,
         Vars(0xc062d46f, 0xfcd1887b, 0x38cc9913, 0x3ec45cdb, 0x7e44008e, 0x9b5e906c, 0x54cb266b, 0xe50e1b4f));
    Next(w, 58, Vars(0xc062d46f, 0xfcd1887b, 0x38cc9913, 0x3ec45cdb, 0x7e44008e, 0x9b5e906c, 0x54cb266b, 0xe50e1b4f),
         0x84c87814, 0x9fe3095e, 0x0a369fbd, 0x1acf266d, 0x2ebf62eb, 0xd837090c, 0xf8c0987b,
         Vars(0xffb70472, 0xc062d46f, 0xfcd1887b, 0x38cc9913, 0x6d83bfc6, 0x7e44008e, 0x9b5e906c, 0x54cb266b));
    Next(w, 59, Vars(0xffb70472, 0xc062d46f, 0xfcd1887b, 0x38cc9913, 0x6d83bfc6, 0x7e44008e, 0x9b5e906c, 0x54cb266b),
         0x8cc70208, 0x78bc8d4b, 0x20a45dbe, 0xfe5c00ae, 0x794f142a, 0x406bf75a, 0xfcf3847b,
         Vars(0xb6ae8fff, 0xffb70472, 0xc062d46f, 0xfcd1887b, 0xb21bad3d, 0x6d83bfc6, 0x7e44008e, 0x9b5e906c));
    Next(w, 60, Vars(0xb6ae8fff, 0xffb70472, 0xc062d46f, 0xfcd1887b, 0xb21bad3d, 0x6d83bfc6, 0x7e44008e, 0x9b5e906c),
         0x90befffa, 0xa43fcf15, 0x5ca8b318, 0x6c47ad86, 0x994dc019, 0x2869e851, 0xf6a6847f,
         Vars(0xb85e2ce9, 0xb6ae8fff, 0xffb70472, 0xc062d46f, 0x961f4894, 0xb21bad3d, 0x6d83bfc6, 0x7e44008e));
    Next(w, 61, Vars(0xb85e2ce9, 0xb6ae8fff, 0xffb70472, 0xc062d46f, 0x961f4894, 0xb21bad3d, 0x6d83bfc6, 0x7e44008e),
         0xa4506ceb, 0x668b2ff8, 0x4f6ef480, 0xfb9bbf56, 0xd42a5147, 0x71e9ef2a, 0xbebe0cfb,
         Vars(0x04d24d6c, 0xb85e2ce9, 0xb6ae8fff, 0xffb70472, 0x948d25b6, 0x961f4894, 0xb21bad3d, 0x6d83bfc6));
    Next(w, 62, Vars(0x04d24d6c, 0xb85e2ce9, 0xb6ae8fff, 0xffb70472, 0x948d25b6, 0x961f4894, 0xb21bad3d, 0x6d83bfc6),
         0xbef9a3f7, 0xeeaba2cc, 0x2a127e78, 0xb61f889d, 0xfb5b0d9e, 0x236105da, 0xb4de0ded,
         Vars(0xd39a2165, 0x04d24d6c, 0xb85e2ce9, 0xb6ae8fff, 0xfb121210, 0x948d25b6, 0x961f4894, 0xb21bad3d));
    Next(w, 63, Vars(0xd39a2165, 0x04d24d6c, 0xb85e2ce9, 0xb6ae8fff, 0xfb121210, 0x948d25b6, 0x961f4894, 0xb21bad3d),
         0xc67178f2, 0x12b1edeb, 0x88fa2277, 0x940d4894, 0xa8467f25, 0x174d83c6, 0x90da2d6d,
         Vars(0x506e3058, 0xd39a2165, 0x04d24d6c, 0xb85e2ce9, 0x5ef50f24, 0xfb121210, 0x948d25b6, 0x961f4894));
  }

  const LAST := Vars(0x506e3058, 0xd39a2165, 0x04d24d6c, 0xb85e2ce9, 0x5ef50f24, 0xfb121210, 0x948d25b6, 0x961f4894)

  lemma {:induction false} RoundsAre(w: seq<Word>)
    requires |w| == 64 && forall t: nat | t < 64 :: w[t] == WordAt(t)
    ensures Rounds(H0, w, 64) == LAST
  {
    assert At(w, 0, Vars(0x6a09e667, 0xbb67ae85, 0x3c6ef372, 0xa54ff53a, 0x510e527f, 0x9b05688c, 0x1f83d9ab, 0x5be0cd19));
    hide At;
    Rounds0(w);
    Rounds8(w);
    Rounds16(w);
    Rounds24(w);
    Rounds32(w);
    Rounds40(w);
    Rounds48(w);
    Rounds56(w);
    AtLast(w);
  }

  lemma {:induction false} AtLast(w: seq<Word>)
    requires At(w, 64, LAST)
    ensures |w| == 64 && Rounds(H0, w, 64) == LAST
  {
  }

  // ---------------------------------------------------------------- the digest

  const DIGEST := Vars(0xba7816bf, 0x8f01cfea, 0x414140de, 0x5dae2223, 0xb00361a3, 0x96177a9c, 0xb410ff61, 0xf20015ad)

  lemma DigestIs()
    ensures Plus(H0, LAST) == DIGEST
  {
  }

  lemma HashOfAbc()
    ensures HashBlocks(H0, Pad(ABC)) == DIGEST
  {
    hide Pad, Compress, Plus;
    var block := Pad(ABC);
    PaddedAbc();
    assert block[..64] == block && block[64..] == [];
    CompressedAbc(block);
    DigestIs();
  }

  lemma CompressedAbc(block: seq<Byte>)
    requires block == Pad(ABC) && |block| == 64
    ensures Compress(H0, block) == Plus(H0, LAST)
  {
    hide Pad, MessageSchedule, Plus, WordAt, Rounds;
    WordsAre(block);
    RoundsAre(MessageSchedule(block, 64));
  }

  // ---------------------------------------------------------------- the printed digest

  lemma AddDigit(n: nat, width: nat, d: nat)
    requires d < 16
    ensures HexPadded(16 * n + d, width + 1) == HexPadded(n, width) + [HexDigit(d)]
  {
  }

  lemma FourDigits(n: nat, width: nat, a: nat, b: nat, c: nat, d: nat)
    requires a < 16 && b < 16 && c < 16 && d < 16
    ensures HexPadded(0x1_0000 * n + 0x1000 * a + 0x100 * b + 0x10 * c + d, width + 4)
         == HexPadded(n, width) + [HexDigit(a), HexDigit(b), HexDigit(c), HexDigit(d)]
  {
    hide HexDigit, HexPadded;
    var n1 := 16 * n + a;
    var n2 := 16 * n1 + b;
    AddDigit(n, width, a);
    AddDigit(n1, width + 1, b);
    AddDigit(n2, width + 2, c);
    AddDigit(16 * n2 + c, width + 3, d);
    FourInOneRow(HexPadded(n, width), HexDigit(a), HexDigit(b), HexDigit(c), HexDigit(d));
  }

  lemma FourInOneRow(s: string, a: char, b: char, c: char, d: char)
    ensures s + [a] + [b] + [c] + [d] == s + [a, b, c, d]
  {
  }

  lemma NoDigits()
    ensures HexPadded(0, 0) == ""
  {
  }

  lemma {:induction false} WordIs(w: Word, n: nat)
    requires w as nat == n
    ensures HexWord(w) == HexPadded(n, 8)
  {
  }

  /** Eight digits print one behind the other. */
  lemma Eight(w: Word, n: nat, m: nat, a: nat, b: nat, c: nat, d: nat, e: nat, f: nat, g: nat, h: nat)
    requires w as nat == n
    requires a < 16 && b < 16 && c < 16 && d < 16 && e < 16 && f < 16 && g < 16 && h < 16
    requires m == 0x1000 * a + 0x100 * b + 0x10 * c + d && n == 0x1_0000 * m + 0x1000 * e + 0x100 * f + 0x10 * g + h
    ensures HexWord(w) == "" + [HexDigit(a), HexDigit(b), HexDigit(c), HexDigit(d)]
                          + [HexDigit(e), HexDigit(f), HexDigit(g), HexDigit(h)]
  {
    hide HexDigit, HexPadded, HexWord;
    WordIs(w, n);
    NoDigits();
    FourDigits(0, 0, a, b, c, d);
    FourDigits(m, 4, e, f, g, h);
  }

  lemma Digits()
    ensures HexDigit(0) == '0' && HexDigit(1) == '1' && HexDigit(2) == '2' && HexDigit(3) == '3'
    ensures HexDigit(4) == '4' && HexDigit(5) == '5' && HexDigit(6) == '6' && HexDigit(7) == '7'
    ensures HexDigit(8) == '8' && HexDigit(9) == '9' && HexDigit(10) == 'a' && HexDigit(11) == 'b'
    ensures HexDigit(12) == 'c' && HexDigit(13) == 'd' && HexDigit(14) == 'e' && HexDigit(15) == 'f'
  {
  }

  lemma Numbers()
    ensures (0xba7816bf as Word) as nat == 0xba7816bf && (0x8f01cfea as Word) as nat == 0x8f01cfea
    ensures (0x414140de as Word) as nat == 0x414140de && (0x5dae2223 as Word) as nat == 0x5dae2223
    ensures (0xb00361a3 as Word) as nat == 0xb00361a3 && (0x96177a9c as Word) as nat == 0x96177a9c
    ensures (0xb410ff61 as Word) as nat == 0xb410ff61 && (0xf20015ad as Word) as nat == 0xf20015ad
  {
  }

  lemma {:induction false} OneMoreWord(words: seq<Word>, w: Word)
    ensures HexWords(words + [w]) == HexWords(words) + HexWord(w)
  {
    assert (words + [w])[..|words|] == words;
  }

  lemma NoWords()
    ensures HexWords([]) == ""
  {
  }

  lemma {:induction false} HalfPrints(words: seq<Word>, a: Word, b: Word, c: Word, d: Word)
    ensures HexWords(words + [a, b, c, d]) == HexWords(words) + HexWord(a) + HexWord(b) + HexWord(c) + HexWord(d)
  {
    hide HexWords, HexWord;
    OneMoreWord(words, a);
    OneMoreWord(words + [a], b);
    OneMoreWord(words + [a] + [b], c);
    OneMoreWord(words + [a] + [b] + [c], d);
    assert words + [a] + [b] + [c] + [d] == words + [a, b, c, d];
  }

  /** Eight words print one behind the other. */
  lemma PrintsAll(v: Vars)
    ensures HexWords(Words(v)) == "" + HexWord(v.a) + HexWord(v.b) + HexWord(v.c) + HexWord(v.d)
                                + HexWord(v.e) + HexWord(v.f) + HexWord(v.g) + HexWord(v.h)
  {
    hide HexWords, HexWord;
    NoWords();
    HalfPrints([], v.a, v.b, v.c, v.d);
    HalfPrints([] + [v.a, v.b, v.c, v.d], v.e, v.f, v.g, v.h);
    assert Words(v) == [] + [v.a, v.b, v.c, v.d] + [v.e, v.f, v.g, v.h];
  }

  lemma FirstHalfPrints()
    ensures HexWord(0xba7816bf) == "ba7816bf"
    ensures HexWord(0x8f01cfea) == "8f01cfea"
    ensures HexWord(0x414140de) == "414140de"
    ensures HexWord(0x5dae2223) == "5dae2223"
  {
    hide HexWord, HexDigit;
    Numbers();
    Digits();
    Eight(0xba7816bf, 0xba7816bf, 0xba78, 11, 10, 7, 8, 1, 6, 11, 15);
    Eight(0x8f01cfea, 0x8f01cfea, 0x8f01, 8, 15, 0, 1, 12, 15, 14, 10);
    Eight(0x414140de, 0x414140de, 0x4141, 4, 1, 4, 1, 4, 0, 13, 14);
    Eight(0x5dae2223, 0x5dae2223, 0x5dae, 5, 13, 10, 14, 2, 2, 2, 3);
  }

  lemma SecondHalfPrints()
    ensures HexWord(0xb00361a3) == "b00361a3"
    ensures HexWord(0x96177a9c) == "96177a9c"
    ensures HexWord(0xb410ff61) == "b410ff61"
    ensures HexWord(0xf20015ad) == "f20015ad"
  {
    hide HexWord, HexDigit;
    Numbers();
    Digits();
    Eight(0xb00361a3, 0xb00361a3, 0xb003, 11, 0, 0, 3, 6, 1, 10, 3);
    Eight(0x96177a9c, 0x96177a9c, 0x9617, 9, 6, 1, 7, 7, 10, 9, 12);
    Eight(0xb410ff61, 0xb410ff61, 0xb410, 11, 4, 1, 0, 15, 15, 6, 1);
    Eight(0xf20015ad, 0xf20015ad, 0xf200, 15, 2, 0, 0, 1, 5, 10, 13);
  }

  lemma DigestPrints()
    ensures HexWords(Words(DIGEST)) == "" + "ba7816bf" + "8f01cfea" + "414140de" + "5dae2223"
                                     + "b00361a3" + "96177a9c" + "b410ff61" + "f20015ad"
  {
    hide HexWords, HexWord, Words;
    PrintsAll(DIGEST);
    FirstHalfPrints();
    SecondHalfPrints();
  }

  lemma InOneRow()
    ensures "" + "ba7816bf" + "8f01cfea" + "414140de" + "5dae2223"
          + "b00361a3" + "96177a9c" + "b410ff61" + "f20015ad"
         == "ba7816bf8f01cfea414140de5dae2223b00361a396177a9cb410ff61f20015ad"
  {
    assert "" + "ba7816bf" == "ba7816bf";
    assert "ba7816bf" + "8f01cfea" == "ba7816bf8f01cfea";
    assert "ba7816bf8f01cfea" + "414140de" == "ba7816bf8f01cfea414140de";
    assert "ba7816bf8f01cfea414140de" + "5dae2223" == "ba7816bf8f01cfea414140de5dae2223";
    assert "ba7816bf8f01cfea414140de5dae2223" + "b00361a3" == "ba7816bf8f01cfea414140de5dae2223b00361a3";
    assert "ba7816bf8f01cfea414140de5dae2223b00361a3" + "96177a9c" == "ba7816bf8f01cfea414140de5dae2223b00361a396177a9c";
    assert "ba7816bf8f01cfea414140de5dae2223b00361a396177a9c" + "b410ff61" == "ba7816bf8f01cfea414140de5dae2223b00361a396177a9cb410ff61";
    assert "ba7816bf8f01cfea414140de5dae2223b00361a396177a9cb410ff61" + "f20015ad" == "ba7816bf8f01cfea414140de5dae2223b00361a396177a9cb410ff61f20015ad";
  }

  /** The example of the standard: the digest of "abc", printed. */
  lemma AbcDigest()
    ensures HexWords(Words(HashBlocks(H0, Pad([0x61, 0x62, 0x63]))))
         == "ba7816bf8f01cfea414140de5dae2223b00361a396177a9cb410ff61f20015ad"
  {
    hide HashBlocks, Pad, HexWords, Words;
    HashOfAbc();
    DigestPrints();
    InOneRow();
  }
}
