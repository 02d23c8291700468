/** The first example of FIPS 180-4: the digest of "abc", step by step from the definitions. */
module Sha256Example {
  import opened Bytes
  import opened Sha256
  import opened Sha256Bits

  const ABC: seq<Byte> := [0x61, 0x62, 0x63]

  /** The padded message: a one bit, zeros, and the length of 24 bits. */
  const PADDED: seq<Byte> := [0x61, 0x62, 0x63, 0x80] + Zeros(59) + [24]

  lemma PaddedAbc()
    ensures Padded(ABC) == PADDED && |PADDED| == 64 && BlockOf(PADDED, 0) == PADDED
  {
    assert Length64(24) == Zeros(7) + [24];
    assert Padded(ABC) == ABC + [0x80] + Zeros(52) + (Zeros(7) + [24]);
    assert PADDED[0..64] == PADDED;
  }

  // ----- The schedule -----

  /** Word `t` of the schedule. */
  ghost predicate IsWord(t: nat, w: Word)
    requires t < 64
  {
    |PADDED| == 64 && Words(PADDED, 64)[t] == w
  }

  /** Eight words in a row. */
  ghost predicate Row(t: nat, a: Word, b: Word, c: Word, d: Word, e: Word, f: Word, g: Word, h: Word)
    requires t + 8 <= 64
  {
    && IsWord(t, a) && IsWord(t + 1, b) && IsWord(t + 2, c) && IsWord(t + 3, d)
    && IsWord(t + 4, e) && IsWord(t + 5, f) && IsWord(t + 6, g) && IsWord(t + 7, h)
  }

  lemma {:induction false} Earlier(t: nat, n: nat)
    requires t <= n <= 64 && |PADDED| == 64
    ensures Words(PADDED, n)[..t] == Words(PADDED, t)
    decreases n
  {
    hide NextWord;
    if t < n {
      Earlier(t, n - 1);
      assert Words(PADDED, n) == Words(PADDED, n - 1) + [NextWord(PADDED, Words(PADDED, n - 1))];
    }
  }

  lemma NextIs(t: nat)
    requires t < 64 && |PADDED| == 64
    ensures Words(PADDED, 64)[..t] == Words(PADDED, t) && IsWord(t, NextWord(PADDED, Words(PADDED, t)))
  {
    hide NextWord;
    Earlier(t, 64);
    Earlier(t + 1, 64);
    assert Words(PADDED, t + 1) == Words(PADDED, t) + [NextWord(PADDED, Words(PADDED, t))];
    assert Words(PADDED, 64)[..t + 1][t] == Words(PADDED, 64)[t];
  }

  /** A word from the four earlier ones it is made of. */
  lemma Later(t: nat, a: Word, b: Word, c: Word, d: Word)
    requires 16 <= t < 64 && IsWord(t - 2, a) && IsWord(t - 7, b) && IsWord(t - 15, c) && IsWord(t - 16, d)
    ensures IsWord(t, Add(Add(Add(SmallSigma1(a), b), SmallSigma0(c)), d))
  {
    hide Add, SmallSigma0, SmallSigma1;
    NextIs(t);
    var w := Words(PADDED, 64);
    assert Words(PADDED, t) == w[..t];
  }

  lemma FirstWord(t: nat, a: Byte, b: Byte, c: Byte, d: Byte)
    requires t < 16 && |PADDED| == 64 && PADDED[4 * t] == a && PADDED[4 * t + 1] == b && PADDED[4 * t + 2] == c && PADDED[4 * t + 3] == d
    ensures IsWord(t, BigEndian(a, b, c, d))
  {
    hide BigEndian;
    NextIs(t);
  }

  lemma PaddedBytes()
    ensures |PADDED| == 64 && PADDED[0] == 0x61 && PADDED[1] == 0x62 && PADDED[2] == 0x63 && PADDED[3] == 0x80 && PADDED[63] == 24
    ensures forall k :: 4 <= k < 63 ==> PADDED[k] == 0
  {
  }

  lemma FirstWords()
    ensures Row(0, 0x61626380, 0x00000000, 0x00000000, 0x00000000, 0x00000000, 0x00000000, 0x00000000, 0x00000000)
    ensures Row(8, 0x00000000, 0x00000000, 0x00000000, 0x00000000, 0x00000000, 0x00000000, 0x00000000, 0x00000018)
  {
    hide IsWord;
    EarlyWord(0);
    EarlyWord(1);
    EarlyWord(2);
    EarlyWord(3);
    EarlyWord(4);
    EarlyWord(5);
    EarlyWord(6);
    EarlyWord(7);
    EarlyWord(8);
    EarlyWord(9);
    EarlyWord(10);
    EarlyWord(11);
    EarlyWord(12);
    EarlyWord(13);
    EarlyWord(14);
    EarlyWord(15);
  }

  lemma EarlyWord(t: nat)
    requires t < 16
    ensures IsWord(t, if t == 0 then 0x61626380 else if t < 15 then 0 else 24)
  {
    hide IsWord, BigEndian;
    FirstExampleWords();
    PaddedBytes();
    FirstWord(t, PADDED[4 * t], PADDED[4 * t + 1], PADDED[4 * t + 2], PADDED[4 * t + 3]);
  }

  lemma Words2()
    requires Row(0, 0x61626380, 0x00000000, 0x00000000, 0x00000000, 0x00000000, 0x00000000, 0x00000000, 0x00000000)
    requires Row(8, 0x00000000, 0x00000000, 0x00000000, 0x00000000, 0x00000000, 0x00000000, 0x00000000, 0x00000018)
    ensures Row(16, 0x61626380, 0x000f0000, 0x7da86405, 0x600003c6, 0x3e9d7b78, 0x0183fc00, 0x12dcbfdb, 0xe2e2c38e)
  {
    hide IsWord;
    Later(16, 0x00000000, 0x00000000, 0x00000000, 0x61626380);
    Later(17, 0x00000018, 0x00000000, 0x00000000, 0x00000000);
    Later(18, 0x61626380, 0x00000000, 0x00000000, 0x00000000);
    Later(19, 0x000f0000, 0x00000000, 0x00000000, 0x00000000);
    Later(20, 0x7da86405, 0x00000000, 0x00000000, 0x00000000);
    Later(21, 0x600003c6, 0x00000000, 0x00000000, 0x00000000);
    Later(22, 0x3e9d7b78, 0x00000018, 0x00000000, 0x00000000);
    Later(23, 0x0183fc00, 0x61626380, 0x00000000, 0x00000000);
  }

  lemma Words3()
    requires Row(8, 0x00000000, 0x00000000, 0x00000000, 0x00000000, 0x00000000, 0x00000000, 0x00000000, 0x00000018)
    requires Row(16, 0x61626380, 0x000f0000, 0x7da86405, 0x600003c6, 0x3e9d7b78, 0x0183fc00, 0x12dcbfdb, 0xe2e2c38e)
    ensures Row(24, 0xc8215c1a, 0xb73679a2, 0xe5bc3909, 0x32663c5b, 0x9d209d67, 0xec8726cb, 0x702138a4, 0xd3b7973b)
  {
    hide IsWord;
    Later(24, 0x12dcbfdb, 0x000f0000, 0x00000000, 0x00000000);
    Later(25, 0xe2e2c38e, 0x7da86405, 0x00000000, 0x00000000);
    Later(26, 0xc8215c1a, 0x600003c6, 0x00000000, 0x00000000);
    Later(27, 0xb73679a2, 0x3e9d7b78, 0x00000000, 0x00000000);
    Later(28, 0xe5bc3909, 0x0183fc00, 0x00000000, 0x00000000);
    Later(29, 0x32663c5b, 0x12dcbfdb, 0x00000000, 0x00000000);
    Later(30, 0x9d209d67, 0xe2e2c38e, 0x00000018, 0x00000000);
    Later(31, 0xec8726cb, 0xc8215c1a, 0x61626380, 0x00000018);
  }

  lemma Words4()
    requires Row(16, 0x61626380, 0x000f0000, 0x7da86405, 0x600003c6, 0x3e9d7b78, 0x0183fc00, 0x12dcbfdb, 0xe2e2c38e)
    requires Row(24, 0xc8215c1a, 0xb73679a2, 0xe5bc3909, 0x32663c5b, 0x9d209d67, 0xec8726cb, 0x702138a4, 0xd3b7973b)
    ensures Row(32, 0x93f5997f, 0x3b68ba73, 0xaff4ffc1, 0xf10a5c62, 0x0a8b3996, 0x72af830a, 0x9409e33e, 0x24641522)
  {
    hide IsWord;
    Later(32, 0x702138a4, 0xb73679a2, 0x000f0000, 0x61626380);
    Later(33, 0xd3b7973b, 0xe5bc3909, 0x7da86405, 0x000f0000);
    Later(34, 0x93f5997f, 0x32663c5b, 0x600003c6, 0x7da86405);
    Later(35, 0x3b68ba73, 0x9d209d67, 0x3e9d7b78, 0x600003c6);
    Later(36, 0xaff4ffc1, 0xec8726cb, 0x0183fc00, 0x3e9d7b78);
    Later(37, 0xf10a5c62, 0x702138a4, 0x12dcbfdb, 0x0183fc00);
    Later(38, 0x0a8b3996, 0xd3b7973b, 0xe2e2c38e, 0x12dcbfdb);
    Later(39, 0x72af830a, 0x93f5997f, 0xc8215c1a, 0xe2e2c38e);
  }

  lemma Words5()
    requires Row(24, 0xc8215c1a, 0xb73679a2, 0xe5bc3909, 0x32663c5b, 0x9d209d67, 0xec8726cb, 0x702138a4, 0xd3b7973b)
    requires Row(32, 0x93f5997f, 0x3b68ba73, 0xaff4ffc1, 0xf10a5c62, 0x0a8b3996, 0x72af830a, 0x9409e33e, 0x24641522)
    ensures Row(40, 0x9f47bf94, 0xf0a64f5a, 0x3e246a79, 0x27333ba3, 0x0c4763f2, 0x840abf27, 0x7a290d5d, 0x065c43da)
  {
    hide IsWord;
    Later(40, 0x9409e33e, 0x3b68ba73, 0xb73679a2, 0xc8215c1a);
    Later(41, 0x24641522, 0xaff4ffc1, 0xe5bc3909, 0xb73679a2);
    Later(42, 0x9f47bf94, 0xf10a5c62, 0x32663c5b, 0xe5bc3909);
    Later(43, 0xf0a64f5a, 0x0a8b3996, 0x9d209d67, 0x32663c5b);
    Later(44, 0x3e246a79, 0x72af830a, 0xec8726cb, 0x9d209d67);
    Later(45, 0x27333ba3, 0x9409e33e, 0x702138a4, 0xec8726cb);
    Later(46, 0x0c4763f2, 0x24641522, 0xd3b7973b, 0x702138a4);
    Later(47, 0x840abf27, 0x9f47bf94, 0x93f5997f, 0xd3b7973b);
  }

  lemma Words6()
    requires Row(32, 0x93f5997f, 0x3b68ba73, 0xaff4ffc1, 0xf10a5c62, 0x0a8b3996, 0x72af830a, 0x9409e33e, 0x24641522)
    requires Row(40, 0x9f47bf94, 0xf0a64f5a, 0x3e246a79, 0x27333ba3, 0x0c4763f2, 0x840abf27, 0x7a290d5d, 0x065c43da)
    ensures Row(48, 0xfb3e89cb, 0xcc7617db, 0xb9e66c34, 0xa9993667, 0x84badedd, 0xc21462bc, 0x1487472c, 0xb20f7a99)
  {
    hide IsWord;
    Later(48, 0x7a290d5d, 0xf0a64f5a, 0x3b68ba73, 0x93f5997f);
    Later(49, 0x065c43da, 0x3e246a79, 0xaff4ffc1, 0x3b68ba73);
    Later(50, 0xfb3e89cb, 0x27333ba3, 0xf10a5c62, 0xaff4ffc1);
    Later(51, 0xcc7617db, 0x0c4763f2, 0x0a8b3996, 0xf10a5c62);
    Later(52, 0xb9e66c34, 0x840abf27, 0x72af830a, 0x0a8b3996);
    Later(53, 0xa9993667, 0x7a290d5d, 0x9409e33e, 0x72af830a);
    Later(54, 0x84badedd, 0x065c43da, 0x24641522, 0x9409e33e);
    Later(55, 0xc21462bc, 0xfb3e89cb, 0x9f47bf94, 0x24641522);
  }

  lemma Words7()
    requires Row(40, 0x9f47bf94, 0xf0a64f5a, 0x3e246a79, 0x27333ba3, 0x0c4763f2, 0x840abf27, 0x7a290d5d, 0x065c43da)
    requires Row(48, 0xfb3e89cb, 0xcc7617db, 0xb9e66c34, 0xa9993667, 0x84badedd, 0xc21462bc, 0x1487472c, 0xb20f7a99)
    ensures Row(56, 0xef57b9cd, 0xebe6b238, 0x9fe3095e, 0x78bc8d4b, 0xa43fcf15, 0x668b2ff8, 0xeeaba2cc, 0x12b1edeb)
  {
    hide IsWord;
    Later(56, 0x1487472c, 0xcc7617db, 0xf0a64f5a, 0x9f47bf94);
    Later(57, 0xb20f7a99, 0xb9e66c34, 0x3e246a79, 0xf0a64f5a);
    Later(58, 0xef57b9cd, 0xa9993667, 0x27333ba3, 0x3e246a79);
    Later(59, 0xebe6b238, 0x84badedd, 0x0c4763f2, 0x27333ba3);
    Later(60, 0x9fe3095e, 0xc21462bc, 0x840abf27, 0x0c4763f2);
    Later(61, 0x78bc8d4b, 0x1487472c, 0x7a290d5d, 0x840abf27);
    Later(62, 0xa43fcf15, 0xb20f7a99, 0x065c43da, 0x7a290d5d);
    Later(63, 0x668b2ff8, 0xef57b9cd, 0xfb3e89cb, 0x065c43da);
  }

  // ----- The rounds -----

  /** The working variables after `t` rounds. */
  ghost predicate After(t: nat, v: Hash)
    requires t <= 64
  {
    |PADDED| == 64 && Rounds(INITIAL, Words(PADDED, 64), t) == v
  }

  lemma OneRound(t: nat, v: Hash, k: Word, w: Word, next: Hash)
    requires t < 64 && IsWord(t, w) && K(t) == k && After(t, v) && Round(v, k, w) == next
    ensures After(t + 1, next)
  {
    hide Round, K;
  }

  lemma Rounds0()
    requires After(0, Hash(0x6a09e667, 0xbb67ae85, 0x3c6ef372, 0xa54ff53a, 0x510e527f, 0x9b05688c, 0x1f83d9ab, 0x5be0cd19))
    requires IsWord(0, 0x61626380) && IsWord(1, 0x00000000) && IsWord(2, 0x00000000) && IsWord(3, 0x00000000)
    ensures After(4, Hash(0xd550f666, 0xc8c347a7, 0x5a6ad9ad, 0x5d6aebcd, 0x24e00850, 0xf92939eb, 0x78ce7989, 0xfa2a4622))
  {
    hide IsWord, After;
    assert K(0) == 0x428a2f98 && K(1) == 0x71374491 && K(2) == 0xb5c0fbcf && K(3) == 0xe9b5dba5;
    hide K;
    OneRound(0, Hash(0x6a09e667, 0xbb67ae85, 0x3c6ef372, 0xa54ff53a, 0x510e527f, 0x9b05688c, 0x1f83d9ab, 0x5be0cd19), 0x428a2f98, 0x61626380,
             Hash(0x5d6aebcd, 0x6a09e667, 0xbb67ae85, 0x3c6ef372, 0xfa2a4622, 0x510e527f, 0x9b05688c, 0x1f83d9ab));
    OneRound(1, Hash(0x5d6aebcd, 0x6a09e667, 0xbb67ae85, 0x3c6ef372, 0xfa2a4622, 0x510e527f, 0x9b05688c, 0x1f83d9ab), 0x71374491, 0x00000000,
             Hash(0x5a6ad9ad, 0x5d6aebcd, 0x6a09e667, 0xbb67ae85, 0x78ce7989, 0xfa2a4622, 0x510e527f, 0x9b05688c));
    OneRound(2, Hash(0x5a6ad9ad, 0x5d6aebcd, 0x6a09e667, 0xbb67ae85, 0x78ce7989, 0xfa2a4622, 0x510e527f, 0x9b05688c), 0xb5c0fbcf, 0x00000000,
             Hash(0xc8c347a7, 0x5a6ad9ad, 0x5d6aebcd, 0x6a09e667, 0xf92939eb, 0x78ce7989, 0xfa2a4622, 0x510e527f));
    OneRound(3, Hash(0xc8c347a7, 0x5a6ad9ad, 0x5d6aebcd, 0x6a09e667, 0xf92939eb, 0x78ce7989, 0xfa2a4622, 0x510e527f), 0xe9b5dba5, 0x00000000,
             Hash(0xd550f666, 0xc8c347a7, 0x5a6ad9ad, 0x5d6aebcd, 0x24e00850, 0xf92939eb, 0x78ce7989, 0xfa2a4622));
  }

  lemma Rounds1()
    requires After(4, Hash(0xd550f666, 0xc8c347a7, 0x5a6ad9ad, 0x5d6aebcd, 0x24e00850, 0xf92939eb, 0x78ce7989, 0xfa2a4622))
    requires IsWord(4, 0x00000000) && IsWord(5, 0x00000000) && IsWord(6, 0x00000000) && IsWord(7, 0x00000000)
    ensures After(8, Hash(0x85a07b5f, 0xe5030380, 0x2b4209f5, 0x04409a6a, 0x0c657a79, 0x9b27a401, 0x714260ad, 0x43ada245))
  {
    hide IsWord, After;
    assert K(4) == 0x3956c25b && K(5) == 0x59f111f1 && K(6) == 0x923f82a4 && K(7) == 0xab1c5ed5;
    hide K;
    OneRound(4, Hash(0xd550f666, 0xc8c347a7, 0x5a6ad9ad, 0x5d6aebcd, 0x24e00850, 0xf92939eb, 0x78ce7989, 0xfa2a4622), 0x3956c25b, 0x00000000,
             Hash(0x04409a6a, 0xd550f666, 0xc8c347a7, 0x5a6ad9ad, 0x43ada245, 0x24e00850, 0xf92939eb, 0x78ce7989));
    OneRound(5, Hash(0x04409a6a, 0xd550f666, 0xc8c347a7, 0x5a6ad9ad, 0x43ada245, 0x24e00850, 0xf92939eb, 0x78ce7989), 0x59f111f1, 0x00000000,
             Hash(0x2b4209f5, 0x04409a6a, 0xd550f666, 0xc8c347a7, 0x714260ad, 0x43ada245, 0x24e00850, 0xf92939eb));
    OneRound(6, Hash(0x2b4209f5, 0x04409a6a, 0xd550f666, 0xc8c347a7, 0x714260ad, 0x43ada245, 0x24e00850, 0xf92939eb), 0x923f82a4, 0x00000000,
             Hash(0xe5030380, 0x2b4209f5, 0x04409a6a, 0xd550f666, 0x9b27a401, 0x714260ad, 0x43ada245, 0x24e00850));
    OneRound(7, Hash(0xe5030380, 0x2b4209f5, 0x04409a6a, 0xd550f666, 0x9b27a401, 0x714260ad, 0x43ada245, 0x24e00850), 0xab1c5ed5, 0x00000000,
             Hash(0x85a07b5f, 0xe5030380, 0x2b4209f5, 0x04409a6a, 0x0c657a79, 0x9b27a401, 0x714260ad, 0x43ada245));
  }

  lemma Rounds2()
    requires After(8, Hash(0x85a07b5f, 0xe5030380, 0x2b4209f5, 0x04409a6a, 0x0c657a79, 0x9b27a401, 0x714260ad, 0x43ada245))
    requires IsWord(8, 0x00000000) && IsWord(9, 0x00000000) && IsWord(10, 0x00000000) && IsWord(11, 0x00000000)
    ensures After(12, Hash(0xf71fc5a9, 0x4798a3f4, 0x8c87346b, 0x8e04ecb9, 0x816fd6e9, 0x436b23e8, 0x1cc92596, 0x32ca2d8c))
  {
    hide IsWord, After;
    assert K(8) == 0xd807aa98 && K(9) == 0x12835b01 && K(10) == 0x243185be && K(11) == 0x550c7dc3;
    hide K;
    OneRound(8, Hash(0x85a07b5f, 0xe5030380, 0x2b4209f5, 0x04409a6a, 0x0c657a79, 0x9b27a401, 0x714260ad, 0x43ada245), 0xd807aa98, 0x00000000,
             Hash(0x8e04ecb9, 0x85a07b5f, 0xe5030380, 0x2b4209f5, 0x32ca2d8c, 0x0c657a79, 0x9b27a401, 0x714260ad));
    OneRound(9, Hash(0x8e04ecb9, 0x85a07b5f, 0xe5030380, 0x2b4209f5, 0x32ca2d8c, 0x0c657a79, 0x9b27a401, 0x714260ad), 0x12835b01, 0x00000000,
             Hash(0x8c87346b, 0x8e04ecb9, 0x85a07b5f, 0xe5030380, 0x1cc92596, 0x32ca2d8c, 0x0c657a79, 0x9b27a401));
    OneRound(10, Hash(0x8c87346b, 0x8e04ecb9, 0x85a07b5f, 0xe5030380, 0x1cc92596, 0x32ca2d8c, 0x0c657a79, 0x9b27a401), 0x243185be, 0x00000000,
             Hash(0x4798a3f4, 0x8c87346b, 0x8e04ecb9, 0x85a07b5f, 0x436b23e8, 0x1cc92596, 0x32ca2d8c, 0x0c657a79));
    OneRound(11, Hash(0x4798a3f4, 0x8c87346b, 0x8e04ecb9, 0x85a07b5f, 0x436b23e8, 0x1cc92596, 0x32ca2d8c, 0x0c657a79), 0x550c7dc3, 0x00000000,
             Hash(0xf71fc5a9, 0x4798a3f4, 0x8c87346b, 0x8e04ecb9, 0x816fd6e9, 0x436b23e8, 0x1cc92596, 0x32ca2d8c));
  }

  lemma Rounds3()
    requires After(12, Hash(0xf71fc5a9, 0x4798a3f4, 0x8c87346b, 0x8e04ecb9, 0x816fd6e9, 0x436b23e8, 0x1cc92596, 0x32ca2d8c))
    requires IsWord(12, 0x00000000) && IsWord(13, 0x00000000) && IsWord(14, 0x00000000) && IsWord(15, 0x00000018)
    ensures After(16, Hash(0xb0fa238e, 0xc0645fde, 0xd932eb16, 0x87912990, 0x07590dcd, 0x0b92f20c, 0x745a48de, 0x1e578218))
  {
    hide IsWord, After;
    assert K(12) == 0x72be5d74 && K(13) == 0x80deb1fe && K(14) == 0x9bdc06a7 && K(15) == 0xc19bf174;
    hide K;
    OneRound(12, Hash(0xf71fc5a9, 0x4798a3f4, 0x8c87346b, 0x8e04ecb9, 0x816fd6e9, 0x436b23e8, 0x1cc92596, 0x32ca2d8c), 0x72be5d74, 0x00000000,
             Hash(0x87912990, 0xf71fc5a9, 0x4798a3f4, 0x8c87346b, 0x1e578218, 0x816fd6e9, 0x436b23e8, 0x1cc92596));
    OneRound(13, Hash(0x87912990, 0xf71fc5a9, 0x4798a3f4, 0x8c87346b, 0x1e578218, 0x816fd6e9, 0x436b23e8, 0x1cc92596), 0x80deb1fe, 0x00000000,
             Hash(0xd932eb16, 0x87912990, 0xf71fc5a9, 0x4798a3f4, 0x745a48de, 0x1e578218, 0x816fd6e9, 0x436b23e8));
    OneRound(14, Hash(0xd932eb16, 0x87912990, 0xf71fc5a9, 0x4798a3f4, 0x745a48de, 0x1e578218, 0x816fd6e9, 0x436b23e8), 0x9bdc06a7, 0x00000000,
             Hash(0xc0645fde, 0xd932eb16, 0x87912990, 0xf71fc5a9, 0x0b92f20c, 0x745a48de, 0x1e578218, 0x816fd6e9));
    OneRound(15, Hash(0xc0645fde, 0xd932eb16, 0x87912990, 0xf71fc5a9, 0x0b92f20c, 0x745a48de, 0x1e578218, 0x816fd6e9), 0xc19bf174, 0x00000018,
             Hash(0xb0fa238e, 0xc0645fde, 0xd932eb16, 0x87912990, 0x07590dcd, 0x0b92f20c, 0x745a48de, 0x1e578218));
  }

  lemma Rounds4()
    requires After(16, Hash(0xb0fa238e, 0xc0645fde, 0xd932eb16, 0x87912990, 0x07590dcd, 0x0b92f20c, 0x745a48de, 0x1e578218))
    requires IsWord(16, 0x61626380) && IsWord(17, 0x000f0000) && IsWord(18, 0x7da86405) && IsWord(19, 0x600003c6)
    ensures After(20, Hash(0xe1f20c33, 0xfe777bbf, 0xc2fbd9d1, 0x21da9a9b, 0xb0638179, 0xcc899961, 0x846ee454, 0x8034229c))
  {
    hide IsWord, After;
    assert K(16) == 0xe49b69c1 && K(17) == 0xefbe4786 && K(18) == 0x0fc19dc6 && K(19) == 0x240ca1cc;
    hide K;
    OneRound(16, Hash(0xb0fa238e, 0xc0645fde, 0xd932eb16, 0x87912990, 0x07590dcd, 0x0b92f20c, 0x745a48de, 0x1e578218), 0xe49b69c1, 0x61626380,
             Hash(0x21da9a9b, 0xb0fa238e, 0xc0645fde, 0xd932eb16, 0x8034229c, 0x07590dcd, 0x0b92f20c, 0x745a48de));
    OneRound(17, Hash(0x21da9a9b, 0xb0fa238e, 0xc0645fde, 0xd932eb16, 0x8034229c, 0x07590dcd, 0x0b92f20c, 0x745a48de), 0xefbe4786, 0x000f0000,
             Hash(0xc2fbd9d1, 0x21da9a9b, 0xb0fa238e, 0xc0645fde, 0x846ee454, 0x8034229c, 0x07590dcd, 0x0b92f20c));
    OneRound(18, Hash(0xc2fbd9d1, 0x21da9a9b, 0xb0fa238e, 0xc0645fde, 0x846ee454, 0x8034229c, 0x07590dcd, 0x0b92f20c), 0x0fc19dc6, 0x7da86405,
             Hash(0xfe777bbf, 0xc2fbd9d1, 0x21da9a9b, 0xb0fa238e, 0xcc899961, 0x846ee454, 0x8034229c, 0x07590dcd));
    OneRound(19, Hash(0xfe777bbf, 0xc2fbd9d1, 0x21da9a9b, 0xb0fa238e, 0xcc899961, 0x846ee454, 0x8034229c, 0x07590dcd), 0x240ca1cc, 0x600003c6,
             Hash(0xe1f20c33, 0xfe777bbf, 0xc2fbd9d1, 0x21da9a9b, 0xb0638179, 0xcc899961, 0x846ee454, 0x8034229c));
  }

  lemma Rounds5()
    requires After(20, Hash(0xe1f20c33, 0xfe777bbf, 0xc2fbd9d1, 0x21da9a9b, 0xb0638179, 0xcc899961, 0x846ee454, 0x8034229c))
    requires IsWord(20, 0x3e9d7b78) && IsWord(21, 0x0183fc00) && IsWord(22, 0x12dcbfdb) && IsWord(23, 0xe2e2c38e)
    ensures After(24, Hash(0xc5d53d8d, 0xa7a3623f, 0xc2606d6d, 0x9dc68b63, 0xaa47c347, 0x49f5114a, 0xe1257970, 0x8ada8930))
  {
    hide IsWord, After;
    assert K(20) == 0x2de92c6f && K(21) == 0x4a7484aa && K(22) == 0x5cb0a9dc && K(23) == 0x76f988da;
    hide K;
    OneRound(20, Hash(0xe1f20c33, 0xfe777bbf, 0xc2fbd9d1, 0x21da9a9b, 0xb0638179, 0xcc899961, 0x846ee454, 0x8034229c), 0x2de92c6f, 0x3e9d7b78,
             Hash(0x9dc68b63, 0xe1f20c33, 0xfe777bbf, 0xc2fbd9d1, 0x8ada8930, 0xb0638179, 0xcc899961, 0x846ee454));
    OneRound(21, Hash(0x9dc68b63, 0xe1f20c33, 0xfe777bbf, 0xc2fbd9d1, 0x8ada8930, 0xb0638179, 0xcc899961, 0x846ee454), 0x4a7484aa, 0x0183fc00,
             Hash(0xc2606d6d, 0x9dc68b63, 0xe1f20c33, 0xfe777bbf, 0xe1257970, 0x8ada8930, 0xb0638179, 0xcc899961));
    OneRound(22, Hash(0xc2606d6d, 0x9dc68b63, 0xe1f20c33, 0xfe777bbf, 0xe1257970, 0x8ada8930, 0xb0638179, 0xcc899961), 0x5cb0a9dc, 0x12dcbfdb,
             Hash(0xa7a3623f, 0xc2606d6d, 0x9dc68b63, 0xe1f20c33, 0x49f5114a, 0xe1257970, 0x8ada8930, 0xb0638179));
    OneRound(23, Hash(0xa7a3623f, 0xc2606d6d, 0x9dc68b63, 0xe1f20c33, 0x49f5114a, 0xe1257970, 0x8ada8930, 0xb0638179), 0x76f988da, 0xe2e2c38e,
             Hash(0xc5d53d8d, 0xa7a3623f, 0xc2606d6d, 0x9dc68b63, 0xaa47c347, 0x49f5114a, 0xe1257970, 0x8ada8930));
  }

  lemma Rounds6()
    requires After(24, Hash(0xc5d53d8d, 0xa7a3623f, 0xc2606d6d, 0x9dc68b63, 0xaa47c347, 0x49f5114a, 0xe1257970, 0x8ada8930))
    requires IsWord(24, 0xc8215c1a) && IsWord(25, 0xb73679a2) && IsWord(26, 0xe5bc3909) && IsWord(27, 0x32663c5b)
    ensures After(28, Hash(0x77d37528, 0xb62ec4bc, 0xcde8037d, 0x1c2c2838, 0xedffbff8, 0xc74c6516, 0x14383d8e, 0x2823ef91))
  {
    hide IsWord, After;
    assert K(24) == 0x983e5152 && K(25) == 0xa831c66d && K(26) == 0xb00327c8 && K(27) == 0xbf597fc7;
    hide K;
    OneRound(24, Hash(0xc5d53d8d, 0xa7a3623f, 0xc2606d6d, 0x9dc68b63, 0xaa47c347, 0x49f5114a, 0xe1257970, 0x8ada8930), 0x983e5152, 0xc8215c1a,
             Hash(0x1c2c2838, 0xc5d53d8d, 0xa7a3623f, 0xc2606d6d, 0x2823ef91, 0xaa47c347, 0x49f5114a, 0xe1257970));
    OneRound(25, Hash(0x1c2c2838, 0xc5d53d8d, 0xa7a3623f, 0xc2606d6d, 0x2823ef91, 0xaa47c347, 0x49f5114a, 0xe1257970), 0xa831c66d, 0xb73679a2,
             Hash(0xcde8037d, 0x1c2c2838, 0xc5d53d8d, 0xa7a3623f, 0x14383d8e, 0x2823ef91, 0xaa47c347, 0x49f5114a));
    OneRound(26, Hash(0xcde8037d, 0x1c2c2838, 0xc5d53d8d, 0xa7a3623f, 0x14383d8e, 0x2823ef91, 0xaa47c347, 0x49f5114a), 0xb00327c8, 0xe5bc3909,
             Hash(0xb62ec4bc, 0xcde8037d, 0x1c2c2838, 0xc5d53d8d, 0xc74c6516, 0x14383d8e, 0x2823ef91, 0xaa47c347));
    OneRound(27, Hash(0xb62ec4bc, 0xcde8037d, 0x1c2c2838, 0xc5d53d8d, 0xc74c6516, 0x14383d8e, 0x2823ef91, 0xaa47c347), 0xbf597fc7, 0x32663c5b,
             Hash(0x77d37528, 0xb62ec4bc, 0xcde8037d, 0x1c2c2838, 0xedffbff8, 0xc74c6516, 0x14383d8e, 0x2823ef91));
  }

  lemma Rounds7()
    requires After(28, Hash(0x77d37528, 0xb62ec4bc, 0xcde8037d, 0x1c2c2838, 0xedffbff8, 0xc74c6516, 0x14383d8e, 0x2823ef91))
    requires IsWord(28, 0x9d209d67) && IsWord(29, 0xec8726cb) && IsWord(30, 0x702138a4) && IsWord(31, 0xd3b7973b)
    ensures After(32, Hash(0x73b33bf5, 0xea992a22, 0xa0060b30, 0x363482c9, 0xba591112, 0x0109ab3a, 0xade79437, 0x6112a3b7))
  {
    hide IsWord, After;
    assert K(28) == 0xc6e00bf3 && K(29) == 0xd5a79147 && K(30) == 0x06ca6351 && K(31) == 0x14292967;
    hide K;
    OneRound(28, Hash(0x77d37528, 0xb62ec4bc, 0xcde8037d, 0x1c2c2838, 0xedffbff8, 0xc74c6516, 0x14383d8e, 0x2823ef91), 0xc6e00bf3, 0x9d209d67,
             Hash(0x363482c9, 0x77d37528, 0xb62ec4bc, 0xcde8037d, 0x6112a3b7, 0xedffbff8, 0xc74c6516, 0x14383d8e));
    OneRound(29, Hash(0x363482c9, 0x77d37528, 0xb62ec4bc, 0xcde8037d, 0x6112a3b7, 0xedffbff8, 0xc74c6516, 0x14383d8e), 0xd5a79147, 0xec8726cb,
             Hash(0xa0060b30, 0x363482c9, 0x77d37528, 0xb62ec4bc, 0xade79437, 0x6112a3b7, 0xedffbff8, 0xc74c6516));
    OneRound(30, Hash(0xa0060b30, 0x363482c9, 0x77d37528, 0xb62ec4bc, 0xade79437, 0x6112a3b7, 0xedffbff8, 0xc74c6516), 0x06ca6351, 0x702138a4,
             Hash(0xea992a22, 0xa0060b30, 0x363482c9, 0x77d37528, 0x0109ab3a, 0xade79437, 0x6112a3b7, 0xedffbff8));
    OneRound(31, Hash(0xea992a22, 0xa0060b30, 0x363482c9, 0x77d37528, 0x0109ab3a, 0xade79437, 0x6112a3b7, 0xedffbff8), 0x14292967, 0xd3b7973b,
             Hash(0x73b33bf5, 0xea992a22, 0xa0060b30, 0x363482c9, 0xba591112, 0x0109ab3a, 0xade79437, 0x6112a3b7));
  }

  lemma Rounds8()
    requires After(32, Hash(0x73b33bf5, 0xea992a22, 0xa0060b30, 0x363482c9, 0xba591112, 0x0109ab3a, 0xade79437, 0x6112a3b7))
    requires IsWord(32, 0x93f5997f) && IsWord(33, 0x3b68ba73) && IsWord(34, 0xaff4ffc1) && IsWord(35, 0xf10a5c62)
    ensures After(36, Hash(0x65a0cfe4, 0xa9a7738c, 0xfe604df5, 0x98e12507, 0xf4b002d6, 0x085f3833, 0x59249dd3, 0x9cd9f5f6))
  {
    hide IsWord, After;
    assert K(32) == 0x27b70a85 && K(33) == 0x2e1b2138 && K(34) == 0x4d2c6dfc && K(35) == 0x53380d13;
    hide K;
    OneRound(32, Hash(0x73b33bf5, 0xea992a22, 0xa0060b30, 0x363482c9, 0xba591112, 0x0109ab3a, 0xade79437, 0x6112a3b7), 0x27b70a85, 0x93f5997f,
             Hash(0x98e12507, 0x73b33bf5, 0xea992a22, 0xa0060b30, 0x9cd9f5f6, 0xba591112, 0x0109ab3a, 0xade79437));
    OneRound(33, Hash(0x98e12507, 0x73b33bf5, 0xea992a22, 0xa0060b30, 0x9cd9f5f6, 0xba591112, 0x0109ab3a, 0xade79437), 0x2e1b2138, 0x3b68ba73,
             Hash(0xfe604df5, 0x98e12507, 0x73b33bf5, 0xea992a22, 0x59249dd3, 0x9cd9f5f6, 0xba591112, 0x0109ab3a));
    OneRound(34, Hash(0xfe604df5, 0x98e12507, 0x73b33bf5, 0xea992a22, 0x59249dd3, 0x9cd9f5f6, 0xba591112, 0x0109ab3a), 0x4d2c6dfc, 0xaff4ffc1,
             Hash(0xa9a7738c, 0xfe604df5, 0x98e12507, 0x73b33bf5, 0x085f3833, 0x59249dd3, 0x9cd9f5f6, 0xba591112));
    OneRound(35, Hash(0xa9a7738c, 0xfe604df5, 0x98e12507, 0x73b33bf5, 0x085f3833, 0x59249dd3, 0x9cd9f5f6, 0xba591112), 0x53380d13, 0xf10a5c62,
             Hash(0x65a0cfe4, 0xa9a7738c, 0xfe604df5, 0x98e12507, 0xf4b002d6, 0x085f3833, 0x59249dd3, 0x9cd9f5f6));
  }

  lemma Rounds9()
    requires After(36, Hash(0x65a0cfe4, 0xa9a7738c, 0xfe604df5, 0x98e12507, 0xf4b002d6, 0x085f3833, 0x59249dd3, 0x9cd9f5f6))
    requires IsWord(36, 0x0a8b3996) && IsWord(37, 0x72af830a) && IsWord(38, 0x9409e33e) && IsWord(39, 0x24641522)
    ensures After(40, Hash(0x79ea687a, 0x6dc57a8a, 0x34df1604, 0x41a65cb1, 0x1efbc0a0, 0xf0781bc8, 0xa507a53d, 0x0772a26b))
  {
    hide IsWord, After;
    assert K(36) == 0x650a7354 && K(37) == 0x766a0abb && K(38) == 0x81c2c92e && K(39) == 0x92722c85;
    hide K;
    OneRound(36, Hash(0x65a0cfe4, 0xa9a7738c, 0xfe604df5, 0x98e12507, 0xf4b002d6, 0x085f3833, 0x59249dd3, 0x9cd9f5f6), 0x650a7354, 0x0a8b3996,
             Hash(0x41a65cb1, 0x65a0cfe4, 0xa9a7738c, 0xfe604df5, 0x0772a26b, 0xf4b002d6, 0x085f3833, 0x59249dd3));
    OneRound(37, Hash(0x41a65cb1, 0x65a0cfe4, 0xa9a7738c, 0xfe604df5, 0x0772a26b, 0xf4b002d6, 0x085f3833, 0x59249dd3), 0x766a0abb, 0x72af830a,
             Hash(0x34df1604, 0x41a65cb1, 0x65a0cfe4, 0xa9a7738c, 0xa507a53d, 0x0772a26b, 0xf4b002d6, 0x085f3833));
    OneRound(38, Hash(0x34df1604, 0x41a65cb1, 0x65a0cfe4, 0xa9a7738c, 0xa507a53d, 0x0772a26b, 0xf4b002d6, 0x085f3833), 0x81c2c92e, 0x9409e33e,
             Hash(0x6dc57a8a, 0x34df1604, 0x41a65cb1, 0x65a0cfe4, 0xf0781bc8, 0xa507a53d, 0x0772a26b, 0xf4b002d6));
    OneRound(39, Hash(0x6dc57a8a, 0x34df1604, 0x41a65cb1, 0x65a0cfe4, 0xf0781bc8, 0xa507a53d, 0x0772a26b, 0xf4b002d6), 0x92722c85, 0x24641522,
             Hash(0x79ea687a, 0x6dc57a8a, 0x34df1604, 0x41a65cb1, 0x1efbc0a0, 0xf0781bc8, 0xa507a53d, 0x0772a26b));
  }

  lemma Rounds10()
    requires After(40, Hash(0x79ea687a, 0x6dc57a8a, 0x34df1604, 0x41a65cb1, 0x1efbc0a0, 0xf0781bc8, 0xa507a53d, 0x0772a26b))
    requires IsWord(40, 0x9f47bf94) && IsWord(41, 0xf0a64f5a) && IsWord(42, 0x3e246a79) && IsWord(43, 0x27333ba3)
    ensures After(44, Hash(0x9d4baf93, 0x17aa0dfe, 0xdf46652f, 0xd6670766, 0xfda24c2e, 0xdecd4715, 0x838b2711, 0x26352d63))
  {
    hide IsWord, After;
    assert K(40) == 0xa2bfe8a1 && K(41) == 0xa81a664b && K(42) == 0xc24b8b70 && K(43) == 0xc76c51a3;
    hide K;
    OneRound(40, Hash(0x79ea687a, 0x6dc57a8a, 0x34df1604, 0x41a65cb1, 0x1efbc0a0, 0xf0781bc8, 0xa507a53d, 0x0772a26b), 0xa2bfe8a1, 0x9f47bf94,
             Hash(0xd6670766, 0x79ea687a, 0x6dc57a8a, 0x34df1604, 0x26352d63, 0x1efbc0a0, 0xf0781bc8, 0xa507a53d));
    OneRound(41, Hash(0xd6670766, 0x79ea687a, 0x6dc57a8a, 0x34df1604, 0x26352d63, 0x1efbc0a0, 0xf0781bc8, 0xa507a53d), 0xa81a664b, 0xf0a64f5a,
             Hash(0xdf46652f, 0xd6670766, 0x79ea687a, 0x6dc57a8a, 0x838b2711, 0x26352d63, 0x1efbc0a0, 0xf0781bc8));
    OneRound(42, Hash(0xdf46652f, 0xd6670766, 0x79ea687a, 0x6dc57a8a, 0x838b2711, 0x26352d63, 0x1efbc0a0, 0xf0781bc8), 0xc24b8b70, 0x3e246a79,
             Hash(0x17aa0dfe, 0xdf46652f, 0xd6670766, 0x79ea687a, 0xdecd4715, 0x838b2711, 0x26352d63, 0x1efbc0a0));
    OneRound(43, Hash(0x17aa0dfe, 0xdf46652f, 0xd6670766, 0x79ea687a, 0xdecd4715, 0x838b2711, 0x26352d63, 0x1efbc0a0), 0xc76c51a3, 0x27333ba3,
             Hash(0x9d4baf93, 0x17aa0dfe, 0xdf46652f, 0xd6670766, 0xfda24c2e, 0xdecd4715, 0x838b2711, 0x26352d63));
  }

  lemma Rounds11()
    requires After(44, Hash(0x9d4baf93, 0x17aa0dfe, 0xdf46652f, 0xd6670766, 0xfda24c2e, 0xdecd4715, 0x838b2711, 0x26352d63))
    requires IsWord(44, 0x0c4763f2) && IsWord(45, 0x840abf27) && IsWord(46, 0x7a290d5d) && IsWord(47, 0x065c43da)
    ensures After(48, Hash(0x4172328d, 0xa14c14b0, 0x72ab4b91, 0x26628815, 0xfecf0bc6, 0xd57b94a9, 0xb7755da1, 0xa80f11f0))
  {
    hide IsWord, After;
    assert K(44) == 0xd192e819 && K(45) == 0xd6990624 && K(46) == 0xf40e3585 && K(47) == 0x106aa070;
    hide K;
    OneRound(44, Hash(0x9d4baf93, 0x17aa0dfe, 0xdf46652f, 0xd6670766, 0xfda24c2e, 0xdecd4715, 0x838b2711, 0x26352d63), 0xd192e819, 0x0c4763f2,
             Hash(0x26628815, 0x9d4baf93, 0x17aa0dfe, 0xdf46652f, 0xa80f11f0, 0xfda24c2e, 0xdecd4715, 0x838b2711));
    OneRound(45, Hash(0x26628815, 0x9d4baf93, 0x17aa0dfe, 0xdf46652f, 0xa80f11f0, 0xfda24c2e, 0xdecd4715, 0x838b2711), 0xd6990624, 0x840abf27,
             Hash(0x72ab4b91, 0x26628815, 0x9d4baf93, 0x17aa0dfe, 0xb7755da1, 0xa80f11f0, 0xfda24c2e, 0xdecd4715));
    OneRound(46, Hash(0x72ab4b91, 0x26628815, 0x9d4baf93, 0x17aa0dfe, 0xb7755da1, 0xa80f11f0, 0xfda24c2e, 0xdecd4715), 0xf40e3585, 0x7a290d5d,
             Hash(0xa14c14b0, 0x72ab4b91, 0x26628815, 0x9d4baf93, 0xd57b94a9, 0xb7755da1, 0xa80f11f0, 0xfda24c2e));
    OneRound(47, Hash(0xa14c14b0, 0x72ab4b91, 0x26628815, 0x9d4baf93, 0xd57b94a9, 0xb7755da1, 0xa80f11f0, 0xfda24c2e), 0x106aa070, 0x065c43da,
             Hash(0x4172328d, 0xa14c14b0, 0x72ab4b91, 0x26628815, 0xfecf0bc6, 0xd57b94a9, 0xb7755da1, 0xa80f11f0));
  }

  lemma Rounds12()
    requires After(48, Hash(0x4172328d, 0xa14c14b0, 0x72ab4b91, 0x26628815, 0xfecf0bc6, 0xd57b94a9, 0xb7755da1, 0xa80f11f0))
    requires IsWord(48, 0xfb3e89cb) && IsWord(49, 0xcc7617db) && IsWord(50, 0xb9e66c34) && IsWord(51, 0xa9993667)
    ensures After(52, Hash(0x886e7a22, 0x7a0508a1, 0xf11bfaa8, 0x05757ceb, 0x49231c1e, 0x52f1ccf7, 0x6e5c390c, 0xbd714038))
  {
    hide IsWord, After;
    assert K(48) == 0x19a4c116 && K(49) == 0x1e376c08 && K(50) == 0x2748774c && K(51) == 0x34b0bcb5;
    hide K;
    OneRound(48, Hash(0x4172328d, 0xa14c14b0, 0x72ab4b91, 0x26628815, 0xfecf0bc6, 0xd57b94a9, 0xb7755da1, 0xa80f11f0), 0x19a4c116, 0xfb3e89cb,
             Hash(0x05757ceb, 0x4172328d, 0xa14c14b0, 0x72ab4b91, 0xbd714038, 0xfecf0bc6, 0xd57b94a9, 0xb7755da1));
    OneRound(49, Hash(0x05757ceb, 0x4172328d, 0xa14c14b0, 0x72ab4b91, 0xbd714038, 0xfecf0bc6, 0xd57b94a9, 0xb7755da1), 0x1e376c08, 0xcc7617db,
             Hash(0xf11bfaa8, 0x05757ceb, 0x4172328d, 0xa14c14b0, 0x6e5c390c, 0xbd714038, 0xfecf0bc6, 0xd57b94a9));
    OneRound(50, Hash(0xf11bfaa8, 0x05757ceb, 0x4172328d, 0xa14c14b0, 0x6e5c390c, 0xbd714038, 0xfecf0bc6, 0xd57b94a9), 0x2748774c, 0xb9e66c34,
             Hash(0x7a0508a1, 0xf11bfaa8, 0x05757ceb, 0x4172328d, 0x52f1ccf7, 0x6e5c390c, 0xbd714038, 0xfecf0bc6));
    OneRound(51, Hash(0x7a0508a1, 0xf11bfaa8, 0x05757ceb, 0x4172328d, 0x52f1ccf7, 0x6e5c390c, 0xbd714038, 0xfecf0bc6), 0x34b0bcb5, 0xa9993667,
             Hash(0x886e7a22, 0x7a0508a1, 0xf11bfaa8, 0x05757ceb, 0x49231c1e, 0x52f1ccf7, 0x6e5c390c, 0xbd714038));
  }

  lemma Rounds13()
    requires After(52, Hash(0x886e7a22, 0x7a0508a1, 0xf11bfaa8, 0x05757ceb, 0x49231c1e, 0x52f1ccf7, 0x6e5c390c, 0xbd714038))
    requires IsWord(52, 0x84badedd) && IsWord(53, 0xc21462bc) && IsWord(54, 0x1487472c) && IsWord(55, 0xb20f7a99)
    ensures After(56, Hash(0x38cc9913, 0x3ec45cdb, 0xf5702fdb, 0x101fd28f, 0x54cb266b, 0xe50e1b4f, 0x9f4787c3, 0x529e7d00))
  {
    hide IsWord, After;
    assert K(52) == 0x391c0cb3 && K(53) == 0x4ed8aa4a && K(54) == 0x5b9cca4f && K(55) == 0x682e6ff3;
    hide K;
    OneRound(52, Hash(0x886e7a22, 0x7a0508a1, 0xf11bfaa8, 0x05757ceb, 0x49231c1e, 0x52f1ccf7, 0x6e5c390c, 0xbd714038), 0x391c0cb3, 0x84badedd,
             Hash(0x101fd28f, 0x886e7a22, 0x7a0508a1, 0xf11bfaa8, 0x529e7d00, 0x49231c1e, 0x52f1ccf7, 0x6e5c390c));
    OneRound(53, Hash(0x101fd28f, 0x886e7a22, 0x7a0508a1, 0xf11bfaa8, 0x529e7d00, 0x49231c1e, 0x52f1ccf7, 0x6e5c390c), 0x4ed8aa4a, 0xc21462bc,
             Hash(0xf5702fdb, 0x101fd28f, 0x886e7a22, 0x7a0508a1, 0x9f4787c3, 0x529e7d00, 0x49231c1e, 0x52f1ccf7));
    OneRound(54, Hash(0xf5702fdb, 0x101fd28f, 0x886e7a22, 0x7a0508a1, 0x9f4787c3, 0x529e7d00, 0x49231c1e, 0x52f1ccf7), 0x5b9cca4f, 0x1487472c,
             Hash(0x3ec45cdb, 0xf5702fdb, 0x101fd28f, 0x886e7a22, 0xe50e1b4f, 0x9f4787c3, 0x529e7d00, 0x49231c1e));
    OneRound(55, Hash(0x3ec45cdb, 0xf5702fdb, 0x101fd28f, 0x886e7a22, 0xe50e1b4f, 0x9f4787c3, 0x529e7d00, 0x49231c1e), 0x682e6ff3, 0xb20f7a99,
             Hash(0x38cc9913, 0x3ec45cdb, 0xf5702fdb, 0x101fd28f, 0x54cb266b, 0xe50e1b4f, 0x9f4787c3, 0x529e7d00));
  }

  lemma Rounds14()
    requires After(56, Hash(0x38cc9913, 0x3ec45cdb, 0xf5702fdb, 0x101fd28f, 0x54cb266b, 0xe50e1b4f, 0x9f4787c3, 0x529e7d00))
    requires IsWord(56, 0xef57b9cd) && IsWord(57, 0xebe6b238) && IsWord(58, 0x9fe3095e) && IsWord(59, 0x78bc8d4b)
    ensures After(60, Hash(0xb6ae8fff, 0xffb70472, 0xc062d46f, 0xfcd1887b, 0xb21bad3d, 0x6d83bfc6, 0x7e44008e, 0x9b5e906c))
  {
    hide IsWord, After;
    assert K(56) == 0x748f82ee && K(57) == 0x78a5636f && K(58) == 0x84c87814 && K(59) == 0x8cc70208;
    hide K;
    OneRound(56, Hash(0x38cc9913, 0x3ec45cdb, 0xf5702fdb, 0x101fd28f, 0x54cb266b, 0xe50e1b4f, 0x9f4787c3, 0x529e7d00), 0x748f82ee, 0xef57b9cd,
             Hash(0xfcd1887b, 0x38cc9913, 0x3ec45cdb, 0xf5702fdb, 0x9b5e906c, 0x54cb266b, 0xe50e1b4f, 0x9f4787c3));
    OneRound(57, Hash(0xfcd1887b, 0x38cc9913, 0x3ec45cdb, 0xf5702fdb, 0x9b5e906c, 0x54cb266b, 0xe50e1b4f, 0x9f4787c3), 0x78a5636f, 0xebe6b238,
             Hash(0xc062d46f, 0xfcd1887b, 0x38cc9913, 0x3ec45cdb, 0x7e44008e, 0x9b5e906c, 0x54cb266b, 0xe50e1b4f));
    OneRound(58, Hash(0xc062d46f, 0xfcd1887b, 0x38cc9913, 0x3ec45cdb, 0x7e44008e, 0x9b5e906c, 0x54cb266b, 0xe50e1b4f), 0x84c87814, 0x9fe3095e,
             Hash(0xffb70472, 0xc062d46f, 0xfcd1887b, 0x38cc9913, 0x6d83bfc6, 0x7e44008e, 0x9b5e906c, 0x54cb266b));
    OneRound(59, Hash(0xffb70472, 0xc062d46f, 0xfcd1887b, 0x38cc9913, 0x6d83bfc6, 0x7e44008e, 0x9b5e906c, 0x54cb266b), 0x8cc70208, 0x78bc8d4b,
             Hash(0xb6ae8fff, 0xffb70472, 0xc062d46f, 0xfcd1887b, 0xb21bad3d, 0x6d83bfc6, 0x7e44008e, 0x9b5e906c));
  }

  lemma Rounds15()
    requires After(60, Hash(0xb6ae8fff, 0xffb70472, 0xc062d46f, 0xfcd1887b, 0xb21bad3d, 0x6d83bfc6, 0x7e44008e, 0x9b5e906c))
    requires IsWord(60, 0xa43fcf15) && IsWord(61, 0x668b2ff8) && IsWord(62, 0xeeaba2cc) && IsWord(63, 0x12b1edeb)
    ensures After(64, Hash(0x506e3058, 0xd39a2165, 0x04d24d6c, 0xb85e2ce9, 0x5ef50f24, 0xfb121210, 0x948d25b6, 0x961f4894))
  {
    hide IsWord, After;
    assert K(60) == 0x90befffa && K(61) == 0xa4506ceb && K(62) == 0xbef9a3f7 && K(63) == 0xc67178f2;
    hide K;
    OneRound(60, Hash(0xb6ae8fff, 0xffb70472, 0xc062d46f, 0xfcd1887b, 0xb21bad3d, 0x6d83bfc6, 0x7e44008e, 0x9b5e906c), 0x90befffa, 0xa43fcf15,
             Hash(0xb85e2ce9, 0xb6ae8fff, 0xffb70472, 0xc062d46f, 0x961f4894, 0xb21bad3d, 0x6d83bfc6, 0x7e44008e));
    OneRound(61, Hash(0xb85e2ce9, 0xb6ae8fff, 0xffb70472, 0xc062d46f, 0x961f4894, 0xb21bad3d, 0x6d83bfc6, 0x7e44008e), 0xa4506ceb, 0x668b2ff8,
             Hash(0x04d24d6c, 0xb85e2ce9, 0xb6ae8fff, 0xffb70472, 0x948d25b6, 0x961f4894, 0xb21bad3d, 0x6d83bfc6));
    OneRound(62, Hash(0x04d24d6c, 0xb85e2ce9, 0xb6ae8fff, 0xffb70472, 0x948d25b6, 0x961f4894, 0xb21bad3d, 0x6d83bfc6), 0xbef9a3f7, 0xeeaba2cc,
             Hash(0xd39a2165, 0x04d24d6c, 0xb85e2ce9, 0xb6ae8fff, 0xfb121210, 0x948d25b6, 0x961f4894, 0xb21bad3d));
    OneRound(63, Hash(0xd39a2165, 0x04d24d6c, 0xb85e2ce9, 0xb6ae8fff, 0xfb121210, 0x948d25b6, 0x961f4894, 0xb21bad3d), 0xc67178f2, 0x12b1edeb,
             Hash(0x506e3058, 0xd39a2165, 0x04d24d6c, 0xb85e2ce9, 0x5ef50f24, 0xfb121210, 0x948d25b6, 0x961f4894));
  }

  lemma AllRounds()
    ensures After(64, Hash(0x506e3058, 0xd39a2165, 0x04d24d6c, 0xb85e2ce9, 0x5ef50f24, 0xfb121210, 0x948d25b6, 0x961f4894))
  {
    PaddedAbc();
    assert After(0, INITIAL);
    hide IsWord, After;
    FirstWords();
    Rounds0();
    Rounds1();
    Rounds2();
    Rounds3();
    Words2();
    Rounds4();
    Rounds5();
    Words3();
    Rounds6();
    Rounds7();
    Words4();
    Rounds8();
    Rounds9();
    Words5();
    Rounds10();
    Rounds11();
    Words6();
    Rounds12();
    Rounds13();
    Words7();
    Rounds14();
    Rounds15();
  }

  // ----- The digest -----

  /** SHA-256 of "abc". */
  lemma DigestOfAbc()
    ensures Sha256Of(ABC) ==
      [0xba, 0x78, 0x16, 0xbf] + [0x8f, 0x01, 0xcf, 0xea] + [0x41, 0x41, 0x40, 0xde] + [0x5d, 0xae, 0x22, 0x23]
      + [0xb0, 0x03, 0x61, 0xa3] + [0x96, 0x17, 0x7a, 0x9c] + [0xb4, 0x10, 0xff, 0x61] + [0xf2, 0x00, 0x15, 0xad]
  {
    PaddedAbc();
    AllRounds();
    var last := Hash(0x506e3058, 0xd39a2165, 0x04d24d6c, 0xb85e2ce9, 0x5ef50f24, 0xfb121210, 0x948d25b6, 0x961f4894);
    var v := Hash(0xba7816bf, 0x8f01cfea, 0x414140de, 0x5dae2223, 0xb00361a3, 0x96177a9c, 0xb410ff61, 0xf20015ad);
    assert Plus(INITIAL, last) == v;
    assert Compress(INITIAL, PADDED) == v by { hide Rounds, Words, Plus; }
    OneBlockChain(PADDED);
    DigestBytes();
    hide Chain, Compress, Padded, WordBytes;
  }

  lemma OneBlockChain(p: seq<Byte>)
    requires |p| == 64 && BlockOf(p, 0) == p
    ensures Chain(p, 1) == Compress(INITIAL, p)
  {
    hide Compress;
    assert Chain(p, 0) == INITIAL;
  }

  lemma DigestBytes()
    ensures Digest(Hash(0xba7816bf, 0x8f01cfea, 0x414140de, 0x5dae2223, 0xb00361a3, 0x96177a9c, 0xb410ff61, 0xf20015ad)) ==
      [0xba, 0x78, 0x16, 0xbf] + [0x8f, 0x01, 0xcf, 0xea] + [0x41, 0x41, 0x40, 0xde] + [0x5d, 0xae, 0x22, 0x23]
      + [0xb0, 0x03, 0x61, 0xa3] + [0x96, 0x17, 0x7a, 0x9c] + [0xb4, 0x10, 0xff, 0x61] + [0xf2, 0x00, 0x15, 0xad]
  {
    assert WordBytes(0xba7816bf) == [0xba, 0x78, 0x16, 0xbf];
    assert WordBytes(0x8f01cfea) == [0x8f, 0x01, 0xcf, 0xea];
    assert WordBytes(0x414140de) == [0x41, 0x41, 0x40, 0xde];
    assert WordBytes(0x5dae2223) == [0x5d, 0xae, 0x22, 0x23];
    assert WordBytes(0xb00361a3) == [0xb0, 0x03, 0x61, 0xa3];
    assert WordBytes(0x96177a9c) == [0x96, 0x17, 0x7a, 0x9c];
    assert WordBytes(0xb410ff61) == [0xb4, 0x10, 0xff, 0x61];
    assert WordBytes(0xf20015ad) == [0xf2, 0x00, 0x15, 0xad];
  }
}
