/** The first example of FIPS 180-2, appendix B.1: the SHA-256 hash of "abc", eight words
    and eight rounds at a time. */
module Sha256Example {
  import opened Sha256
  import opened Sha256Words

  const MESSAGE: seq<Byte> := [0x61, 0x62, 0x63]

  const DIGEST: seq<Byte> :=
    [0xba, 0x78, 0x16, 0xbf] +
    [0x8f, 0x01, 0xcf, 0xea] +
    [0x41, 0x41, 0x40, 0xde] +
    [0x5d, 0xae, 0x22, 0x23] +
    [0xb0, 0x03, 0x61, 0xa3] +
    [0x96, 0x17, 0x7a, 0x9c] +
    [0xb4, 0x10, 0xff, 0x61] +
    [0xf2, 0x00, 0x15, 0xad]

  /** The padded message. */
  function Block(): Chunk {
    seq(64, i requires 0 <= i < 64 =>
      if i < 3 then MESSAGE[i] else if i == 3 then 0x80 else if i == 63 then 0x18 else 0)
  }

  // --------------------------------------------- the word functions by shifts

  function Schedule0(x: Word): Word {
    Xor3((x >> 7) | (x << 25), (x >> 18) | (x << 14), x >> 3)
  }

  function Schedule1(x: Word): Word {
    Xor3((x >> 17) | (x << 15), (x >> 19) | (x << 13), x >> 10)
  }

  function Round0(x: Word): Word {
    Xor3((x >> 2) | (x << 30), (x >> 13) | (x << 19), (x >> 22) | (x << 10))
  }

  function Round1(x: Word): Word {
    Xor3((x >> 6) | (x << 26), (x >> 11) | (x << 21), (x >> 25) | (x << 7))
  }

  lemma {:induction false} Rotations(x: Word)
    ensures Rotr(x, 2) == (x >> 2) | (x << 30) && Rotr(x, 13) == (x >> 13) | (x << 19)
    ensures Rotr(x, 22) == (x >> 22) | (x << 10) && Rotr(x, 6) == (x >> 6) | (x << 26)
    ensures Rotr(x, 11) == (x >> 11) | (x << 21) && Rotr(x, 25) == (x >> 25) | (x << 7)
    ensures Rotr(x, 7) == (x >> 7) | (x << 25) && Rotr(x, 18) == (x >> 18) | (x << 14)
    ensures Rotr(x, 17) == (x >> 17) | (x << 15) && Rotr(x, 19) == (x >> 19) | (x << 13)
  {
  }

  lemma {:induction false} Sigmas(x: Word)
    ensures SmallSigma0(x) == Schedule0(x) && SmallSigma1(x) == Schedule1(x)
    ensures BigSigma0(x) == Round0(x) && BigSigma1(x) == Round1(x)
  {
    hide Rotr, Xor3;
    Rotations(x);
  }

  // --------------------------------------------------------------- one step

  /** A schedule word from those 16, 15, 7 and 2 places before it. */
  function Next(w16: Word, w15: Word, w7: Word, w2: Word): Word {
    Add(Add(Add(w16, Schedule0(w15)), w7), Schedule1(w2))
  }

  lemma {:induction false} NextWord(block: Chunk, t: nat, w16: Word, w15: Word, w7: Word, w2: Word, w: Word)
    requires 16 <= t < 64 && Next(w16, w15, w7, w2) == w
    requires W(block, t - 16) == w16 && W(block, t - 15) == w15 && W(block, t - 7) == w7 && W(block, t - 2) == w2
    ensures W(block, t) == w
  {
    hide Add, SmallSigma0, SmallSigma1, Schedule0, Schedule1, WordAt;
    Sigmas(w15);
    Sigmas(w2);
  }

  lemma {:induction false} FirstWord(block: Chunk, t: nat)
    requires t < 16
    ensures W(block, t) == WordAt(block, t)
  {
    hide WordAt;
  }

  /** What a round adds to a and to e. */
  function NewE(s: Hash, k: Word, w: Word): Word {
    Add(Add(Add(Add(s.h, Round1(s.e)), Ch(s.e, s.f, s.g)), k), w)
  }

  function NewA(s: Hash): Word {
    Add(Round0(s.a), Maj(s.a, s.b, s.c))
  }

  /** A round makes two new words, a and e, and moves the others. */
  lemma {:induction false} NextRound(block: Chunk, t: nat, s: Hash, k: Word, w: Word, a: Word, e: Word)
    requires t < 64 && Rounds(Initial(), block, t) == s && K(t) == k && W(block, t) == w
    requires Add(NewE(s, k, w), NewA(s)) == a && Add(s.d, NewE(s, k, w)) == e
    ensures Rounds(Initial(), block, t + 1) == Hash(a, s.a, s.b, s.c, e, s.e, s.f, s.g)
  {
    hide K, W, Add, Ch, Maj, BigSigma0, BigSigma1, Round0, Round1;
    Sigmas(s.a);
    Sigmas(s.e);
  }

  lemma {:induction false} Words0(block: Chunk)
    requires block == Block()
    ensures W(block, 0) == 0x61626380 && W(block, 1) == 0x00000000
    ensures W(block, 2) == 0x00000000 && W(block, 3) == 0x00000000
    ensures W(block, 4) == 0x00000000 && W(block, 5) == 0x00000000
    ensures W(block, 6) == 0x00000000 && W(block, 7) == 0x00000000
  {
    hide W;
    FirstWord(block, 0);
    FirstWord(block, 1);
    FirstWord(block, 2);
    FirstWord(block, 3);
    FirstWord(block, 4);
    FirstWord(block, 5);
    FirstWord(block, 6);
    FirstWord(block, 7);
  }

  lemma {:induction false} Words8(block: Chunk)
    requires block == Block()
    ensures W(block, 8) == 0x00000000 && W(block, 9) == 0x00000000
    ensures W(block, 10) == 0x00000000 && W(block, 11) == 0x00000000
    ensures W(block, 12) == 0x00000000 && W(block, 13) == 0x00000000
    ensures W(block, 14) == 0x00000000 && W(block, 15) == 0x00000018
  {
    hide W;
    FirstWord(block, 8);
    FirstWord(block, 9);
    FirstWord(block, 10);
    FirstWord(block, 11);
    FirstWord(block, 12);
    FirstWord(block, 13);
    FirstWord(block, 14);
    FirstWord(block, 15);
  }

  lemma {:induction false} Words16(block: Chunk)
    requires block == Block()
    ensures W(block, 16) == 0x61626380 && W(block, 17) == 0x000f0000
    ensures W(block, 18) == 0x7da86405 && W(block, 19) == 0x600003c6
    ensures W(block, 20) == 0x3e9d7b78 && W(block, 21) == 0x0183fc00
    ensures W(block, 22) == 0x12dcbfdb && W(block, 23) == 0xe2e2c38e
  {
    hide W;
    Words0(block);
    Words8(block);
    NextWord(block, 16, 0x61626380, 0x00000000, 0x00000000, 0x00000000, 0x61626380);
    NextWord(block, 17, 0x00000000, 0x00000000, 0x00000000, 0x00000018, 0x000f0000);
    NextWord(block, 18, 0x00000000, 0x00000000, 0x00000000, 0x61626380, 0x7da86405);
    NextWord(block, 19, 0x00000000, 0x00000000, 0x00000000, 0x000f0000, 0x600003c6);
    NextWord(block, 20, 0x00000000, 0x00000000, 0x00000000, 0x7da86405, 0x3e9d7b78);
    NextWord(block, 21, 0x00000000, 0x00000000, 0x00000000, 0x600003c6, 0x0183fc00);
    NextWord(block, 22, 0x00000000, 0x00000000, 0x00000018, 0x3e9d7b78, 0x12dcbfdb);
    NextWord(block, 23, 0x00000000, 0x00000000, 0x61626380, 0x0183fc00, 0xe2e2c38e);
  }

  lemma {:induction false} Words24(block: Chunk)
    requires block == Block()
    ensures W(block, 24) == 0xc8215c1a && W(block, 25) == 0xb73679a2
    ensures W(block, 26) == 0xe5bc3909 && W(block, 27) == 0x32663c5b
    ensures W(block, 28) == 0x9d209d67 && W(block, 29) == 0xec8726cb
    ensures W(block, 30) == 0x702138a4 && W(block, 31) == 0xd3b7973b
  {
    hide W;
    Words8(block);
    Words16(block);
    NextWord(block, 24, 0x00000000, 0x00000000, 0x000f0000, 0x12dcbfdb, 0xc8215c1a);
    NextWord(block, 25, 0x00000000, 0x00000000, 0x7da86405, 0xe2e2c38e, 0xb73679a2);
    NextWord(block, 26, 0x00000000, 0x00000000, 0x600003c6, 0xc8215c1a, 0xe5bc3909);
    NextWord(block, 27, 0x00000000, 0x00000000, 0x3e9d7b78, 0xb73679a2, 0x32663c5b);
    NextWord(block, 28, 0x00000000, 0x00000000, 0x0183fc00, 0xe5bc3909, 0x9d209d67);
    NextWord(block, 29, 0x00000000, 0x00000000, 0x12dcbfdb, 0x32663c5b, 0xec8726cb);
    NextWord(block, 30, 0x00000000, 0x00000018, 0xe2e2c38e, 0x9d209d67, 0x702138a4);
    NextWord(block, 31, 0x00000018, 0x61626380, 0xc8215c1a, 0xec8726cb, 0xd3b7973b);
  }

  lemma {:induction false} Words32(block: Chunk)
    requires block == Block()
    ensures W(block, 32) == 0x93f5997f && W(block, 33) == 0x3b68ba73
    ensures W(block, 34) == 0xaff4ffc1 && W(block, 35) == 0xf10a5c62
    ensures W(block, 36) == 0x0a8b3996 && W(block, 37) == 0x72af830a
    ensures W(block, 38) == 0x9409e33e && W(block, 39) == 0x24641522
  {
    hide W;
    Words16(block);
    Words24(block);
    NextWord(block, 32, 0x61626380, 0x000f0000, 0xb73679a2, 0x702138a4, 0x93f5997f);
    NextWord(block, 33, 0x000f0000, 0x7da86405, 0xe5bc3909, 0xd3b7973b, 0x3b68ba73);
    NextWord(block, 34, 0x7da86405, 0x600003c6, 0x32663c5b, 0x93f5997f, 0xaff4ffc1);
    NextWord(block, 35, 0x600003c6, 0x3e9d7b78, 0x9d209d67, 0x3b68ba73, 0xf10a5c62);
    NextWord(block, 36, 0x3e9d7b78, 0x0183fc00, 0xec8726cb, 0xaff4ffc1, 0x0a8b3996);
    NextWord(block, 37, 0x0183fc00, 0x12dcbfdb, 0x702138a4, 0xf10a5c62, 0x72af830a);
    NextWord(block, 38, 0x12dcbfdb, 0xe2e2c38e, 0xd3b7973b, 0x0a8b3996, 0x9409e33e);
    NextWord(block, 39, 0xe2e2c38e, 0xc8215c1a, 0x93f5997f, 0x72af830a, 0x24641522);
  }

  lemma {:induction false} Words40(block: Chunk)
    requires block == Block()
    ensures W(block, 40) == 0x9f47bf94 && W(block, 41) == 0xf0a64f5a
    ensures W(block, 42) == 0x3e246a79 && W(block, 43) == 0x27333ba3
    ensures W(block, 44) == 0x0c4763f2 && W(block, 45) == 0x840abf27
    ensures W(block, 46) == 0x7a290d5d && W(block, 47) == 0x065c43da
  {
    hide W;
    Words24(block);
    Words32(block);
    NextWord(block, 40, 0xc8215c1a, 0xb73679a2, 0x3b68ba73, 0x9409e33e, 0x9f47bf94);
    NextWord(block, 41, 0xb73679a2, 0xe5bc3909, 0xaff4ffc1, 0x24641522, 0xf0a64f5a);
    NextWord(block, 42, 0xe5bc3909, 0x32663c5b, 0xf10a5c62, 0x9f47bf94, 0x3e246a79);
    NextWord(block, 43, 0x32663c5b, 0x9d209d67, 0x0a8b3996, 0xf0a64f5a, 0x27333ba3);
    NextWord(block, 44, 0x9d209d67, 0xec8726cb, 0x72af830a, 0x3e246a79, 0x0c4763f2);
    NextWord(block, 45, 0xec8726cb, 0x702138a4, 0x9409e33e, 0x27333ba3, 0x840abf27);
    NextWord(block, 46, 0x702138a4, 0xd3b7973b, 0x24641522, 0x0c4763f2, 0x7a290d5d);
    NextWord(block, 47, 0xd3b7973b, 0x93f5997f, 0x9f47bf94, 0x840abf27, 0x065c43da);
  }

  lemma {:induction false} Words48(block: Chunk)
    requires block == Block()
    ensures W(block, 48) == 0xfb3e89cb && W(block, 49) == 0xcc7617db
    ensures W(block, 50) == 0xb9e66c34 && W(block, 51) == 0xa9993667
    ensures W(block, 52) == 0x84badedd && W(block, 53) == 0xc21462bc
    ensures W(block, 54) == 0x1487472c && W(block, 55) == 0xb20f7a99
  {
    hide W;
    Words32(block);
    Words40(block);
    NextWord(block, 48, 0x93f5997f, 0x3b68ba73, 0xf0a64f5a, 0x7a290d5d, 0xfb3e89cb);
    NextWord(block, 49, 0x3b68ba73, 0xaff4ffc1, 0x3e246a79, 0x065c43da, 0xcc7617db);
    NextWord(block, 50, 0xaff4ffc1, 0xf10a5c62, 0x27333ba3, 0xfb3e89cb, 0xb9e66c34);
    NextWord(block, 51, 0xf10a5c62, 0x0a8b3996, 0x0c4763f2, 0xcc7617db, 0xa9993667);
    NextWord(block, 52, 0x0a8b3996, 0x72af830a, 0x840abf27, 0xb9e66c34, 0x84badedd);
    NextWord(block, 53, 0x72af830a, 0x9409e33e, 0x7a290d5d, 0xa9993667, 0xc21462bc);
    NextWord(block, 54, 0x9409e33e, 0x24641522, 0x065c43da, 0x84badedd, 0x1487472c);
    NextWord(block, 55, 0x24641522, 0x9f47bf94, 0xfb3e89cb, 0xc21462bc, 0xb20f7a99);
  }

  lemma {:induction false} Words56(block: Chunk)
    requires block == Block()
    ensures W(block, 56) == 0xef57b9cd && W(block, 57) == 0xebe6b238
    ensures W(block, 58) == 0x9fe3095e && W(block, 59) == 0x78bc8d4b
    ensures W(block, 60) == 0xa43fcf15 && W(block, 61) == 0x668b2ff8
    ensures W(block, 62) == 0xeeaba2cc && W(block, 63) == 0x12b1edeb
  {
    hide W;
    Words40(block);
    Words48(block);
    NextWord(block, 56, 0x9f47bf94, 0xf0a64f5a, 0xcc7617db, 0x1487472c, 0xef57b9cd);
    NextWord(block, 57, 0xf0a64f5a, 0x3e246a79, 0xb9e66c34, 0xb20f7a99, 0xebe6b238);
    NextWord(block, 58, 0x3e246a79, 0x27333ba3, 0xa9993667, 0xef57b9cd, 0x9fe3095e);
    NextWord(block, 59, 0x27333ba3, 0x0c4763f2, 0x84badedd, 0xebe6b238, 0x78bc8d4b);
    NextWord(block, 60, 0x0c4763f2, 0x840abf27, 0xc21462bc, 0x9fe3095e, 0xa43fcf15);
    NextWord(block, 61, 0x840abf27, 0x7a290d5d, 0x1487472c, 0x78bc8d4b, 0x668b2ff8);
    NextWord(block, 62, 0x7a290d5d, 0x065c43da, 0xb20f7a99, 0xa43fcf15, 0xeeaba2cc);
    NextWord(block, 63, 0x065c43da, 0xfb3e89cb, 0xef57b9cd, 0x668b2ff8, 0x12b1edeb);
  }

  lemma {:induction false} Rounds8(block: Chunk)
    requires block == Block()
    ensures Rounds(Initial(), block, 8) ==
      Hash(0x85a07b5f, 0xe5030380, 0x2b4209f5, 0x04409a6a,
           0x0c657a79, 0x9b27a401, 0x714260ad, 0x43ada245)
  {
    hide W, Rounds;
    NoRounds(block);
    Words0(block);
    NextRound(block, 0,
      Hash(0x6a09e667, 0xbb67ae85, 0x3c6ef372, 0xa54ff53a, 0x510e527f, 0x9b05688c, 0x1f83d9ab, 0x5be0cd19),
      0x428a2f98, 0x61626380, 0x5d6aebcd, 0xfa2a4622);
    NextRound(block, 1,
      Hash(0x5d6aebcd, 0x6a09e667, 0xbb67ae85, 0x3c6ef372, 0xfa2a4622, 0x510e527f, 0x9b05688c, 0x1f83d9ab),
      0x71374491, 0x00000000, 0x5a6ad9ad, 0x78ce7989);
    NextRound(block, 2,
      Hash(0x5a6ad9ad, 0x5d6aebcd, 0x6a09e667, 0xbb67ae85, 0x78ce7989, 0xfa2a4622, 0x510e527f, 0x9b05688c),
      0xb5c0fbcf, 0x00000000, 0xc8c347a7, 0xf92939eb);
    NextRound(block, 3,
      Hash(0xc8c347a7, 0x5a6ad9ad, 0x5d6aebcd, 0x6a09e667, 0xf92939eb, 0x78ce7989, 0xfa2a4622, 0x510e527f),
      0xe9b5dba5, 0x00000000, 0xd550f666, 0x24e00850);
    NextRound(block, 4,
      Hash(0xd550f666, 0xc8c347a7, 0x5a6ad9ad, 0x5d6aebcd, 0x24e00850, 0xf92939eb, 0x78ce7989, 0xfa2a4622),
      0x3956c25b, 0x00000000, 0x04409a6a, 0x43ada245);
    NextRound(block, 5,
      Hash(0x04409a6a, 0xd550f666, 0xc8c347a7, 0x5a6ad9ad, 0x43ada245, 0x24e00850, 0xf92939eb, 0x78ce7989),
      0x59f111f1, 0x00000000, 0x2b4209f5, 0x714260ad);
    NextRound(block, 6,
      Hash(0x2b4209f5, 0x04409a6a, 0xd550f666, 0xc8c347a7, 0x714260ad, 0x43ada245, 0x24e00850, 0xf92939eb),
      0x923f82a4, 0x00000000, 0xe5030380, 0x9b27a401);
    NextRound(block, 7,
      Hash(0xe5030380, 0x2b4209f5, 0x04409a6a, 0xd550f666, 0x9b27a401, 0x714260ad, 0x43ada245, 0x24e00850),
      0xab1c5ed5, 0x00000000, 0x85a07b5f, 0x0c657a79);
  }

  lemma {:induction false} Rounds16(block: Chunk)
    requires block == Block()
    ensures Rounds(Initial(), block, 16) ==
      Hash(0xb0fa238e, 0xc0645fde, 0xd932eb16, 0x87912990,
           0x07590dcd, 0x0b92f20c, 0x745a48de, 0x1e578218)
  {
    hide W, Rounds;
    Rounds8(block);
    Words8(block);
    NextRound(block, 8,
      Hash(0x85a07b5f, 0xe5030380, 0x2b4209f5, 0x04409a6a, 0x0c657a79, 0x9b27a401, 0x714260ad, 0x43ada245),
      0xd807aa98, 0x00000000, 0x8e04ecb9, 0x32ca2d8c);
    NextRound(block, 9,
      Hash(0x8e04ecb9, 0x85a07b5f, 0xe5030380, 0x2b4209f5, 0x32ca2d8c, 0x0c657a79, 0x9b27a401, 0x714260ad),
      0x12835b01, 0x00000000, 0x8c87346b, 0x1cc92596);
    NextRound(block, 10,
      Hash(0x8c87346b, 0x8e04ecb9, 0x85a07b5f, 0xe5030380, 0x1cc92596, 0x32ca2d8c, 0x0c657a79, 0x9b27a401),
      0x243185be, 0x00000000, 0x4798a3f4, 0x436b23e8);
    NextRound(block, 11,
      Hash(0x4798a3f4, 0x8c87346b, 0x8e04ecb9, 0x85a07b5f, 0x436b23e8, 0x1cc92596, 0x32ca2d8c, 0x0c657a79),
      0x550c7dc3, 0x00000000, 0xf71fc5a9, 0x816fd6e9);
    NextRound(block, 12,
      Hash(0xf71fc5a9, 0x4798a3f4, 0x8c87346b, 0x8e04ecb9, 0x816fd6e9, 0x436b23e8, 0x1cc92596, 0x32ca2d8c),
      0x72be5d74, 0x00000000, 0x87912990, 0x1e578218);
    NextRound(block, 13,
      Hash(0x87912990, 0xf71fc5a9, 0x4798a3f4, 0x8c87346b, 0x1e578218, 0x816fd6e9, 0x436b23e8, 0x1cc92596),
      0x80deb1fe, 0x00000000, 0xd932eb16, 0x745a48de);
    NextRound(block, 14,
      Hash(0xd932eb16, 0x87912990, 0xf71fc5a9, 0x4798a3f4, 0x745a48de, 0x1e578218, 0x816fd6e9, 0x436b23e8),
      0x9bdc06a7, 0x00000000, 0xc0645fde, 0x0b92f20c);
    NextRound(block, 15,
      Hash(0xc0645fde, 0xd932eb16, 0x87912990, 0xf71fc5a9, 0x0b92f20c, 0x745a48de, 0x1e578218, 0x816fd6e9),
      0xc19bf174, 0x00000018, 0xb0fa238e, 0x07590dcd);
  }

  lemma {:induction false} Rounds24(block: Chunk)
    requires block == Block()
    ensures Rounds(Initial(), block, 24) ==
      Hash(0xc5d53d8d, 0xa7a3623f, 0xc2606d6d, 0x9dc68b63,
           0xaa47c347, 0x49f5114a, 0xe1257970, 0x8ada8930)
  {
    hide W, Rounds;
    Rounds16(block);
    Words16(block);
    NextRound(block, 16,
      Hash(0xb0fa238e, 0xc0645fde, 0xd932eb16, 0x87912990, 0x07590dcd, 0x0b92f20c, 0x745a48de, 0x1e578218),
      0xe49b69c1, 0x61626380, 0x21da9a9b, 0x8034229c);
    NextRound(block, 17,
      Hash(0x21da9a9b, 0xb0fa238e, 0xc0645fde, 0xd932eb16, 0x8034229c, 0x07590dcd, 0x0b92f20c, 0x745a48de),
      0xefbe4786, 0x000f0000, 0xc2fbd9d1, 0x846ee454);
    NextRound(block, 18,
      Hash(0xc2fbd9d1, 0x21da9a9b, 0xb0fa238e, 0xc0645fde, 0x846ee454, 0x8034229c, 0x07590dcd, 0x0b92f20c),
      0x0fc19dc6, 0x7da86405, 0xfe777bbf, 0xcc899961);
    NextRound(block, 19,
      Hash(0xfe777bbf, 0xc2fbd9d1, 0x21da9a9b, 0xb0fa238e, 0xcc899961, 0x846ee454, 0x8034229c, 0x07590dcd),
      0x240ca1cc, 0x600003c6, 0xe1f20c33, 0xb0638179);
    NextRound(block, 20,
      Hash(0xe1f20c33, 0xfe777bbf, 0xc2fbd9d1, 0x21da9a9b, 0xb0638179, 0xcc899961, 0x846ee454, 0x8034229c),
      0x2de92c6f, 0x3e9d7b78, 0x9dc68b63, 0x8ada8930);
    NextRound(block, 21,
      Hash(0x9dc68b63, 0xe1f20c33, 0xfe777bbf, 0xc2fbd9d1, 0x8ada8930, 0xb0638179, 0xcc899961, 0x846ee454),
      0x4a7484aa, 0x0183fc00, 0xc2606d6d, 0xe1257970);
    NextRound(block, 22,
      Hash(0xc2606d6d, 0x9dc68b63, 0xe1f20c33, 0xfe777bbf, 0xe1257970, 0x8ada8930, 0xb0638179, 0xcc899961),
      0x5cb0a9dc, 0x12dcbfdb, 0xa7a3623f, 0x49f5114a);
    NextRound(block, 23,
      Hash(0xa7a3623f, 0xc2606d6d, 0x9dc68b63, 0xe1f20c33, 0x49f5114a, 0xe1257970, 0x8ada8930, 0xb0638179),
      0x76f988da, 0xe2e2c38e, 0xc5d53d8d, 0xaa47c347);
  }

  lemma {:induction false} Rounds32(block: Chunk)
    requires block == Block()
    ensures Rounds(Initial(), block, 32) ==
      Hash(0x73b33bf5, 0xea992a22, 0xa0060b30, 0x363482c9,
           0xba591112, 0x0109ab3a, 0xade79437, 0x6112a3b7)
  {
    hide W, Rounds;
    Rounds24(block);
    Words24(block);
    NextRound(block, 24,
      Hash(0xc5d53d8d, 0xa7a3623f, 0xc2606d6d, 0x9dc68b63, 0xaa47c347, 0x49f5114a, 0xe1257970, 0x8ada8930),
      0x983e5152, 0xc8215c1a, 0x1c2c2838, 0x2823ef91);
    NextRound(block, 25,
      Hash(0x1c2c2838, 0xc5d53d8d, 0xa7a3623f, 0xc2606d6d, 0x2823ef91, 0xaa47c347, 0x49f5114a, 0xe1257970),
      0xa831c66d, 0xb73679a2, 0xcde8037d, 0x14383d8e);
    NextRound(block, 26,
      Hash(0xcde8037d, 0x1c2c2838, 0xc5d53d8d, 0xa7a3623f, 0x14383d8e, 0x2823ef91, 0xaa47c347, 0x49f5114a),
      0xb00327c8, 0xe5bc3909, 0xb62ec4bc, 0xc74c6516);
    NextRound(block, 27,
      Hash(0xb62ec4bc, 0xcde8037d, 0x1c2c2838, 0xc5d53d8d, 0xc74c6516, 0x14383d8e, 0x2823ef91, 0xaa47c347),
      0xbf597fc7, 0x32663c5b, 0x77d37528, 0xedffbff8);
    NextRound(block, 28,
      Hash(0x77d37528, 0xb62ec4bc, 0xcde8037d, 0x1c2c2838, 0xedffbff8, 0xc74c6516, 0x14383d8e, 0x2823ef91),
      0xc6e00bf3, 0x9d209d67, 0x363482c9, 0x6112a3b7);
    NextRound(block, 29,
      Hash(0x363482c9, 0x77d37528, 0xb62ec4bc, 0xcde8037d, 0x6112a3b7, 0xedffbff8, 0xc74c6516, 0x14383d8e),
      0xd5a79147, 0xec8726cb, 0xa0060b30, 0xade79437);
    NextRound(block, 30,
      Hash(0xa0060b30, 0x363482c9, 0x77d37528, 0xb62ec4bc, 0xade79437, 0x6112a3b7, 0xedffbff8, 0xc74c6516),
      0x06ca6351, 0x702138a4, 0xea992a22, 0x0109ab3a);
    NextRound(block, 31,
      Hash(0xea992a22, 0xa0060b30, 0x363482c9, 0x77d37528, 0x0109ab3a, 0xade79437, 0x6112a3b7, 0xedffbff8),
      0x14292967, 0xd3b7973b, 0x73b33bf5, 0xba591112);
  }

  lemma {:induction false} Rounds40(block: Chunk)
    requires block == Block()
    ensures Rounds(Initial(), block, 40) ==
      Hash(0x79ea687a, 0x6dc57a8a, 0x34df1604, 0x41a65cb1,
           0x1efbc0a0, 0xf0781bc8, 0xa507a53d, 0x0772a26b)
  {
    hide W, Rounds;
    Rounds32(block);
    Words32(block);
    NextRound(block, 32,
      Hash(0x73b33bf5, 0xea992a22, 0xa0060b30, 0x363482c9, 0xba591112, 0x0109ab3a, 0xade79437, 0x6112a3b7),
      0x27b70a85, 0x93f5997f, 0x98e12507, 0x9cd9f5f6);
    NextRound(block, 33,
      Hash(0x98e12507, 0x73b33bf5, 0xea992a22, 0xa0060b30, 0x9cd9f5f6, 0xba591112, 0x0109ab3a, 0xade79437),
      0x2e1b2138, 0x3b68ba73, 0xfe604df5, 0x59249dd3);
    NextRound(block, 34,
      Hash(0xfe604df5, 0x98e12507, 0x73b33bf5, 0xea992a22, 0x59249dd3, 0x9cd9f5f6, 0xba591112, 0x0109ab3a),
      0x4d2c6dfc, 0xaff4ffc1, 0xa9a7738c, 0x085f3833);
    NextRound(block, 35,
      Hash(0xa9a7738c, 0xfe604df5, 0x98e12507, 0x73b33bf5, 0x085f3833, 0x59249dd3, 0x9cd9f5f6, 0xba591112),
      0x53380d13, 0xf10a5c62, 0x65a0cfe4, 0xf4b002d6);
    NextRound(block, 36,
      Hash(0x65a0cfe4, 0xa9a7738c, 0xfe604df5, 0x98e12507, 0xf4b002d6, 0x085f3833, 0x59249dd3, 0x9cd9f5f6),
      0x650a7354, 0x0a8b3996, 0x41a65cb1, 0x0772a26b);
    NextRound(block, 37,
      Hash(0x41a65cb1, 0x65a0cfe4, 0xa9a7738c, 0xfe604df5, 0x0772a26b, 0xf4b002d6, 0x085f3833, 0x59249dd3),
      0x766a0abb, 0x72af830a, 0x34df1604, 0xa507a53d);
    NextRound(block, 38,
      Hash(0x34df1604, 0x41a65cb1, 0x65a0cfe4, 0xa9a7738c, 0xa507a53d, 0x0772a26b, 0xf4b002d6, 0x085f3833),
      0x81c2c92e, 0x9409e33e, 0x6dc57a8a, 0xf0781bc8);
    NextRound(block, 39,
      Hash(0x6dc57a8a, 0x34df1604, 0x41a65cb1, 0x65a0cfe4, 0xf0781bc8, 0xa507a53d, 0x0772a26b, 0xf4b002d6),
      0x92722c85, 0x24641522, 0x79ea687a, 0x1efbc0a0);
  }

  lemma {:induction false} Rounds48(block: Chunk)
    requires block == Block()
    ensures Rounds(Initial(), block, 48) ==
      Hash(0x4172328d, 0xa14c14b0, 0x72ab4b91, 0x26628815,
           0xfecf0bc6, 0xd57b94a9, 0xb7755da1, 0xa80f11f0)
  {
    hide W, Rounds;
    Rounds40(block);
    Words40(block);
    NextRound(block, 40,
      Hash(0x79ea687a, 0x6dc57a8a, 0x34df1604, 0x41a65cb1, 0x1efbc0a0, 0xf0781bc8, 0xa507a53d, 0x0772a26b),
      0xa2bfe8a1, 0x9f47bf94, 0xd6670766, 0x26352d63);
    NextRound(block, 41,
      Hash(0xd6670766, 0x79ea687a, 0x6dc57a8a, 0x34df1604, 0x26352d63, 0x1efbc0a0, 0xf0781bc8, 0xa507a53d),
      0xa81a664b, 0xf0a64f5a, 0xdf46652f, 0x838b2711);
    NextRound(block, 42,
      Hash(0xdf46652f, 0xd6670766, 0x79ea687a, 0x6dc57a8a, 0x838b2711, 0x26352d63, 0x1efbc0a0, 0xf0781bc8),
      0xc24b8b70, 0x3e246a79, 0x17aa0dfe, 0xdecd4715);
    NextRound(block, 43,
      Hash(0x17aa0dfe, 0xdf46652f, 0xd6670766, 0x79ea687a, 0xdecd4715, 0x838b2711, 0x26352d63, 0x1efbc0a0),
      0xc76c51a3, 0x27333ba3, 0x9d4baf93, 0xfda24c2e);
    NextRound(block, 44,
      Hash(0x9d4baf93, 0x17aa0dfe, 0xdf46652f, 0xd6670766, 0xfda24c2e, 0xdecd4715, 0x838b2711, 0x26352d63),
      0xd192e819, 0x0c4763f2, 0x26628815, 0xa80f11f0);
    NextRound(block, 45,
      Hash(0x26628815, 0x9d4baf93, 0x17aa0dfe, 0xdf46652f, 0xa80f11f0, 0xfda24c2e, 0xdecd4715, 0x838b2711),
      0xd6990624, 0x840abf27, 0x72ab4b91, 0xb7755da1);
    NextRound(block, 46,
      Hash(0x72ab4b91, 0x26628815, 0x9d4baf93, 0x17aa0dfe, 0xb7755da1, 0xa80f11f0, 0xfda24c2e, 0xdecd4715),
      0xf40e3585, 0x7a290d5d, 0xa14c14b0, 0xd57b94a9);
    NextRound(block, 47,
      Hash(0xa14c14b0, 0x72ab4b91, 0x26628815, 0x9d4baf93, 0xd57b94a9, 0xb7755da1, 0xa80f11f0, 0xfda24c2e),
      0x106aa070, 0x065c43da, 0x4172328d, 0xfecf0bc6);
  }

  lemma {:induction false} Rounds56(block: Chunk)
    requires block == Block()
    ensures Rounds(Initial(), block, 56) ==
      Hash(0x38cc9913, 0x3ec45cdb, 0xf5702fdb, 0x101fd28f,
           0x54cb266b, 0xe50e1b4f, 0x9f4787c3, 0x529e7d00)
  {
    hide W, Rounds;
    Rounds48(block);
    Words48(block);
    NextRound(block, 48,
      Hash(0x4172328d, 0xa14c14b0, 0x72ab4b91, 0x26628815, 0xfecf0bc6, 0xd57b94a9, 0xb7755da1, 0xa80f11f0),
      0x19a4c116, 0xfb3e89cb, 0x05757ceb, 0xbd714038);
    NextRound(block, 49,
      Hash(0x05757ceb, 0x4172328d, 0xa14c14b0, 0x72ab4b91, 0xbd714038, 0xfecf0bc6, 0xd57b94a9, 0xb7755da1),
      0x1e376c08, 0xcc7617db, 0xf11bfaa8, 0x6e5c390c);
    NextRound(block, 50,
      Hash(0xf11bfaa8, 0x05757ceb, 0x4172328d, 0xa14c14b0, 0x6e5c390c, 0xbd714038, 0xfecf0bc6, 0xd57b94a9),
      0x2748774c, 0xb9e66c34, 0x7a0508a1, 0x52f1ccf7);
    NextRound(block, 51,
      Hash(0x7a0508a1, 0xf11bfaa8, 0x05757ceb, 0x4172328d, 0x52f1ccf7, 0x6e5c390c, 0xbd714038, 0xfecf0bc6),
      0x34b0bcb5, 0xa9993667, 0x886e7a22, 0x49231c1e);
    NextRound(block, 52,
      Hash(0x886e7a22, 0x7a0508a1, 0xf11bfaa8, 0x05757ceb, 0x49231c1e, 0x52f1ccf7, 0x6e5c390c, 0xbd714038),
      0x391c0cb3, 0x84badedd, 0x101fd28f, 0x529e7d00);
    NextRound(block, 53,
      Hash(0x101fd28f, 0x886e7a22, 0x7a0508a1, 0xf11bfaa8, 0x529e7d00, 0x49231c1e, 0x52f1ccf7, 0x6e5c390c),
      0x4ed8aa4a, 0xc21462bc, 0xf5702fdb, 0x9f4787c3);
    NextRound(block, 54,
      Hash(0xf5702fdb, 0x101fd28f, 0x886e7a22, 0x7a0508a1, 0x9f4787c3, 0x529e7d00, 0x49231c1e, 0x52f1ccf7),
      0x5b9cca4f, 0x1487472c, 0x3ec45cdb, 0xe50e1b4f);
    NextRound(block, 55,
      Hash(0x3ec45cdb, 0xf5702fdb, 0x101fd28f, 0x886e7a22, 0xe50e1b4f, 0x9f4787c3, 0x529e7d00, 0x49231c1e),
      0x682e6ff3, 0xb20f7a99, 0x38cc9913, 0x54cb266b);
  }

  lemma {:induction false} Rounds64(block: Chunk)
    requires block == Block()
    ensures Rounds(Initial(), block, 64) ==
      Hash(0x506e3058, 0xd39a2165, 0x04d24d6c, 0xb85e2ce9,
           0x5ef50f24, 0xfb121210, 0x948d25b6, 0x961f4894)
  {
    hide W, Rounds;
    Rounds56(block);
    Words56(block);
    NextRound(block, 56,
      Hash(0x38cc9913, 0x3ec45cdb, 0xf5702fdb, 0x101fd28f, 0x54cb266b, 0xe50e1b4f, 0x9f4787c3, 0x529e7d00),
      0x748f82ee, 0xef57b9cd, 0xfcd1887b, 0x9b5e906c);
    NextRound(block, 57,
      Hash(0xfcd1887b, 0x38cc9913, 0x3ec45cdb, 0xf5702fdb, 0x9b5e906c, 0x54cb266b, 0xe50e1b4f, 0x9f4787c3),
      0x78a5636f, 0xebe6b238, 0xc062d46f, 0x7e44008e);
    NextRound(block, 58,
      Hash(0xc062d46f, 0xfcd1887b, 0x38cc9913, 0x3ec45cdb, 0x7e44008e, 0x9b5e906c, 0x54cb266b, 0xe50e1b4f),
      0x84c87814, 0x9fe3095e, 0xffb70472, 0x6d83bfc6);
    NextRound(block, 59,
      Hash(0xffb70472, 0xc062d46f, 0xfcd1887b, 0x38cc9913, 0x6d83bfc6, 0x7e44008e, 0x9b5e906c, 0x54cb266b),
      0x8cc70208, 0x78bc8d4b, 0xb6ae8fff, 0xb21bad3d);
    NextRound(block, 60,
      Hash(0xb6ae8fff, 0xffb70472, 0xc062d46f, 0xfcd1887b, 0xb21bad3d, 0x6d83bfc6, 0x7e44008e, 0x9b5e906c),
      0x90befffa, 0xa43fcf15, 0xb85e2ce9, 0x961f4894);
    NextRound(block, 61,
      Hash(0xb85e2ce9, 0xb6ae8fff, 0xffb70472, 0xc062d46f, 0x961f4894, 0xb21bad3d, 0x6d83bfc6, 0x7e44008e),
      0xa4506ceb, 0x668b2ff8, 0x04d24d6c, 0x948d25b6);
    NextRound(block, 62,
      Hash(0x04d24d6c, 0xb85e2ce9, 0xb6ae8fff, 0xffb70472, 0x948d25b6, 0x961f4894, 0xb21bad3d, 0x6d83bfc6),
      0xbef9a3f7, 0xeeaba2cc, 0xd39a2165, 0xfb121210);
    NextRound(block, 63,
      Hash(0xd39a2165, 0x04d24d6c, 0xb85e2ce9, 0xb6ae8fff, 0xfb121210, 0x948d25b6, 0x961f4894, 0xb21bad3d),
      0xc67178f2, 0x12b1edeb, 0x506e3058, 0x5ef50f24);
  }

  lemma {:induction false} NoRounds(block: Chunk)
    ensures Rounds(Initial(), block, 0) == Initial()
  {
  }

  // ------------------------------------------------------------- the message

  /** Fifty-two zeros and a length of 24 bits make the block. */
  lemma {:induction false} PaddedMessage()
    ensures Padded(MESSAGE) == Block()
  {
    hide LengthByte;
    LengthOf24();
    forall i | 0 <= i < 64
      ensures Padded(MESSAGE)[i] == Block()[i]
    {
    }
  }

  lemma {:induction false} LengthOf24()
    ensures forall i: nat :: i < 8 ==> LengthByte(24, i) == if i == 7 then 0x18 else 0
  {
    forall i: nat | i < 8
      ensures LengthByte(24, i) == if i == 7 then 0x18 else 0
    {
      if i < 7 {
        NoQuotient(Scale(6 - i));
      }
    }
  }

  lemma {:induction false} NoQuotient(scale: nat)
    requires scale > 0
    ensures 24 / (256 * scale) == 0
  {
  }

  lemma {:induction false} Blocks(block: Chunk)
    requires block == Block()
    ensures HashOfBlocks(block) ==
      Hash(0xba7816bf, 0x8f01cfea, 0x414140de, 0x5dae2223,
           0xb00361a3, 0x96177a9c, 0xb410ff61, 0xf20015ad)
  {
    hide W, Rounds, Block, Compressed;
    Rounds64(block);
    LastSum(block);
    assert block[..0] == [] && block[0..] == block;
    assert HashOfBlocks([]) == Initial();
  }

  lemma {:induction false} LastSum(block: Chunk)
    requires Rounds(Initial(), block, 64) ==
      Hash(0x506e3058, 0xd39a2165, 0x04d24d6c, 0xb85e2ce9,
           0x5ef50f24, 0xfb121210, 0x948d25b6, 0x961f4894)
    ensures Compressed(Initial(), block) ==
      Hash(0xba7816bf, 0x8f01cfea, 0x414140de, 0x5dae2223,
           0xb00361a3, 0x96177a9c, 0xb410ff61, 0xf20015ad)
  {
    hide Rounds;
  }

  /** The hash of "abc". */
  lemma {:induction false} Example()
    ensures Sha256Of(MESSAGE) == DIGEST
  {
    hide Padded, HashOfBlocks, Block;
    PaddedMessage();
    Blocks(Block());
    ResultBytes(HashOfBlocks(Block()));
  }

  lemma {:induction false} FourBytes(s: Hash, k: nat)
    requires k < 8
    ensures Digest(s)[4 * k..4 * k + 4] == Bytes(WordOf(s, k))
  {
    hide WordByte, WordOf;
    forall j | 0 <= j < 4
      ensures Digest(s)[4 * k + j] == Bytes(WordOf(s, k))[j]
    {
      ByteOfWord(WordOf(s, k), j);
    }
  }

  /** The digest is the state words one after the other. */
  lemma {:induction false} DigestInWords(s: Hash, n: nat)
    requires 0 < n <= 8
    ensures Digest(s)[..4 * n] == WordsUpTo(s, n)
  {
    hide Digest, Bytes, WordOf;
    FourBytes(s, n - 1);
    if n > 1 {
      DigestInWords(s, n - 1);
    }
  }

  function WordsUpTo(s: Hash, n: nat): (bytes: seq<Byte>)
    requires 0 < n <= 8
  {
    if n == 1 then Bytes(WordOf(s, 0)) else WordsUpTo(s, n - 1) + Bytes(WordOf(s, n - 1))
  }

  lemma {:induction false} ResultBytes(s: Hash)
    requires s == Hash(0xba7816bf, 0x8f01cfea, 0x414140de, 0x5dae2223,
                       0xb00361a3, 0x96177a9c, 0xb410ff61, 0xf20015ad)
    ensures Digest(s) == DIGEST
  {
    hide Digest;
    DigestInWords(s, 8);
    assert Digest(s)[..32] == Digest(s);
  }
}
