/** The identifier of memmove, "+P6FRGH4LfA", by way of the SHA-1 hash of its salted name,
    eight words and eight rounds at a time. */
module Sha1Example {
  import opened Basics
  import opened Sha1
  import opened Sha1Code
  import opened Sha256Words
  import Sha256
  import Nid

  /** "memmove" */
  const NAME: seq<Byte> := [0x6d, 0x65, 0x6d, 0x6d, 0x6f, 0x76, 0x65]

  const DIGEST: seq<Byte> :=
    [0xf0, 0x2d, 0xf8, 0x61] +
    [0x44, 0x85, 0xfe, 0xf8] +
    [0x12, 0xcd, 0x50, 0x00] +
    [0x56, 0x8e, 0xac, 0x74] +
    [0xc8, 0x07, 0x4b, 0x2b]

  /** The padded message: the name, the salt, a one bit and a length of 184 bits. */
  function BlockByte(i: nat): Byte {
    match i
    case 0 => 0x6d case 1 => 0x65 case 2 => 0x6d case 3 => 0x6d case 4 => 0x6f
    case 5 => 0x76 case 6 => 0x65 case 7 => 0x51 case 8 => 0x8d case 9 => 0x64
    case 10 => 0xa6 case 11 => 0x35 case 12 => 0xde case 13 => 0xd8 case 14 => 0xc1
    case 15 => 0xe6 case 16 => 0xb0 case 17 => 0x39 case 18 => 0xb1 case 19 => 0xc3
    case 20 => 0xe5 case 21 => 0x52 case 22 => 0x30 case 23 => 0x80 case 63 => 0xb8
    case _ => 0
  }

  function Block(): Chunk {
    seq(64, i requires 0 <= i < 64 => BlockByte(i))
  }

  // --------------------------------------------------------------- one step

  lemma {:induction false} Rotations(x: Word)
    ensures Rotl(x, 1) == (x << 1) | (x >> 31)
    ensures Rotl(x, 5) == (x << 5) | (x >> 27)
    ensures Rotl(x, 30) == (x << 30) | (x >> 2)
  {
  }

  /** A schedule word from those 3, 8, 14 and 16 places before it. */
  function Next(w3: Word, w8: Word, w14: Word, w16: Word): Word {
    ((w3 ^ w8 ^ w14 ^ w16) << 1) | ((w3 ^ w8 ^ w14 ^ w16) >> 31)
  }

  lemma {:induction false} NextWord(block: Chunk, t: nat, w3: Word, w8: Word, w14: Word, w16: Word, w: Word)
    requires 16 <= t < 80 && Next(w3, w8, w14, w16) == w
    requires W(block, t - 3) == w3 && W(block, t - 8) == w8 && W(block, t - 14) == w14 && W(block, t - 16) == w16
    ensures W(block, t) == w
  {
    hide Next, Mixed, Sha256.WordAt;
    MixedIsNext(w3, w8, w14, w16);
  }

  lemma {:induction false} MixedIsNext(w3: Word, w8: Word, w14: Word, w16: Word)
    ensures Mixed(w3, w8, w14, w16) == Next(w3, w8, w14, w16)
  {
    hide Rotl;
    Rotations(w3 ^ w8 ^ w14 ^ w16);
  }

  lemma {:induction false} FirstWord(block: Chunk, t: nat)
    requires t < 16
    ensures W(block, t) == Sha256.WordAt(block, t)
  {
    hide Sha256.WordAt;
  }

  function Left5(x: Word): Word {
    (x << 5) | (x >> 27)
  }

  function Left30(x: Word): Word {
    (x << 30) | (x >> 2)
  }

  lemma {:induction false} RoundRotations(x: Word)
    ensures Rotl(x, 5) == Left5(x) && Rotl(x, 30) == Left30(x)
  {
    hide Rotl;
    Rotations(x);
  }

  function NewA(s: Hash, f: Word, k: Word, w: Word): Word {
    Sha256.Add(Sha256.Add(Sha256.Add(Sha256.Add(Left5(s.a), f), s.e), k), w)
  }

  /** A round makes a new word a, rotates b and moves the others. */
  lemma {:induction false} NextRound(block: Chunk, t: nat, s: Hash, w: Word, a: Word, c: Word)
    requires t < 80 && Rounds(Initial(), block, t) == s && W(block, t) == w
    requires NewA(s, F(t, s.b, s.c, s.d), K(t), w) == a && Left30(s.b) == c
    ensures Rounds(Initial(), block, t + 1) == Hash(a, s.a, c, s.c, s.d)
  {
    hide K, W, F, Sha256.Add, Rotl, Left5, Left30;
    RoundRotations(s.a);
    RoundRotations(s.b);
  }

  lemma {:induction false} Words0(block: Chunk)
    requires block == Block()
    ensures W(block, 0) == 0x6d656d6d && W(block, 1) == 0x6f766551
    ensures W(block, 2) == 0x8d64a635 && W(block, 3) == 0xded8c1e6
    ensures W(block, 4) == 0xb039b1c3 && W(block, 5) == 0xe5523080
    ensures W(block, 6) == 0x00000000 && W(block, 7) == 0x00000000
  {
    hide W;
    FirstWord(block, 0);
    FirstWord(block, 1);
    FirstWord(block, 2);
    FirstWord(block, 3);
    FirstWord(block, 4);
    FirstWord(block, 5);
    FirstWord(block, 6);
    FirstWord(block, 7);
  }

  lemma {:induction false} Words8(block: Chunk)
    requires block == Block()
    ensures W(block, 8) == 0x00000000 && W(block, 9) == 0x00000000
    ensures W(block, 10) == 0x00000000 && W(block, 11) == 0x00000000
    ensures W(block, 12) == 0x00000000 && W(block, 13) == 0x00000000
    ensures W(block, 14) == 0x00000000 && W(block, 15) == 0x000000b8
  {
    hide W;
    FirstWord(block, 8);
    FirstWord(block, 9);
    FirstWord(block, 10);
    FirstWord(block, 11);
    FirstWord(block, 12);
    FirstWord(block, 13);
    FirstWord(block, 14);
    FirstWord(block, 15);
  }

  lemma {:induction false} Words16(block: Chunk)
    requires block == Block()
    ensures W(block, 16) == 0xc00396b1 && W(block, 17) == 0x635d496f
    ensures W(block, 18) == 0x7aba2e9c && W(block, 19) == 0xf712cfaf
    ensures W(block, 20) == 0xa6c9f159 && W(block, 21) == 0x3fd03c39
    ensures W(block, 22) == 0xee259f5f && W(block, 23) == 0x4d93e3c3
  {
    hide W;
    Words0(block);
    Words8(block);
    NextWord(block, 16, 0x00000000, 0x00000000, 0x8d64a635, 0x6d656d6d, 0xc00396b1);
    NextWord(block, 17, 0x00000000, 0x00000000, 0xded8c1e6, 0x6f766551, 0x635d496f);
    NextWord(block, 18, 0x000000b8, 0x00000000, 0xb039b1c3, 0x8d64a635, 0x7aba2e9c);
    NextWord(block, 19, 0xc00396b1, 0x00000000, 0xe5523080, 0xded8c1e6, 0xf712cfaf);
    NextWord(block, 20, 0x635d496f, 0x00000000, 0x00000000, 0xb039b1c3, 0xa6c9f159);
    NextWord(block, 21, 0x7aba2e9c, 0x00000000, 0x00000000, 0xe5523080, 0x3fd03c39);
    NextWord(block, 22, 0xf712cfaf, 0x00000000, 0x00000000, 0x00000000, 0xee259f5f);
    NextWord(block, 23, 0xa6c9f159, 0x000000b8, 0x00000000, 0x00000000, 0x4d93e3c3);
  }

  lemma {:induction false} Words24(block: Chunk)
    requires block == Block()
    ensures W(block, 24) == 0xffa75511 && W(block, 25) == 0x1af1ac61
    ensures W(block, 26) == 0x6e539abe && W(block, 27) == 0x116b357c
    ensures W(block, 28) == 0x7870ba71 && W(block, 29) == 0xa3074c7e
    ensures W(block, 30) == 0x7e9a7924 && W(block, 31) == 0xad7c20ca
  {
    hide W;
    Words8(block);
    Words16(block);
    NextWord(block, 24, 0x3fd03c39, 0xc00396b1, 0x00000000, 0x00000000, 0xffa75511);
    NextWord(block, 25, 0xee259f5f, 0x635d496f, 0x00000000, 0x00000000, 0x1af1ac61);
    NextWord(block, 26, 0x4d93e3c3, 0x7aba2e9c, 0x00000000, 0x00000000, 0x6e539abe);
    NextWord(block, 27, 0xffa75511, 0xf712cfaf, 0x00000000, 0x00000000, 0x116b357c);
    NextWord(block, 28, 0x1af1ac61, 0xa6c9f159, 0x00000000, 0x00000000, 0x7870ba71);
    NextWord(block, 29, 0x6e539abe, 0x3fd03c39, 0x000000b8, 0x00000000, 0xa3074c7e);
    NextWord(block, 30, 0x116b357c, 0xee259f5f, 0xc00396b1, 0x00000000, 0x7e9a7924);
    NextWord(block, 31, 0x7870ba71, 0x4d93e3c3, 0x635d496f, 0x000000b8, 0xad7c20ca);
  }

  lemma {:induction false} Words32(block: Chunk)
    requires block == Block()
    ensures W(block, 32) == 0xcc334285 && W(block, 33) == 0xe048a70b
    ensures W(block, 34) == 0x3eb8cb62 && W(block, 35) == 0x2b3508de
    ensures W(block, 36) == 0xa1a8e6f9 && W(block, 37) == 0xdff8b1cd
    ensures W(block, 38) == 0x885b7768 && W(block, 39) == 0xb76d1322
  {
    hide W;
    Words16(block);
    Words24(block);
    NextWord(block, 32, 0xa3074c7e, 0xffa75511, 0x7aba2e9c, 0xc00396b1, 0xcc334285);
    NextWord(block, 33, 0x7e9a7924, 0x1af1ac61, 0xf712cfaf, 0x635d496f, 0xe048a70b);
    NextWord(block, 34, 0xad7c20ca, 0x6e539abe, 0xa6c9f159, 0x7aba2e9c, 0x3eb8cb62);
    NextWord(block, 35, 0xcc334285, 0x116b357c, 0x3fd03c39, 0xf712cfaf, 0x2b3508de);
    NextWord(block, 36, 0xe048a70b, 0x7870ba71, 0xee259f5f, 0xa6c9f159, 0xa1a8e6f9);
    NextWord(block, 37, 0x3eb8cb62, 0xa3074c7e, 0x4d93e3c3, 0x3fd03c39, 0xdff8b1cd);
    NextWord(block, 38, 0x2b3508de, 0x7e9a7924, 0xffa75511, 0xee259f5f, 0x885b7768);
    NextWord(block, 39, 0xa1a8e6f9, 0xad7c20ca, 0x1af1ac61, 0x4d93e3c3, 0xb76d1322);
  }

  lemma {:induction false} Words40(block: Chunk)
    requires block == Block()
    ensures W(block, 40) == 0x047e79cf && W(block, 41) == 0xc71292fc
    ensures W(block, 42) == 0x3fedf11f && W(block, 43) == 0x3a4e1027
    ensures W(block, 44) == 0xc0a16ea0 && W(block, 45) == 0xdcdc58cd
    ensures W(block, 46) == 0x0178b9dc && W(block, 47) == 0x75f1f486
  {
    hide W;
    Words24(block);
    Words32(block);
    NextWord(block, 40, 0xdff8b1cd, 0xcc334285, 0x6e539abe, 0xffa75511, 0x047e79cf);
    NextWord(block, 41, 0x885b7768, 0xe048a70b, 0x116b357c, 0x1af1ac61, 0xc71292fc);
    NextWord(block, 42, 0xb76d1322, 0x3eb8cb62, 0x7870ba71, 0x6e539abe, 0x3fedf11f);
    NextWord(block, 43, 0x047e79cf, 0x2b3508de, 0xa3074c7e, 0x116b357c, 0x3a4e1027);
    NextWord(block, 44, 0xc71292fc, 0xa1a8e6f9, 0x7e9a7924, 0x7870ba71, 0xc0a16ea0);
    NextWord(block, 45, 0x3fedf11f, 0xdff8b1cd, 0xad7c20ca, 0xa3074c7e, 0xdcdc58cd);
    NextWord(block, 46, 0x3a4e1027, 0x885b7768, 0xcc334285, 0x7e9a7924, 0x0178b9dc);
    NextWord(block, 47, 0xc0a16ea0, 0xb76d1322, 0xe048a70b, 0xad7c20ca, 0x75f1f486);
  }

  lemma {:induction false} Words48(block: Chunk)
    requires block == Block()
    ensures W(block, 48) == 0x545351ca && W(block, 49) == 0x1a2f09ea
    ensures W(block, 50) == 0xaa185005 && W(block, 51) == 0x35a1f1fd
    ensures W(block, 52) == 0xe6fbedb7 && W(block, 53) == 0x3ca3544e
    ensures W(block, 54) == 0x71f88d0d && W(block, 55) == 0xc6eb31df
  {
    hide W;
    Words32(block);
    Words40(block);
    NextWord(block, 48, 0xdcdc58cd, 0x047e79cf, 0x3eb8cb62, 0xcc334285, 0x545351ca);
    NextWord(block, 49, 0x0178b9dc, 0xc71292fc, 0x2b3508de, 0xe048a70b, 0x1a2f09ea);
    NextWord(block, 50, 0x75f1f486, 0x3fedf11f, 0xa1a8e6f9, 0x3eb8cb62, 0xaa185005);
    NextWord(block, 51, 0x545351ca, 0x3a4e1027, 0xdff8b1cd, 0x2b3508de, 0x35a1f1fd);
    NextWord(block, 52, 0x1a2f09ea, 0xc0a16ea0, 0x885b7768, 0xa1a8e6f9, 0xe6fbedb7);
    NextWord(block, 53, 0xaa185005, 0xdcdc58cd, 0xb76d1322, 0xdff8b1cd, 0x3ca3544e);
    NextWord(block, 54, 0x35a1f1fd, 0x0178b9dc, 0x047e79cf, 0x885b7768, 0x71f88d0d);
    NextWord(block, 55, 0xe6fbedb7, 0x75f1f486, 0xc71292fc, 0xb76d1322, 0xc6eb31df);
  }

  lemma {:induction false} Words56(block: Chunk)
    requires block == Block()
    ensures W(block, 56) == 0xa6c71aa8 && W(block, 57) == 0x2d160c79
    ensures W(block, 58) == 0x277ffccb && W(block, 59) == 0xebe9477e
    ensures W(block, 60) == 0x14686d64 && W(block, 61) == 0x65e2099d
    ensures W(block, 62) == 0x9e7444cb && W(block, 63) == 0x7abb43af
  {
    hide W;
    Words40(block);
    Words48(block);
    NextWord(block, 56, 0x3ca3544e, 0x545351ca, 0x3fedf11f, 0x047e79cf, 0xa6c71aa8);
    NextWord(block, 57, 0x71f88d0d, 0x1a2f09ea, 0x3a4e1027, 0xc71292fc, 0x2d160c79);
    NextWord(block, 58, 0xc6eb31df, 0xaa185005, 0xc0a16ea0, 0x3fedf11f, 0x277ffccb);
    NextWord(block, 59, 0xa6c71aa8, 0x35a1f1fd, 0xdcdc58cd, 0x3a4e1027, 0xebe9477e);
    NextWord(block, 60, 0x2d160c79, 0xe6fbedb7, 0x0178b9dc, 0xc0a16ea0, 0x14686d64);
    NextWord(block, 61, 0x277ffccb, 0x3ca3544e, 0x75f1f486, 0xdcdc58cd, 0x65e2099d);
    NextWord(block, 62, 0xebe9477e, 0x71f88d0d, 0x545351ca, 0x0178b9dc, 0x9e7444cb);
    NextWord(block, 63, 0x14686d64, 0xc6eb31df, 0x1a2f09ea, 0x75f1f486, 0x7abb43af);
  }

  lemma {:induction false} Words64(block: Chunk)
    requires block == Block()
    ensures W(block, 64) == 0x7adc25f4 && W(block, 65) == 0x39d9614b
    ensures W(block, 66) == 0x224e05ac && W(block, 67) == 0x306f8e73
    ensures W(block, 68) == 0x7564d92b && W(block, 69) == 0x7bc8d341
    ensures W(block, 70) == 0xf248ba3a && W(block, 71) == 0xc8454e45
  {
    hide W;
    Words48(block);
    Words56(block);
    NextWord(block, 64, 0x65e2099d, 0xa6c71aa8, 0xaa185005, 0x545351ca, 0x7adc25f4);
    NextWord(block, 65, 0x9e7444cb, 0x2d160c79, 0x35a1f1fd, 0x1a2f09ea, 0x39d9614b);
    NextWord(block, 66, 0x7abb43af, 0x277ffccb, 0xe6fbedb7, 0xaa185005, 0x224e05ac);
    NextWord(block, 67, 0x7adc25f4, 0xebe9477e, 0x3ca3544e, 0x35a1f1fd, 0x306f8e73);
    NextWord(block, 68, 0x39d9614b, 0x14686d64, 0x71f88d0d, 0xe6fbedb7, 0x7564d92b);
    NextWord(block, 69, 0x224e05ac, 0x65e2099d, 0xc6eb31df, 0x3ca3544e, 0x7bc8d341);
    NextWord(block, 70, 0x306f8e73, 0x9e7444cb, 0xa6c71aa8, 0x71f88d0d, 0xf248ba3a);
    NextWord(block, 71, 0x7564d92b, 0x7abb43af, 0x2d160c79, 0xc6eb31df, 0xc8454e45);
  }

  lemma {:induction false} Words72(block: Chunk)
    requires block == Block()
    ensures W(block, 72) == 0x015821ad && W(block, 73) == 0x1add20ec
    ensures W(block, 74) == 0xb239b48d && W(block, 75) == 0x7e79c27b
    ensures W(block, 76) == 0xcb4ba0d1 && W(block, 77) == 0xad505bfd
    ensures W(block, 78) == 0xd13232fc && W(block, 79) == 0x80d998e0
  {
    hide W;
    Words56(block);
    Words64(block);
    NextWord(block, 72, 0x7bc8d341, 0x7adc25f4, 0x277ffccb, 0xa6c71aa8, 0x015821ad);
    NextWord(block, 73, 0xf248ba3a, 0x39d9614b, 0xebe9477e, 0x2d160c79, 0x1add20ec);
    NextWord(block, 74, 0xc8454e45, 0x224e05ac, 0x14686d64, 0x277ffccb, 0xb239b48d);
    NextWord(block, 75, 0x015821ad, 0x306f8e73, 0x65e2099d, 0xebe9477e, 0x7e79c27b);
    NextWord(block, 76, 0x1add20ec, 0x7564d92b, 0x9e7444cb, 0x14686d64, 0xcb4ba0d1);
    NextWord(block, 77, 0xb239b48d, 0x7bc8d341, 0x7abb43af, 0x65e2099d, 0xad505bfd);
    NextWord(block, 78, 0x7e79c27b, 0xf248ba3a, 0x7adc25f4, 0x9e7444cb, 0xd13232fc);
    NextWord(block, 79, 0xcb4ba0d1, 0xc8454e45, 0x39d9614b, 0x7abb43af, 0x80d998e0);
  }

  lemma {:induction false} Rounds8(block: Chunk)
    requires block == Block()
    ensures Rounds(Initial(), block, 8) ==
      Hash(0xebce90aa, 0x7c9ea968, 0xcad2b2a4, 0xa7137de3, 0xba5ad7a3)
  {
    hide W, Rounds;
    NoRounds(block);
    Words0(block);
    NextRound(block, 0, Hash(0x67452301, 0xefcdab89, 0x98badcfe, 0x10325476, 0xc3d2e1f0),
      0x6d656d6d, 0x0d1a0620, 0x7bf36ae2);
    NextRound(block, 1, Hash(0x0d1a0620, 0x67452301, 0x7bf36ae2, 0x98badcfe, 0x10325476),
      0x6f766551, 0x7967f65f, 0x59d148c0);
    NextRound(block, 2, Hash(0x7967f65f, 0x0d1a0620, 0x59d148c0, 0x7bf36ae2, 0x98badcfe),
      0x8d64a635, 0x2992317d, 0x03468188);
    NextRound(block, 3, Hash(0x2992317d, 0x7967f65f, 0x03468188, 0x59d148c0, 0x7bf36ae2),
      0xded8c1e6, 0xe96b5e8e, 0xde59fd97);
    NextRound(block, 4, Hash(0xe96b5e8e, 0x2992317d, 0xde59fd97, 0x03468188, 0x59d148c0),
      0xb039b1c3, 0x9c4df78e, 0x4a648c5f);
    NextRound(block, 5, Hash(0x9c4df78e, 0xe96b5e8e, 0x4a648c5f, 0xde59fd97, 0x03468188),
      0xe5523080, 0x2b4aca93, 0xba5ad7a3);
    NextRound(block, 6, Hash(0x2b4aca93, 0x9c4df78e, 0xba5ad7a3, 0x4a648c5f, 0xde59fd97),
      0x00000000, 0x7c9ea968, 0xa7137de3);
    NextRound(block, 7, Hash(0x7c9ea968, 0x2b4aca93, 0xa7137de3, 0xba5ad7a3, 0x4a648c5f),
      0x00000000, 0xebce90aa, 0xcad2b2a4);
  }

  lemma {:induction false} Rounds16(block: Chunk)
    requires block == Block()
    ensures Rounds(Initial(), block, 16) ==
      Hash(0xa2c37d84, 0x4a119cd6, 0xc9247372, 0x1c7c1e96, 0x8c0eec97)
  {
    hide W, Rounds;
    Rounds8(block);
    Words8(block);
    NextRound(block, 8, Hash(0xebce90aa, 0x7c9ea968, 0xcad2b2a4, 0xa7137de3, 0xba5ad7a3),
      0x00000000, 0x5a435b3c, 0x1f27aa5a);
    NextRound(block, 9, Hash(0x5a435b3c, 0xebce90aa, 0x1f27aa5a, 0xcad2b2a4, 0xa7137de3),
      0x00000000, 0x55180115, 0xbaf3a42a);
    NextRound(block, 10, Hash(0x55180115, 0x5a435b3c, 0xbaf3a42a, 0x1f27aa5a, 0xcad2b2a4),
      0x00000000, 0xe7bcef51, 0x1690d6cf);
    NextRound(block, 11, Hash(0xe7bcef51, 0x55180115, 0x1690d6cf, 0xbaf3a42a, 0x1f27aa5a),
      0x00000000, 0x303bb25e, 0x55460045);
    NextRound(block, 12, Hash(0x303bb25e, 0xe7bcef51, 0x55460045, 0x1690d6cf, 0xbaf3a42a),
      0x00000000, 0x71f07a58, 0x79ef3bd4);
    NextRound(block, 13, Hash(0x71f07a58, 0x303bb25e, 0x79ef3bd4, 0x55460045, 0x1690d6cf),
      0x00000000, 0x2491cdcb, 0x8c0eec97);
    NextRound(block, 14, Hash(0x2491cdcb, 0x71f07a58, 0x8c0eec97, 0x79ef3bd4, 0x55460045),
      0x00000000, 0x4a119cd6, 0x1c7c1e96);
    NextRound(block, 15, Hash(0x4a119cd6, 0x2491cdcb, 0x1c7c1e96, 0x8c0eec97, 0x79ef3bd4),
      0x000000b8, 0xa2c37d84, 0xc9247372);
  }

  lemma {:induction false} Rounds24(block: Chunk)
    requires block == Block()
    ensures Rounds(Initial(), block, 24) ==
      Hash(0x5e55cdcf, 0x69af02d3, 0xbe9d740f, 0xe2d3ae8e, 0xd9266bf0)
  {
    hide W, Rounds;
    Rounds16(block);
    Words16(block);
    NextRound(block, 16, Hash(0xa2c37d84, 0x4a119cd6, 0xc9247372, 0x1c7c1e96, 0x8c0eec97),
      0xc00396b1, 0x5b70bfc7, 0x92846735);
    NextRound(block, 17, Hash(0x5b70bfc7, 0xa2c37d84, 0x92846735, 0xc9247372, 0x1c7c1e96),
      0x635d496f, 0x141841ff, 0x28b0df61);
    NextRound(block, 18, Hash(0x141841ff, 0x5b70bfc7, 0x28b0df61, 0x92846735, 0xc9247372),
      0x7aba2e9c, 0xaa1e3afa, 0xd6dc2ff1);
    NextRound(block, 19, Hash(0xaa1e3afa, 0x141841ff, 0xd6dc2ff1, 0x28b0df61, 0x92846735),
      0xf712cfaf, 0x6499afc3, 0xc506107f);
    NextRound(block, 20, Hash(0x6499afc3, 0xaa1e3afa, 0xc506107f, 0xd6dc2ff1, 0x28b0df61),
      0xa6c9f159, 0x8b4eba3b, 0xaa878ebe);
    NextRound(block, 21, Hash(0x8b4eba3b, 0x6499afc3, 0xaa878ebe, 0xc506107f, 0xd6dc2ff1),
      0x3fd03c39, 0xfa75d03e, 0xd9266bf0);
    NextRound(block, 22, Hash(0xfa75d03e, 0x8b4eba3b, 0xd9266bf0, 0xaa878ebe, 0xc506107f),
      0xee259f5f, 0x69af02d3, 0xe2d3ae8e);
    NextRound(block, 23, Hash(0x69af02d3, 0xfa75d03e, 0xe2d3ae8e, 0xd9266bf0, 0xaa878ebe),
      0x4d93e3c3, 0x5e55cdcf, 0xbe9d740f);
  }

  lemma {:induction false} Rounds32(block: Chunk)
    requires block == Block()
    ensures Rounds(Initial(), block, 32) ==
      Hash(0xce8ef53f, 0x0949195f, 0xa9706ca7, 0x0e872526, 0x38182c1d)
  {
    hide W, Rounds;
    Rounds24(block);
    Words24(block);
    NextRound(block, 24, Hash(0x5e55cdcf, 0x69af02d3, 0xbe9d740f, 0xe2d3ae8e, 0xd9266bf0),
      0xffa75511, 0x48433edf, 0xda6bc0b4);
    NextRound(block, 25, Hash(0x48433edf, 0x5e55cdcf, 0xda6bc0b4, 0xbe9d740f, 0xe2d3ae8e),
      0x1af1ac61, 0xafaa9bed, 0xd7957373);
    NextRound(block, 26, Hash(0xafaa9bed, 0x48433edf, 0xd7957373, 0xda6bc0b4, 0xbe9d740f),
      0x6e539abe, 0xd6dc053b, 0xd210cfb7);
    NextRound(block, 27, Hash(0xd6dc053b, 0xafaa9bed, 0xd210cfb7, 0xd7957373, 0xda6bc0b4),
      0x116b357c, 0xe060b074, 0x6beaa6fb);
    NextRound(block, 28, Hash(0xe060b074, 0xd6dc053b, 0x6beaa6fb, 0xd210cfb7, 0xd7957373),
      0x7870ba71, 0x3a1c9498, 0xf5b7014e);
    NextRound(block, 29, Hash(0x3a1c9498, 0xe060b074, 0xf5b7014e, 0x6beaa6fb, 0xd210cfb7),
      0xa3074c7e, 0xa5c1b29e, 0x38182c1d);
    NextRound(block, 30, Hash(0xa5c1b29e, 0x3a1c9498, 0x38182c1d, 0xf5b7014e, 0x6beaa6fb),
      0x7e9a7924, 0x0949195f, 0x0e872526);
    NextRound(block, 31, Hash(0x0949195f, 0xa5c1b29e, 0x0e872526, 0x38182c1d, 0xf5b7014e),
      0xad7c20ca, 0xce8ef53f, 0xa9706ca7);
  }

  lemma {:induction false} Rounds40(block: Chunk)
    requires block == Block()
    ensures Rounds(Initial(), block, 40) ==
      Hash(0xa31b41ec, 0x7326d29f, 0xb984e599, 0x9db1525c, 0x4f06a06f)
  {
    hide W, Rounds;
    Rounds32(block);
    Words32(block);
    NextRound(block, 32, Hash(0xce8ef53f, 0x0949195f, 0xa9706ca7, 0x0e872526, 0x38182c1d),
      0xcc334285, 0xf3c2531a, 0xc2524657);
    NextRound(block, 33, Hash(0xf3c2531a, 0xce8ef53f, 0xc2524657, 0xa9706ca7, 0x0e872526),
      0xe048a70b, 0x7ba0faff, 0xf3a3bd4f);
    NextRound(block, 34, Hash(0x7ba0faff, 0xf3c2531a, 0xf3a3bd4f, 0xc2524657, 0xa9706ca7),
      0x3eb8cb62, 0x8d562b9b, 0xbcf094c6);
    NextRound(block, 35, Hash(0x8d562b9b, 0x7ba0faff, 0xbcf094c6, 0xf3a3bd4f, 0xc2524657),
      0x2b3508de, 0x3c1a81bd, 0xdee83ebf);
    NextRound(block, 36, Hash(0x3c1a81bd, 0x8d562b9b, 0xdee83ebf, 0xbcf094c6, 0xf3a3bd4f),
      0xa1a8e6f9, 0x76c54972, 0xe3558ae6);
    NextRound(block, 37, Hash(0x76c54972, 0x3c1a81bd, 0xe3558ae6, 0xdee83ebf, 0xbcf094c6),
      0xdff8b1cd, 0xe6139666, 0x4f06a06f);
    NextRound(block, 38, Hash(0xe6139666, 0x76c54972, 0x4f06a06f, 0xe3558ae6, 0xdee83ebf),
      0x885b7768, 0x7326d29f, 0x9db1525c);
    NextRound(block, 39, Hash(0x7326d29f, 0xe6139666, 0x9db1525c, 0x4f06a06f, 0xe3558ae6),
      0xb76d1322, 0xa31b41ec, 0xb984e599);
  }

  lemma {:induction false} Rounds48(block: Chunk)
    requires block == Block()
    ensures Rounds(Initial(), block, 48) ==
      Hash(0xa26dfe83, 0xfa73c020, 0x559e6eff, 0xd45f9ade, 0x65dc1d66)
  {
    hide W, Rounds;
    Rounds40(block);
    Words40(block);
    NextRound(block, 40, Hash(0xa31b41ec, 0x7326d29f, 0xb984e599, 0x9db1525c, 0x4f06a06f),
      0x047e79cf, 0xffade74b, 0xdcc9b4a7);
    NextRound(block, 41, Hash(0xffade74b, 0xa31b41ec, 0xdcc9b4a7, 0xb984e599, 0x9db1525c),
      0xc71292fc, 0xa3267160, 0x28c6d07b);
    NextRound(block, 42, Hash(0xa3267160, 0xffade74b, 0x28c6d07b, 0xdcc9b4a7, 0xb984e599),
      0x3fedf11f, 0xea2ab413, 0xffeb79d2);
    NextRound(block, 43, Hash(0xea2ab413, 0xa3267160, 0xffeb79d2, 0x28c6d07b, 0xdcc9b4a7),
      0x3a4e1027, 0x97707599, 0x28c99c58);
    NextRound(block, 44, Hash(0x97707599, 0xea2ab413, 0x28c99c58, 0xffeb79d2, 0x28c6d07b),
      0xc0a16ea0, 0x517e6b7b, 0xfa8aad04);
    NextRound(block, 45, Hash(0x517e6b7b, 0x97707599, 0xfa8aad04, 0x28c99c58, 0xffeb79d2),
      0xdcdc58cd, 0x5679bbfd, 0x65dc1d66);
    NextRound(block, 46, Hash(0x5679bbfd, 0x517e6b7b, 0x65dc1d66, 0xfa8aad04, 0x28c99c58),
      0x0178b9dc, 0xfa73c020, 0xd45f9ade);
    NextRound(block, 47, Hash(0xfa73c020, 0x5679bbfd, 0xd45f9ade, 0x65dc1d66, 0xfa8aad04),
      0x75f1f486, 0xa26dfe83, 0x559e6eff);
  }

  lemma {:induction false} Rounds56(block: Chunk)
    requires block == Block()
    ensures Rounds(Initial(), block, 56) ==
      Hash(0xba9b7d95, 0x1b222e9d, 0x391c17e9, 0x70e6da97, 0x96b8dc18)
  {
    hide W, Rounds;
    Rounds48(block);
    Words48(block);
    NextRound(block, 48, Hash(0xa26dfe83, 0xfa73c020, 0x559e6eff, 0xd45f9ade, 0x65dc1d66),
      0x545351ca, 0x6b6ac77e, 0x3e9cf008);
    NextRound(block, 49, Hash(0x6b6ac77e, 0xa26dfe83, 0x3e9cf008, 0x559e6eff, 0xd45f9ade),
      0x1a2f09ea, 0x21a04ffc, 0xe89b7fa0);
    NextRound(block, 50, Hash(0x21a04ffc, 0x6b6ac77e, 0xe89b7fa0, 0x3e9cf008, 0x559e6eff),
      0xaa185005, 0x2d77728c, 0x9adab1df);
    NextRound(block, 51, Hash(0x2d77728c, 0x21a04ffc, 0x9adab1df, 0xe89b7fa0, 0x3e9cf008),
      0x35a1f1fd, 0x5ae37062, 0x086813ff);
    NextRound(block, 52, Hash(0x5ae37062, 0x2d77728c, 0x086813ff, 0x9adab1df, 0xe89b7fa0),
      0xe6fbedb7, 0xc39b6a5d, 0x0b5ddca3);
    NextRound(block, 53, Hash(0xc39b6a5d, 0x5ae37062, 0x0b5ddca3, 0x086813ff, 0x9adab1df),
      0x3ca3544e, 0xe4705fa4, 0x96b8dc18);
    NextRound(block, 54, Hash(0xe4705fa4, 0xc39b6a5d, 0x96b8dc18, 0x0b5ddca3, 0x086813ff),
      0x71f88d0d, 0x1b222e9d, 0x70e6da97);
    NextRound(block, 55, Hash(0x1b222e9d, 0xe4705fa4, 0x70e6da97, 0x96b8dc18, 0x0b5ddca3),
      0xc6eb31df, 0xba9b7d95, 0x391c17e9);
  }

  lemma {:induction false} Rounds64(block: Chunk)
    requires block == Block()
    ensures Rounds(Initial(), block, 64) ==
      Hash(0xd2edac53, 0xb971dc85, 0x6e73bafc, 0x116d3fa0, 0x08512487)
  {
    hide W, Rounds;
    Rounds56(block);
    Words56(block);
    NextRound(block, 56, Hash(0xba9b7d95, 0x1b222e9d, 0x391c17e9, 0x70e6da97, 0x96b8dc18),
      0xa6c71aa8, 0x593184f0, 0x46c88ba7);
    NextRound(block, 57, Hash(0x593184f0, 0xba9b7d95, 0x46c88ba7, 0x391c17e9, 0x70e6da97),
      0x2d160c79, 0x8de1619c, 0x6ea6df65);
    NextRound(block, 58, Hash(0x8de1619c, 0x593184f0, 0x6ea6df65, 0x46c88ba7, 0x391c17e9),
      0x277ffccb, 0xfa849506, 0x164c613c);
    NextRound(block, 59, Hash(0xfa849506, 0x8de1619c, 0x164c613c, 0x6ea6df65, 0x46c88ba7),
      0xebe9477e, 0x2144921c, 0x23785867);
    NextRound(block, 60, Hash(0x2144921c, 0xfa849506, 0x23785867, 0x164c613c, 0x6ea6df65),
      0x14686d64, 0x45b4fe80, 0xbea12541);
    NextRound(block, 61, Hash(0x45b4fe80, 0x2144921c, 0xbea12541, 0x23785867, 0x164c613c),
      0x65e2099d, 0xb9ceebf1, 0x08512487);
    NextRound(block, 62, Hash(0xb9ceebf1, 0x45b4fe80, 0x08512487, 0xbea12541, 0x23785867),
      0x9e7444cb, 0xb971dc85, 0x116d3fa0);
    NextRound(block, 63, Hash(0xb971dc85, 0xb9ceebf1, 0x116d3fa0, 0x08512487, 0xbea12541),
      0x7abb43af, 0xd2edac53, 0x6e73bafc);
  }

  lemma {:induction false} Rounds72(block: Chunk)
    requires block == Block()
    ensures Rounds(Initial(), block, 72) ==
      Hash(0x16f436e1, 0x9437dcac, 0x43a646f2, 0xe8255e22, 0x95dfeb63)
  {
    hide W, Rounds;
    Rounds64(block);
    Words64(block);
    NextRound(block, 64, Hash(0xd2edac53, 0xb971dc85, 0x6e73bafc, 0x116d3fa0, 0x08512487),
      0x7adc25f4, 0x71b4f0a4, 0x6e5c7721);
    NextRound(block, 65, Hash(0x71b4f0a4, 0xd2edac53, 0x6e5c7721, 0x6e73bafc, 0x116d3fa0),
      0x39d9614b, 0x1f09d8dd, 0xf4bb6b14);
    NextRound(block, 66, Hash(0x1f09d8dd, 0x71b4f0a4, 0xf4bb6b14, 0x6e5c7721, 0x6e73bafc),
      0x224e05ac, 0x27b38ab2, 0x1c6d3c29);
    NextRound(block, 67, Hash(0x27b38ab2, 0x1f09d8dd, 0x1c6d3c29, 0xf4bb6b14, 0x6e5c7721),
      0x306f8e73, 0x577fad8e, 0x47c27637);
    NextRound(block, 68, Hash(0x577fad8e, 0x27b38ab2, 0x47c27637, 0x1c6d3c29, 0xf4bb6b14),
      0x7564d92b, 0xa095788b, 0x89ece2ac);
    NextRound(block, 69, Hash(0xa095788b, 0x577fad8e, 0x89ece2ac, 0x47c27637, 0x1c6d3c29),
      0x7bc8d341, 0x0e991bc9, 0x95dfeb63);
    NextRound(block, 70, Hash(0x0e991bc9, 0xa095788b, 0x95dfeb63, 0x89ece2ac, 0x47c27637),
      0xf248ba3a, 0x9437dcac, 0xe8255e22);
    NextRound(block, 71, Hash(0x9437dcac, 0x0e991bc9, 0xe8255e22, 0x95dfeb63, 0x89ece2ac),
      0xc8454e45, 0x16f436e1, 0x43a646f2);
  }

  lemma {:induction false} Rounds80(block: Chunk)
    requires block == Block()
    ensures Rounds(Initial(), block, 80) ==
      Hash(0x88e8d560, 0x54b8536f, 0x7a127302, 0x465c57fe, 0x0434693b)
  {
    hide W, Rounds;
    Rounds72(block);
    Words72(block);
    NextRound(block, 72, Hash(0x16f436e1, 0x9437dcac, 0x43a646f2, 0xe8255e22, 0x95dfeb63),
      0x015821ad, 0x7fd66f84, 0x250df72b);
    NextRound(block, 73, Hash(0x7fd66f84, 0x16f436e1, 0x250df72b, 0x43a646f2, 0xe8255e22),
      0x1add20ec, 0x3892b8ab, 0x45bd0db8);
    NextRound(block, 74, Hash(0x3892b8ab, 0x7fd66f84, 0x45bd0db8, 0x250df72b, 0x43a646f2),
      0xb239b48d, 0xf20067d3, 0x1ff59be1);
    NextRound(block, 75, Hash(0xf20067d3, 0x3892b8ab, 0x1ff59be1, 0x45bd0db8, 0x250df72b),
      0x7e79c27b, 0x10d1a4ec, 0xce24ae2a);
    NextRound(block, 76, Hash(0x10d1a4ec, 0xf20067d3, 0xce24ae2a, 0x1ff59be1, 0x45bd0db8),
      0xcb4ba0d1, 0x19715ff9, 0xfc8019f4);
    NextRound(block, 77, Hash(0x19715ff9, 0x10d1a4ec, 0xfc8019f4, 0xce24ae2a, 0x1ff59be1),
      0xad505bfd, 0xe849cc09, 0x0434693b);
    NextRound(block, 78, Hash(0xe849cc09, 0x19715ff9, 0x0434693b, 0xfc8019f4, 0xce24ae2a),
      0xd13232fc, 0x54b8536f, 0x465c57fe);
    NextRound(block, 79, Hash(0x54b8536f, 0xe849cc09, 0x465c57fe, 0x0434693b, 0xfc8019f4),
      0x80d998e0, 0x88e8d560, 0x7a127302);
  }

  lemma {:induction false} NoRounds(block: Chunk)
    ensures Rounds(Initial(), block, 0) == Initial()
  {
  }

  // ------------------------------------------------------------- the message

  lemma {:induction false} PaddedMessage()
    ensures Sha256.Padded(NAME + NID_SALT) == Block()
  {
    hide Sha256.LengthByte;
    LengthOf184();
    var p := Sha256.Padded(NAME + NID_SALT);
    assert p == Block();
  }

  lemma {:induction false} LengthOf184()
    ensures forall i: nat :: i < 8 ==> Sha256.LengthByte(184, i) == if i == 7 then 0xb8 else 0
  {
    forall i: nat | i < 8
      ensures Sha256.LengthByte(184, i) == if i == 7 then 0xb8 else 0
    {
      if i < 7 {
        NoQuotient(Sha256.Scale(6 - i));
      }
    }
  }

  lemma {:induction false} NoQuotient(scale: nat)
    requires scale > 0
    ensures 184 / (256 * scale) == 0
  {
  }

  lemma {:induction false} LastSum(block: Chunk)
    requires Rounds(Initial(), block, 80) ==
      Hash(0x88e8d560, 0x54b8536f, 0x7a127302, 0x465c57fe, 0x0434693b)
    ensures Compressed(Initial(), block) ==
      Hash(0xf02df861, 0x4485fef8, 0x12cd5000, 0x568eac74, 0xc8074b2b)
  {
    hide Rounds;
  }

  lemma {:induction false} Blocks(block: Chunk)
    requires block == Block()
    ensures HashOfBlocks(block) ==
      Hash(0xf02df861, 0x4485fef8, 0x12cd5000, 0x568eac74, 0xc8074b2b)
  {
    hide W, Rounds, Block, Compressed;
    Rounds80(block);
    LastSum(block);
    assert block[..0] == [] && block[0..] == block;
    assert HashOfBlocks([]) == Initial();
  }

  lemma {:induction false} FourBytes(s: Hash, k: nat)
    requires k < 5
    ensures Digest(s)[4 * k..4 * k + 4] == Bytes(WordOf(s, k))
  {
    hide Sha256.WordByte, WordOf;
    forall j | 0 <= j < 4
      ensures Digest(s)[4 * k + j] == Bytes(WordOf(s, k))[j]
    {
      ByteOfWord(WordOf(s, k), j);
    }
  }

  /** The digest is the state words one after the other. */
  lemma {:induction false} DigestInWords(s: Hash, n: nat)
    requires 0 < n <= 5
    ensures Digest(s)[..4 * n] == WordsUpTo(s, n)
  {
    hide Digest, Bytes, WordOf;
    FourBytes(s, n - 1);
    if n > 1 {
      DigestInWords(s, n - 1);
    }
  }

  function WordsUpTo(s: Hash, n: nat): (bytes: seq<Byte>)
    requires 0 < n <= 5
  {
    if n == 1 then Bytes(WordOf(s, 0)) else WordsUpTo(s, n - 1) + Bytes(WordOf(s, n - 1))
  }

  lemma {:induction false} ResultBytes(s: Hash)
    requires s == Hash(0xf02df861, 0x4485fef8, 0x12cd5000, 0x568eac74, 0xc8074b2b)
    ensures Digest(s) == DIGEST
  {
    hide Digest;
    DigestInWords(s, 5);
    assert Digest(s)[..20] == Digest(s);
  }

  /** The SHA-1 hash of the salted name. */
  lemma {:induction false} SaltedHash()
    ensures Sha1Of(NAME + NID_SALT) == DIGEST
  {
    hide Sha256.Padded, HashOfBlocks, Block;
    PaddedMessage();
    Blocks(Block());
    ResultBytes(HashOfBlocks(Block()));
  }

  // ---------------------------------------------------------- the identifier

  lemma {:induction false} FirstEight()
    ensures AsNumbers(DIGEST)[..8] == [0xf0, 0x2d, 0xf8, 0x61, 0x44, 0x85, 0xfe, 0xf8]
  {
  }

  /** The identifier of memmove. */
  lemma {:induction false} Example()
    ensures NidOf(NAME) == "+P6FRGH4LfA"
  {
    hide AsNumbers, Sha1Of, Nid.ShiftEncoded, Nid.EncodeNid, Nid.Reversed;
    SaltedHash();
    FirstEight();
    var eight: Nid.Nid := [0xf0, 0x2d, 0xf8, 0x61, 0x44, 0x85, 0xfe, 0xf8];
    Nid.EncodingsAgree(eight);
    ReversedEight(eight);
    Spelled();
  }

  lemma {:induction false} ReversedEight(n: Nid.Nid)
    ensures Nid.Reversed(n) == [n[7], n[6], n[5], n[4], n[3], n[2], n[1], n[0]]
  {
  }

  lemma {:induction false} Spelled()
    ensures Nid.EncodeNid([0xf8, 0xfe, 0x85, 0x44, 0x61, 0xf8, 0x2d, 0xf0]) == "+P6FRGH4LfA"
  {
  }
}
