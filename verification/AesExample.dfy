/** The example of FIPS 197, appendix B: one block under one key, round by round. */
module AesExample {
  import opened AesTables
  import opened Aes
  import opened AesKeys

  const KEY: Block :=
    [0x2b, 0x7e, 0x15, 0x16, 0x28, 0xae, 0xd2, 0xa6, 0xab, 0xf7, 0x15, 0x88, 0x09, 0xcf, 0x4f, 0x3c]

  const PLAIN: Block :=
    [0x32, 0x43, 0xf6, 0xa8, 0x88, 0x5a, 0x30, 0x8d, 0x31, 0x31, 0x98, 0xa2, 0xe0, 0x37, 0x07, 0x34]

  const CIPHER: Block :=
    [0x39, 0x25, 0x84, 0x1d, 0x02, 0xdc, 0x09, 0xfb, 0xdc, 0x11, 0x85, 0x97, 0x19, 0x6a, 0x0b, 0x32]

  // ---------------------------------------------------------- the round keys

  /** The words of round key n from those of the round key before. */
  lemma {:induction false} NextWords(key: Block, n: nat)
    requires 1 <= n <= 10
    ensures var s := WordsFrom(key, 4 * n - 4);
      var c0 := XorColumn(s.c0, Turned(s.c3, n));
      var c1 := XorColumn(s.c1, c0);
      var c2 := XorColumn(s.c2, c1);
      WordsFrom(key, 4 * n) == State(c0, c1, c2, XorColumn(s.c3, c2))
  {
    hide XorColumn, Turned, ColumnOf;
  }

  lemma {:induction false} KeyBytes()
    ensures StateOf(KEY) ==
      State(Column(0x2b, 0x7e, 0x15, 0x16), Column(0x28, 0xae, 0xd2, 0xa6),
            Column(0xab, 0xf7, 0x15, 0x88), Column(0x09, 0xcf, 0x4f, 0x3c))
  {
  }

  function Key(): Schedule {
    Expanded(KEY)
  }

  lemma {:induction false} Words0(key: Block)
    requires key == KEY
    ensures WordsFrom(key, 0) ==
      State(Column(0x2b, 0x7e, 0x15, 0x16), Column(0x28, 0xae, 0xd2, 0xa6),
            Column(0xab, 0xf7, 0x15, 0x88), Column(0x09, 0xcf, 0x4f, 0x3c))
  {
    hide WordsFrom, StateOf;
    RoundKeyWords(key, 0);
    KeyBytes();
  }

  lemma {:induction false} Key0()
    ensures RoundKey(Key(), 0) ==
      State(Column(0x2b, 0x7e, 0x15, 0x16), Column(0x28, 0xae, 0xd2, 0xa6),
            Column(0xab, 0xf7, 0x15, 0x88), Column(0x09, 0xcf, 0x4f, 0x3c))
  {
    hide RoundKey, WordsFrom, Expanded;
    RoundKeyWords(KEY, 0);
    Words0(KEY);
  }

  lemma {:induction false} KeySub1()
    ensures SubColumn(Column(0xcf, 0x4f, 0x3c, 0x09)) == Column(0x8a, 0x84, 0xeb, 0x01)
  {
    hide InvSbox;
  }

  lemma {:induction false} Words1(key: Block)
    requires key == KEY
    ensures WordsFrom(key, 4) ==
      State(Column(0xa0, 0xfa, 0xfe, 0x17), Column(0x88, 0x54, 0x2c, 0xb1),
            Column(0x23, 0xa3, 0x39, 0x39), Column(0x2a, 0x6c, 0x76, 0x05))
  {
    hide WordsFrom, SubColumn;
    Words0(key);
    KeySub1();
    NextWords(key, 1);
  }

  lemma {:induction false} Key1()
    ensures RoundKey(Key(), 1) ==
      State(Column(0xa0, 0xfa, 0xfe, 0x17), Column(0x88, 0x54, 0x2c, 0xb1),
            Column(0x23, 0xa3, 0x39, 0x39), Column(0x2a, 0x6c, 0x76, 0x05))
  {
    hide RoundKey, WordsFrom, Expanded;
    RoundKeyWords(KEY, 1);
    Words1(KEY);
  }

  lemma {:induction false} KeySub2()
    ensures SubColumn(Column(0x6c, 0x76, 0x05, 0x2a)) == Column(0x50, 0x38, 0x6b, 0xe5)
  {
    hide InvSbox;
  }

  lemma {:induction false} Words2(key: Block)
    requires key == KEY
    ensures WordsFrom(key, 8) ==
      State(Column(0xf2, 0xc2, 0x95, 0xf2), Column(0x7a, 0x96, 0xb9, 0x43),
            Column(0x59, 0x35, 0x80, 0x7a), Column(0x73, 0x59, 0xf6, 0x7f))
  {
    hide WordsFrom, SubColumn;
    Words1(key);
    KeySub2();
    NextWords(key, 2);
  }

  lemma {:induction false} Key2()
    ensures RoundKey(Key(), 2) ==
      State(Column(0xf2, 0xc2, 0x95, 0xf2), Column(0x7a, 0x96, 0xb9, 0x43),
            Column(0x59, 0x35, 0x80, 0x7a), Column(0x73, 0x59, 0xf6, 0x7f))
  {
    hide RoundKey, WordsFrom, Expanded;
    RoundKeyWords(KEY, 2);
    Words2(KEY);
  }

  lemma {:induction false} KeySub3()
    ensures SubColumn(Column(0x59, 0xf6, 0x7f, 0x73)) == Column(0xcb, 0x42, 0xd2, 0x8f)
  {
    hide InvSbox;
  }

  lemma {:induction false} Words3(key: Block)
    requires key == KEY
    ensures WordsFrom(key, 12) ==
      State(Column(0x3d, 0x80, 0x47, 0x7d), Column(0x47, 0x16, 0xfe, 0x3e),
            Column(0x1e, 0x23, 0x7e, 0x44), Column(0x6d, 0x7a, 0x88, 0x3b))
  {
    hide WordsFrom, SubColumn;
    Words2(key);
    KeySub3();
    NextWords(key, 3);
  }

  lemma {:induction false} Key3()
    ensures RoundKey(Key(), 3) ==
      State(Column(0x3d, 0x80, 0x47, 0x7d), Column(0x47, 0x16, 0xfe, 0x3e),
            Column(0x1e, 0x23, 0x7e, 0x44), Column(0x6d, 0x7a, 0x88, 0x3b))
  {
    hide RoundKey, WordsFrom, Expanded;
    RoundKeyWords(KEY, 3);
    Words3(KEY);
  }

  lemma {:induction false} KeySub4()
    ensures SubColumn(Column(0x7a, 0x88, 0x3b, 0x6d)) == Column(0xda, 0xc4, 0xe2, 0x3c)
  {
    hide InvSbox;
  }

  lemma {:induction false} Words4(key: Block)
    requires key == KEY
    ensures WordsFrom(key, 16) ==
      State(Column(0xef, 0x44, 0xa5, 0x41), Column(0xa8, 0x52, 0x5b, 0x7f),
            Column(0xb6, 0x71, 0x25, 0x3b), Column(0xdb, 0x0b, 0xad, 0x00))
  {
    hide WordsFrom, SubColumn;
    Words3(key);
    KeySub4();
    NextWords(key, 4);
  }

  lemma {:induction false} Key4()
    ensures RoundKey(Key(), 4) ==
      State(Column(0xef, 0x44, 0xa5, 0x41), Column(0xa8, 0x52, 0x5b, 0x7f),
            Column(0xb6, 0x71, 0x25, 0x3b), Column(0xdb, 0x0b, 0xad, 0x00))
  {
    hide RoundKey, WordsFrom, Expanded;
    RoundKeyWords(KEY, 4);
    Words4(KEY);
  }

  lemma {:induction false} KeySub5()
    ensures SubColumn(Column(0x0b, 0xad, 0x00, 0xdb)) == Column(0x2b, 0x95, 0x63, 0xb9)
  {
    hide InvSbox;
  }

  lemma {:induction false} Words5(key: Block)
    requires key == KEY
    ensures WordsFrom(key, 20) ==
      State(Column(0xd4, 0xd1, 0xc6, 0xf8), Column(0x7c, 0x83, 0x9d, 0x87),
            Column(0xca, 0xf2, 0xb8, 0xbc), Column(0x11, 0xf9, 0x15, 0xbc))
  {
    hide WordsFrom, SubColumn;
    Words4(key);
    KeySub5();
    NextWords(key, 5);
  }

  lemma {:induction false} Key5()
    ensures RoundKey(Key(), 5) ==
      State(Column(0xd4, 0xd1, 0xc6, 0xf8), Column(0x7c, 0x83, 0x9d, 0x87),
            Column(0xca, 0xf2, 0xb8, 0xbc), Column(0x11, 0xf9, 0x15, 0xbc))
  {
    hide RoundKey, WordsFrom, Expanded;
    RoundKeyWords(KEY, 5);
    Words5(KEY);
  }

  lemma {:induction false} KeySub6()
    ensures SubColumn(Column(0xf9, 0x15, 0xbc, 0x11)) == Column(0x99, 0x59, 0x65, 0x82)
  {
    hide InvSbox;
  }

  lemma {:induction false} Words6(key: Block)
    requires key == KEY
    ensures WordsFrom(key, 24) ==
      State(Column(0x6d, 0x88, 0xa3, 0x7a), Column(0x11, 0x0b, 0x3e, 0xfd),
            Column(0xdb, 0xf9, 0x86, 0x41), Column(0xca, 0x00, 0x93, 0xfd))
  {
    hide WordsFrom, SubColumn;
    Words5(key);
    KeySub6();
    NextWords(key, 6);
  }

  lemma {:induction false} Key6()
    ensures RoundKey(Key(), 6) ==
      State(Column(0x6d, 0x88, 0xa3, 0x7a), Column(0x11, 0x0b, 0x3e, 0xfd),
            Column(0xdb, 0xf9, 0x86, 0x41), Column(0xca, 0x00, 0x93, 0xfd))
  {
    hide RoundKey, WordsFrom, Expanded;
    RoundKeyWords(KEY, 6);
    Words6(KEY);
  }

  lemma {:induction false} KeySub7()
    ensures SubColumn(Column(0x00, 0x93, 0xfd, 0xca)) == Column(0x63, 0xdc, 0x54, 0x74)
  {
    hide InvSbox;
  }

  lemma {:induction false} Words7(key: Block)
    requires key == KEY
    ensures WordsFrom(key, 28) ==
      State(Column(0x4e, 0x54, 0xf7, 0x0e), Column(0x5f, 0x5f, 0xc9, 0xf3),
            Column(0x84, 0xa6, 0x4f, 0xb2), Column(0x4e, 0xa6, 0xdc, 0x4f))
  {
    hide WordsFrom, SubColumn;
    Words6(key);
    KeySub7();
    NextWords(key, 7);
  }

  lemma {:induction false} Key7()
    ensures RoundKey(Key(), 7) ==
      State(Column(0x4e, 0x54, 0xf7, 0x0e), Column(0x5f, 0x5f, 0xc9, 0xf3),
            Column(0x84, 0xa6, 0x4f, 0xb2), Column(0x4e, 0xa6, 0xdc, 0x4f))
  {
    hide RoundKey, WordsFrom, Expanded;
    RoundKeyWords(KEY, 7);
    Words7(KEY);
  }

  lemma {:induction false} KeySub8()
    ensures SubColumn(Column(0xa6, 0xdc, 0x4f, 0x4e)) == Column(0x24, 0x86, 0x84, 0x2f)
  {
    hide InvSbox;
  }

  lemma {:induction false} Words8(key: Block)
    requires key == KEY
    ensures WordsFrom(key, 32) ==
      State(Column(0xea, 0xd2, 0x73, 0x21), Column(0xb5, 0x8d, 0xba, 0xd2),
            Column(0x31, 0x2b, 0xf5, 0x60), Column(0x7f, 0x8d, 0x29, 0x2f))
  {
    hide WordsFrom, SubColumn;
    Words7(key);
    KeySub8();
    NextWords(key, 8);
  }

  lemma {:induction false} Key8()
    ensures RoundKey(Key(), 8) ==
      State(Column(0xea, 0xd2, 0x73, 0x21), Column(0xb5, 0x8d, 0xba, 0xd2),
            Column(0x31, 0x2b, 0xf5, 0x60), Column(0x7f, 0x8d, 0x29, 0x2f))
  {
    hide RoundKey, WordsFrom, Expanded;
    RoundKeyWords(KEY, 8);
    Words8(KEY);
  }

  lemma {:induction false} KeySub9()
    ensures SubColumn(Column(0x8d, 0x29, 0x2f, 0x7f)) == Column(0x5d, 0xa5, 0x15, 0xd2)
  {
    hide InvSbox;
  }

  lemma {:induction false} Words9(key: Block)
    requires key == KEY
    ensures WordsFrom(key, 36) ==
      State(Column(0xac, 0x77, 0x66, 0xf3), Column(0x19, 0xfa, 0xdc, 0x21),
            Column(0x28, 0xd1, 0x29, 0x41), Column(0x57, 0x5c, 0x00, 0x6e))
  {
    hide WordsFrom, SubColumn;
    Words8(key);
    KeySub9();
    NextWords(key, 9);
  }

  lemma {:induction false} Key9()
    ensures RoundKey(Key(), 9) ==
      State(Column(0xac, 0x77, 0x66, 0xf3), Column(0x19, 0xfa, 0xdc, 0x21),
            Column(0x28, 0xd1, 0x29, 0x41), Column(0x57, 0x5c, 0x00, 0x6e))
  {
    hide RoundKey, WordsFrom, Expanded;
    RoundKeyWords(KEY, 9);
    Words9(KEY);
  }

  lemma {:induction false} KeySub10()
    ensures SubColumn(Column(0x5c, 0x00, 0x6e, 0x57)) == Column(0x4a, 0x63, 0x9f, 0x5b)
  {
    hide InvSbox;
  }

  lemma {:induction false} Words10(key: Block)
    requires key == KEY
    ensures WordsFrom(key, 40) ==
      State(Column(0xd0, 0x14, 0xf9, 0xa8), Column(0xc9, 0xee, 0x25, 0x89),
            Column(0xe1, 0x3f, 0x0c, 0xc8), Column(0xb6, 0x63, 0x0c, 0xa6))
  {
    hide WordsFrom, SubColumn;
    Words9(key);
    KeySub10();
    NextWords(key, 10);
  }

  lemma {:induction false} Key10()
    ensures RoundKey(Key(), 10) ==
      State(Column(0xd0, 0x14, 0xf9, 0xa8), Column(0xc9, 0xee, 0x25, 0x89),
            Column(0xe1, 0x3f, 0x0c, 0xc8), Column(0xb6, 0x63, 0x0c, 0xa6))
  {
    hide RoundKey, WordsFrom, Expanded;
    RoundKeyWords(KEY, 10);
    Words10(KEY);
  }

  lemma {:induction false} NextRound(s: State, n: nat)
    requires 0 < n <= 9
    ensures EncryptRounds(Key(), s, n) ==
      AddRoundKey(MixColumns(ShiftRows(SubBytes(EncryptRounds(Key(), s, n - 1)))), RoundKey(Key(), n))
  {
    hide AddRoundKey, MixColumns, ShiftRows, SubBytes, RoundKey, Key;
  }

  /** The start of the rounds. */
  lemma {:induction false} Round0()
    ensures EncryptRounds(Key(), AddRoundKey(StateOf(PLAIN), RoundKey(Key(), 0)), 0) ==
      State(Column(0x19, 0x3d, 0xe3, 0xbe), Column(0xa0, 0xf4, 0xe2, 0x2b),
            Column(0x9a, 0xc6, 0x8d, 0x2a), Column(0xe9, 0xf8, 0x48, 0x08))
  {
    hide Key, RoundKey;
    Key0();
  }

  lemma {:induction false} Sub1_0()
    ensures SubColumn(Column(0x19, 0x3d, 0xe3, 0xbe)) == Column(0xd4, 0x27, 0x11, 0xae)
  {
    hide InvSbox;
  }

  lemma {:induction false} Sub1_1()
    ensures SubColumn(Column(0xa0, 0xf4, 0xe2, 0x2b)) == Column(0xe0, 0xbf, 0x98, 0xf1)
  {
    hide InvSbox;
  }

  lemma {:induction false} Sub1_2()
    ensures SubColumn(Column(0x9a, 0xc6, 0x8d, 0x2a)) == Column(0xb8, 0xb4, 0x5d, 0xe5)
  {
    hide InvSbox;
  }

  lemma {:induction false} Sub1_3()
    ensures SubColumn(Column(0xe9, 0xf8, 0x48, 0x08)) == Column(0x1e, 0x41, 0x52, 0x30)
  {
    hide InvSbox;
  }

  lemma {:induction false} Mix1()
    ensures MixColumns(State(Column(0xd4, 0xbf, 0x5d, 0x30), Column(0xe0, 0xb4, 0x52, 0xae),
                             Column(0xb8, 0x41, 0x11, 0xf1), Column(0x1e, 0x27, 0x98, 0xe5)))
         == State(Column(0x04, 0x66, 0x81, 0xe5), Column(0xe0, 0xcb, 0x19, 0x9a),
                  Column(0x48, 0xf8, 0xd3, 0x7a), Column(0x28, 0x06, 0x26, 0x4c))
  {
  }

  lemma {:induction false} Round1()
    ensures EncryptRounds(Key(), AddRoundKey(StateOf(PLAIN), RoundKey(Key(), 0)), 1) ==
      State(Column(0xa4, 0x9c, 0x7f, 0xf2), Column(0x68, 0x9f, 0x35, 0x2b),
            Column(0x6b, 0x5b, 0xea, 0x43), Column(0x02, 0x6a, 0x50, 0x49))
  {
    hide Key, RoundKey, SubColumn, StateOf, MixColumns, EncryptRounds;
    Round0();
    Key1();
    Sub1_0();
    Sub1_1();
    Sub1_2();
    Sub1_3();
    Mix1();
    NextRound(AddRoundKey(StateOf(PLAIN), RoundKey(Key(), 0)), 1);
  }

  lemma {:induction false} Sub2_0()
    ensures SubColumn(Column(0xa4, 0x9c, 0x7f, 0xf2)) == Column(0x49, 0xde, 0xd2, 0x89)
  {
    hide InvSbox;
  }

  lemma {:induction false} Sub2_1()
    ensures SubColumn(Column(0x68, 0x9f, 0x35, 0x2b)) == Column(0x45, 0xdb, 0x96, 0xf1)
  {
    hide InvSbox;
  }

  lemma {:induction false} Sub2_2()
    ensures SubColumn(Column(0x6b, 0x5b, 0xea, 0x43)) == Column(0x7f, 0x39, 0x87, 0x1a)
  {
    hide InvSbox;
  }

  lemma {:induction false} Sub2_3()
    ensures SubColumn(Column(0x02, 0x6a, 0x50, 0x49)) == Column(0x77, 0x02, 0x53, 0x3b)
  {
    hide InvSbox;
  }

  lemma {:induction false} Mix2()
    ensures MixColumns(State(Column(0x49, 0xdb, 0x87, 0x3b), Column(0x45, 0x39, 0x53, 0x89),
                             Column(0x7f, 0x02, 0xd2, 0xf1), Column(0x77, 0xde, 0x96, 0x1a)))
         == State(Column(0x58, 0x4d, 0xca, 0xf1), Column(0x1b, 0x4b, 0x5a, 0xac),
                  Column(0xdb, 0xe7, 0xca, 0xa8), Column(0x1b, 0x6b, 0xb0, 0xe5))
  {
  }

  lemma {:induction false} Round2()
    ensures EncryptRounds(Key(), AddRoundKey(StateOf(PLAIN), RoundKey(Key(), 0)), 2) ==
      State(Column(0xaa, 0x8f, 0x5f, 0x03), Column(0x61, 0xdd, 0xe3, 0xef),
            Column(0x82, 0xd2, 0x4a, 0xd2), Column(0x68, 0x32, 0x46, 0x9a))
  {
    hide Key, RoundKey, SubColumn, StateOf, MixColumns, EncryptRounds;
    Round1();
    Key2();
    Sub2_0();
    Sub2_1();
    Sub2_2();
    Sub2_3();
    Mix2();
    NextRound(AddRoundKey(StateOf(PLAIN), RoundKey(Key(), 0)), 2);
  }

  lemma {:induction false} Sub3_0()
    ensures SubColumn(Column(0xaa, 0x8f, 0x5f, 0x03)) == Column(0xac, 0x73, 0xcf, 0x7b)
  {
    hide InvSbox;
  }

  lemma {:induction false} Sub3_1()
    ensures SubColumn(Column(0x61, 0xdd, 0xe3, 0xef)) == Column(0xef, 0xc1, 0x11, 0xdf)
  {
    hide InvSbox;
  }

  lemma {:induction false} Sub3_2()
    ensures SubColumn(Column(0x82, 0xd2, 0x4a, 0xd2)) == Column(0x13, 0xb5, 0xd6, 0xb5)
  {
    hide InvSbox;
  }

  lemma {:induction false} Sub3_3()
    ensures SubColumn(Column(0x68, 0x32, 0x46, 0x9a)) == Column(0x45, 0x23, 0x5a, 0xb8)
  {
    hide InvSbox;
  }

  lemma {:induction false} Mix3()
    ensures MixColumns(State(Column(0xac, 0xc1, 0xd6, 0xb8), Column(0xef, 0xb5, 0x5a, 0x7b),
                             Column(0x13, 0x23, 0xcf, 0xdf), Column(0x45, 0x73, 0x11, 0xb5)))
         == State(Column(0x75, 0xec, 0x09, 0x93), Column(0x20, 0x0b, 0x63, 0x33),
                  Column(0x53, 0xc0, 0xcf, 0x7c), Column(0xbb, 0x25, 0xd0, 0xdc))
  {
  }

  lemma {:induction false} Round3()
    ensures EncryptRounds(Key(), AddRoundKey(StateOf(PLAIN), RoundKey(Key(), 0)), 3) ==
      State(Column(0x48, 0x6c, 0x4e, 0xee), Column(0x67, 0x1d, 0x9d, 0x0d),
            Column(0x4d, 0xe3, 0xb1, 0x38), Column(0xd6, 0x5f, 0x58, 0xe7))
  {
    hide Key, RoundKey, SubColumn, StateOf, MixColumns, EncryptRounds;
    Round2();
    Key3();
    Sub3_0();
    Sub3_1();
    Sub3_2();
    Sub3_3();
    Mix3();
    NextRound(AddRoundKey(StateOf(PLAIN), RoundKey(Key(), 0)), 3);
  }

  lemma {:induction false} Sub4_0()
    ensures SubColumn(Column(0x48, 0x6c, 0x4e, 0xee)) == Column(0x52, 0x50, 0x2f, 0x28)
  {
    hide InvSbox;
  }

  lemma {:induction false} Sub4_1()
    ensures SubColumn(Column(0x67, 0x1d, 0x9d, 0x0d)) == Column(0x85, 0xa4, 0x5e, 0xd7)
  {
    hide InvSbox;
  }

  lemma {:induction false} Sub4_2()
    ensures SubColumn(Column(0x4d, 0xe3, 0xb1, 0x38)) == Column(0xe3, 0x11, 0xc8, 0x07)
  {
    hide InvSbox;
  }

  lemma {:induction false} Sub4_3()
    ensures SubColumn(Column(0xd6, 0x5f, 0x58, 0xe7)) == Column(0xf6, 0xcf, 0x6a, 0x94)
  {
    hide InvSbox;
  }

  lemma {:induction false} Mix4()
    ensures MixColumns(State(Column(0x52, 0xa4, 0xc8, 0x94), Column(0x85, 0x11, 0x6a, 0x28),
                             Column(0xe3, 0xcf, 0x2f, 0xd7), Column(0xf6, 0x50, 0x5e, 0x07)))
         == State(Column(0x0f, 0xd6, 0xda, 0xa9), Column(0x60, 0x31, 0x38, 0xbf),
                  Column(0x6f, 0xc0, 0x10, 0x6b), Column(0x5e, 0xb3, 0x13, 0x01))
  {
  }

  lemma {:induction false} Round4()
    ensures EncryptRounds(Key(), AddRoundKey(StateOf(PLAIN), RoundKey(Key(), 0)), 4) ==
      State(Column(0xe0, 0x92, 0x7f, 0xe8), Column(0xc8, 0x63, 0x63, 0xc0),
            Column(0xd9, 0xb1, 0x35, 0x50), Column(0x85, 0xb8, 0xbe, 0x01))
  {
    hide Key, RoundKey, SubColumn, StateOf, MixColumns, EncryptRounds;
    Round3();
    Key4();
    Sub4_0();
    Sub4_1();
    Sub4_2();
    Sub4_3();
    Mix4();
    NextRound(AddRoundKey(StateOf(PLAIN), RoundKey(Key(), 0)), 4);
  }

  lemma {:induction false} Sub5_0()
    ensures SubColumn(Column(0xe0, 0x92, 0x7f, 0xe8)) == Column(0xe1, 0x4f, 0xd2, 0x9b)
  {
    hide InvSbox;
  }

  lemma {:induction false} Sub5_1()
    ensures SubColumn(Column(0xc8, 0x63, 0x63, 0xc0)) == Column(0xe8, 0xfb, 0xfb, 0xba)
  {
    hide InvSbox;
  }

  lemma {:induction false} Sub5_2()
    ensures SubColumn(Column(0xd9, 0xb1, 0x35, 0x50)) == Column(0x35, 0xc8, 0x96, 0x53)
  {
    hide InvSbox;
  }

  lemma {:induction false} Sub5_3()
    ensures SubColumn(Column(0x85, 0xb8, 0xbe, 0x01)) == Column(0x97, 0x6c, 0xae, 0x7c)
  {
    hide InvSbox;
  }

  lemma {:induction false} Mix5()
    ensures MixColumns(State(Column(0xe1, 0xfb, 0x96, 0x7c), Column(0xe8, 0xc8, 0xae, 0x9b),
                             Column(0x35, 0x6c, 0xd2, 0xba), Column(0x97, 0x4f, 0xfb, 0x53)))
         == State(Column(0x25, 0xd1, 0xa9, 0xad), Column(0xbd, 0x11, 0xd1, 0x68),
                  Column(0xb6, 0x3a, 0x33, 0x8e), Column(0x4c, 0x4c, 0xc0, 0xb0))
  {
  }

  lemma {:induction false} Round5()
    ensures EncryptRounds(Key(), AddRoundKey(StateOf(PLAIN), RoundKey(Key(), 0)), 5) ==
      State(Column(0xf1, 0x00, 0x6f, 0x55), Column(0xc1, 0x92, 0x4c, 0xef),
            Column(0x7c, 0xc8, 0x8b, 0x32), Column(0x5d, 0xb5, 0xd5, 0x0c))
  {
    hide Key, RoundKey, SubColumn, StateOf, MixColumns, EncryptRounds;
    Round4();
    Key5();
    Sub5_0();
    Sub5_1();
    Sub5_2();
    Sub5_3();
    Mix5();
    NextRound(AddRoundKey(StateOf(PLAIN), RoundKey(Key(), 0)), 5);
  }

  lemma {:induction false} Sub6_0()
    ensures SubColumn(Column(0xf1, 0x00, 0x6f, 0x55)) == Column(0xa1, 0x63, 0xa8, 0xfc)
  {
    hide InvSbox;
  }

  lemma {:induction false} Sub6_1()
    ensures SubColumn(Column(0xc1, 0x92, 0x4c, 0xef)) == Column(0x78, 0x4f, 0x29, 0xdf)
  {
    hide InvSbox;
  }

  lemma {:induction false} Sub6_2()
    ensures SubColumn(Column(0x7c, 0xc8, 0x8b, 0x32)) == Column(0x10, 0xe8, 0x3d, 0x23)
  {
    hide InvSbox;
  }

  lemma {:induction false} Sub6_3()
    ensures SubColumn(Column(0x5d, 0xb5, 0xd5, 0x0c)) == Column(0x4c, 0xd5, 0x03, 0xfe)
  {
    hide InvSbox;
  }

  lemma {:induction false} Mix6()
    ensures MixColumns(State(Column(0xa1, 0x4f, 0x3d, 0xfe), Column(0x78, 0xe8, 0x03, 0xfc),
                             Column(0x10, 0xd5, 0xa8, 0xdf), Column(0x4c, 0x63, 0x29, 0x23)))
         == State(Column(0x4b, 0x86, 0x8d, 0x6d), Column(0x2c, 0x4a, 0x89, 0x80),
                  Column(0x33, 0x9d, 0xf4, 0xe8), Column(0x37, 0xd2, 0x18, 0xd8))
  {
  }

  lemma {:induction false} Round6()
    ensures EncryptRounds(Key(), AddRoundKey(StateOf(PLAIN), RoundKey(Key(), 0)), 6) ==
      State(Column(0x26, 0x0e, 0x2e, 0x17), Column(0x3d, 0x41, 0xb7, 0x7d),
            Column(0xe8, 0x64, 0x72, 0xa9), Column(0xfd, 0xd2, 0x8b, 0x25))
  {
    hide Key, RoundKey, SubColumn, StateOf, MixColumns, EncryptRounds;
    Round5();
    Key6();
    Sub6_0();
    Sub6_1();
    Sub6_2();
    Sub6_3();
    Mix6();
    NextRound(AddRoundKey(StateOf(PLAIN), RoundKey(Key(), 0)), 6);
  }

  lemma {:induction false} Sub7_0()
    ensures SubColumn(Column(0x26, 0x0e, 0x2e, 0x17)) == Column(0xf7, 0xab, 0x31, 0xf0)
  {
    hide InvSbox;
  }

  lemma {:induction false} Sub7_1()
    ensures SubColumn(Column(0x3d, 0x41, 0xb7, 0x7d)) == Column(0x27, 0x83, 0xa9, 0xff)
  {
    hide InvSbox;
  }

  lemma {:induction false} Sub7_2()
    ensures SubColumn(Column(0xe8, 0x64, 0x72, 0xa9)) == Column(0x9b, 0x43, 0x40, 0xd3)
  {
    hide InvSbox;
  }

  lemma {:induction false} Sub7_3()
    ensures SubColumn(Column(0xfd, 0xd2, 0x8b, 0x25)) == Column(0x54, 0xb5, 0x3d, 0x3f)
  {
    hide InvSbox;
  }

  lemma {:induction false} Mix7()
    ensures MixColumns(State(Column(0xf7, 0x83, 0x40, 0x3f), Column(0x27, 0x43, 0x3d, 0xf0),
                             Column(0x9b, 0xb5, 0x31, 0xff), Column(0x54, 0xab, 0xa9, 0xd3)))
         == State(Column(0x14, 0x15, 0xb5, 0xbf), Column(0x46, 0x16, 0x15, 0xec),
                  Column(0x27, 0x46, 0x56, 0xd7), Column(0x34, 0x2a, 0xd8, 0x43))
  {
  }

  lemma {:induction false} Round7()
    ensures EncryptRounds(Key(), AddRoundKey(StateOf(PLAIN), RoundKey(Key(), 0)), 7) ==
      State(Column(0x5a, 0x41, 0x42, 0xb1), Column(0x19, 0x49, 0xdc, 0x1f),
            Column(0xa3, 0xe0, 0x19, 0x65), Column(0x7a, 0x8c, 0x04, 0x0c))
  {
    hide Key, RoundKey, SubColumn, StateOf, MixColumns, EncryptRounds;
    Round6();
    Key7();
    Sub7_0();
    Sub7_1();
    Sub7_2();
    Sub7_3();
    Mix7();
    NextRound(AddRoundKey(StateOf(PLAIN), RoundKey(Key(), 0)), 7);
  }

  lemma {:induction false} Sub8_0()
    ensures SubColumn(Column(0x5a, 0x41, 0x42, 0xb1)) == Column(0xbe, 0x83, 0x2c, 0xc8)
  {
    hide InvSbox;
  }

  lemma {:induction false} Sub8_1()
    ensures SubColumn(Column(0x19, 0x49, 0xdc, 0x1f)) == Column(0xd4, 0x3b, 0x86, 0xc0)
  {
    hide InvSbox;
  }

  lemma {:induction false} Sub8_2()
    ensures SubColumn(Column(0xa3, 0xe0, 0x19, 0x65)) == Column(0x0a, 0xe1, 0xd4, 0x4d)
  {
    hide InvSbox;
  }

  lemma {:induction false} Sub8_3()
    ensures SubColumn(Column(0x7a, 0x8c, 0x04, 0x0c)) == Column(0xda, 0x64, 0xf2, 0xfe)
  {
    hide InvSbox;
  }

  lemma {:induction false} Mix8()
    ensures MixColumns(State(Column(0xbe, 0x3b, 0xd4, 0xfe), Column(0xd4, 0xe1, 0xf2, 0xc8),
                             Column(0x0a, 0x64, 0x2c, 0xc0), Column(0xda, 0x83, 0x86, 0x4d)))
         == State(Column(0x00, 0x51, 0x2f, 0xd1), Column(0xb1, 0xc8, 0x89, 0xff),
                  Column(0x54, 0x76, 0x6d, 0xcd), Column(0xfa, 0x1b, 0x99, 0xea))
  {
  }

  lemma {:induction false} Round8()
    ensures EncryptRounds(Key(), AddRoundKey(StateOf(PLAIN), RoundKey(Key(), 0)), 8) ==
      State(Column(0xea, 0x83, 0x5c, 0xf0), Column(0x04, 0x45, 0x33, 0x2d),
            Column(0x65, 0x5d, 0x98, 0xad), Column(0x85, 0x96, 0xb0, 0xc5))
  {
    hide Key, RoundKey, SubColumn, StateOf, MixColumns, EncryptRounds;
    Round7();
    Key8();
    Sub8_0();
    Sub8_1();
    Sub8_2();
    Sub8_3();
    Mix8();
    NextRound(AddRoundKey(StateOf(PLAIN), RoundKey(Key(), 0)), 8);
  }

  lemma {:induction false} Sub9_0()
    ensures SubColumn(Column(0xea, 0x83, 0x5c, 0xf0)) == Column(0x87, 0xec, 0x4a, 0x8c)
  {
    hide InvSbox;
  }

  lemma {:induction false} Sub9_1()
    ensures SubColumn(Column(0x04, 0x45, 0x33, 0x2d)) == Column(0xf2, 0x6e, 0xc3, 0xd8)
  {
    hide InvSbox;
  }

  lemma {:induction false} Sub9_2()
    ensures SubColumn(Column(0x65, 0x5d, 0x98, 0xad)) == Column(0x4d, 0x4c, 0x46, 0x95)
  {
    hide InvSbox;
  }

  lemma {:induction false} Sub9_3()
    ensures SubColumn(Column(0x85, 0x96, 0xb0, 0xc5)) == Column(0x97, 0x90, 0xe7, 0xa6)
  {
    hide InvSbox;
  }

  lemma {:induction false} Mix9()
    ensures MixColumns(State(Column(0x87, 0x6e, 0x46, 0xa6), Column(0xf2, 0x4c, 0xe7, 0x8c),
                             Column(0x4d, 0x90, 0x4a, 0xd8), Column(0x97, 0xec, 0xc3, 0x95)))
         == State(Column(0x47, 0x37, 0x94, 0xed), Column(0x40, 0xd4, 0xe4, 0xa5),
                  Column(0xa3, 0x70, 0x3a, 0xa6), Column(0x4c, 0x9f, 0x42, 0xbc))
  {
  }

  lemma {:induction false} Round9()
    ensures EncryptRounds(Key(), AddRoundKey(StateOf(PLAIN), RoundKey(Key(), 0)), 9) ==
      State(Column(0xeb, 0x40, 0xf2, 0x1e), Column(0x59, 0x2e, 0x38, 0x84),
            Column(0x8b, 0xa1, 0x13, 0xe7), Column(0x1b, 0xc3, 0x42, 0xd2))
  {
    hide Key, RoundKey, SubColumn, StateOf, MixColumns, EncryptRounds;
    Round8();
    Key9();
    Sub9_0();
    Sub9_1();
    Sub9_2();
    Sub9_3();
    Mix9();
    NextRound(AddRoundKey(StateOf(PLAIN), RoundKey(Key(), 0)), 9);
  }

  lemma {:induction false} Sub10_0()
    ensures SubColumn(Column(0xeb, 0x40, 0xf2, 0x1e)) == Column(0xe9, 0x09, 0x89, 0x72)
  {
    hide InvSbox;
  }

  lemma {:induction false} Sub10_1()
    ensures SubColumn(Column(0x59, 0x2e, 0x38, 0x84)) == Column(0xcb, 0x31, 0x07, 0x5f)
  {
    hide InvSbox;
  }

  lemma {:induction false} Sub10_2()
    ensures SubColumn(Column(0x8b, 0xa1, 0x13, 0xe7)) == Column(0x3d, 0x32, 0x7d, 0x94)
  {
    hide InvSbox;
  }

  lemma {:induction false} Sub10_3()
    ensures SubColumn(Column(0x1b, 0xc3, 0x42, 0xd2)) == Column(0xaf, 0x2e, 0x2c, 0xb5)
  {
    hide InvSbox;
  }

  lemma {:induction false} CipherState()
    ensures StateOf(CIPHER) == State(Column(0x39, 0x25, 0x84, 0x1d), Column(0x02, 0xdc, 0x09, 0xfb),
                                    Column(0xdc, 0x11, 0x85, 0x97), Column(0x19, 0x6a, 0x0b, 0x32))
  {
  }

  /** The block of the example encrypts to its result. */
  lemma {:induction false} Example()
    ensures Encrypt(Key(), PLAIN) == CIPHER
  {
    hide Key, RoundKey, SubColumn, StateOf, BlockOf, EncryptRounds;
    Round9();
    Key10();
    Sub10_0();
    Sub10_1();
    Sub10_2();
    Sub10_3();
    CipherState();
    BlockIsState(CIPHER, StateOf(CIPHER));
  }
}
