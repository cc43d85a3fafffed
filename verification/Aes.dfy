/** AES-128 block encryption (FIPS 197) over a given key schedule, and its inverse. */
module Aes {
  import opened AesTables


  /** A column of the state, row 0 first. */
  datatype Column = Column(r0: Byte, r1: Byte, r2: Byte, r3: Byte)

  datatype State = State(c0: Column, c1: Column, c2: Column, c3: Column)

  /** Sixteen bytes, column by column. */
  type Block = b: seq<Byte> | |b| == 16 witness [0, 0, 0, 0, 0, 0, 0, 0, 0, 0, 0, 0, 0, 0, 0, 0]

  /** The eleven round keys. */
  type Schedule = k: seq<Byte> | |k| == 176 witness seq(176, _ => 0)

  function ColumnOf(b: Block, c: nat): Column
    requires c < 4
  {
    Column(b[4 * c], b[4 * c + 1], b[4 * c + 2], b[4 * c + 3])
  }

  function StateOf(b: Block): State {
    State(ColumnOf(b, 0), ColumnOf(b, 1), ColumnOf(b, 2), ColumnOf(b, 3))
  }

  /** Row r of column c. */
  function Entry(s: State, r: nat, c: nat): Byte
    requires r < 4 && c < 4
  {
    var column := if c == 0 then s.c0 else if c == 1 then s.c1 else if c == 2 then s.c2 else s.c3;
    if r == 0 then column.r0 else if r == 1 then column.r1 else if r == 2 then column.r2 else column.r3
  }

  function BlockOf(s: State): Block {
    seq(16, k requires 0 <= k < 16 => Entry(s, k % 4, k / 4))
  }

  function RoundKey(key: Schedule, round: nat): State
    requires round <= 10
  {
    StateOf(key[16 * round..16 * round + 16])
  }

  // ----------------------------------------------------------- GF(2^8)

  function Xor(a: Byte, b: Byte): Byte {
    a ^ b
  }

  function Xor4(a: Byte, b: Byte, c: Byte, d: Byte): Byte {
    Xor(Xor(Xor(a, b), c), d)
  }

  /** Multiplication by x modulo x^8 + x^4 + x^3 + x + 1. */
  function Xtime(x: Byte): Byte {
    (x << 1) ^ ((x >> 7) * 0x1b)
  }

  /** Multiplication of two bytes, bit by bit of the second. */
  function Gmul(a: Byte, b: Byte): Byte
    decreases b
  {
    if b == 0 then 0 else Xor(if b & 1 == 1 then a else 0, Gmul(Xtime(a), b >> 1))
  }

  // ----------------------------------------------------------- transformations

  function SubColumn(c: Column): Column {
    Column(Sbox(c.r0), Sbox(c.r1), Sbox(c.r2), Sbox(c.r3))
  }

  function InvSubColumn(c: Column): Column {
    Column(InvSbox(c.r0), InvSbox(c.r1), InvSbox(c.r2), InvSbox(c.r3))
  }

  function SubBytes(s: State): State {
    State(SubColumn(s.c0), SubColumn(s.c1), SubColumn(s.c2), SubColumn(s.c3))
  }

  function InvSubBytes(s: State): State {
    State(InvSubColumn(s.c0), InvSubColumn(s.c1), InvSubColumn(s.c2), InvSubColumn(s.c3))
  }

  /** Row r moves r columns to the left. */
  function ShiftRows(s: State): State {
    State(Column(s.c0.r0, s.c1.r1, s.c2.r2, s.c3.r3), Column(s.c1.r0, s.c2.r1, s.c3.r2, s.c0.r3),
          Column(s.c2.r0, s.c3.r1, s.c0.r2, s.c1.r3), Column(s.c3.r0, s.c0.r1, s.c1.r2, s.c2.r3))
  }

  function InvShiftRows(s: State): State {
    State(Column(s.c0.r0, s.c3.r1, s.c2.r2, s.c1.r3), Column(s.c1.r0, s.c0.r1, s.c3.r2, s.c2.r3),
          Column(s.c2.r0, s.c1.r1, s.c0.r2, s.c3.r3), Column(s.c3.r0, s.c2.r1, s.c1.r2, s.c0.r3))
  }

  function XorColumn(a: Column, b: Column): Column {
    Column(Xor(a.r0, b.r0), Xor(a.r1, b.r1), Xor(a.r2, b.r2), Xor(a.r3, b.r3))
  }

  function AddRoundKey(s: State, k: State): State {
    State(XorColumn(s.c0, k.c0), XorColumn(s.c1, k.c1), XorColumn(s.c2, k.c2), XorColumn(s.c3, k.c3))
  }

  function MixColumn(a: Column): Column {
    Column(Xor4(Xtime(a.r0), Xor(Xtime(a.r1), a.r1), a.r2, a.r3),
           Xor4(a.r0, Xtime(a.r1), Xor(Xtime(a.r2), a.r2), a.r3),
           Xor4(a.r0, a.r1, Xtime(a.r2), Xor(Xtime(a.r3), a.r3)),
           Xor4(Xor(Xtime(a.r0), a.r0), a.r1, a.r2, Xtime(a.r3)))
  }

  function InvMixColumn(a: Column): Column {
    Column(Xor4(Gmul(a.r0, 14), Gmul(a.r1, 11), Gmul(a.r2, 13), Gmul(a.r3, 9)),
           Xor4(Gmul(a.r0, 9), Gmul(a.r1, 14), Gmul(a.r2, 11), Gmul(a.r3, 13)),
           Xor4(Gmul(a.r0, 13), Gmul(a.r1, 9), Gmul(a.r2, 14), Gmul(a.r3, 11)),
           Xor4(Gmul(a.r0, 11), Gmul(a.r1, 13), Gmul(a.r2, 9), Gmul(a.r3, 14)))
  }

  function MixColumns(s: State): State {
    State(MixColumn(s.c0), MixColumn(s.c1), MixColumn(s.c2), MixColumn(s.c3))
  }

  function InvMixColumns(s: State): State {
    State(InvMixColumn(s.c0), InvMixColumn(s.c1), InvMixColumn(s.c2), InvMixColumn(s.c3))
  }

  // ----------------------------------------------------------------- the cipher

  /** One round key for the start and one for every round. */
  function RoundCount(key: Schedule): (n: nat)
    ensures n == 10
  {
    |key| / 16 - 1
  }

  /** The state behind n full rounds. */
  function EncryptRounds(key: Schedule, s: State, n: nat): State
    requires n <= 9
  {
    if n == 0 then s
    else AddRoundKey(MixColumns(ShiftRows(SubBytes(EncryptRounds(key, s, n - 1)))), RoundKey(key, n))
  }

  function Encrypt(key: Schedule, b: Block): Block {
    var n := RoundCount(key);
    var s := EncryptRounds(key, AddRoundKey(StateOf(b), RoundKey(key, 0)), n - 1);
    BlockOf(AddRoundKey(ShiftRows(SubBytes(s)), RoundKey(key, n)))
  }

  /** The state behind the inverse rounds n, ..., 1. */
  function DecryptRounds(key: Schedule, s: State, n: nat): State
    requires n <= 9
    decreases n
  {
    if n == 0 then s
    else DecryptRounds(key, InvMixColumns(AddRoundKey(InvSubBytes(InvShiftRows(s)), RoundKey(key, n))), n - 1)
  }

  function Decrypt(key: Schedule, b: Block): Block {
    var n := RoundCount(key);
    var s := DecryptRounds(key, AddRoundKey(StateOf(b), RoundKey(key, n)), n - 1);
    BlockOf(AddRoundKey(InvSubBytes(InvShiftRows(s)), RoundKey(key, 0)))
  }

  // ---------------------------------------------------- every step is undone

  lemma {:induction false} BlockIsState(b: Block, s: State)
    ensures BlockOf(StateOf(b)) == b && StateOf(BlockOf(s)) == s
  {
    forall k | 0 <= k < 16 ensures BlockOf(StateOf(b))[k] == b[k] {
      assert 4 * (k / 4) + k % 4 == k;
    }
  }

  lemma {:induction false} XorTwice(x: Byte, k: Byte)
    ensures Xor(Xor(x, k), k) == x
  {
  }

  lemma {:induction false} XorColumnTwice(a: Column, k: Column)
    ensures XorColumn(XorColumn(a, k), k) == a
  {
    hide Xor;
    XorTwice(a.r0, k.r0);
    XorTwice(a.r1, k.r1);
    XorTwice(a.r2, k.r2);
    XorTwice(a.r3, k.r3);
  }

  lemma {:induction false} AddTwice(s: State, k: State)
    ensures AddRoundKey(AddRoundKey(s, k), k) == s
  {
    hide XorColumn;
    XorColumnTwice(s.c0, k.c0);
    XorColumnTwice(s.c1, k.c1);
    XorColumnTwice(s.c2, k.c2);
    XorColumnTwice(s.c3, k.c3);
  }

  lemma {:induction false} ShiftIsUndone(s: State)
    ensures InvShiftRows(ShiftRows(s)) == s && ShiftRows(InvShiftRows(s)) == s
  {
  }

  lemma {:induction false} SubColumnIsUndone(c: Column)
    ensures InvSubColumn(SubColumn(c)) == c && SubColumn(InvSubColumn(c)) == c
  {
    hide Sbox, InvSbox;
    SboxOfInvSbox(c.r0);
    SboxOfInvSbox(c.r1);
    SboxOfInvSbox(c.r2);
    SboxOfInvSbox(c.r3);
  }

  lemma {:induction false} SubIsUndone(s: State)
    ensures InvSubBytes(SubBytes(s)) == s && SubBytes(InvSubBytes(s)) == s
  {
    hide SubColumn, InvSubColumn;
    SubColumnIsUndone(s.c0);
    SubColumnIsUndone(s.c1);
    SubColumnIsUndone(s.c2);
    SubColumnIsUndone(s.c3);
  }

  // ------------------------------------------------ the mixing matrix

  lemma {:induction false} OddStep(a: Byte, b: Byte, half: Byte)
    requires b & 1 == 1 && b >> 1 == half
    ensures Gmul(a, b) == Xor(a, Gmul(Xtime(a), half))
  {
    hide Xtime, Xor;
  }

  lemma {:induction false} EvenStep(a: Byte, b: Byte, half: Byte)
    requires b != 0 && b & 1 == 0 && b >> 1 == half
    ensures Gmul(a, b) == Gmul(Xtime(a), half)
  {
    hide Xtime;
    assert Xor(0, Gmul(Xtime(a), half)) == Gmul(Xtime(a), half);
  }

  lemma {:induction false} TimesOne(a: Byte)
    ensures Gmul(a, 1) == a
  {
    hide Xtime;
    OddStep(a, 1, 0);
    assert Xor(a, 0) == a;
  }

  function X2(a: Byte): Byte {
    Xtime(Xtime(a))
  }

  function X3(a: Byte): Byte {
    Xtime(X2(a))
  }

  /** The multiples the inverse matrix is made of. */
  lemma {:induction false} Multiples(a: Byte)
    ensures Gmul(a, 9) == Xor(a, X3(a)) && Gmul(a, 11) == Xor(a, Xor(Xtime(a), X3(a)))
    ensures Gmul(a, 13) == Xor(a, Xor(X2(a), X3(a))) && Gmul(a, 14) == Xor(Xtime(a), Xor(X2(a), X3(a)))
  {
    hide Xtime, Gmul, Xor;
    var x1, x2 := Xtime(a), X2(a);
    TimesOne(X3(a));
    OddStep(a, 9, 4);
    OddStep(a, 11, 5);
    OddStep(a, 13, 6);
    EvenStep(a, 14, 7);
    EvenStep(x1, 4, 2);
    OddStep(x1, 5, 2);
    EvenStep(x1, 6, 3);
    OddStep(x1, 7, 3);
    EvenStep(x2, 2, 1);
    OddStep(x2, 3, 1);
  }

  lemma {:induction false} XorCommutes(a: Byte, b: Byte)
    ensures Xor(a, b) == Xor(b, a)
  {
  }

  lemma {:induction false} XorAssociates(a: Byte, b: Byte, c: Byte)
    ensures Xor(Xor(a, b), c) == Xor(a, Xor(b, c))
  {
  }

  lemma {:induction false} Regroup2(a: Byte, b: Byte, c: Byte, d: Byte)
    ensures Xor(Xor(a, b), Xor(c, d)) == Xor(Xor(a, c), Xor(b, d))
  {
    hide Xor;
    XorAssociates(a, b, Xor(c, d));
    XorAssociates(b, c, d);
    XorCommutes(b, c);
    XorAssociates(c, b, d);
    XorAssociates(a, c, Xor(b, d));
  }

  lemma {:induction false} Regroup3(a: Byte, b: Byte, c: Byte, d: Byte, e: Byte, f: Byte)
    ensures Xor(Xor(a, b), Xor(Xor(c, d), Xor(e, f))) == Xor(Xor(a, Xor(c, e)), Xor(b, Xor(d, f)))
  {
    hide Xor;
    Regroup2(c, d, e, f);
    Regroup2(a, b, Xor(c, e), Xor(d, f));
  }

  lemma {:induction false} Regroup4(a: Byte, b: Byte, c: Byte, d: Byte, e: Byte, f: Byte, g: Byte, h: Byte)
    ensures Xor4(Xor(a, b), Xor(c, d), Xor(e, f), Xor(g, h)) == Xor(Xor4(a, c, e, g), Xor4(b, d, f, h))
  {
    hide Xor;
    Regroup2(a, b, c, d);
    Regroup2(Xor(a, c), Xor(b, d), e, f);
    Regroup2(Xor(Xor(a, c), e), Xor(Xor(b, d), f), g, h);
  }

  lemma {:induction false} Rotated(a: Byte, b: Byte, c: Byte, d: Byte)
    ensures Xor4(a, b, c, d) == Xor4(b, c, d, a)
  {
    hide Xor;
    XorAssociates(a, b, c);
    XorAssociates(a, Xor(b, c), d);
    XorCommutes(a, Xor(Xor(b, c), d));
  }

  /** Multiplying by x is linear. */
  lemma {:induction false} XtimeIsLinear(a: Byte, b: Byte)
    ensures Xtime(Xor(a, b)) == Xor(Xtime(a), Xtime(b))
  {
  }

  lemma {:induction false} MultiplesAreLinear(a: Byte, b: Byte)
    ensures Gmul(Xor(a, b), 9) == Xor(Gmul(a, 9), Gmul(b, 9)) && Gmul(Xor(a, b), 11) == Xor(Gmul(a, 11), Gmul(b, 11))
    ensures Gmul(Xor(a, b), 13) == Xor(Gmul(a, 13), Gmul(b, 13)) && Gmul(Xor(a, b), 14) == Xor(Gmul(a, 14), Gmul(b, 14))
  {
    hide Xtime, Gmul, Xor;
    Multiples(a);
    Multiples(b);
    Multiples(Xor(a, b));
    XtimeIsLinear(a, b);
    XtimeIsLinear(Xtime(a), Xtime(b));
    XtimeIsLinear(X2(a), X2(b));
    Regroup2(a, b, X3(a), X3(b));
    Regroup3(a, b, Xtime(a), Xtime(b), X3(a), X3(b));
    Regroup3(a, b, X2(a), X2(b), X3(a), X3(b));
    Regroup3(Xtime(a), Xtime(b), X2(a), X2(b), X3(a), X3(b));
  }

  /** One row of the mixing matrix, and of its inverse. */
  function MixRow(a: Column): Byte {
    Xor4(Xtime(a.r0), Xor(Xtime(a.r1), a.r1), a.r2, a.r3)
  }

  function InvMixRow(a: Column): Byte {
    Xor4(Gmul(a.r0, 14), Gmul(a.r1, 11), Gmul(a.r2, 13), Gmul(a.r3, 9))
  }

  lemma {:induction false} RowsAreLinear(a: Column, b: Column)
    ensures MixRow(XorColumn(a, b)) == Xor(MixRow(a), MixRow(b))
    ensures InvMixRow(XorColumn(a, b)) == Xor(InvMixRow(a), InvMixRow(b))
  {
    hide Gmul, Xtime, Xor, Xor4;
    MultiplesAreLinear(a.r0, b.r0);
    MultiplesAreLinear(a.r1, b.r1);
    MultiplesAreLinear(a.r2, b.r2);
    MultiplesAreLinear(a.r3, b.r3);
    XtimeIsLinear(a.r0, b.r0);
    XtimeIsLinear(a.r1, b.r1);
    Regroup2(Xtime(a.r1), Xtime(b.r1), a.r1, b.r1);
    Regroup4(Gmul(a.r0, 14), Gmul(b.r0, 14), Gmul(a.r1, 11), Gmul(b.r1, 11), Gmul(a.r2, 13), Gmul(b.r2, 13),
      Gmul(a.r3, 9), Gmul(b.r3, 9));
    Regroup4(Xtime(a.r0), Xtime(b.r0), Xor(Xtime(a.r1), a.r1), Xor(Xtime(b.r1), b.r1), a.r2, b.r2, a.r3, b.r3);
  }

  // ---------------------------------------- sums of a, xa, x^2 a, x^3 a, x^4 a

  datatype Coefficient = Zero | One

  function OneOf(p: Coefficient, q: Coefficient): Coefficient {
    if p == q then Zero else One
  }

  /** Which of the five multiples a sum contains. */
  datatype Terms = Terms(t0: Coefficient, t1: Coefficient, t2: Coefficient, t3: Coefficient, t4: Coefficient) {
    function Plus(u: Terms): Terms {
      Terms(OneOf(t0, u.t0), OneOf(t1, u.t1), OneOf(t2, u.t2), OneOf(t3, u.t3), OneOf(t4, u.t4))
    }
  }

  function Pick(on: Coefficient, x: Byte): Byte {
    if on == One then x else 0
  }

  function Sum(s: Terms, a: Byte): Byte {
    Xor(Pick(s.t0, a), Xor(Pick(s.t1, Xtime(a)),
      Xor(Pick(s.t2, X2(a)), Xor(Pick(s.t3, X3(a)), Pick(s.t4, Xtime(X3(a)))))))
  }

  lemma {:induction false} XorUnits(x: Byte)
    ensures Xor(x, x) == 0 && Xor(x, 0) == x && Xor(0, x) == x
  {
  }

  lemma {:induction false} PickPlus(p: Coefficient, q: Coefficient, x: Byte)
    ensures Xor(Pick(p, x), Pick(q, x)) == Pick(OneOf(p, q), x)
  {
    hide Xor;
    XorUnits(x);
    XorUnits(0);
  }

  lemma {:induction false} Regroup5(a: Byte, b: Byte, c: Byte, d: Byte, e: Byte, a': Byte, b': Byte, c': Byte,
        d': Byte, e': Byte)
    ensures Xor(Xor(a, Xor(b, Xor(c, Xor(d, e)))), Xor(a', Xor(b', Xor(c', Xor(d', e')))))
         == Xor(Xor(a, a'), Xor(Xor(b, b'), Xor(Xor(c, c'), Xor(Xor(d, d'), Xor(e, e')))))
  {
    hide Xor;
    Regroup2(a, Xor(b, Xor(c, Xor(d, e))), a', Xor(b', Xor(c', Xor(d', e'))));
    Regroup2(b, Xor(c, Xor(d, e)), b', Xor(c', Xor(d', e')));
    Regroup2(c, Xor(d, e), c', Xor(d', e'));
    Regroup2(d, e, d', e');
  }

  /** Equal terms cancel. */
  lemma {:induction false} SumPlus(s: Terms, u: Terms, a: Byte)
    ensures Xor(Sum(s, a), Sum(u, a)) == Sum(s.Plus(u), a)
  {
    hide Xor, Xtime, Pick, X2, X3, OneOf;
    var b, c, d, e := Xtime(a), X2(a), X3(a), Xtime(X3(a));
    PickPlus(s.t0, u.t0, a);
    PickPlus(s.t1, u.t1, b);
    PickPlus(s.t2, u.t2, c);
    PickPlus(s.t3, u.t3, d);
    PickPlus(s.t4, u.t4, e);
    Regroup5(Pick(s.t0, a), Pick(s.t1, b), Pick(s.t2, c), Pick(s.t3, d), Pick(s.t4, e),
             Pick(u.t0, a), Pick(u.t1, b), Pick(u.t2, c), Pick(u.t3, d), Pick(u.t4, e));
  }

  lemma {:induction false} SumPlus4(s: Terms, t: Terms, u: Terms, v: Terms, a: Byte)
    ensures Xor4(Sum(s, a), Sum(t, a), Sum(u, a), Sum(v, a)) == Sum(s.Plus(t).Plus(u).Plus(v), a)
  {
    hide Xor, Sum;
    SumPlus(s, t, a);
    SumPlus(s.Plus(t), u, a);
    SumPlus(s.Plus(t).Plus(u), v, a);
  }

  const NOTHING := Terms(Zero, Zero, Zero, Zero, Zero)
  const ONE := Terms(One, Zero, Zero, Zero, Zero)
  const TWO := Terms(Zero, One, Zero, Zero, Zero)

  /** The multiples as sums, of a and of xa. */
  function Times(n: Byte): Terms {
    if n == 9 then Terms(One, Zero, Zero, One, Zero)
    else if n == 11 then Terms(One, One, Zero, One, Zero)
    else if n == 13 then Terms(One, Zero, One, One, Zero)
    else Terms(Zero, One, One, One, Zero)
  }

  function Doubled(s: Terms): Terms {
    Terms(Zero, s.t0, s.t1, s.t2, s.t3)
  }

  lemma {:induction false} SmallSums(a: Byte)
    ensures Sum(NOTHING, a) == 0 && Sum(ONE, a) == a && Sum(TWO, a) == Xtime(a)
  {
    hide Xor, Xtime, X2, X3;
    XorUnits(0);
    XorUnits(a);
    XorUnits(Xtime(a));
  }

  lemma {:induction false} MultiplesAreSums(a: Byte)
    ensures Gmul(a, 9) == Sum(Times(9), a) && Gmul(a, 11) == Sum(Times(11), a)
    ensures Gmul(a, 13) == Sum(Times(13), a) && Gmul(a, 14) == Sum(Times(14), a)
  {
    hide Xor, Xtime, X2, X3, Gmul;
    Multiples(a);
    XorUnits(X3(a));
    XorUnits(Xor(X2(a), X3(a)));
    XorUnits(Xor(Xtime(a), Xor(X2(a), X3(a))));
    XorUnits(0);
  }

  lemma {:induction false} DoubledSum(s: Terms, a: Byte)
    requires s.t4 == Zero
    ensures Xtime(Sum(s, a)) == Sum(Doubled(s), a)
  {
    hide Xor, Xtime, Pick;
    var b, c, d, e := Xtime(a), X2(a), X3(a), Xtime(X3(a));
    var p0, p1, p2, p3 := Pick(s.t0, a), Pick(s.t1, b), Pick(s.t2, c), Pick(s.t3, d);
    PickZero(e);
    PickZero(a);
    XorUnits(p3);
    XtimeIsLinear(p0, Xor(p1, Xor(p2, p3)));
    XtimeIsLinear(p1, Xor(p2, p3));
    XtimeIsLinear(p2, p3);
    XtimeOfPick(s.t0, a);
    XtimeOfPick(s.t1, b);
    XtimeOfPick(s.t2, c);
    XtimeOfPick(s.t3, d);
    XorUnits(Xor(Pick(s.t0, b), Xor(Pick(s.t1, c), Xor(Pick(s.t2, d), Pick(s.t3, e)))));
  }

  lemma {:induction false} PickZero(x: Byte)
    ensures Pick(Zero, x) == 0
  {
  }

  lemma {:induction false} XtimeOfPick(on: Coefficient, x: Byte)
    ensures Xtime(Pick(on, x)) == Pick(on, Xtime(x))
  {
    hide Xtime;
    XtimeOfZero();
  }

  lemma {:induction false} XtimeOfZero()
    ensures Xtime(0) == 0
  {
  }

  /** The rows on the four columns one byte contributes to: the products of the two
      matrices are the identity matrix. */
  lemma {:induction false} InvRowOfMix(a: Byte)
    ensures InvMixRow(Column(Xtime(a), a, a, Xor(Xtime(a), a))) == a
    ensures InvMixRow(Column(Xor(Xtime(a), a), Xtime(a), a, a)) == 0
    ensures InvMixRow(Column(a, Xor(Xtime(a), a), Xtime(a), a)) == 0
    ensures InvMixRow(Column(a, a, Xor(Xtime(a), a), Xtime(a))) == 0
  {
    hide Gmul, Xtime, Xor, Xor4, Sum;
    var t9, t11, t13, t14 := Times(9), Times(11), Times(13), Times(14);
    var u9, u11, u13, u14 := Doubled(t9), Doubled(t11), Doubled(t13), Doubled(t14);
    MultiplesAreSums(a);
    MultiplesAreLinear(Xtime(a), a);
    DoubledMultiples(a);
    SumPlus(u9, t9, a);
    SumPlus(u11, t11, a);
    SumPlus(u13, t13, a);
    SumPlus(u14, t14, a);
    SumPlus4(u14, t11, t13, u9.Plus(t9), a);
    SumPlus4(u14.Plus(t14), u11, t13, t9, a);
    SumPlus4(t14, u11.Plus(t11), u13, t9, a);
    SumPlus4(t14, t11, u13.Plus(t13), u9, a);
    SmallSums(a);
  }

  lemma {:induction false} DoubledMultiples(a: Byte)
    ensures Gmul(Xtime(a), 9) == Sum(Doubled(Times(9)), a) && Gmul(Xtime(a), 11) == Sum(Doubled(Times(11)), a)
    ensures Gmul(Xtime(a), 13) == Sum(Doubled(Times(13)), a) && Gmul(Xtime(a), 14) == Sum(Doubled(Times(14)), a)
    ensures Xtime(Gmul(a, 9)) == Sum(Doubled(Times(9)), a) && Xtime(Gmul(a, 11)) == Sum(Doubled(Times(11)), a)
    ensures Xtime(Gmul(a, 13)) == Sum(Doubled(Times(13)), a) && Xtime(Gmul(a, 14)) == Sum(Doubled(Times(14)), a)
  {
    hide Gmul, Xtime, Xor, Sum;
    MultiplesAreSums(a);
    DoubledSum(Times(9), a);
    DoubledSum(Times(11), a);
    DoubledSum(Times(13), a);
    DoubledSum(Times(14), a);
    Multiples(a);
    Multiples(Xtime(a));
    var b, c, d := Xtime(a), X2(a), X3(a);
    XtimeIsLinear(a, d);
    XtimeIsLinear(b, d);
    XtimeIsLinear(c, d);
    XtimeIsLinear(a, Xor(b, d));
    XtimeIsLinear(a, Xor(c, d));
    XtimeIsLinear(b, Xor(c, d));
  }

  lemma {:induction false} MixRowOfInv(a: Byte)
    ensures MixRow(Column(Gmul(a, 14), Gmul(a, 9), Gmul(a, 13), Gmul(a, 11))) == a
    ensures MixRow(Column(Gmul(a, 11), Gmul(a, 14), Gmul(a, 9), Gmul(a, 13))) == 0
    ensures MixRow(Column(Gmul(a, 13), Gmul(a, 11), Gmul(a, 14), Gmul(a, 9))) == 0
    ensures MixRow(Column(Gmul(a, 9), Gmul(a, 13), Gmul(a, 11), Gmul(a, 14))) == 0
  {
    hide Gmul, Xtime, Xor, Xor4, Sum;
    var t9, t11, t13, t14 := Times(9), Times(11), Times(13), Times(14);
    var u9, u11, u13, u14 := Doubled(t9), Doubled(t11), Doubled(t13), Doubled(t14);
    MultiplesAreSums(a);
    DoubledMultiples(a);
    SumPlus(u9, t9, a);
    SumPlus(u11, t11, a);
    SumPlus(u13, t13, a);
    SumPlus(u14, t14, a);
    SumPlus4(u14, u9.Plus(t9), t13, t11, a);
    SumPlus4(u11, u14.Plus(t14), t9, t13, a);
    SumPlus4(u13, u11.Plus(t11), t14, t9, a);
    SumPlus4(u9, u13.Plus(t13), t11, t14, a);
    SmallSums(a);
  }

  // ------------------------------------------------------ mixing is undone

  /** A column as the sum of what its four bytes contribute. */
  lemma {:induction false} RowOfSum(a: Column, b: Column, c: Column, d: Column)
    ensures var s := XorColumn(XorColumn(XorColumn(a, b), c), d);
      MixRow(s) == Xor4(MixRow(a), MixRow(b), MixRow(c), MixRow(d))
      && InvMixRow(s) == Xor4(InvMixRow(a), InvMixRow(b), InvMixRow(c), InvMixRow(d))
  {
    hide Xor, MixRow, InvMixRow, XorColumn;
    RowsAreLinear(XorColumn(XorColumn(a, b), c), d);
    RowsAreLinear(XorColumn(a, b), c);
    RowsAreLinear(a, b);
  }

  lemma {:induction false} OneOfFour(x: Byte)
    ensures Xor4(x, 0, 0, 0) == x
  {
    hide Xor;
    XorUnits(x);
  }

  lemma {:induction false} FirstRows(a: Column)
    ensures InvMixRow(MixColumn(a)) == a.r0 && MixRow(InvMixColumn(a)) == a.r0
  {
    hide Gmul, Xtime, Xor, MixRow, InvMixRow;
    var x0, x1, x2, x3 := a.r0, a.r1, a.r2, a.r3;
    InvRowOfMix(x0);
    InvRowOfMix(x1);
    InvRowOfMix(x2);
    InvRowOfMix(x3);
    RowOfSum(Column(Xtime(x0), x0, x0, Xor(Xtime(x0), x0)), Column(Xor(Xtime(x1), x1), Xtime(x1), x1, x1),
             Column(x2, Xor(Xtime(x2), x2), Xtime(x2), x2), Column(x3, x3, Xor(Xtime(x3), x3), Xtime(x3)));
    MixRowOfInv(x0);
    MixRowOfInv(x1);
    MixRowOfInv(x2);
    MixRowOfInv(x3);
    RowOfSum(Column(Gmul(x0, 14), Gmul(x0, 9), Gmul(x0, 13), Gmul(x0, 11)),
             Column(Gmul(x1, 11), Gmul(x1, 14), Gmul(x1, 9), Gmul(x1, 13)),
             Column(Gmul(x2, 13), Gmul(x2, 11), Gmul(x2, 14), Gmul(x2, 9)),
             Column(Gmul(x3, 9), Gmul(x3, 13), Gmul(x3, 11), Gmul(x3, 14)));
    OneOfFour(x0);
  }

  function Rotate(a: Column): Column {
    Column(a.r1, a.r2, a.r3, a.r0)
  }

  /** Both matrices are circulant. */
  lemma {:induction false} MixingRotates(a: Column)
    ensures MixColumn(Rotate(a)) == Rotate(MixColumn(a)) && InvMixColumn(Rotate(a)) == Rotate(InvMixColumn(a))
    ensures MixColumn(a).r0 == MixRow(a) && InvMixColumn(a).r0 == InvMixRow(a)
  {
    hide Gmul, Xtime, Xor, Xor4;
    var x0, x1, x2, x3 := a.r0, a.r1, a.r2, a.r3;
    Rotated(x0, Xtime(x1), Xor(Xtime(x2), x2), x3);
    Rotated(x0, x1, Xtime(x2), Xor(Xtime(x3), x3));
    Rotated(Xor(Xtime(x0), x0), x1, x2, Xtime(x3));
    Rotated(Xtime(x0), Xor(Xtime(x1), x1), x2, x3);
    Rotated(Gmul(x0, 9), Gmul(x1, 14), Gmul(x2, 11), Gmul(x3, 13));
    Rotated(Gmul(x0, 13), Gmul(x1, 9), Gmul(x2, 14), Gmul(x3, 11));
    Rotated(Gmul(x0, 11), Gmul(x1, 13), Gmul(x2, 9), Gmul(x3, 14));
    Rotated(Gmul(x0, 14), Gmul(x1, 11), Gmul(x2, 13), Gmul(x3, 9));
  }

  lemma {:induction false} MixColumnIsUndone(a: Column)
    ensures InvMixColumn(MixColumn(a)) == a && MixColumn(InvMixColumn(a)) == a
  {
    hide MixColumn, InvMixColumn, MixRow, InvMixRow;
    var b, c, d := Rotate(a), Rotate(Rotate(a)), Rotate(Rotate(Rotate(a)));
    FirstRows(a);
    FirstRows(b);
    FirstRows(c);
    FirstRows(d);
    MixingRotates(a);
    MixingRotates(b);
    MixingRotates(c);
    MixingRotates(d);
    MixingRotates(MixColumn(a));
    MixingRotates(MixColumn(b));
    MixingRotates(MixColumn(c));
    MixingRotates(MixColumn(d));
    MixingRotates(InvMixColumn(a));
    MixingRotates(InvMixColumn(b));
    MixingRotates(InvMixColumn(c));
    MixingRotates(InvMixColumn(d));
  }

  lemma {:induction false} MixIsUndone(s: State)
    ensures InvMixColumns(MixColumns(s)) == s && MixColumns(InvMixColumns(s)) == s
  {
    hide MixColumn, InvMixColumn;
    MixColumnIsUndone(s.c0);
    MixColumnIsUndone(s.c1);
    MixColumnIsUndone(s.c2);
    MixColumnIsUndone(s.c3);
  }

  // ------------------------------------------------------ the cipher is undone

  lemma {:induction false} DecryptsRounds(key: Schedule, s: State, n: nat)
    requires n <= 9
    ensures DecryptRounds(key, ShiftRows(SubBytes(EncryptRounds(key, s, n))), n) == ShiftRows(SubBytes(s))
  {
    hide SubBytes, InvSubBytes, ShiftRows, InvShiftRows, MixColumns, InvMixColumns, AddRoundKey, RoundKey;
    if n != 0 {
      var e := EncryptRounds(key, s, n);
      var before := ShiftRows(SubBytes(EncryptRounds(key, s, n - 1)));
      ShiftIsUndone(SubBytes(e));
      SubIsUndone(e);
      AddTwice(MixColumns(before), RoundKey(key, n));
      MixIsUndone(before);
      DecryptsRounds(key, s, n - 1);
    }
  }

  /** Decryption inverts encryption, for every key schedule and block. */
  lemma {:induction false} DecryptOfEncrypt(key: Schedule, b: Block)
    ensures Decrypt(key, Encrypt(key, b)) == b
  {
    hide SubBytes, InvSubBytes, ShiftRows, InvShiftRows, AddRoundKey, RoundKey, StateOf, BlockOf, EncryptRounds,
      DecryptRounds;
    var s := AddRoundKey(StateOf(b), RoundKey(key, 0));
    var last := ShiftRows(SubBytes(EncryptRounds(key, s, 9)));
    BlockIsState(b, AddRoundKey(last, RoundKey(key, 10)));
    AddTwice(last, RoundKey(key, 10));
    DecryptsRounds(key, s, 9);
    ShiftIsUndone(SubBytes(s));
    SubIsUndone(s);
    AddTwice(StateOf(b), RoundKey(key, 0));
  }

  /** The rounds 1 to n on top of what decryption left. */
  lemma {:induction false} EncryptsRounds(key: Schedule, s: State, n: nat)
    requires n <= 9
    ensures EncryptRounds(key, InvSubBytes(InvShiftRows(DecryptRounds(key, s, n))), n) == InvSubBytes(InvShiftRows(s))
    decreases n
  {
    hide SubBytes, InvSubBytes, ShiftRows, InvShiftRows, MixColumns, InvMixColumns, AddRoundKey, RoundKey;
    if n != 0 {
      var k := RoundKey(key, n);
      var t := InvSubBytes(InvShiftRows(s));
      var next := InvMixColumns(AddRoundKey(t, k));
      EncryptsRounds(key, next, n - 1);
      SubIsUndone(InvShiftRows(next));
      ShiftIsUndone(next);
      MixIsUndone(AddRoundKey(t, k));
      AddTwice(t, k);
    }
  }

  /** Encryption inverts decryption too: every block is the encryption of exactly one block. */
  lemma {:induction false} EncryptOfDecrypt(key: Schedule, b: Block)
    ensures Encrypt(key, Decrypt(key, b)) == b
  {
    hide SubBytes, InvSubBytes, ShiftRows, InvShiftRows, AddRoundKey, RoundKey, StateOf, BlockOf, EncryptRounds,
      DecryptRounds;
    var s := AddRoundKey(StateOf(b), RoundKey(key, 10));
    var first := InvSubBytes(InvShiftRows(DecryptRounds(key, s, 9)));
    BlockIsState(b, AddRoundKey(first, RoundKey(key, 0)));
    AddTwice(first, RoundKey(key, 0));
    EncryptsRounds(key, s, 9);
    SubIsUndone(InvShiftRows(s));
    ShiftIsUndone(s);
    AddTwice(StateOf(b), RoundKey(key, 10));
  }
}
