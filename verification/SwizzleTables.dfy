/** The swizzle equations in numbers: what each coordinate bit adds to the byte offset, and
    that the offset of any coordinate is the XOR of what its bits add. */
module SwizzleTables {
  import opened Basics
  import opened Bits
  import opened Swizzle
  import opened Detile

  // ------------------------------------------------- one coordinate bit

  /** The x bit a row feeds into the offset, -1 when there is none. */
  function XBitOf(row: AddressBit): int {
    match row
    case Zero => -1
    case X(b) => b
    case Y(_) => -1
    case XY(b, _) => b
    case XYY(b, _, _) => b
  }

  lemma {:induction false} BitOfPower(t: nat, b: nat)
    ensures Bit(Pow2(t), b) == (if b == t then 1 else 0) && Bit(0, b) == 0
  {
    if b != 0 {
      if t != 0 {
        BitOfPower(t - 1, b - 1);
      } else {
        BitOfPower(0, b - 1);
        assert Pow2(0) / 2 == 0;
      }
    }
  }

  /** On x = 2^t, y = 0 a row is one exactly when t is its x bit. */
  lemma {:induction false} RowAtPower(row: AddressBit, t: nat)
    requires row.Valid()
    ensures row.Parity(Pow2(t), 0) == if XBitOf(row) == t then 1 else 0
  {
    hide Bit, Pow2, PopCount, And;
    ParityIsXor(row, Pow2(t), 0);
    match row
    case Zero =>
    case X(b) => BitOfPower(t, b);
    case Y(c) => BitOfPower(t, c);
    case XY(b, c) => BitOfPower(t, b); BitOfPower(t, c);
    case XYY(b, c, d) => BitOfPower(t, b); BitOfPower(t, c); BitOfPower(t, d);
  }

  /** Whether y bit t is among the bits a row names. */
  predicate NamesY(row: AddressBit, t: nat) {
    match row
    case Zero => false
    case X(_) => false
    case Y(b) => b == t
    case XY(_, b) => b == t
    case XYY(_, b, c) => b == t || c == t
  }

  /** On x = 0, y = 2^t a row is one exactly when it names y bit t. */
  lemma {:induction false} RowAtYPower(row: AddressBit, t: nat)
    requires row.Valid()
    ensures row.Parity(0, Pow2(t)) == if NamesY(row, t) then 1 else 0
  {
    hide Bit, Pow2, PopCount, And;
    ParityIsXor(row, 0, Pow2(t));
    match row
    case Zero =>
    case X(b) => BitOfPower(t, b);
    case Y(c) => BitOfPower(t, c);
    case XY(b, c) => BitOfPower(t, b); BitOfPower(t, c);
    case XYY(b, c, d) => BitOfPower(t, b); BitOfPower(t, c); BitOfPower(t, d);
  }

  /** The rows from r on that name x bit t, as a number. */
  function XWeight(p: Pattern, t: nat, r: nat): nat
    decreases BitCount(p) - r
  {
    if r >= BitCount(p) then 0 else (if XBitOf(Row(p, r)) == t then 1 else 0) + 2 * XWeight(p, t, r + 1)
  }

  function YWeight(p: Pattern, t: nat, r: nat): nat
    decreases BitCount(p) - r
  {
    if r >= BitCount(p) then 0 else (if NamesY(Row(p, r), t) then 1 else 0) + 2 * YWeight(p, t, r + 1)
  }

  lemma {:induction false} OffsetIsWeight(p: Pattern, t: nat, r: nat)
    requires r <= BitCount(p)
    ensures FromBits(PatternBits(p, Pow2(t), 0)[r..]) == XWeight(p, t, r)
    ensures FromBits(PatternBits(p, 0, Pow2(t))[r..]) == YWeight(p, t, r)
    decreases BitCount(p) - r
  {
    hide Row, Pow2, XBitOf, NamesY;
    var xs, ys := PatternBits(p, Pow2(t), 0), PatternBits(p, 0, Pow2(t));
    if r < BitCount(p) {
      OffsetIsWeight(p, t, r + 1);
      RowsAreValid(p, r);
      RowAtPower(Row(p, r), t);
      RowAtYPower(Row(p, r), t);
      assert xs[r..][1..] == xs[r + 1..] && ys[r..][1..] == ys[r + 1..];
    }
  }

  /** Coordinate bits from 9 up reach no table. */
  lemma {:induction false} NoWeight(p: Pattern, t: nat, r: nat)
    requires !p.Interleave? && t > 8
    ensures XWeight(p, t, r) == 0 && YWeight(p, t, r) == 0
    decreases BitCount(p) - r
  {
    hide Row;
    if r < BitCount(p) {
      NoWeight(p, t, r + 1);
      TableRowsAreNarrow(p, r);
    }
  }

  // ------------------------------------------------------- the tables

  /** One coordinate bit of each of sixteen rows, -1 for none. */
  datatype RowBits = RowBits(
    b0: int, b1: int, b2: int, b3: int, b4: int, b5: int, b6: int, b7: int,
    b8: int, b9: int, b10: int, b11: int, b12: int, b13: int, b14: int, b15: int)

  /** The rows that have bit t, as a number. */
  function Sum(b: RowBits, t: nat): nat {
    (if b.b0 == t then 1 else 0) + (if b.b1 == t then 2 else 0) + (if b.b2 == t then 4 else 0)
    + (if b.b3 == t then 8 else 0) + (if b.b4 == t then 16 else 0) + (if b.b5 == t then 32 else 0)
    + (if b.b6 == t then 64 else 0) + (if b.b7 == t then 128 else 0) + (if b.b8 == t then 256 else 0)
    + (if b.b9 == t then 512 else 0) + (if b.b10 == t then 1024 else 0) + (if b.b11 == t then 2048 else 0)
    + (if b.b12 == t then 4096 else 0) + (if b.b13 == t then 8192 else 0) + (if b.b14 == t then 16384 else 0)
    + (if b.b15 == t then 32768 else 0)
  }

  function Sum0(b: RowBits, t: nat): nat {
    (if b.b0 == t then 1 else 0) + (if b.b1 == t then 2 else 0)
    + (if b.b2 == t then 4 else 0) + (if b.b3 == t then 8 else 0)
  }

  function Sum4(b: RowBits, t: nat): nat {
    (if b.b4 == t then 16 else 0) + (if b.b5 == t then 32 else 0)
    + (if b.b6 == t then 64 else 0) + (if b.b7 == t then 128 else 0)
  }

  function Sum8(b: RowBits, t: nat): nat {
    (if b.b8 == t then 256 else 0) + (if b.b9 == t then 512 else 0)
    + (if b.b10 == t then 1024 else 0) + (if b.b11 == t then 2048 else 0)
  }

  function Sum12(b: RowBits, t: nat): nat {
    (if b.b12 == t then 4096 else 0) + (if b.b13 == t then 8192 else 0)
    + (if b.b14 == t then 16384 else 0) + (if b.b15 == t then 32768 else 0)
  }

  lemma {:induction false} SumOfGroups(b: RowBits, t: nat)
    ensures Sum(b, t) == Sum0(b, t) + Sum4(b, t) + Sum8(b, t) + Sum12(b, t)
  {
  }

  /** The y bit a row names, the first of two, and the second. */
  function YBitOf(row: AddressBit): int {
    match row
    case Zero => -1
    case X(_) => -1
    case Y(b) => b
    case XY(_, b) => b
    case XYY(_, b, _) => b
  }

  function SecondYBitOf(row: AddressBit): int {
    match row case XYY(_, _, c) => c case _ => -1
  }

  function XBits(p: Pattern): RowBits {
    RowBits(
      XBitOf(Row(p, 0)), XBitOf(Row(p, 1)), XBitOf(Row(p, 2)), XBitOf(Row(p, 3)), XBitOf(Row(p, 4)),
      XBitOf(Row(p, 5)), XBitOf(Row(p, 6)), XBitOf(Row(p, 7)), XBitOf(Row(p, 8)), XBitOf(Row(p, 9)),
      XBitOf(Row(p, 10)), XBitOf(Row(p, 11)), XBitOf(Row(p, 12)), XBitOf(Row(p, 13)), XBitOf(Row(p, 14)),
      XBitOf(Row(p, 15)))
  }

  function YBits(p: Pattern): RowBits {
    RowBits(
      YBitOf(Row(p, 0)), YBitOf(Row(p, 1)), YBitOf(Row(p, 2)), YBitOf(Row(p, 3)), YBitOf(Row(p, 4)),
      YBitOf(Row(p, 5)), YBitOf(Row(p, 6)), YBitOf(Row(p, 7)), YBitOf(Row(p, 8)), YBitOf(Row(p, 9)),
      YBitOf(Row(p, 10)), YBitOf(Row(p, 11)), YBitOf(Row(p, 12)), YBitOf(Row(p, 13)), YBitOf(Row(p, 14)),
      YBitOf(Row(p, 15)))
  }

  lemma {:induction false} NamedBits(row: AddressBit, t: nat)
    requires row.Valid()
    ensures NamesY(row, t) <==> YBitOf(row) == t || SecondYBitOf(row) == t
    ensures YBitOf(row) == t ==> SecondYBitOf(row) != t
  {
  }

  /** Only row 8 names two y bits. */
  lemma {:induction false} OneDoubleRow(p: Pattern, r: nat)
    requires !p.Interleave? && r != 8
    ensures SecondYBitOf(Row(p, r)) == -1
  {
  }

  lemma {:induction false} NameRow(p: Pattern, t: nat, r: nat)
    requires !p.Interleave?
    ensures NamesY(Row(p, r), t) <==> YBitOf(Row(p, r)) == t || (r == 8 && SecondYBitOf(Row(p, 8)) == t)
    ensures r == 8 && YBitOf(Row(p, 8)) == t ==> SecondYBitOf(Row(p, 8)) != t
  {
    hide Row, YBitOf, SecondYBitOf, NamesY;
    RowsAreValid(p, r);
    NamedBits(Row(p, r), t);
    if r != 8 {
      OneDoubleRow(p, r);
    }
  }

  lemma {:induction false} FourXRows(p: Pattern, t: nat, r: nat)
    requires r + 4 <= BitCount(p)
    ensures XWeight(p, t, r) == (if XBitOf(Row(p, r)) == t then 1 else 0)
      + (if XBitOf(Row(p, r + 1)) == t then 2 else 0) + (if XBitOf(Row(p, r + 2)) == t then 4 else 0)
      + (if XBitOf(Row(p, r + 3)) == t then 8 else 0) + 16 * XWeight(p, t, r + 4)
  {
    hide Row, XBitOf;
    assert XWeight(p, t, r + 2) == (if XBitOf(Row(p, r + 2)) == t then 1 else 0) + 2 * XWeight(p, t, r + 3);
  }

  lemma {:induction false} FourYRows(p: Pattern, t: nat, r: nat)
    requires r + 4 <= BitCount(p)
    ensures YWeight(p, t, r) == (if NamesY(Row(p, r), t) then 1 else 0)
      + (if NamesY(Row(p, r + 1), t) then 2 else 0) + (if NamesY(Row(p, r + 2), t) then 4 else 0)
      + (if NamesY(Row(p, r + 3), t) then 8 else 0) + 16 * YWeight(p, t, r + 4)
  {
    hide Row, NamesY;
    assert YWeight(p, t, r + 2) == (if NamesY(Row(p, r + 2), t) then 1 else 0) + 2 * YWeight(p, t, r + 3);
  }

  lemma {:induction false} NoRows(p: Pattern, t: nat, r: nat)
    requires r >= BitCount(p)
    ensures XWeight(p, t, r) == 0 && YWeight(p, t, r) == 0
  {
  }

  /** A table of twelve rows has nothing behind them. */
  lemma {:induction false} TopRows(p: Pattern, r: nat)
    requires p.Standard4K? && r >= 12
    ensures XBitOf(Row(p, r)) == -1 && YBitOf(Row(p, r)) == -1
  {
  }

  lemma {:induction false} Group0(p: Pattern, t: nat)
    requires !p.Interleave?
    ensures XWeight(p, t, 0) == Sum0(XBits(p), t) + 16 * XWeight(p, t, 4)
    ensures YWeight(p, t, 0) == Sum0(YBits(p), t) + 16 * YWeight(p, t, 4)
  {
    hide Row, XBitOf, YBitOf, SecondYBitOf, NamesY, XWeight, YWeight;
    FourXRows(p, t, 0);
    FourYRows(p, t, 0);
    NameRow(p, t, 0);
    NameRow(p, t, 1);
    NameRow(p, t, 2);
    NameRow(p, t, 3);
  }

  lemma {:induction false} Group4(p: Pattern, t: nat)
    requires !p.Interleave?
    ensures 16 * XWeight(p, t, 4) == Sum4(XBits(p), t) + 256 * XWeight(p, t, 8)
    ensures 16 * YWeight(p, t, 4) == Sum4(YBits(p), t) + 256 * YWeight(p, t, 8)
  {
    hide Row, XBitOf, YBitOf, SecondYBitOf, NamesY, XWeight, YWeight;
    FourXRows(p, t, 4);
    FourYRows(p, t, 4);
    NameRow(p, t, 4);
    NameRow(p, t, 5);
    NameRow(p, t, 6);
    NameRow(p, t, 7);
  }

  lemma {:induction false} Group8(p: Pattern, t: nat)
    requires !p.Interleave?
    ensures 256 * XWeight(p, t, 8) == Sum8(XBits(p), t) + 4096 * XWeight(p, t, 12)
    ensures 256 * YWeight(p, t, 8) == Sum8(YBits(p), t) + 4096 * YWeight(p, t, 12)
      + (if SecondYBitOf(Row(p, 8)) == t then 256 else 0)
  {
    hide Row, XBitOf, YBitOf, SecondYBitOf, NamesY, XWeight, YWeight;
    FourXRows(p, t, 8);
    FourYRows(p, t, 8);
    NameRow(p, t, 8);
    NameRow(p, t, 9);
    NameRow(p, t, 10);
    NameRow(p, t, 11);
  }

  lemma {:induction false} Group12(p: Pattern, t: nat)
    requires !p.Interleave?
    ensures 4096 * XWeight(p, t, 12) == Sum12(XBits(p), t)
    ensures 4096 * YWeight(p, t, 12) == Sum12(YBits(p), t)
  {
    hide Row, XBitOf, YBitOf, SecondYBitOf, NamesY, XWeight, YWeight;
    NameRow(p, t, 12);
    NameRow(p, t, 13);
    NameRow(p, t, 14);
    NameRow(p, t, 15);
    NoRows(p, t, BitCount(p));
    if p.Standard4K? {
      TopRows(p, 12);
      TopRows(p, 13);
      TopRows(p, 14);
      TopRows(p, 15);
    } else {
      FourXRows(p, t, 12);
      FourYRows(p, t, 12);
    }
  }

  /** A step of one coordinate bit is the sum of the rows that name it. */
  lemma {:induction false} StepIsSum(p: Pattern, t: nat)
    requires !p.Interleave?
    ensures PatternOffset(p, Pow2(t), 0) == Sum(XBits(p), t)
    ensures PatternOffset(p, 0, Pow2(t)) == Sum(YBits(p), t) + (if SecondYBitOf(Row(p, 8)) == t then 256 else 0)
  {
    hide XWeight, YWeight, Pow2, Row, Sum, Sum0, Sum4, Sum8, Sum12, XBits, YBits, FromBits, SecondYBitOf;
    Group0(p, t);
    Group4(p, t);
    Group8(p, t);
    Group12(p, t);
    SumOfGroups(XBits(p), t);
    SumOfGroups(YBits(p), t);
    OffsetIsWeight(p, t, 0);
    var a, b := PatternBits(p, Pow2(t), 0), PatternBits(p, 0, Pow2(t));
    assert a[0..] == a && b[0..] == b;
  }

  /** What a table holds: the x bits, the y bits, and the second y bit of row 8. */
  predicate TableIs(p: Pattern, x: RowBits, y: RowBits, c: int) {
    XBits(p) == x && YBits(p) == y && SecondYBitOf(Row(p, 8)) == c
  }

  /** One number for each of the coordinate bits 0 to 8, and zero for the bits beyond. */
  datatype PerBit = PerBit(v0: nat, v1: nat, v2: nat, v3: nat, v4: nat, v5: nat, v6: nat, v7: nat, v8: nat)
  {
    function At(t: nat): nat {
      match t
      case 0 => v0 case 1 => v1 case 2 => v2
      case 3 => v3 case 4 => v4 case 5 => v5
      case 6 => v6 case 7 => v7 case 8 => v8
      case _ => 0
    }
  }

  /** The byte offsets of the coordinates (2^t, 0) and (0, 2^t). */
  ghost predicate Steps(pattern: Option<Pattern>, xs: PerBit, ys: PerBit) {
    && pattern.Some?
    && (forall t: nat :: PatternOffset(pattern.value, Pow2(t), 0) == xs.At(t))
    && (forall t: nat :: PatternOffset(pattern.value, 0, Pow2(t)) == ys.At(t))
  }

  /** The rows of y bit t, the second bit of row 8 among them. */
  function YSum(y: RowBits, c: int, t: nat): nat {
    Sum(y, t) + (if c == t then 256 else 0)
  }

  function XSums(x: RowBits): PerBit {
    PerBit(Sum(x, 0), Sum(x, 1), Sum(x, 2), Sum(x, 3), Sum(x, 4), Sum(x, 5), Sum(x, 6), Sum(x, 7), Sum(x, 8))
  }

  function YSums(y: RowBits, c: int): PerBit {
    PerBit(YSum(y, c, 0), YSum(y, c, 1), YSum(y, c, 2), YSum(y, c, 3), YSum(y, c, 4),
           YSum(y, c, 5), YSum(y, c, 6), YSum(y, c, 7), YSum(y, c, 8))
  }

  lemma {:induction false} StepsOf(p: Pattern, x: RowBits, y: RowBits, c: int)
    requires !p.Interleave? && TableIs(p, x, y, c)
    ensures Steps(Some(p), XSums(x), YSums(y, c))
  {
    hide Pow2, Row, Sum, XBits, YBits, SecondYBitOf, PatternOffset, XWeight, YWeight;
    forall t: nat
      ensures PatternOffset(p, Pow2(t), 0) == XSums(x).At(t)
      ensures PatternOffset(p, 0, Pow2(t)) == YSums(y, c).At(t)
    {
      StepIsSum(p, t);
      if t > 8 {
        NoStep(p, t);
      }
    }
  }

  lemma {:induction false} NoStep(p: Pattern, t: nat)
    requires !p.Interleave? && t > 8
    ensures PatternOffset(p, Pow2(t), 0) == 0 == PatternOffset(p, 0, Pow2(t))
  {
    hide Pow2, Row, XWeight, YWeight;
    NoWeight(p, t, 0);
    OffsetIsWeight(p, t, 0);
    var a, b := PatternBits(p, Pow2(t), 0), PatternBits(p, 0, Pow2(t));
    assert a[0..] == a && b[0..] == b;
  }

  lemma {:induction false} RenderX0Rows()
    ensures TableIs(RenderX(0),
              RowBits(0, 1, 2, 3, -1, -1, -1, -1, 7, 4, 6, 5, 6, -1, 7, 8),
              RowBits(-1, -1, -1, -1, 0, 1, 2, 3, 4, 4, 5, 6, -1, 6, 8, 7), 7)
  {
    hide DepthXRow, Standard64KRow, Standard4KRow, InterleaveRow;
  }

  lemma {:induction false} RenderX0()
    ensures Steps(ExactXorPattern(27, 0),
              PerBit(1, 2, 4, 8, 512, 2048, 5120, 16640, 32768),
              PerBit(16, 32, 64, 128, 768, 1024, 10240, 33024, 16384))
  {
    hide TableIs, Steps;
    RenderX0Rows();
    StepsOf(RenderX(0),
            RowBits(0, 1, 2, 3, -1, -1, -1, -1, 7, 4, 6, 5, 6, -1, 7, 8),
            RowBits(-1, -1, -1, -1, 0, 1, 2, 3, 4, 4, 5, 6, -1, 6, 8, 7), 7);
  }

  lemma {:induction false} RenderX1Rows()
    ensures TableIs(RenderX(1),
              RowBits(-1, 0, 1, 2, -1, -1, -1, 3, 7, 4, 6, 5, -1, 6, 7, 8),
              RowBits(-1, -1, -1, -1, 0, 1, 2, -1, 4, 4, 5, 6, 3, -1, 7, 6), 7)
  {
    hide DepthXRow, Standard64KRow, Standard4KRow, InterleaveRow;
  }

  lemma {:induction false} RenderX1()
    ensures Steps(ExactXorPattern(27, 1),
              PerBit(2, 4, 8, 128, 512, 2048, 9216, 16640, 32768),
              PerBit(16, 32, 64, 4096, 768, 1024, 34816, 16640, 0))
  {
    hide TableIs, Steps;
    RenderX1Rows();
    StepsOf(RenderX(1),
            RowBits(-1, 0, 1, 2, -1, -1, -1, 3, 7, 4, 6, 5, -1, 6, 7, 8),
            RowBits(-1, -1, -1, -1, 0, 1, 2, -1, 4, 4, 5, 6, 3, -1, 7, 6), 7);
  }

  lemma {:induction false} RenderX2Rows()
    ensures TableIs(RenderX(2),
              RowBits(-1, -1, 0, 1, -1, -1, 2, -1, 7, 4, 6, 5, 3, -1, 6, 7),
              RowBits(-1, -1, -1, -1, 0, 1, -1, 2, 4, 4, 5, 6, -1, 3, 7, 6), 7)
  {
    hide DepthXRow, Standard64KRow, Standard4KRow, InterleaveRow;
  }

  lemma {:induction false} RenderX2()
    ensures Steps(ExactXorPattern(27, 2),
              PerBit(4, 8, 64, 4096, 512, 2048, 17408, 33024, 0),
              PerBit(16, 32, 128, 8192, 768, 1024, 34816, 16640, 0))
  {
    hide TableIs, Steps;
    RenderX2Rows();
    StepsOf(RenderX(2),
            RowBits(-1, -1, 0, 1, -1, -1, 2, -1, 7, 4, 6, 5, 3, -1, 6, 7),
            RowBits(-1, -1, -1, -1, 0, 1, -1, 2, 4, 4, 5, 6, -1, 3, 7, 6), 7);
  }

  lemma {:induction false} RenderX3Rows()
    ensures TableIs(RenderX(3),
              RowBits(-1, -1, -1, 0, -1, 1, 2, -1, 7, 4, 6, 5, -1, 3, 7, 6),
              RowBits(-1, -1, -1, -1, 0, -1, -1, 1, 4, 4, 5, 6, 2, -1, 3, 6), 7)
  {
    hide DepthXRow, Standard64KRow, Standard4KRow, InterleaveRow;
  }

  lemma {:induction false} RenderX3()
    ensures Steps(ExactXorPattern(27, 3),
              PerBit(8, 32, 64, 8192, 512, 2048, 33792, 16640, 0),
              PerBit(16, 128, 4096, 16384, 768, 1024, 34816, 256, 0))
  {
    hide TableIs, Steps;
    RenderX3Rows();
    StepsOf(RenderX(3),
            RowBits(-1, -1, -1, 0, -1, 1, 2, -1, 7, 4, 6, 5, -1, 3, 7, 6),
            RowBits(-1, -1, -1, -1, 0, -1, -1, 1, 4, 4, 5, 6, 2, -1, 3, 6), 7);
  }

  lemma {:induction false} RenderX4Rows()
    ensures TableIs(RenderX(4),
              RowBits(-1, -1, -1, -1, 0, -1, 1, -1, 7, 4, 6, 5, 2, -1, 6, 3),
              RowBits(-1, -1, -1, -1, -1, 0, -1, 1, 4, 4, 5, 6, -1, 2, 3, 6), 7)
  {
    hide DepthXRow, Standard64KRow, Standard4KRow, InterleaveRow;
  }

  lemma {:induction false} RenderX4()
    ensures Steps(ExactXorPattern(27, 4),
              PerBit(16, 64, 4096, 32768, 512, 2048, 17408, 256, 0),
              PerBit(32, 128, 8192, 16384, 768, 1024, 34816, 256, 0))
  {
    hide TableIs, Steps;
    RenderX4Rows();
    StepsOf(RenderX(4),
            RowBits(-1, -1, -1, -1, 0, -1, 1, -1, 7, 4, 6, 5, 2, -1, 6, 3),
            RowBits(-1, -1, -1, -1, -1, 0, -1, 1, 4, 4, 5, 6, -1, 2, 3, 6), 7);
  }

  lemma {:induction false} DepthX0Rows()
    ensures TableIs(DepthX(0),
              RowBits(0, -1, 1, -1, 2, -1, 3, -1, 7, 4, 6, 5, 6, -1, 7, 8),
              RowBits(-1, 0, -1, 1, -1, 2, -1, 3, 4, 4, 5, 6, -1, 6, 8, 7), 7)
  {
    hide RenderXRow, Standard64KRow, Standard4KRow, InterleaveRow;
  }

  lemma {:induction false} DepthX0()
    ensures Steps(ExactXorPattern(24, 0),
              PerBit(1, 4, 16, 64, 512, 2048, 5120, 16640, 32768),
              PerBit(2, 8, 32, 128, 768, 1024, 10240, 33024, 16384))
  {
    hide TableIs, Steps;
    DepthX0Rows();
    StepsOf(DepthX(0),
            RowBits(0, -1, 1, -1, 2, -1, 3, -1, 7, 4, 6, 5, 6, -1, 7, 8),
            RowBits(-1, 0, -1, 1, -1, 2, -1, 3, 4, 4, 5, 6, -1, 6, 8, 7), 7);
  }

  lemma {:induction false} DepthX1Rows()
    ensures TableIs(DepthX(1),
              RowBits(-1, 0, -1, 1, -1, 2, -1, 3, 7, 4, 6, 5, -1, 6, 7, 8),
              RowBits(-1, -1, 0, -1, 1, -1, 2, -1, 4, 4, 5, 6, 3, -1, 7, 6), 7)
  {
    hide RenderXRow, Standard64KRow, Standard4KRow, InterleaveRow;
  }

  lemma {:induction false} DepthX1()
    ensures Steps(ExactXorPattern(24, 1),
              PerBit(2, 8, 32, 128, 512, 2048, 9216, 16640, 32768),
              PerBit(4, 16, 64, 4096, 768, 1024, 34816, 16640, 0))
  {
    hide TableIs, Steps;
    DepthX1Rows();
    StepsOf(DepthX(1),
            RowBits(-1, 0, -1, 1, -1, 2, -1, 3, 7, 4, 6, 5, -1, 6, 7, 8),
            RowBits(-1, -1, 0, -1, 1, -1, 2, -1, 4, 4, 5, 6, 3, -1, 7, 6), 7);
  }

  lemma {:induction false} DepthX2Rows()
    ensures TableIs(DepthX(2),
              RowBits(-1, -1, 0, -1, 1, -1, 2, -1, 7, 4, 6, 5, 3, -1, 6, 7),
              RowBits(-1, -1, -1, 0, -1, 1, -1, 2, 4, 4, 5, 6, -1, 3, 7, 6), 7)
  {
    hide RenderXRow, Standard64KRow, Standard4KRow, InterleaveRow;
  }

  lemma {:induction false} DepthX2()
    ensures Steps(ExactXorPattern(24, 2),
              PerBit(4, 16, 64, 4096, 512, 2048, 17408, 33024, 0),
              PerBit(8, 32, 128, 8192, 768, 1024, 34816, 16640, 0))
  {
    hide TableIs, Steps;
    DepthX2Rows();
    StepsOf(DepthX(2),
            RowBits(-1, -1, 0, -1, 1, -1, 2, -1, 7, 4, 6, 5, 3, -1, 6, 7),
            RowBits(-1, -1, -1, 0, -1, 1, -1, 2, 4, 4, 5, 6, -1, 3, 7, 6), 7);
  }

  lemma {:induction false} DepthX3Rows()
    ensures TableIs(DepthX(3),
              RowBits(-1, -1, -1, 0, -1, 1, -1, 2, 7, 4, 6, 5, -1, 3, 7, 6),
              RowBits(-1, -1, -1, -1, 0, -1, 1, -1, 4, 4, 5, 6, 2, -1, 3, 6), 7)
  {
    hide RenderXRow, Standard64KRow, Standard4KRow, InterleaveRow;
  }

  lemma {:induction false} DepthX3()
    ensures Steps(ExactXorPattern(24, 3),
              PerBit(8, 32, 128, 8192, 512, 2048, 33792, 16640, 0),
              PerBit(16, 64, 4096, 16384, 768, 1024, 34816, 256, 0))
  {
    hide TableIs, Steps;
    DepthX3Rows();
    StepsOf(DepthX(3),
            RowBits(-1, -1, -1, 0, -1, 1, -1, 2, 7, 4, 6, 5, -1, 3, 7, 6),
            RowBits(-1, -1, -1, -1, 0, -1, 1, -1, 4, 4, 5, 6, 2, -1, 3, 6), 7);
  }

  lemma {:induction false} DepthX4Rows()
    ensures TableIs(DepthX(4),
              RowBits(-1, -1, -1, -1, 0, -1, 1, -1, 7, 4, 6, 5, 2, -1, 6, 3),
              RowBits(-1, -1, -1, -1, -1, 0, -1, 1, 4, 4, 5, 6, -1, 2, 3, 6), 7)
  {
    hide RenderXRow, Standard64KRow, Standard4KRow, InterleaveRow;
  }

  lemma {:induction false} DepthX4()
    ensures Steps(ExactXorPattern(24, 4),
              PerBit(16, 64, 4096, 32768, 512, 2048, 17408, 256, 0),
              PerBit(32, 128, 8192, 16384, 768, 1024, 34816, 256, 0))
  {
    hide TableIs, Steps;
    DepthX4Rows();
    StepsOf(DepthX(4),
            RowBits(-1, -1, -1, -1, 0, -1, 1, -1, 7, 4, 6, 5, 2, -1, 6, 3),
            RowBits(-1, -1, -1, -1, -1, 0, -1, 1, 4, 4, 5, 6, -1, 2, 3, 6), 7);
  }

  lemma {:induction false} Standard64K0Rows()
    ensures TableIs(Standard64K(0),
              RowBits(0, 1, 2, 3, -1, -1, -1, -1, -1, 4, -1, 5, -1, 6, -1, 7),
              RowBits(-1, -1, -1, -1, 0, 1, 2, 3, 4, -1, 5, -1, 6, -1, 7, -1), -1)
  {
    hide RenderXRow, DepthXRow, Standard4KRow, InterleaveRow;
  }

  lemma {:induction false} Standard64K0()
    ensures Steps(ExactXorPattern(9, 0),
              PerBit(1, 2, 4, 8, 512, 2048, 8192, 32768, 0),
              PerBit(16, 32, 64, 128, 256, 1024, 4096, 16384, 0))
  {
    hide TableIs, Steps;
    Standard64K0Rows();
    StepsOf(Standard64K(0),
            RowBits(0, 1, 2, 3, -1, -1, -1, -1, -1, 4, -1, 5, -1, 6, -1, 7),
            RowBits(-1, -1, -1, -1, 0, 1, 2, 3, 4, -1, 5, -1, 6, -1, 7, -1), -1);
  }

  lemma {:induction false} Standard64K1Rows()
    ensures TableIs(Standard64K(1),
              RowBits(-1, 0, 1, 2, -1, -1, -1, 3, -1, 4, -1, 5, -1, 6, -1, 7),
              RowBits(-1, -1, -1, -1, 0, 1, 2, -1, 3, -1, 4, -1, 5, -1, 6, -1), -1)
  {
    hide RenderXRow, DepthXRow, Standard4KRow, InterleaveRow;
  }

  lemma {:induction false} Standard64K1()
    ensures Steps(ExactXorPattern(9, 1),
              PerBit(2, 4, 8, 128, 512, 2048, 8192, 32768, 0),
              PerBit(16, 32, 64, 256, 1024, 4096, 16384, 0, 0))
  {
    hide TableIs, Steps;
    Standard64K1Rows();
    StepsOf(Standard64K(1),
            RowBits(-1, 0, 1, 2, -1, -1, -1, 3, -1, 4, -1, 5, -1, 6, -1, 7),
            RowBits(-1, -1, -1, -1, 0, 1, 2, -1, 3, -1, 4, -1, 5, -1, 6, -1), -1);
  }

  lemma {:induction false} Standard64K2Rows()
    ensures TableIs(Standard64K(2),
              RowBits(-1, -1, 0, 1, -1, -1, -1, 2, -1, 3, -1, 4, -1, 5, -1, 6),
              RowBits(-1, -1, -1, -1, 0, 1, 2, -1, 3, -1, 4, -1, 5, -1, 6, -1), -1)
  {
    hide RenderXRow, DepthXRow, Standard4KRow, InterleaveRow;
  }

  lemma {:induction false} Standard64K2()
    ensures Steps(ExactXorPattern(9, 2),
              PerBit(4, 8, 128, 512, 2048, 8192, 32768, 0, 0),
              PerBit(16, 32, 64, 256, 1024, 4096, 16384, 0, 0))
  {
    hide TableIs, Steps;
    Standard64K2Rows();
    StepsOf(Standard64K(2),
            RowBits(-1, -1, 0, 1, -1, -1, -1, 2, -1, 3, -1, 4, -1, 5, -1, 6),
            RowBits(-1, -1, -1, -1, 0, 1, 2, -1, 3, -1, 4, -1, 5, -1, 6, -1), -1);
  }

  lemma {:induction false} Standard64K3Rows()
    ensures TableIs(Standard64K(3),
              RowBits(-1, -1, -1, 0, -1, -1, 1, 2, -1, 3, -1, 4, -1, 5, -1, 6),
              RowBits(-1, -1, -1, -1, 0, 1, -1, -1, 2, -1, 3, -1, 4, -1, 5, -1), -1)
  {
    hide RenderXRow, DepthXRow, Standard4KRow, InterleaveRow;
  }

  lemma {:induction false} Standard64K3()
    ensures Steps(ExactXorPattern(9, 3),
              PerBit(8, 64, 128, 512, 2048, 8192, 32768, 0, 0),
              PerBit(16, 32, 256, 1024, 4096, 16384, 0, 0, 0))
  {
    hide TableIs, Steps;
    Standard64K3Rows();
    StepsOf(Standard64K(3),
            RowBits(-1, -1, -1, 0, -1, -1, 1, 2, -1, 3, -1, 4, -1, 5, -1, 6),
            RowBits(-1, -1, -1, -1, 0, 1, -1, -1, 2, -1, 3, -1, 4, -1, 5, -1), -1);
  }

  lemma {:induction false} Standard64K4Rows()
    ensures TableIs(Standard64K(4),
              RowBits(-1, -1, -1, -1, -1, -1, 0, 1, -1, 2, -1, 3, -1, 4, -1, 5),
              RowBits(-1, -1, -1, -1, 0, 1, -1, -1, 2, -1, 3, -1, 4, -1, 5, -1), -1)
  {
    hide RenderXRow, DepthXRow, Standard4KRow, InterleaveRow;
  }

  lemma {:induction false} Standard64K4()
    ensures Steps(ExactXorPattern(9, 4),
              PerBit(64, 128, 512, 2048, 8192, 32768, 0, 0, 0),
              PerBit(16, 32, 256, 1024, 4096, 16384, 0, 0, 0))
  {
    hide TableIs, Steps;
    Standard64K4Rows();
    StepsOf(Standard64K(4),
            RowBits(-1, -1, -1, -1, -1, -1, 0, 1, -1, 2, -1, 3, -1, 4, -1, 5),
            RowBits(-1, -1, -1, -1, 0, 1, -1, -1, 2, -1, 3, -1, 4, -1, 5, -1), -1);
  }

  lemma {:induction false} Standard4K0Rows()
    ensures TableIs(Standard4K(0),
              RowBits(0, 1, 2, 3, -1, -1, -1, -1, -1, 4, -1, 5, -1, -1, -1, -1),
              RowBits(-1, -1, -1, -1, 0, 1, 2, 3, 4, -1, 5, -1, -1, -1, -1, -1), -1)
  {
    hide RenderXRow, DepthXRow, Standard64KRow, InterleaveRow;
  }

  lemma {:induction false} Standard4K0()
    ensures Steps(ExactXorPattern(5, 0),
              PerBit(1, 2, 4, 8, 512, 2048, 0, 0, 0),
              PerBit(16, 32, 64, 128, 256, 1024, 0, 0, 0))
  {
    hide TableIs, Steps;
    Standard4K0Rows();
    StepsOf(Standard4K(0),
            RowBits(0, 1, 2, 3, -1, -1, -1, -1, -1, 4, -1, 5, -1, -1, -1, -1),
            RowBits(-1, -1, -1, -1, 0, 1, 2, 3, 4, -1, 5, -1, -1, -1, -1, -1), -1);
  }

  lemma {:induction false} Standard4K1Rows()
    ensures TableIs(Standard4K(1),
              RowBits(-1, 0, 1, 2, -1, -1, -1, 3, -1, 4, -1, 5, -1, -1, -1, -1),
              RowBits(-1, -1, -1, -1, 0, 1, 2, -1, 3, -1, 4, -1, -1, -1, -1, -1), -1)
  {
    hide RenderXRow, DepthXRow, Standard64KRow, InterleaveRow;
  }

  lemma {:induction false} Standard4K1()
    ensures Steps(ExactXorPattern(5, 1),
              PerBit(2, 4, 8, 128, 512, 2048, 0, 0, 0),
              PerBit(16, 32, 64, 256, 1024, 0, 0, 0, 0))
  {
    hide TableIs, Steps;
    Standard4K1Rows();
    StepsOf(Standard4K(1),
            RowBits(-1, 0, 1, 2, -1, -1, -1, 3, -1, 4, -1, 5, -1, -1, -1, -1),
            RowBits(-1, -1, -1, -1, 0, 1, 2, -1, 3, -1, 4, -1, -1, -1, -1, -1), -1);
  }

  lemma {:induction false} Standard4K2Rows()
    ensures TableIs(Standard4K(2),
              RowBits(-1, -1, 0, 1, -1, -1, -1, 2, -1, 3, -1, 4, -1, -1, -1, -1),
              RowBits(-1, -1, -1, -1, 0, 1, 2, -1, 3, -1, 4, -1, -1, -1, -1, -1), -1)
  {
    hide RenderXRow, DepthXRow, Standard64KRow, InterleaveRow;
  }

  lemma {:induction false} Standard4K2()
    ensures Steps(ExactXorPattern(5, 2),
              PerBit(4, 8, 128, 512, 2048, 0, 0, 0, 0),
              PerBit(16, 32, 64, 256, 1024, 0, 0, 0, 0))
  {
    hide TableIs, Steps;
    Standard4K2Rows();
    StepsOf(Standard4K(2),
            RowBits(-1, -1, 0, 1, -1, -1, -1, 2, -1, 3, -1, 4, -1, -1, -1, -1),
            RowBits(-1, -1, -1, -1, 0, 1, 2, -1, 3, -1, 4, -1, -1, -1, -1, -1), -1);
  }

  lemma {:induction false} Standard4K3Rows()
    ensures TableIs(Standard4K(3),
              RowBits(-1, -1, -1, 0, -1, -1, 1, 2, -1, 3, -1, 4, -1, -1, -1, -1),
              RowBits(-1, -1, -1, -1, 0, 1, -1, -1, 2, -1, 3, -1, -1, -1, -1, -1), -1)
  {
    hide RenderXRow, DepthXRow, Standard64KRow, InterleaveRow;
  }

  lemma {:induction false} Standard4K3()
    ensures Steps(ExactXorPattern(5, 3),
              PerBit(8, 64, 128, 512, 2048, 0, 0, 0, 0),
              PerBit(16, 32, 256, 1024, 0, 0, 0, 0, 0))
  {
    hide TableIs, Steps;
    Standard4K3Rows();
    StepsOf(Standard4K(3),
            RowBits(-1, -1, -1, 0, -1, -1, 1, 2, -1, 3, -1, 4, -1, -1, -1, -1),
            RowBits(-1, -1, -1, -1, 0, 1, -1, -1, 2, -1, 3, -1, -1, -1, -1, -1), -1);
  }

  lemma {:induction false} Standard4K4Rows()
    ensures TableIs(Standard4K(4),
              RowBits(-1, -1, -1, -1, -1, -1, 0, 1, -1, 2, -1, 3, -1, -1, -1, -1),
              RowBits(-1, -1, -1, -1, 0, 1, -1, -1, 2, -1, 3, -1, -1, -1, -1, -1), -1)
  {
    hide RenderXRow, DepthXRow, Standard64KRow, InterleaveRow;
  }

  lemma {:induction false} Standard4K4()
    ensures Steps(ExactXorPattern(5, 4),
              PerBit(64, 128, 512, 2048, 0, 0, 0, 0, 0),
              PerBit(16, 32, 256, 1024, 0, 0, 0, 0, 0))
  {
    hide TableIs, Steps;
    Standard4K4Rows();
    StepsOf(Standard4K(4),
            RowBits(-1, -1, -1, -1, -1, -1, 0, 1, -1, 2, -1, 3, -1, -1, -1, -1),
            RowBits(-1, -1, -1, -1, 0, 1, -1, -1, 2, -1, 3, -1, -1, -1, -1, -1), -1);
  }

  // -------------------------------------------------------- any coordinate

  /** The offset of an XOR of coordinates is the XOR of the offsets: with the numbers
      above it gives the offset of every coordinate. */
  lemma {:induction false} OffsetOfXor(p: Pattern, x: nat, y: nat, x': nat, y': nat)
    ensures PatternOffset(p, Xor(x, x'), Xor(y, y')) == Xor(PatternOffset(p, x, y), PatternOffset(p, x', y'))
  {
    hide Row, Xor, FromBits;
    var a, b, c := PatternBits(p, x, y), PatternBits(p, x', y'), PatternBits(p, Xor(x, x'), Xor(y, y'));
    forall i | 0 <= i < BitCount(p)
      ensures c[i] == (a[i] != b[i])
    {
      RowsAreValid(p, i);
      RowOfXor(Row(p, i), x, y, x', y');
    }
    FromBitsOfXor(a, b, c);
  }

  /** The bits in which x and x' differ are those of their XOR. */
  lemma {:induction false} RowOfXor(row: AddressBit, x: nat, y: nat, x': nat, y': nat)
    requires row.Valid()
    ensures (row.Parity(Xor(x, x'), Xor(y, y')) == 1) == ((row.Parity(x, y) == 1) != (row.Parity(x', y') == 1))
  {
    hide Xor, RowXor, Flips, AddressBit.Parity;
    ParityIsXor(row, x, y);
    ParityIsXor(row, x', y');
    ParityIsXor(row, Xor(x, x'), Xor(y, y'));
    ParityIsXor(row, 0, 0);
    RowOfZero(row);
    RowsAreLinear(row, x, y, x', y');
    RowsAreLinear(row, Xor(x, x'), Xor(y, y'), 0, 0);
    SameFlips(row, x, y, x', y');
  }

  lemma {:induction false} RowOfZero(row: AddressBit)
    ensures RowXor(row, 0, 0) == 0
  {
    match row
    case Zero =>
    case X(b) => NoBit(b);
    case Y(c) => NoBit(c);
    case XY(b, c) => NoBit(b); NoBit(c);
    case XYY(b, c, d) => NoBit(b); NoBit(c); NoBit(d);
  }

  lemma {:induction false} SameFlips(row: AddressBit, x: nat, y: nat, x': nat, y': nat)
    ensures Flips(row, DifferingBits(Xor(x, x'), 0), DifferingBits(Xor(y, y'), 0))
       <==> Flips(row, DifferingBits(x, x'), DifferingBits(y, y'))
  {
    hide Xor, Bit;
    forall i: nat
      ensures DifferingBits(Xor(x, x'), 0)(i) == DifferingBits(x, x')(i)
      ensures DifferingBits(Xor(y, y'), 0)(i) == DifferingBits(y, y')(i)
    {
      BitOfXor(x, x', i);
      BitOfXor(y, y', i);
      NoBit(i);
    }
  }

  lemma {:induction false} FromBitsOfXor(a: seq<bool>, b: seq<bool>, c: seq<bool>)
    requires |a| == |b| == |c| && forall i :: 0 <= i < |a| ==> c[i] == (a[i] != b[i])
    ensures FromBits(c) == Xor(FromBits(a), FromBits(b))
  {
    if a != [] {
      FromBitsOfXor(a[1..], b[1..], c[1..]);
      XorStep(if a[0] then 1 else 0, FromBits(a[1..]), if b[0] then 1 else 0, FromBits(b[1..]));
    }
  }

  lemma {:induction false} XorStep(b: nat, x: nat, c: nat, y: nat)
    requires b <= 1 && c <= 1
    ensures Xor(b + 2 * x, c + 2 * y) == (b + c) % 2 + 2 * Xor(x, y)
  {
    var u, v := b + 2 * x, c + 2 * y;
    XorWithZero(x);
    XorWithZero(y);
    assert u / 2 == x && v / 2 == y;
    assert u + v == b + c + 2 * (x + y);
    assert (u + v) % 2 == (b + c) % 2;
  }

  lemma {:induction false} XorWithZero(x: nat)
    ensures Xor(x, 0) == x == Xor(0, x)
  {
  }

  /** The interleaves alternate the axes while both have bits, x or y first, and then
      take the rest of the longer axis in order. */
  lemma {:induction false} InterleaveSteps(w: nat, h: nat, xFirst: bool, t: nat)
    ensures var p, m := Interleave(w, h, xFirst), if w < h then w else h;
      && PatternOffset(p, Pow2(t), 0) ==
           (if t >= w then 0 else if t >= m then Pow2(t + h) else Pow2(2 * t + (if xFirst then 0 else 1)))
      && PatternOffset(p, 0, Pow2(t)) ==
           (if t >= h then 0 else if t >= m then Pow2(t + w) else Pow2(2 * t + (if xFirst then 1 else 0)))
  {
    hide Pow2, XWeight, YWeight, FromBits;
    var p, m := Interleave(w, h, xFirst), if w < h then w else h;
    OffsetIsWeight(p, t, 0);
    var a, b := PatternBits(p, Pow2(t), 0), PatternBits(p, 0, Pow2(t));
    assert a[0..] == a && b[0..] == b;
    InterleaveWeight(w, h, xFirst, t, 0);
  }

  /** The row of x bit t and of y bit t, one behind the last row when there is none. */
  function XPlace(w: nat, h: nat, xFirst: bool, t: nat): nat {
    if t >= w then w + h else if t >= h then t + h else 2 * t + (if xFirst then 0 else 1)
  }

  function YPlace(w: nat, h: nat, xFirst: bool, t: nat): nat {
    if t >= h then w + h else if t >= w then t + w else 2 * t + (if xFirst then 1 else 0)
  }

  lemma {:induction false} InterleaveWeight(w: nat, h: nat, xFirst: bool, t: nat, r: nat)
    requires r <= w + h
    ensures var p, i, j := Interleave(w, h, xFirst), XPlace(w, h, xFirst, t), YPlace(w, h, xFirst, t);
      && XWeight(p, t, r) == (if r <= i < w + h then Pow2(i - r) else 0)
      && YWeight(p, t, r) == (if r <= j < w + h then Pow2(j - r) else 0)
    decreases w + h - r
  {
    var p := Interleave(w, h, xFirst);
    if r < w + h {
      InterleaveWeight(w, h, xFirst, t, r + 1);
      PlaceOfRow(w, h, xFirst, t, r);
    }
  }

  lemma {:induction false} PlaceOfRow(w: nat, h: nat, xFirst: bool, t: nat, r: nat)
    requires r < w + h
    ensures XBitOf(InterleaveRow(w, h, xFirst, r)) == t <==> r == XPlace(w, h, xFirst, t)
    ensures NamesY(InterleaveRow(w, h, xFirst, r), t) <==> r == YPlace(w, h, xFirst, t)
  {
  }
}
