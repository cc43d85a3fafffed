/** The Gfx10 swizzle equations: which coordinate bits feed which bit of the offset
    inside a swizzle block, and why each equation permutes the block. */
module Swizzle {
  import opened Basics
  import opened Bits
  import opened Permutations
  import opened PopulationCount

  /** One address bit, an XOR of x bits and y bits, in the five spellings the
      equation tables use. */
  datatype AddressBit =
    | Zero
    | X(bit: nat)
    | Y(bit: nat)
    | XY(xBit: nat, yBit: nat)
    | XYY(xBit: nat, yBit1: nat, yBit2: nat)
  {
    function XMask(): nat {
      match this
      case Zero => 0
      case X(b) => Pow2(b)
      case Y(_) => 0
      case XY(b, _) => Pow2(b)
      case XYY(b, _, _) => Pow2(b)
    }

    function YMask(): nat {
      match this
      case Zero => 0
      case X(_) => 0
      case Y(b) => Pow2(b)
      case XY(_, b) => Pow2(b)
      case XYY(_, b, c) => Or(Pow2(b), Pow2(c))
    }

    /** The parity of the masked coordinate bits. */
    function Parity(x: nat, y: nat): (p: nat)
      ensures p <= 1
    {
      (PopCount(And(x, XMask())) + PopCount(And(y, YMask()))) % 2
    }

    ghost predicate Valid() {
      XYY? ==> yBit1 < yBit2
    }
  }

  /** Which coordinate bits differ, as a vector over GF(2). */
  type Difference = nat -> bool

  /** The row applied to a difference vector. */
  ghost predicate Flips(row: AddressBit, dx: Difference, dy: Difference) {
    match row
    case Zero => false
    case X(b) => dx(b)
    case Y(b) => dy(b)
    case XY(b, c) => dx(b) != dy(c)
    case XYY(b, c, d) => (dx(b) != dy(c)) != dy(d)
  }

  /** An address equation; k is log2 of the bytes per element. */
  datatype Pattern =
    | Interleave(wBits: nat, hBits: nat, xFirst: bool)
    | Standard4K(k: nat)
    | Standard64K(k: nat)
    | DepthX(k: nat)
    | RenderX(k: nat)

  function Row(p: Pattern, bit: nat): AddressBit {
    match p
    case Interleave(w, h, xFirst) => InterleaveRow(w, h, xFirst, bit)
    case Standard4K(k) => Standard4KRow(k, bit)
    case Standard64K(k) => Standard64KRow(k, bit)
    case DepthX(k) => DepthXRow(k, bit)
    case RenderX(k) => RenderXRow(k, bit)
  }

  function BitCount(p: Pattern): nat {
    match p
    case Interleave(w, h, _) => w + h
    case Standard4K(_) => 12
    case _ => 16
  }

  /** Alternate the axes while both have bits left, then take the longer one. */
  function InterleaveRow(wBits: nat, hBits: nat, xFirst: bool, bit: nat): AddressBit {
    var m := if wBits < hBits then wBits else hBits;
    if bit < 2 * m then
      (if (bit % 2 == 0) == xFirst then X(bit / 2) else Y(bit / 2))
    else if bit < wBits + hBits then
      (if wBits > hBits then X(bit - m) else Y(bit - m))
    else Zero
  }

  /** 64 KiB R_X on the 16-pipe RB+ topology, k = log2(bytes per element). */
  function RenderXRow(k: nat, bit: nat): AddressBit
  {
    match k
    case 0 =>
      (match bit
       case 0 => X(0) case 1 => X(1) case 2 => X(2) case 3 => X(3)
       case 4 => Y(0) case 5 => Y(1) case 6 => Y(2) case 7 => Y(3)
       case 8 => XYY(7, 4, 7) case 9 => XY(4, 4) case 10 => XY(6, 5) case 11 => XY(5, 6)
       case 12 => X(6) case 13 => Y(6) case 14 => XY(7, 8) case 15 => XY(8, 7)
       case _ => Zero)
    case 1 =>
      (match bit
       case 0 => Zero case 1 => X(0) case 2 => X(1) case 3 => X(2)
       case 4 => Y(0) case 5 => Y(1) case 6 => Y(2) case 7 => X(3)
       case 8 => XYY(7, 4, 7) case 9 => XY(4, 4) case 10 => XY(6, 5) case 11 => XY(5, 6)
       case 12 => Y(3) case 13 => X(6) case 14 => XY(7, 7) case 15 => XY(8, 6)
       case _ => Zero)
    case 2 =>
      (match bit
       case 0 => Zero case 1 => Zero case 2 => X(0) case 3 => X(1)
       case 4 => Y(0) case 5 => Y(1) case 6 => X(2) case 7 => Y(2)
       case 8 => XYY(7, 4, 7) case 9 => XY(4, 4) case 10 => XY(6, 5) case 11 => XY(5, 6)
       case 12 => X(3) case 13 => Y(3) case 14 => XY(6, 7) case 15 => XY(7, 6)
       case _ => Zero)
    case 3 =>
      (match bit
       case 0 => Zero case 1 => Zero case 2 => Zero case 3 => X(0)
       case 4 => Y(0) case 5 => X(1) case 6 => X(2) case 7 => Y(1)
       case 8 => XYY(7, 4, 7) case 9 => XY(4, 4) case 10 => XY(6, 5) case 11 => XY(5, 6)
       case 12 => Y(2) case 13 => X(3) case 14 => XY(7, 3) case 15 => XY(6, 6)
       case _ => Zero)
    case 4 =>
      (match bit
       case 0 => Zero case 1 => Zero case 2 => Zero case 3 => Zero
       case 4 => X(0) case 5 => Y(0) case 6 => X(1) case 7 => Y(1)
       case 8 => XYY(7, 4, 7) case 9 => XY(4, 4) case 10 => XY(6, 5) case 11 => XY(5, 6)
       case 12 => X(2) case 13 => Y(2) case 14 => XY(6, 3) case 15 => XY(3, 6)
       case _ => Zero)
    case _ => Zero
  }

  /** 64 KiB Z_X on the same topology. */
  function DepthXRow(k: nat, bit: nat): AddressBit
  {
    match k
    case 0 =>
      (match bit
       case 0 => X(0) case 1 => Y(0) case 2 => X(1) case 3 => Y(1)
       case 4 => X(2) case 5 => Y(2) case 6 => X(3) case 7 => Y(3)
       case 8 => XYY(7, 4, 7) case 9 => XY(4, 4) case 10 => XY(6, 5) case 11 => XY(5, 6)
       case 12 => X(6) case 13 => Y(6) case 14 => XY(7, 8) case 15 => XY(8, 7)
       case _ => Zero)
    case 1 =>
      (match bit
       case 0 => Zero case 1 => X(0) case 2 => Y(0) case 3 => X(1)
       case 4 => Y(1) case 5 => X(2) case 6 => Y(2) case 7 => X(3)
       case 8 => XYY(7, 4, 7) case 9 => XY(4, 4) case 10 => XY(6, 5) case 11 => XY(5, 6)
       case 12 => Y(3) case 13 => X(6) case 14 => XY(7, 7) case 15 => XY(8, 6)
       case _ => Zero)
    case 2 =>
      (match bit
       case 0 => Zero case 1 => Zero case 2 => X(0) case 3 => Y(0)
       case 4 => X(1) case 5 => Y(1) case 6 => X(2) case 7 => Y(2)
       case 8 => XYY(7, 4, 7) case 9 => XY(4, 4) case 10 => XY(6, 5) case 11 => XY(5, 6)
       case 12 => X(3) case 13 => Y(3) case 14 => XY(6, 7) case 15 => XY(7, 6)
       case _ => Zero)
    case 3 =>
      (match bit
       case 0 => Zero case 1 => Zero case 2 => Zero case 3 => X(0)
       case 4 => Y(0) case 5 => X(1) case 6 => Y(1) case 7 => X(2)
       case 8 => XYY(7, 4, 7) case 9 => XY(4, 4) case 10 => XY(6, 5) case 11 => XY(5, 6)
       case 12 => Y(2) case 13 => X(3) case 14 => XY(7, 3) case 15 => XY(6, 6)
       case _ => Zero)
    case 4 =>
      (match bit
       case 0 => Zero case 1 => Zero case 2 => Zero case 3 => Zero
       case 4 => X(0) case 5 => Y(0) case 6 => X(1) case 7 => Y(1)
       case 8 => XYY(7, 4, 7) case 9 => XY(4, 4) case 10 => XY(6, 5) case 11 => XY(5, 6)
       case 12 => X(2) case 13 => Y(2) case 14 => XY(6, 3) case 15 => XY(3, 6)
       case _ => Zero)
    case _ => Zero
  }

  /** 64 KiB S. */
  function Standard64KRow(k: nat, bit: nat): AddressBit
  {
    match k
    case 0 =>
      (match bit
       case 0 => X(0) case 1 => X(1) case 2 => X(2) case 3 => X(3)
       case 4 => Y(0) case 5 => Y(1) case 6 => Y(2) case 7 => Y(3)
       case 8 => Y(4) case 9 => X(4) case 10 => Y(5) case 11 => X(5)
       case 12 => Y(6) case 13 => X(6) case 14 => Y(7) case 15 => X(7)
       case _ => Zero)
    case 1 =>
      (match bit
       case 0 => Zero case 1 => X(0) case 2 => X(1) case 3 => X(2)
       case 4 => Y(0) case 5 => Y(1) case 6 => Y(2) case 7 => X(3)
       case 8 => Y(3) case 9 => X(4) case 10 => Y(4) case 11 => X(5)
       case 12 => Y(5) case 13 => X(6) case 14 => Y(6) case 15 => X(7)
       case _ => Zero)
    case 2 =>
      (match bit
       case 0 => Zero case 1 => Zero case 2 => X(0) case 3 => X(1)
       case 4 => Y(0) case 5 => Y(1) case 6 => Y(2) case 7 => X(2)
       case 8 => Y(3) case 9 => X(3) case 10 => Y(4) case 11 => X(4)
       case 12 => Y(5) case 13 => X(5) case 14 => Y(6) case 15 => X(6)
       case _ => Zero)
    case 3 =>
      (match bit
       case 0 => Zero case 1 => Zero case 2 => Zero case 3 => X(0)
       case 4 => Y(0) case 5 => Y(1) case 6 => X(1) case 7 => X(2)
       case 8 => Y(2) case 9 => X(3) case 10 => Y(3) case 11 => X(4)
       case 12 => Y(4) case 13 => X(5) case 14 => Y(5) case 15 => X(6)
       case _ => Zero)
    case 4 =>
      (match bit
       case 0 => Zero case 1 => Zero case 2 => Zero case 3 => Zero
       case 4 => Y(0) case 5 => Y(1) case 6 => X(0) case 7 => X(1)
       case 8 => Y(2) case 9 => X(2) case 10 => Y(3) case 11 => X(3)
       case 12 => Y(4) case 13 => X(4) case 14 => Y(5) case 15 => X(5)
       case _ => Zero)
    case _ => Zero
  }

  /** 4 KiB S, a 12-bit micro-tile equation. */
  function Standard4KRow(k: nat, bit: nat): AddressBit
  {
    match k
    case 0 =>
      (match bit
       case 0 => X(0) case 1 => X(1) case 2 => X(2) case 3 => X(3)
       case 4 => Y(0) case 5 => Y(1) case 6 => Y(2) case 7 => Y(3)
       case 8 => Y(4) case 9 => X(4) case 10 => Y(5) case 11 => X(5)
       case _ => Zero)
    case 1 =>
      (match bit
       case 0 => Zero case 1 => X(0) case 2 => X(1) case 3 => X(2)
       case 4 => Y(0) case 5 => Y(1) case 6 => Y(2) case 7 => X(3)
       case 8 => Y(3) case 9 => X(4) case 10 => Y(4) case 11 => X(5)
       case _ => Zero)
    case 2 =>
      (match bit
       case 0 => Zero case 1 => Zero case 2 => X(0) case 3 => X(1)
       case 4 => Y(0) case 5 => Y(1) case 6 => Y(2) case 7 => X(2)
       case 8 => Y(3) case 9 => X(3) case 10 => Y(4) case 11 => X(4)
       case _ => Zero)
    case 3 =>
      (match bit
       case 0 => Zero case 1 => Zero case 2 => Zero case 3 => X(0)
       case 4 => Y(0) case 5 => Y(1) case 6 => X(1) case 7 => X(2)
       case 8 => Y(2) case 9 => X(3) case 10 => Y(3) case 11 => X(4)
       case _ => Zero)
    case 4 =>
      (match bit
       case 0 => Zero case 1 => Zero case 2 => Zero case 3 => Zero
       case 4 => Y(0) case 5 => Y(1) case 6 => X(0) case 7 => X(1)
       case 8 => Y(2) case 9 => X(2) case 10 => Y(3) case 11 => X(3)
       case _ => Zero)
    case _ => Zero
  }

  // -------------------------------------------------------------- the offset

  /** Bit i of the offset is the parity of row i. */
  function PatternBits(p: Pattern, x: nat, y: nat): (bits: seq<bool>)
    ensures |bits| == BitCount(p)
  {
    seq(BitCount(p), i requires 0 <= i < BitCount(p) => Row(p, i).Parity(x, y) == 1)
  }

  function PatternOffset(p: Pattern, x: nat, y: nat): nat {
    FromBits(PatternBits(p, x, y))
  }

  /** Equal offsets have equal rows, every one of them. */
  lemma {:induction false} EqualOffsetsEqualRows(p: Pattern, x: nat, y: nat, x': nat, y': nat, r: nat)
    requires PatternOffset(p, x, y) == PatternOffset(p, x', y') && r < BitCount(p)
    ensures Row(p, r).Parity(x, y) == Row(p, r).Parity(x', y')
  {
    FromBitsInjective(PatternBits(p, x, y), PatternBits(p, x', y'));
    assert PatternBits(p, x, y)[r] == PatternBits(p, x', y')[r];
  }

  // ----------------------------------------------------- rows over GF(2)

  /** The XOR of the coordinate bits a row names. */
  function RowXor(row: AddressBit, x: nat, y: nat): nat {
    match row
    case Zero => 0
    case X(b) => Bit(x, b)
    case Y(b) => Bit(y, b)
    case XY(b, c) => (Bit(x, b) + Bit(y, c)) % 2
    case XYY(b, c, d) => (Bit(x, b) + Bit(y, c) + Bit(y, d)) % 2
  }

  /** Masking and counting computes that XOR. */
  lemma {:induction false} ParityIsXor(row: AddressBit, x: nat, y: nat)
    requires row.Valid()
    ensures row.Parity(x, y) == RowXor(row, x, y)
  {
    hide And, Or, Bit, Pow2;
    match row
    case Zero => CountOne(x, y, 0); CountOne(y, x, 0);
    case X(b) => CountOne(x, y, b);
    case Y(b) => CountOne(y, x, b);
    case XY(b, c) => CountOne(x, y, b); CountOne(y, x, c);
    case XYY(b, c, d) => CountOne(x, y, b); AndEitherPow2(y, c, d);
  }

  lemma {:induction false} CountOne(x: nat, y: nat, b: nat)
    ensures PopCount(And(x, Pow2(b))) == Bit(x, b)
    ensures PopCount(And(y, 0)) == 0
  {
    AndPow2(x, b);
  }

  ghost function DifferingBits(x: nat, x': nat): Difference {
    (i: nat) => Bit(x, i) != Bit(x', i)
  }

  /** A row takes different values exactly when it flips on the difference. */
  lemma {:induction false} RowsAreLinear(row: AddressBit, x: nat, y: nat, x': nat, y': nat)
    ensures Flips(row, DifferingBits(x, x'), DifferingBits(y, y')) <==> RowXor(row, x, y) != RowXor(row, x', y')
  {
    hide Bit;
    match row
    case XYY(b, c, d) => OddSums(Bit(x, b), Bit(x', b), Bit(y, c), Bit(y', c), Bit(y, d), Bit(y', d));
    case _ =>
  }

  lemma {:induction false} OddSums(a: nat, a': nat, b: nat, b': nat, c: nat, c': nat)
    requires a <= 1 && a' <= 1 && b <= 1 && b' <= 1 && c <= 1 && c' <= 1
    ensures (((a != a') != (b != b')) != (c != c')) <==> (a + b + c) % 2 != (a' + b' + c') % 2
  {
  }

  // ------------------------------------------------ trivial kernels

  /** No row below n flips on the difference. */
  ghost predicate NoFlips(p: Pattern, n: nat, dx: Difference, dy: Difference) {
    n == 0 || (!Flips(Row(p, n - 1), dx, dy) && NoFlips(p, n - 1, dx, dy))
  }

  ghost predicate Clear(d: Difference, n: nat) {
    n == 0 || (!d(n - 1) && Clear(d, n - 1))
  }

  ghost predicate ClearFrom(d: Difference, n: nat) {
    forall i: nat {:trigger d(i)} :: n <= i ==> !d(i)
  }

  /** The tables carry k of at most four. */
  predicate Tabulated(p: Pattern) {
    p.Interleave? || p.k <= 4
  }

  /** log2 of the elements a block holds. */
  function ElementBits(p: Pattern): nat
    requires Tabulated(p)
  {
    if p.Interleave? then p.wBits + p.hBits else BitCount(p) - p.k
  }

  /** log2 of the block width: the squarer half, x taking the extra bit. */
  function WBits(p: Pattern): nat
    requires Tabulated(p)
  {
    if p.Interleave? then p.wBits else (ElementBits(p) + 1) / 2
  }

  function HBits(p: Pattern): nat
    requires Tabulated(p)
  {
    ElementBits(p) - WBits(p)
  }

  /** Back-substitution: once the block bits agree, the rows leave no difference. */
  ghost predicate KernelIsTrivial(p: Pattern, dx: Difference, dy: Difference)
    requires Tabulated(p)
  {
    NoFlips(p, BitCount(p), dx, dy) && ClearFrom(dx, WBits(p)) && ClearFrom(dy, HBits(p))
    ==> Clear(dx, WBits(p)) && Clear(dy, HBits(p))
  }

  /** The rows of a table, one by one. */
  lemma {:induction false} Unroll(p: Pattern, dx: Difference, dy: Difference)
    requires NoFlips(p, 12, dx, dy)
    ensures !Flips(Row(p, 0), dx, dy) && !Flips(Row(p, 1), dx, dy) && !Flips(Row(p, 2), dx, dy)
    ensures !Flips(Row(p, 3), dx, dy)
    ensures !Flips(Row(p, 4), dx, dy) && !Flips(Row(p, 5), dx, dy) && !Flips(Row(p, 6), dx, dy)
    ensures !Flips(Row(p, 7), dx, dy)
    ensures !Flips(Row(p, 8), dx, dy) && !Flips(Row(p, 9), dx, dy) && !Flips(Row(p, 10), dx, dy)
    ensures !Flips(Row(p, 11), dx, dy)
  {
    forall r | 0 <= r < 12 ensures !Flips(Row(p, r), dx, dy) {
      NoFlipAt(p, 12, r, dx, dy);
    }
  }

  lemma {:induction false} RenderXKernel(k: nat, dx: Difference, dy: Difference)
    requires k <= 4
    ensures KernelIsTrivial(RenderX(k), dx, dy)
  {
    var p := RenderX(k);
    if NoFlips(p, 16, dx, dy) && ClearFrom(dx, WBits(p)) && ClearFrom(dy, HBits(p)) {
      assert NoFlips(p, 12, dx, dy);
      Unroll(p, dx, dy);
      match k
      case 0 => assert Clear(dx, 8) && Clear(dy, 8);
      case 1 => assert Clear(dx, 8) && Clear(dy, 7);
      case 2 => assert Clear(dx, 7) && Clear(dy, 7);
      case 3 => assert Clear(dx, 7) && Clear(dy, 6);
      case 4 => assert Clear(dx, 6) && Clear(dy, 6);
    }
  }

  lemma {:induction false} DepthXKernel(k: nat, dx: Difference, dy: Difference)
    requires k <= 4
    ensures KernelIsTrivial(DepthX(k), dx, dy)
  {
    var p := DepthX(k);
    if NoFlips(p, 16, dx, dy) && ClearFrom(dx, WBits(p)) && ClearFrom(dy, HBits(p)) {
      assert NoFlips(p, 12, dx, dy);
      Unroll(p, dx, dy);
      match k
      case 0 => assert Clear(dx, 8) && Clear(dy, 8);
      case 1 => assert Clear(dx, 8) && Clear(dy, 7);
      case 2 => assert Clear(dx, 7) && Clear(dy, 7);
      case 3 => assert Clear(dx, 7) && Clear(dy, 6);
      case 4 => assert Clear(dx, 6) && Clear(dy, 6);
    }
  }

  lemma {:induction false} Standard64KKernel(k: nat, dx: Difference, dy: Difference)
    requires k <= 4
    ensures KernelIsTrivial(Standard64K(k), dx, dy)
  {
    var p := Standard64K(k);
    if NoFlips(p, 16, dx, dy) && ClearFrom(dx, WBits(p)) && ClearFrom(dy, HBits(p)) {
      assert NoFlips(p, 12, dx, dy);
      Unroll(p, dx, dy);
      match k
      case 0 => assert Clear(dx, 8) && Clear(dy, 8);
      case 1 => assert Clear(dx, 8) && Clear(dy, 7);
      case 2 => assert Clear(dx, 7) && Clear(dy, 7);
      case 3 => assert Clear(dx, 7) && Clear(dy, 6);
      case 4 => assert Clear(dx, 6) && Clear(dy, 6);
    }
  }

  lemma {:induction false} Standard4KKernel(k: nat, dx: Difference, dy: Difference)
    requires k <= 4
    ensures KernelIsTrivial(Standard4K(k), dx, dy)
  {
    var p := Standard4K(k);
    if NoFlips(p, 12, dx, dy) && ClearFrom(dx, WBits(p)) && ClearFrom(dy, HBits(p)) {
      Unroll(p, dx, dy);
      match k
      case 0 => assert Clear(dx, 6) && Clear(dy, 6);
      case 1 => assert Clear(dx, 6) && Clear(dy, 5);
      case 2 => assert Clear(dx, 5) && Clear(dy, 5);
      case 3 => assert Clear(dx, 5) && Clear(dy, 4);
      case 4 => assert Clear(dx, 4) && Clear(dy, 4);
    }
  }

  lemma {:induction false} InterleaveKernel(w: nat, h: nat, xFirst: bool, dx: Difference, dy: Difference)
    ensures KernelIsTrivial(Interleave(w, h, xFirst), dx, dy)
  {
    var p := Interleave(w, h, xFirst);
    if NoFlips(p, w + h, dx, dy) {
      forall i | 0 <= i < w ensures !dx(i) {
        var r := XRow(w, h, xFirst, i);
        NoFlipAt(p, w + h, r, dx, dy);
      }
      forall i | 0 <= i < h ensures !dy(i) {
        var r := YRow(w, h, xFirst, i);
        NoFlipAt(p, w + h, r, dx, dy);
      }
      ClearFromAll(dx, w);
      ClearFromAll(dy, h);
    }
  }

  lemma {:induction false} ClearFromAll(d: Difference, n: nat)
    requires forall i {:trigger d(i)} :: 0 <= i < n ==> !d(i)
    ensures Clear(d, n)
  {
    if n != 0 {
      ClearFromAll(d, n - 1);
    }
  }

  lemma {:induction false} ClearAt(d: Difference, n: nat, i: nat)
    requires Clear(d, n) && i < n
    ensures !d(i)
  {
    if i < n - 1 {
      ClearAt(d, n - 1, i);
    }
  }

  lemma {:induction false} NoFlipAt(p: Pattern, n: nat, r: nat, dx: Difference, dy: Difference)
    requires NoFlips(p, n, dx, dy) && r < n
    ensures !Flips(Row(p, r), dx, dy)
  {
    if r < n - 1 {
      NoFlipAt(p, n - 1, r, dx, dy);
    }
  }

  /** Where the interleave puts x bit i. */
  function XRow(w: nat, h: nat, xFirst: bool, i: nat): (r: nat)
    requires i < w
    ensures r < w + h && InterleaveRow(w, h, xFirst, r) == X(i)
  {
    if i < h then 2 * i + (if xFirst then 0 else 1) else i + h
  }

  /** Where the interleave puts y bit i. */
  function YRow(w: nat, h: nat, xFirst: bool, i: nat): (r: nat)
    requires i < h
    ensures r < w + h && InterleaveRow(w, h, xFirst, r) == Y(i)
  {
    if i < w then 2 * i + (if xFirst then 1 else 0) else i + w
  }

  lemma {:induction false} Kernel(p: Pattern, dx: Difference, dy: Difference)
    requires Tabulated(p)
    ensures KernelIsTrivial(p, dx, dy)
  {
    match p
    case Interleave(w, h, xFirst) => InterleaveKernel(w, h, xFirst, dx, dy);
    case Standard4K(k) => Standard4KKernel(k, dx, dy);
    case Standard64K(k) => Standard64KKernel(k, dx, dy);
    case DepthX(k) => DepthXKernel(k, dx, dy);
    case RenderX(k) => RenderXKernel(k, dx, dy);
  }

  // --------------------------------------------- the block is permuted

  lemma {:induction false} RowsAreValid(p: Pattern, r: nat)
    ensures Row(p, r).Valid()
  {
  }

  lemma {:induction false} EqualOffsetsDoNotFlip(p: Pattern, x: nat, y: nat, x': nat, y': nat, n: nat)
    requires PatternOffset(p, x, y) == PatternOffset(p, x', y') && n <= BitCount(p)
    ensures NoFlips(p, n, DifferingBits(x, x'), DifferingBits(y, y'))
  {
    if n != 0 {
      EqualOffsetsDoNotFlip(p, x, y, x', y', n - 1);
      EqualOffsetsEqualRows(p, x, y, x', y', n - 1);
      var row := Row(p, n - 1);
      RowsAreValid(p, n - 1);
      ParityIsXor(row, x, y);
      ParityIsXor(row, x', y');
      RowsAreLinear(row, x, y, x', y');
    }
  }

  lemma {:induction false} SameBlockSameHighBits(x: nat, x': nat, n: nat)
    requires Shr(x, n) == Shr(x', n)
    ensures ClearFrom(DifferingBits(x, x'), n)
  {
    forall i: nat | n <= i ensures !DifferingBits(x, x')(i) {
      BitOfShr(x, n, i - n);
      BitOfShr(x', n, i - n);
    }
  }

  /** Inside one block, different coordinates have different offsets: whole
      coordinates go into the equation, and the block they lie in is fixed. */
  lemma {:induction false} OffsetsAreDistinct(p: Pattern, x: nat, y: nat, x': nat, y': nat)
    requires Tabulated(p)
    requires Shr(x, WBits(p)) == Shr(x', WBits(p)) && Shr(y, HBits(p)) == Shr(y', HBits(p))
    requires PatternOffset(p, x, y) == PatternOffset(p, x', y')
    ensures x == x' && y == y'
  {
    var dx, dy := DifferingBits(x, x'), DifferingBits(y, y');
    EqualOffsetsDoNotFlip(p, x, y, x', y', BitCount(p));
    SameBlockSameHighBits(x, x', WBits(p));
    SameBlockSameHighBits(y, y', HBits(p));
    Kernel(p, dx, dy);
    forall i | 0 <= i < WBits(p) ensures Bit(x, i) == Bit(x', i) {
      ClearAt(dx, WBits(p), i);
    }
    forall i | 0 <= i < HBits(p) ensures Bit(y, i) == Bit(y', i) {
      ClearAt(dy, HBits(p), i);
    }
    BitsDetermine(x, x', WBits(p));
    BitsDetermine(y, y', HBits(p));
  }

  /** log2 of the bytes one step of the pattern's element grid covers. */
  function Shift(p: Pattern): nat {
    match p
    case Interleave(_, _, _) => 0
    case Standard4K(k) => k
    case Standard64K(k) => k
    case DepthX(k) => k
    case RenderX(k) => k
  }

  lemma {:induction false} LowRowsAreZero(p: Pattern, r: nat)
    requires Tabulated(p) && r < Shift(p)
    ensures Row(p, r) == Zero
  {
    assert r == 0 || r == 1 || r == 2 || r == 3;
    match p
    case Standard4K(k) =>
    case Standard64K(k) =>
    case DepthX(k) =>
    case RenderX(k) =>
  }

  /** The offset in elements: the rows above the constantly zero ones. */
  function ElementOffset(p: Pattern, x: nat, y: nat): nat
    requires Tabulated(p)
  {
    FromBits(PatternBits(p, x, y)[Shift(p)..])
  }

  /** Offsets are multiples of the element size and stay inside the block. */
  lemma {:induction false} OffsetIsElementOffset(p: Pattern, x: nat, y: nat)
    requires Tabulated(p)
    ensures PatternOffset(p, x, y) == Mul(ElementOffset(p, x, y), Pow2(Shift(p)))
    ensures ElementOffset(p, x, y) < Pow2(ElementBits(p))
  {
    forall r | 0 <= r < Shift(p) ensures !PatternBits(p, x, y)[r] {
      LowRowsAreZero(p, r);
      assert And(x, 0) == 0 && And(y, 0) == 0;
    }
    FromBitsMultiple(PatternBits(p, x, y), Shift(p));
    FromBitsBound(PatternBits(p, x, y)[Shift(p)..]);
  }

  /** Whole coordinate from the block it lies in and the place inside the block. */
  function At(block: nat, bits: nat, inside: nat): nat {
    RowMajor(block, Pow2(bits), inside)
  }

  lemma {:induction false} AtIsInBlock(block: nat, bits: nat, inside: nat)
    requires inside < Pow2(bits)
    ensures Shr(At(block, bits, inside), bits) == block
  {
    ShrOfMultiple(block, inside, bits);
  }

  /** The element offset at a place of one block. */
  function InBlock(p: Pattern, blockX: nat, blockY: nat, ix: nat, iy: nat): nat
    requires Tabulated(p)
  {
    ElementOffset(p, At(blockX, WBits(p), ix), At(blockY, HBits(p), iy))
  }

  lemma {:induction false} InBlockBound(p: Pattern, blockX: nat, blockY: nat, ix: nat, iy: nat)
    requires Tabulated(p)
    ensures InBlock(p, blockX, blockY, ix, iy) < Pow2(ElementBits(p))
  {
    hide Pow2, ElementOffset, At;
    OffsetIsElementOffset(p, At(blockX, WBits(p), ix), At(blockY, HBits(p), iy));
  }

  /** One to one: different places of a block have different element offsets. */
  lemma {:induction false} PlacesAreDistinct(p: Pattern, blockX: nat, blockY: nat, ix: nat, iy: nat, ix': nat, iy': nat)
    requires Tabulated(p)
    requires ix < Pow2(WBits(p)) && ix' < Pow2(WBits(p)) && iy < Pow2(HBits(p)) && iy' < Pow2(HBits(p))
    requires InBlock(p, blockX, blockY, ix, iy) == InBlock(p, blockX, blockY, ix', iy')
    ensures ix == ix' && iy == iy'
  {
    AtIsInBlock(blockX, WBits(p), ix);
    AtIsInBlock(blockX, WBits(p), ix');
    AtIsInBlock(blockY, HBits(p), iy);
    AtIsInBlock(blockY, HBits(p), iy');
    var x, y := At(blockX, WBits(p), ix), At(blockY, HBits(p), iy);
    var x', y' := At(blockX, WBits(p), ix'), At(blockY, HBits(p), iy');
    OffsetIsElementOffset(p, x, y);
    OffsetIsElementOffset(p, x', y');
    OffsetsAreDistinct(p, x, y, x', y');
  }

  /** Onto: the element offsets of a block are exactly the numbers below its size. */
  lemma {:induction false} EveryOffsetIsTaken(p: Pattern, blockX: nat, blockY: nat,
        target: nat) returns (ix: nat, iy: nat)
    requires Tabulated(p) && target < Pow2(ElementBits(p))
    ensures ix < Pow2(WBits(p)) && iy < Pow2(HBits(p))
    ensures InBlock(p, blockX, blockY, ix, iy) == target
  {
    hide Pow2, Mul, Quotient, Remainder, InBlock;
    var w, n := Pow2(WBits(p)), Pow2(ElementBits(p));
    Pow2Add(HBits(p), WBits(p));
    var s := seq(n, e requires 0 <= e < n => InBlock(p, blockX, blockY, Remainder(e, w), Quotient(e, w)));
    forall i, j | 0 <= i < j < n ensures s[i] != s[j] {
      QuotientBound(i, w, Pow2(HBits(p)));
      QuotientBound(j, w, Pow2(HBits(p)));
      if s[i] == s[j] {
        PlacesAreDistinct(p, blockX, blockY, Remainder(i, w), Quotient(i, w), Remainder(j, w), Quotient(j, w));
      }
    }
    forall e | 0 <= e < n ensures s[e] < n {
      InBlockBound(p, blockX, blockY, Remainder(e, w), Quotient(e, w));
    }
    var e := InjectionIsOnto(s, target);
    QuotientBound(e, w, Pow2(HBits(p)));
    ix, iy := Remainder(e, w), Quotient(e, w);
  }

  // ------------------------------------------------------ the loops

  /** One `offset |= bit << n` step. */
  lemma {:induction false} NextBit(p: Pattern, x: nat, y: nat, n: nat)
    requires n < BitCount(p)
    ensures var bits := PatternBits(p, x, y);
      Or(FromBits(bits[..n]), Shl(Row(p, n).Parity(x, y), n)) == FromBits(bits[..n + 1])
  {
    var bits := PatternBits(p, x, y);
    FromBitsAppend(bits[..n], Row(p, n).Parity(x, y));
    assert bits[..n + 1] == bits[..n] + [bits[n]];
  }

  lemma {:induction false} NoBits()
    ensures FromBits([]) == 0
  {
  }

  predicate Narrow(row: AddressBit) {
    match row
    case Zero => true
    case X(b) => b <= 8
    case Y(b) => b <= 8
    case XY(b, c) => b <= 8 && c <= 8
    case XYY(b, c, d) => b <= 8 && c <= 8 && d <= 8
  }

  lemma {:induction false} TableRowsAreNarrow(p: Pattern, r: nat)
    requires !p.Interleave?
    ensures Narrow(Row(p, r))
  {
  }

  /** The masked coordinates of a table row are 32-bit words. */
  lemma {:induction false} MaskedFits(row: AddressBit, x: nat, y: nat)
    requires Narrow(row) && row.Valid()
    ensures And(x, row.XMask()) < U32_LIMIT && And(y, row.YMask()) < U32_LIMIT
  {
    hide Pow2, And, Or;
    AndBound(x, row.XMask());
    AndBound(y, row.YMask());
    SmallBits();
    match row
    case Zero =>
    case X(b) => Pow2Monotone(b, 8);
    case Y(b) => Pow2Monotone(b, 8);
    case XY(b, c) => Pow2Monotone(b, 8); Pow2Monotone(c, 8);
    case XYY(b, c, d) =>
      Pow2Monotone(b, 8);
      Pow2Monotone(c, 8);
      Pow2Monotone(d, 8);
      Pow2Strict(c, d);
      ShlOfOne(d);
      OrIsAdd(Pow2(c), 1, d);
  }

  lemma {:induction false} SmallBits()
    ensures Pow2(8) == 256
  {
    assert Pow2(4) == 16;
  }

  method ComputePatternOffset(x: nat, y: nat, pattern: Pattern) returns (offset: nat)
    requires !pattern.Interleave?
    ensures offset == PatternOffset(pattern, x, y)
  {
    hide Row, FromBits, AddressBit.XMask, AddressBit.YMask, Pow2, And, PopCount;
    offset := 0;
    NoBits();
    for bit := 0 to BitCount(pattern)
      invariant offset == FromBits(PatternBits(pattern, x, y)[..bit])
    {
      var row := Row(pattern, bit);
      TableRowsAreNarrow(pattern, bit);
      RowsAreValid(pattern, bit);
      MaskedFits(row, x, y);
      var x_ones := FoldedPopCount(And(x, row.XMask()));
      var y_ones := FoldedPopCount(And(y, row.YMask()));
      var parity := (x_ones + y_ones) % 2;
      NextBit(pattern, x, y, bit);
      offset := Or(offset, Shl(parity, bit));
    }
    assert PatternBits(pattern, x, y)[..BitCount(pattern)] == PatternBits(pattern, x, y);
  }

  lemma {:induction false} NextAxisBit(p: Pattern, x: nat, y: nat, n: nat, offset: nat, c: nat, i: nat)
    requires n < BitCount(p) && offset == FromBits(PatternBits(p, x, y)[..n])
    requires (Row(p, n) == X(i) && c == x) || (Row(p, n) == Y(i) && c == y)
    ensures Or(offset, Shl(Bit(c, i), n)) == FromBits(PatternBits(p, x, y)[..n + 1])
  {
    NextBit(p, x, y, n);
    ParityIsXor(Row(p, n), x, y);
  }

  /** The axes advance together until the shorter one is used up. */
  predicate InStep(w: nat, h: nat, xi: nat, yi: nat) {
    xi <= w && yi <= h && (xi == yi || (xi < yi && xi == w) || (yi < xi && yi == h))
  }

  /** The rows one turn of the interleave loop produces. */
  lemma {:induction false} StepRows(w: nat, h: nat, xFirst: bool, xi: nat, yi: nat)
    requires InStep(w, h, xi, yi)
    ensures xFirst ==>
      var xi' := if xi < w then xi + 1 else xi;
      (xi < w ==> InterleaveRow(w, h, xFirst, xi + yi) == X(xi))
        && (yi < h ==> InterleaveRow(w, h, xFirst, xi' + yi) == Y(yi))
    ensures !xFirst ==>
      var yi' := if yi < h then yi + 1 else yi;
      (yi < h ==> InterleaveRow(w, h, xFirst, xi + yi) == Y(yi))
        && (xi < w ==> InterleaveRow(w, h, xFirst, xi + yi') == X(xi))
  {
  }

  /** Standard swizzle: x takes the low bit. */
  method StandardSwizzleOffset(x: nat, y: nat, width_bits: nat, height_bits: nat) returns (offset: nat)
    ensures offset == PatternOffset(Interleave(width_bits, height_bits, true), x, y)
  {
    ghost var p := Interleave(width_bits, height_bits, true);
    offset := 0;
    var out_bit, xi, yi := 0, 0, 0;
    while xi < width_bits || yi < height_bits
      invariant InStep(width_bits, height_bits, xi, yi) && out_bit == xi + yi
      invariant offset == FromBits(PatternBits(p, x, y)[..out_bit])
      decreases width_bits + height_bits - xi - yi
    {
      StepRows(width_bits, height_bits, true, xi, yi);
      if xi < width_bits {
        NextAxisBit(p, x, y, out_bit, offset, x, xi);
        offset := Or(offset, Shl(Bit(x, xi), out_bit));
        xi, out_bit := xi + 1, out_bit + 1;
      }
      if yi < height_bits {
        NextAxisBit(p, x, y, out_bit, offset, y, yi);
        offset := Or(offset, Shl(Bit(y, yi), out_bit));
        yi, out_bit := yi + 1, out_bit + 1;
      }
    }
    assert PatternBits(p, x, y)[..out_bit] == PatternBits(p, x, y);
  }

  /** Z-order swizzle: y takes the low bit. */
  method MortonInterleave(x: nat, y: nat, width_bits: nat, height_bits: nat) returns (offset: nat)
    ensures offset == PatternOffset(Interleave(width_bits, height_bits, false), x, y)
  {
    ghost var p := Interleave(width_bits, height_bits, false);
    offset := 0;
    var out_bit, xi, yi := 0, 0, 0;
    while xi < width_bits || yi < height_bits
      invariant InStep(width_bits, height_bits, xi, yi) && out_bit == xi + yi
      invariant offset == FromBits(PatternBits(p, x, y)[..out_bit])
      decreases width_bits + height_bits - xi - yi
    {
      StepRows(width_bits, height_bits, false, xi, yi);
      if yi < height_bits {
        NextAxisBit(p, x, y, out_bit, offset, y, yi);
        offset := Or(offset, Shl(Bit(y, yi), out_bit));
        yi, out_bit := yi + 1, out_bit + 1;
      }
      if xi < width_bits {
        NextAxisBit(p, x, y, out_bit, offset, x, xi);
        offset := Or(offset, Shl(Bit(x, xi), out_bit));
        xi, out_bit := xi + 1, out_bit + 1;
      }
    }
    assert PatternBits(p, x, y)[..out_bit] == PatternBits(p, x, y);
  }
}
