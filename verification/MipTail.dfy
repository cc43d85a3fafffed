/** Mip 0 inside the tail block: its place against the swizzle equation, and how it is copied out. */
module MipTail {
  import opened Basics
  import opened Bits
  import opened Swizzle
  import opened SwizzleTables
  import opened Detile
  import opened DetileLaws
  import opened MipChain

  // -------------------------------------------- the equation at half a block

  /** x bit t feeds the top offset bit and no other. */
  ghost predicate FeedsTopOnly(p: Pattern, t: nat) {
    forall r: nat | r < BitCount(p) :: XBitOf(Row(p, r)) == t <==> r == BitCount(p) - 1
  }

  function TopBit(n: nat): (bits: seq<bool>)
    ensures |bits| == n
  {
    seq(n, i requires 0 <= i < n => i == n - 1)
  }

  lemma {:induction false} TopBitIsHalf(n: nat)
    requires n > 0
    ensures FromBits(TopBit(n)) == Pow2(n - 1)
  {
    if n > 1 {
      assert TopBit(n)[1..] == TopBit(n - 1);
      TopBitIsHalf(n - 1);
    }
  }

  lemma {:induction false} OffsetAtPower(p: Pattern, t: nat)
    requires BitCount(p) > 0
    ensures PatternOffset(p, Pow2(t), 0) == Pow2(BitCount(p) - 1) <==> FeedsTopOnly(p, t)
  {
    hide Pow2, FromBits, Row, AddressBit.Parity;
    var n, bits := BitCount(p), PatternBits(p, Pow2(t), 0);
    TopBitIsHalf(n);
    forall r: nat | r < n ensures bits[r] <==> XBitOf(Row(p, r)) == t {
      RowsAreValid(p, r);
      RowAtPower(Row(p, r), t);
    }
    if FromBits(bits) == Pow2(n - 1) {
      FromBitsInjective(bits, TopBit(n));
    }
    if FeedsTopOnly(p, t) {
      assert bits == TopBit(n);
    }
  }

  lemma {:induction false} InterleaveTop(w: nat, h: nat, xFirst: bool)
    requires w > 0 && h <= w
    ensures FeedsTopOnly(Interleave(w, h, xFirst), w - 1) <==> h < w || !xFirst
  {
    var p := Interleave(w, h, xFirst);
    var top := XRow(w, h, xFirst, w - 1);
    assert XBitOf(Row(p, top)) == w - 1;
  }

  lemma {:induction false} StandardTop(k: nat)
    requires k <= 4
    ensures FeedsTopOnly(Standard4K(k), Swizzle.WBits(Standard4K(k)) - 1)
    ensures FeedsTopOnly(Standard64K(k), Swizzle.WBits(Standard64K(k)) - 1)
  {
    Standard4KTop(k);
    Standard64KTop(k);
  }

  lemma {:induction false} Standard4KTop(k: nat)
    requires k <= 4
    ensures FeedsTopOnly(Standard4K(k), Swizzle.WBits(Standard4K(k)) - 1)
  {
    var p, t := Standard4K(k), Swizzle.WBits(Standard4K(k)) - 1;
    forall r: nat | r < 12 ensures XBitOf(Standard4KRow(k, r)) == t <==> r == 11 {
    }
  }

  lemma {:induction false} Standard64KTop(k: nat)
    requires k <= 4
    ensures FeedsTopOnly(Standard64K(k), Swizzle.WBits(Standard64K(k)) - 1)
  {
    var p, t := Standard64K(k), Swizzle.WBits(Standard64K(k)) - 1;
    forall r: nat | r < 16 ensures XBitOf(Standard64KRow(k, r)) == t <==> r == 15 {
    }
  }

  /** The pipe XOR spreads the top x bit over lower offset bits. */
  lemma {:induction false} PipeXorTop(k: nat)
    requires k <= 4
    ensures !FeedsTopOnly(DepthX(k), Swizzle.WBits(DepthX(k)) - 1)
    ensures !FeedsTopOnly(RenderX(k), Swizzle.WBits(RenderX(k)) - 1)
  {
    var r := if k < 2 then 8 else if k < 4 then 10 else 11;
    assert XBitOf(Row(DepthX(k), r)) == Swizzle.WBits(DepthX(k)) - 1;
    assert XBitOf(Row(RenderX(k), r)) == Swizzle.WBits(RenderX(k)) - 1;
  }

  /** The layouts whose equation puts the middle of the first row half a block in. */
  predicate TailAgrees(l: Layout)
    requires l.k <= l.BlockLog()
  {
    if l.Exact() then l.mode == 5 || l.mode == 9
    else l.mode == 4 || l.mode == 8 || l.mode == 24 || (l.BlockLog() - l.k) % 2 == 1
  }

  lemma {:induction false} EquationTop(l: Layout)
    requires l.Valid() && l.k < l.BlockLog()
    ensures l.WBits() > 0 && BitCount(l.Equation()) == (if l.Exact() then l.BlockLog() else l.BlockLog() - l.k)
    ensures l.mode != 1 ==> (FeedsTopOnly(l.Equation(), l.WBits() - 1) <==> TailAgrees(l))
  {
    hide Row, Pow2;
    if l.Exact() {
      StandardTop(l.k);
      PipeXorTop(l.k);
    } else {
      InterleaveTop(l.WBits(), l.HBits(), l.mode == 1 || l.mode == 5 || l.mode == 9 || l.mode == 27);
    }
  }

  /** In the first block of a row the source is the offset inside the block. */
  lemma {:induction false} FirstBlockSource(l: Layout, x: nat, y: nat)
    requires l.Valid() && x < l.Width() && y < l.Height()
    ensures SourceByte(l, l.Width(), x, y) == Mul(ElementOffset(l.Equation(), x, y), l.Bpe())
  {
    hide Pow2, Mul, ElementOffset;
    var W, H := l.Width(), l.Height();
    assert Quotient(x, W) == 0 && Remainder(x, W) == x && Quotient(y, H) == 0 && Remainder(y, H) == y;
    MulIsProduct(0, BlocksAlong(W, W));
    MulIsProduct(0, l.Elements());
    var block := BlockIndex(l, W, x, y);
    assert block == 0;
  }

  lemma {:induction false} SameMultiple(a: nat, b: nat, d: nat)
    requires d > 0
    ensures Mul(a, d) == Mul(b, d) <==> a == b
  {
    if a < b {
      MultiplesApart(a, b, d);
    } else if b < a {
      MultiplesApart(b, a, d);
    }
  }

  /** The tail position (width / 2, 0) lies at the tail offset of the block exactly for
      the base Z and S equations, and for the wide elements without a table whose block
      is twice as wide as high or that are Morton ordered. */
  lemma {:induction false} TailPlaceIsTailOffset(l: Layout)
    requires l.Valid() && MaxMipsInTail(l.BlockLog()) > 0 && l.k <= 8
    ensures SourceByte(l, l.Width(), l.Width() / 2, 0) == TailOffset(MaxMipsInTail(l.BlockLog())) <==> TailAgrees(l)
  {
    hide Pow2, Mul, MaxMipsInTail, TailOffset, Row, PatternOffset, ElementOffset, SourceByte, FeedsTopOnly, WideBits,
      NarrowBits, Layout.Equation;
    TailOffsets();
    EquationTop(l);
    var p, t := l.Equation(), l.WBits() - 1;
    HalfOfPower(l.WBits());
    TopIsInside(l);
    FirstBlockSource(l, Pow2(t), 0);
    OffsetAtPower(p, t);
    OffsetIsElementOffset(p, Pow2(t), 0);
    EquationShift(l);
    var e := ElementOffset(p, Pow2(t), 0);
    if !l.Exact() {
      ElementIsHalf(l, e);
    }
  }

  lemma {:induction false} TopIsInside(l: Layout)
    requires l.Valid() && l.WBits() > 0
    ensures Pow2(l.WBits() - 1) < l.Width() && 0 < l.Height()
  {
  }

  lemma {:induction false} ElementIsHalf(l: Layout, e: nat)
    requires l.Valid() && l.k < l.BlockLog()
    ensures Mul(e, Pow2(0)) == e
    ensures Mul(e, l.Bpe()) == Pow2(l.BlockLog() - 1) <==> e == Pow2(l.BlockLog() - l.k - 1)
  {
    hide Pow2, Mul;
    MulIsProduct(e, Pow2(0));
    SmallPowers();
    Pow2Add(l.BlockLog() - l.k - 1, l.k);
    SameMultiple(e, Pow2(l.BlockLog() - l.k - 1), l.Bpe());
  }

  lemma {:induction false} EquationShift(l: Layout)
    requires l.Valid()
    ensures Shift(l.Equation()) == if l.Exact() then l.k else 0
  {
  }

  // --------------------------------------------------- copying mip 0 out

  /** Where each row of the rectangle starts in the linear block. */
  function RowSources(l: Layout, tail_x: nat, tail_y: nat, h: nat): (rows: seq<nat>)
    requires l.Valid()
    ensures |rows| == h
  {
    seq<nat>(h, y requires 0 <= y < h => Mul(RowMajor(tail_y + y, l.Width(), tail_x), l.Bpe()))
  }

  /** The w by h rectangle at (tail_x, tail_y) of a linear block. */
  function SubRectangle(l: Layout, block: seq<Byte>, tail_x: nat, tail_y: nat, w: nat, h: nat,
        before: seq<Byte>): (image: seq<Byte>)
    requires l.Valid() && Mul(w, l.Bpe()) > 0
    ensures |image| == |before|
  {
    Gathered(RowSources(l, tail_x, tail_y, h), Mul(w, l.Bpe()), block, before)
  }

  lemma {:induction false} RowInBlock(l: Layout, tail_x: nat, row: nat, w: nat)
    requires l.Valid() && tail_x + w <= l.Width() && row < l.Height()
    ensures Mul(RowMajor(row, l.Width(), tail_x), l.Bpe()) + Mul(w, l.Bpe()) <= l.BlockBytes()
  {
    hide Pow2, Mul;
    BlockSize(l);
    MulCommutes(l.Width(), l.Height());
    MultiplesApart(row, l.Height(), l.Width());
    var start := RowMajor(row, l.Width(), tail_x);
    MulDistributes(start, w, l.Bpe());
    MulMonotone(start + w, l.Elements(), l.Bpe());
  }

  lemma {:induction false} BlockSidesFit(l: Layout)
    requires l.Valid()
    ensures 1 <= l.Width() <= MAX_EXTENT && 1 <= l.Height() <= MAX_EXTENT
    ensures Mul(Mul(l.Height(), l.Width()), l.Bpe()) == l.BlockBytes()
  {
    hide Pow2, Mul;
    BlockSizes();
    Pow2Monotone(l.WBits(), 16);
    Pow2Monotone(l.HBits(), 16);
    BlockSize(l);
    MulCommutes(l.Width(), l.Height());
  }

  lemma {:induction false} RowHasBytes(w: nat, l: Layout)
    requires w > 0
    ensures Mul(w, l.Bpe()) > 0
  {
    hide Pow2;
    MulMonotone(1, w, l.Bpe());
  }

  /** The 32-bit guard lets a rectangle through only when it lies in the block: not so for
      coordinates whose sums wrap into it, from which the source would read elsewhere. */
  ghost predicate GuardTells(mode: nat, bytes_per_element: nat, tail_x: nat, w: nat, tail_y: nat, h: nat) {
    LayoutOf(mode, bytes_per_element).Some? ==>
      var l := LayoutOf(mode, bytes_per_element).value;
      Wrap32(tail_x + w) <= l.Width() && Wrap32(tail_y + h) <= l.Height() ==>
        tail_x + w <= l.Width() && tail_y + h <= l.Height()
  }

  /** Deswizzles the whole first block, then copies the mip 0 rectangle out of it row by row. */
  method DetileTailMip0(tiled: array?<Byte>, tiled_size: nat, linear: array?<Byte>, swizzle_mode: nat,
                        elements_wide: nat, elements_high: nat, bytes_per_element: nat, tail_element_x: nat,
                        tail_element_y: nat)
      returns (ok: bool)
    requires bytes_per_element < U32_LIMIT && elements_wide < U32_LIMIT && elements_high < U32_LIMIT
    requires tail_element_x < U32_LIMIT && tail_element_y < U32_LIMIT
    requires GuardTells(swizzle_mode, bytes_per_element, tail_element_x, elements_wide, tail_element_y, elements_high)
    requires tiled == linear ==> tiled == null
    requires tiled != null ==> tiled_size <= tiled.Length
    modifies if linear == null then {} else {linear}
    ensures ok <==>
      && tiled != null && linear != null && elements_wide != 0 && elements_high != 0
      && LayoutOf(swizzle_mode, bytes_per_element).Some?
      && var l := LayoutOf(swizzle_mode, bytes_per_element).value;
         && tail_element_x + elements_wide <= l.Width() && tail_element_y + elements_high <= l.Height()
         && l.BlockBytes() <= tiled_size && Mul(elements_high, Mul(elements_wide, bytes_per_element)) <= linear.Length
    ensures ok ==>
      var l := LayoutOf(swizzle_mode, bytes_per_element).value;
      && Mul(elements_wide, l.Bpe()) > 0 && |Zeros(l)| == l.BlockBytes() <= tiled.Length
      && linear[..] == SubRectangle(l, Detiled(l, l.Width(), l.Height(), tiled[..l.BlockBytes()], Zeros(l)),
                                    tail_element_x, tail_element_y, elements_wide, elements_high, old(linear[..]))
    ensures !ok && linear != null ==> linear[..] == old(linear[..])
  {
    hide Pow2, Mul, Log2, Shr, Detiled, Gathered, SubRectangle, Wrap32;
    if tiled == null || linear == null || elements_wide == 0 || elements_high == 0 {
      return false;
    }
    var found, kind, block_bytes, bpp_log2, block_width, block_height := BlockGeometry(swizzle_mode, bytes_per_element);
    if !found {
      return false;
    }
    ghost var l := LayoutOf(swizzle_mode, bytes_per_element).value;
    SidesAreSmall(l);
    if Wrap32(tail_element_x + elements_wide) > block_width || Wrap32(tail_element_y + elements_high) > block_height
       || tiled_size < block_bytes || linear.Length < Mul(elements_high, Mul(elements_wide, bytes_per_element)) {
      return false;
    }
    BlockSidesFit(l);
    DescriptorsFitWords(swizzle_mode, block_width, block_height, bytes_per_element);
    RowHasBytes(elements_wide, l);
    var block_linear := new Byte[block_bytes](_ => 0);
    assert block_linear[..] == Zeros(l);
    var detiled := DetileSurface(tiled, block_bytes, block_linear, swizzle_mode, block_width, block_height,
      bytes_per_element);
    if !detiled {
      return false;
    }
    CopyRows(l, block_linear, linear, block_width, bytes_per_element, elements_wide, elements_high, tail_element_x,
      tail_element_y);
    return true;
  }

  /** The block buffer before it is filled. */
  function Zeros(l: Layout): (zeros: seq<Byte>)
    ensures |zeros| == l.BlockBytes()
  {
    seq(l.BlockBytes(), _ => 0)
  }

  method CopyRows(ghost l: Layout, block_linear: array<Byte>, linear: array<Byte>, block_width: nat,
        bytes_per_element: nat,
                  elements_wide: nat, elements_high: nat, tail_element_x: nat, tail_element_y: nat)
    requires l.Valid() && block_width == l.Width() && bytes_per_element == l.Bpe() && Mul(elements_wide, l.Bpe()) > 0
    requires tail_element_x + elements_wide <= l.Width() && tail_element_y + elements_high <= l.Height()
    requires block_linear != linear && block_linear.Length == l.BlockBytes()
    requires Mul(elements_high, Mul(elements_wide, bytes_per_element)) <= linear.Length
    modifies linear
    ensures linear[..] == SubRectangle(l, block_linear[..], tail_element_x, tail_element_y, elements_wide,
      elements_high, old(linear[..]))
  {
    hide Pow2, Mul, Gathered, GatheredUpTo, Layout.Width, Layout.Height, Layout.Bpe, Layout.BlockBytes;
    var row_bytes := Mul(elements_wide, bytes_per_element);
    ghost var rows, before, block := RowSources(l, tail_element_x, tail_element_y, elements_high), linear[..],
      block_linear[..];
    NothingGathered(rows, row_bytes, block, before);
    for y := 0 to elements_high
      invariant GatheredUpTo(rows, row_bytes, block, before, linear[..], Mul(y, row_bytes))
    {
      var source := Mul(RowMajor(tail_element_y + y, block_width, tail_element_x), bytes_per_element);
      RowInBlock(l, tail_element_x, tail_element_y + y, elements_wide);
      MultiplesApart(y, elements_high, row_bytes);
      ghost var image := linear[..];
      MemCpy(linear, Mul(y, row_bytes), block_linear, source, row_bytes);
      GatherStep(rows, row_bytes, block, before, image, y, linear[..]);
    }
    GatherDone(rows, row_bytes, block, before, linear[..]);
  }

  lemma {:induction false} NothingGathered(sources: seq<nat>, size: nat, tiled: seq<Byte>, before: seq<Byte>)
    requires size > 0
    ensures GatheredUpTo(sources, size, tiled, before, before, Mul(0, size))
  {
    MulIsProduct(0, size);
  }

  lemma {:induction false} ElementInRow(start: nat, x: nat, e: nat, size: nat, j: nat)
    requires e == start + x
    ensures RowMajor(e, size, j) == Mul(start, size) + RowMajor(x, size, j)
  {
    hide Mul;
    MulDistributes(start, x, size);
  }

  /** Byte j of element (x, y) of the rectangle is that byte of its element of the block. */
  lemma {:induction false} RectangleElement(l: Layout, block: seq<Byte>, tail_x: nat, tail_y: nat, w: nat, h: nat,
        before: seq<Byte>, x: nat, y: nat, j: nat)
    requires l.Valid() && x < w && y < h && j < l.Bpe() && Mul(w, l.Bpe()) > 0
    requires tail_x + w <= l.Width() && tail_y + h <= l.Height()
    requires |block| == l.BlockBytes() && Mul(h, Mul(w, l.Bpe())) <= |before|
    ensures RowMajor(RowMajor(y, w, x), l.Bpe(), j) < |before|
    ensures RowMajor(RowMajor(tail_y + y, l.Width(), tail_x + x), l.Bpe(), j) < |block|
    ensures SubRectangle(l, block, tail_x, tail_y, w, h, before)[RowMajor(RowMajor(y, w, x), l.Bpe(), j)]
         == block[RowMajor(RowMajor(tail_y + y, l.Width(), tail_x + x), l.Bpe(), j)]
  {
    hide Pow2, Mul, Quotient, Remainder, Layout.Width, Layout.Height, Layout.Bpe, Layout.BlockBytes, Layout.Elements;
    var size, W := l.Bpe(), l.Width();
    var row_bytes, inRow := Mul(w, size), RowMajor(x, size, j);
    CellInGrid(x, j, size, w);
    CellInGrid(y, inRow, row_bytes, h);
    DivisionIsUnique(y, inRow, row_bytes);
    ByteOfElement(y, w, x, size, j);
    var start, e := RowMajor(tail_y + y, W, tail_x), RowMajor(tail_y + y, W, tail_x + x);
    ElementInRow(start, x, e, size, j);
    RowInBlock(l, tail_x, tail_y + y, w);
    var p := RowMajor(y, row_bytes, inRow);
    var q, r := Quotient(p, row_bytes), Remainder(p, row_bytes);
    assert q == y && r == inRow;
    var rows := RowSources(l, tail_x, tail_y, h);
    assert rows[q] == Mul(start, size);
    assert GatheredByte(rows, row_bytes, block, before, p) == block[Mul(start, size) + inRow];
  }

  /** Byte j of element (x, y) of the copy is byte j of the element's own source in the tail block. */
  lemma {:induction false} TailElementIsCopied(l: Layout, tiled: seq<Byte>, tail_x: nat, tail_y: nat, w: nat, h: nat,
        before: seq<Byte>, x: nat, y: nat, j: nat)
    requires l.Valid() && x < w && y < h && j < l.Bpe() && Mul(w, l.Bpe()) > 0
    requires tail_x + w <= l.Width() && tail_y + h <= l.Height()
    requires |tiled| == l.BlockBytes() && Mul(h, Mul(w, l.Bpe())) <= |before|
    ensures RowMajor(RowMajor(y, w, x), l.Bpe(), j) < |before|
    ensures SourceByte(l, l.Width(), tail_x + x, tail_y + y) + l.Bpe() <= |tiled|
    ensures var block := Detiled(l, l.Width(), l.Height(), tiled, Zeros(l));
      SubRectangle(l, block, tail_x, tail_y, w, h, before)[RowMajor(RowMajor(y, w, x), l.Bpe(), j)]
         == tiled[SourceByte(l, l.Width(), tail_x + x, tail_y + y) + j]
  {
    hide Pow2, Mul, Quotient, Remainder, Detiled, SourceByte, SubRectangle, RowMajor, TiledBytes, Layout.Width,
      Layout.Height, Layout.Bpe, Layout.BlockBytes, Layout.Elements;
    BlockSidesFit(l);
    OneBlock(l);
    EveryElementIsCopied(l, l.Width(), l.Height(), tiled, Zeros(l), tail_x + x, tail_y + y, j);
    RectangleElement(l, Detiled(l, l.Width(), l.Height(), tiled, Zeros(l)), tail_x, tail_y, w, h, before, x, y, j);
  }

  lemma {:induction false} ByteOfElement(y: nat, w: nat, x: nat, size: nat, j: nat)
    ensures RowMajor(RowMajor(y, w, x), size, j) == RowMajor(y, Mul(w, size), RowMajor(x, size, j))
  {
    hide Mul;
    MulDistributes(Mul(y, w), x, size);
    MulAssociates(y, w, size);
  }

  /** A surface of one block's extents is one block. */
  lemma {:induction false} OneBlock(l: Layout)
    requires l.Valid()
    ensures TiledBytes(l, l.Width(), l.Height()) == l.BlockBytes()
  {
    hide Pow2, Mul, BlocksAlong;
    MulIsProduct(1, l.Width());
    MulIsProduct(1, l.Height());
    MulIsProduct(1, 1);
    MulIsProduct(1, l.BlockBytes());
    WholeBlocks(l.Width(), l.Width(), 1);
    WholeBlocks(l.Height(), l.Height(), 1);
  }
}
