/** A tiled surface in plain arithmetic: which modes and sizes there are, how large their
    blocks are, and where an element stands in terms of ordinary division. */
module SurfaceLaws {
  import opened Basics
  import opened Bits
  import opened Swizzle
  import opened Detile
  import opened DetileLaws
  import opened SwizzleTables

  // ---------------------------------------------------------- descriptors

  /** The width minus one is two bits of word 1 and fourteen of word 2, low bits first,
      the height minus one the next sixteen; `low` and `high` are the bits around them. */
  lemma {:induction false} DescriptorExtents(m: bv32, n: bv32, low: bv32, high: bv32)
    requires m < 0x1_0000 && n < 0x1_0000 && low < 0x4000_0000 && high < 4
    ensures DescriptorWidth(low | (m << 30), (m >> 2) | (n << 14) | (high << 30)) == m + 1
    ensures DescriptorHeight((m >> 2) | (n << 14) | (high << 30)) == n + 1
  {
    WidthBits(m, n, low, high);
    HeightBits(m, n, high);
  }

  lemma {:induction false} WidthBits(m: bv32, n: bv32, low: bv32, high: bv32)
    requires m < 0x1_0000 && low < 0x4000_0000
    ensures (((low | (m << 30)) >> 30) & 0x3) | ((((m >> 2) | (n << 14) | (high << 30)) & 0x3FFF) << 2) == m
  {
  }

  lemma {:induction false} HeightBits(m: bv32, n: bv32, high: bv32)
    requires m < 0x1_0000 && n < 0x1_0000
    ensures (((m >> 2) | (n << 14) | (high << 30)) >> 14) & 0xFFFF == n
  {
  }

  // --------------------------------------------------------------- blocks

  /** The bytes of a block of a mode, zero for a mode that is not supported. */
  function ModeBlockBytes(mode: nat): nat {
    match mode
    case 1 => 256
    case 4 => 4096
    case 5 => 4096
    case 8 => 65536
    case 9 => 65536
    case 24 => 65536
    case 27 => 65536
    case _ => 0
  }

  /** A mode is supported with the powers of two that its block holds, and no others. */
  lemma {:induction false} SupportedModes(mode: nat, size: nat)
    ensures LayoutOf(mode, size).Some? <==> size <= ModeBlockBytes(mode) && exists k: nat :: size == Pow2(k)
  {
    hide Pow2, Log2;
    BlockSizes();
    var log := Layout(mode, 0).BlockLog();
    if exists k: nat :: size == Pow2(k) {
      var k: nat :| size == Pow2(k);
      Log2OfPow2(k);
      if k <= log {
        Pow2Monotone(k, log);
      } else {
        Pow2Strict(log, k);
      }
    }
    if LayoutOf(mode, size).Some? {
      assert size == Pow2(Log2(size));
    }
  }

  /** A block is as wide as it is high, or twice as wide. */
  lemma {:induction false} BlockShape(l: Layout)
    requires l.Valid()
    ensures l.Width() * l.Height() * l.Bpe() == l.BlockBytes() == ModeBlockBytes(l.mode)
    ensures l.Width() == l.Height() || l.Width() == 2 * l.Height()
    ensures l.Elements() == l.Width() * l.Height()
  {
    hide Mul, Pow2;
    BlockSize(l);
    BlockSizes();
    MulIsProduct(l.Width(), l.Height());
    MulIsProduct(l.Elements(), l.Bpe());
    if l.WBits() != l.HBits() {
      DoublePower(l.HBits());
    }
  }

  lemma {:induction false} DoublePower(n: nat)
    ensures Pow2(n + 1) == 2 * Pow2(n)
  {
  }

  /** The least number of blocks that covers an extent. */
  lemma {:induction false} BlocksAreCeiling(extent: nat, side: nat)
    requires side > 0
    ensures BlocksAlong(extent, side) == (extent + side - 1) / side
    ensures extent <= BlocksAlong(extent, side) * side < extent + side
  {
    hide Quotient, Remainder;
    DivisionIsDivision(extent + side - 1, side);
    MulIsProduct(BlocksAlong(extent, side), side);
  }

  // ------------------------------------------------------------ equations

  /** Modes 5, 9, 24 and 27 have their tables up to 16 bytes an element; the rest are
      interleaves, y first in the Z orders 4, 8 and 24. */
  lemma {:induction false} EquationOfMode(l: Layout)
    requires l.Valid()
    ensures l.Equation() ==
      if l.k < 5 && l.mode == 5 then Standard4K(l.k)
      else if l.k < 5 && l.mode == 9 then Standard64K(l.k)
      else if l.k < 5 && l.mode == 24 then DepthX(l.k)
      else if l.k < 5 && l.mode == 27 then RenderX(l.k)
      else Interleave(l.WBits(), l.HBits(), l.mode != 4 && l.mode != 8 && l.mode != 24)
    ensures l.Exact() <==> l.k < 5 && (l.mode == 5 || l.mode == 9 || l.mode == 24 || l.mode == 27)
  {
  }

  lemma {:induction false} BlockInNumbers(l: Layout, w: nat, x: nat, y: nat)
    requires l.Valid()
    ensures var W, H := l.Width(), l.Height(); BlockIndex(l, w, x, y) == y / H * ((w + W - 1) / W) + x / W
  {
    hide Pow2, Mul, Quotient, Remainder, Layout.Width, Layout.Height, BlocksAlong;
    var W, H := l.Width(), l.Height();
    DivisionIsDivision(x, W);
    DivisionIsDivision(y, H);
    BlocksAreCeiling(w, W);
    MulIsProduct(Quotient(y, H), BlocksAlong(w, W));
  }

  lemma {:induction false} OffsetInNumbers(l: Layout, x: nat, y: nat)
    requires l.Valid()
    ensures Mul(InBlockElement(l, x, y), l.Bpe()) ==
      if l.Exact() then PatternOffset(l.Equation(), x, y)
      else Mul(PatternOffset(l.Equation(), x % l.Width(), y % l.Height()), l.Bpe())
  {
    hide Mul, Quotient, Remainder, ElementOffset, PatternOffset, Layout.Width, Layout.Height;
    var u, v := x % l.Width(), y % l.Height();
    DivisionIsDivision(x, l.Width());
    DivisionIsDivision(y, l.Height());
    if l.Exact() {
      OffsetIsElementOffset(l.Equation(), x, y);
    } else {
      OffsetIsElementOffset(l.Equation(), u, v);
      MulIsProduct(ElementOffset(l.Equation(), u, v), 1);
    }
  }

  /** The source of element (x, y): whole blocks row by row, then the offset inside the
      block, which an exact equation takes from the whole coordinates. */
  lemma {:induction false} SourceInNumbers(l: Layout, w: nat, x: nat, y: nat)
    requires l.Valid()
    ensures
      var W, H := l.Width(), l.Height();
      var block := y / H * ((w + W - 1) / W) + x / W;
      SourceByte(l, w, x, y) == block * ModeBlockBytes(l.mode) +
        if l.Exact() then PatternOffset(l.Equation(), x, y) else PatternOffset(l.Equation(), x % W, y % H) * l.Bpe()
  {
    hide Mul, BlockIndex, InBlockElement, PatternOffset, Pow2, ModeBlockBytes, Layout.Width, Layout.Height, Layout.Bpe,
      Layout.BlockBytes, Layout.Elements, Layout.Equation, Layout.Exact;
    var e, block := InBlockElement(l, x, y), BlockIndex(l, w, x, y);
    BlockInNumbers(l, w, x, y);
    OffsetInNumbers(l, x, y);
    BlockSize(l);
    BlockShape(l);
    BytesOfElement(block, l.Elements(), e, l.Bpe());
    MulIsProduct(block, l.BlockBytes());
    MulIsProduct(PatternOffset(l.Equation(), x % l.Width(), y % l.Height()), l.Bpe());
  }

  /** In the first block of an exact equation the source is the offset. */
  lemma {:induction false} FirstBlock(l: Layout, w: nat, x: nat, y: nat)
    requires l.Valid() && l.Exact() && x < l.Width() && y < l.Height()
    ensures SourceByte(l, w, x, y) == PatternOffset(l.Equation(), x, y)
  {
    hide PatternOffset, SourceByte, Pow2, ModeBlockBytes, Layout.Width, Layout.Height, Layout.Equation;
    SourceInNumbers(l, w, x, y);
    EuclideanDivision(x, 0, x, l.Width());
    EuclideanDivision(y, 0, y, l.Height());
    ZeroTimes((w + l.Width() - 1) / l.Width());
    ZeroTimes(ModeBlockBytes(l.mode));
  }

  lemma {:induction false} ZeroTimes(n: nat)
    ensures 0 * n == 0
  {
  }

  lemma {:induction false} SmallPowers()
    ensures Pow2(0) == 1 && Pow2(1) == 2 && Pow2(2) == 4 && Pow2(7) == 128
  {
  }

  /** On a surface of mode 27, 128 elements of 4 bytes wide, (1, 0) is read at byte 4,
      (2, 0) at 8 and (0, 1) at 16. */
  lemma {:induction false} FirstElements()
    ensures LayoutOf(27, 4) == Some(Layout(27, 2))
    ensures SourceByte(Layout(27, 2), 128, 1, 0) == 4
    ensures SourceByte(Layout(27, 2), 128, 2, 0) == 8
    ensures SourceByte(Layout(27, 2), 128, 0, 1) == 16
  {
    hide PatternOffset, SourceByte, Pow2, Log2;
    var l := Layout(27, 2);
    SmallPowers();
    Log2OfPow2(2);
    FirstBlock(l, 128, 1, 0);
    FirstBlock(l, 128, 2, 0);
    FirstBlock(l, 128, 0, 1);
    RenderX2();
    assert PatternOffset(RenderX(2), Pow2(0), 0) == 4 && PatternOffset(RenderX(2), Pow2(1), 0) == 8;
    assert PatternOffset(RenderX(2), 0, Pow2(0)) == 16;
  }
}
