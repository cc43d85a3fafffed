/** Mip chains in plain arithmetic, and the placements of four of them in numbers. */
module MipNumbers {
  import opened Basics
  import opened Bits
  import opened Swizzle
  import opened Detile
  import opened MipChain
  import opened SurfaceLaws

  /** Mip i is its level 0 extent divided by 2^i, and one element where that is nothing. */
  lemma {:induction false} ExtentIsQuotient(extent: nat, i: nat)
    ensures var m := MipExtent(extent, i);
      m * Pow2(i) <= extent < (m + 1) * Pow2(i) || (m == 1 && extent < Pow2(i))
    ensures MipExtent(extent, i) == var q := extent / Pow2(i); if q == 0 then 1 else q
  {
    hide Shr, Pow2;
    var q := Shr(extent, i);
    ShrIsQuotient(extent, i);
    assert extent == q * Pow2(i) + extent % Pow2(i);
    assert (q + 1) * Pow2(i) == q * Pow2(i) + Pow2(i);
  }

  /** A mip takes the blocks that cover it. */
  lemma {:induction false} MipBytesInNumbers(l: Layout, w: nat, h: nat, i: nat)
    requires l.Valid()
    ensures MipBytes(l, w, h, i) ==
      ((MipExtent(w, i) + l.Width() - 1) / l.Width()) * ((MipExtent(h, i) + l.Height() - 1) / l.Height())
        * ModeBlockBytes(l.mode)
  {
    hide Pow2, Mul, MipExtent, BlocksAlong, ModeBlockBytes, MipBytes, Layout.Width, Layout.Height, Layout.BlockBytes;
    MipIsASurface(l, w, h, i);
    BlocksAreCeiling(MipExtent(w, i), l.Width());
    BlocksAreCeiling(MipExtent(h, i), l.Height());
    BlockShape(l);
    var a, b := BlocksAlong(MipExtent(w, i), l.Width()), BlocksAlong(MipExtent(h, i), l.Height());
    MulIsProduct(a, b);
    MulIsProduct(Mul(a, b), l.BlockBytes());
  }

  /** The tail takes a mip of at most half a block, and at most eight or twelve mips;
      256-byte blocks have none. */
  lemma {:induction false} TailInNumbers(l: Layout, levels: nat, w: nat, h: nat, i: nat)
    requires l.Valid() && i <= levels
    ensures FitsTail(l, levels, w, h, i) <==>
      && l.mode != 1
      && MipExtent(w, i) <= l.Width() && MipExtent(h, i) <= l.Height() / 2
      && levels - i <= (if l.mode == 4 || l.mode == 5 then 8 else 12)
  {
    hide Pow2, MipExtent, Layout.Width, Layout.Height;
  }

  // ------------------------------------------------------------ placements

  lemma {:induction false} Powers()
    ensures Pow2(0) == 1 && Pow2(1) == 2 && Pow2(2) == 4 && Pow2(3) == 8 && Pow2(4) == 16 && Pow2(5) == 32
    ensures Pow2(7) == 128
  {
  }

  lemma {:induction false} Layouts()
    ensures LayoutOf(9, 4) == Some(Layout(9, 2)) && LayoutOf(5, 4) == Some(Layout(5, 2))
    ensures LayoutOf(1, 1) == Some(Layout(1, 0))
    ensures Layout(9, 2).Width() == Layout(9, 2).Height() == 128
    ensures Layout(5, 2).Width() == Layout(5, 2).Height() == 32
    ensures Layout(1, 0).Width() == Layout(1, 0).Height() == 16
  {
    hide Pow2, Log2;
    Powers();
    Log2OfPow2(0);
    Log2OfPow2(2);
  }

  /** A large mip of 4096 by 4096 elements of 4 bytes, in mode 9. */
  lemma {:induction false} LargeMip(i: nat, extent: nat, bytes: nat)
    requires MipExtent(4096, i) == extent && i < 13
    requires 128 <= extent && extent % 128 == 0 && bytes == extent * extent * 4
    ensures MipBytes(Layout(9, 2), 4096, 4096, i) == bytes && !FitsTail(Layout(9, 2), 13, 4096, 4096, i)
  {
    hide MipExtent, MipBytes, FitsTail, Layout.Width, Layout.Height;
    Layouts();
    MipBytesInNumbers(Layout(9, 2), 4096, 4096, i);
    TailInNumbers(Layout(9, 2), 13, 4096, 4096, i);
    var q := extent / 128;
    EuclideanDivision(extent + 127, q, 127, 128);
    assert q * q * 65536 == (q * 128) * (q * 128) * 4;
  }

  lemma {:induction false} LargeExtents()
    ensures MipExtent(4096, 0) == 4096 && MipExtent(4096, 1) == 2048 && MipExtent(4096, 2) == 1024
    ensures MipExtent(4096, 3) == 512 && MipExtent(4096, 4) == 256 && MipExtent(4096, 5) == 128
    ensures MipExtent(4096, 6) == 64
  {
  }

  /** Thirteen levels of 4096 by 4096 elements of 4 bytes in mode 9: a tail block of mips 6
      to 12, mips 5 to 1, and mip 0 at byte 22413312 of 89522176. */
  lemma {:induction false} LargeChain()
    ensures Placed(9, 4096, 4096, 4, 13)
    ensures PlacementOf(Layout(9, 2), 13, 4096, 4096) == Placement(false, 0, 0, 22413312, 89522176)
  {
    hide MipExtent, MipBytes, FitsTail, Layout.Width, Layout.Height, FirstInTail, MipsFrom, LayoutOf;
    var l := Layout(9, 2);
    LargeExtents();
    Layouts();
    LargeMip(0, 4096, 67108864);
    LargeMip(1, 2048, 16777216);
    LargeMip(2, 1024, 4194304);
    LargeMip(3, 512, 1048576);
    LargeMip(4, 256, 262144);
    LargeMip(5, 128, 65536);
    TailInNumbers(l, 13, 4096, 4096, 6);
    FirstStep(l, 13, 4096, 4096, 0);
    FirstStep(l, 13, 4096, 4096, 1);
    FirstStep(l, 13, 4096, 4096, 2);
    FirstStep(l, 13, 4096, 4096, 3);
    FirstStep(l, 13, 4096, 4096, 4);
    FirstStep(l, 13, 4096, 4096, 5);
    FirstStep(l, 13, 4096, 4096, 6);
    BlockSizes();
    LargeSum(l);
  }

  /** The sum over the mips, one term at a time. */
  lemma {:induction false} NextTerm(l: Layout, w: nat, h: nat, first: nat, i: nat)
    requires l.Valid()
    ensures MipsFrom(l, w, h, first, i) ==
      if i >= first then 0 else MipBytes(l, w, h, i) + MipsFrom(l, w, h, first, i + 1)
  {
    hide MipBytes;
  }

  lemma {:induction false} LargeSum(l: Layout)
    requires l == Layout(9, 2)
    requires MipBytes(l, 4096, 4096, 0) == 67108864 && MipBytes(l, 4096, 4096, 1) == 16777216
    requires MipBytes(l, 4096, 4096, 2) == 4194304 && MipBytes(l, 4096, 4096, 3) == 1048576
    requires MipBytes(l, 4096, 4096, 4) == 262144 && MipBytes(l, 4096, 4096, 5) == 65536
    ensures MipsFrom(l, 4096, 4096, 6, 1) == 22347776 && MipsFrom(l, 4096, 4096, 6, 0) == 89456640
  {
    hide MipBytes, MipsFrom;
    NextTerm(l, 4096, 4096, 6, 6);
    NextTerm(l, 4096, 4096, 6, 5);
    NextTerm(l, 4096, 4096, 6, 4);
    NextTerm(l, 4096, 4096, 6, 3);
    NextTerm(l, 4096, 4096, 6, 2);
    NextTerm(l, 4096, 4096, 6, 1);
    NextTerm(l, 4096, 4096, 6, 0);
  }

  /** Seven levels of 64 by 64 elements of 4 bytes in mode 9 are all in the tail, mip 0 at
      element (64, 0) of the one block. */
  lemma {:induction false} TailChain()
    ensures Placed(9, 64, 64, 4, 7)
    ensures PlacementOf(Layout(9, 2), 7, 64, 64) == Placement(true, 64, 0, 0, 65536)
  {
    hide MipExtent, FitsTail, Layout.Width, Layout.Height, FirstInTail, LayoutOf, Pow2;
    Layouts();
    MipZero(64);
    TailInNumbers(Layout(9, 2), 7, 64, 64, 0);
    FirstStep(Layout(9, 2), 7, 64, 64, 0);
    BlockSizes();
  }

  lemma {:induction false} SmallExtents()
    ensures MipExtent(32, 0) == 32 && MipExtent(32, 1) == 16
  {
  }

  lemma {:induction false} SmallBlockMip(l: Layout)
    requires l == Layout(5, 2) && l.Valid() && MipExtent(32, 0) == 32 && MipExtent(32, 1) == 16
    ensures MipBytes(l, 32, 32, 0) == 4096
    ensures !FitsTail(l, 6, 32, 32, 0) && FitsTail(l, 6, 32, 32, 1)
  {
    hide MipExtent, MipBytes, FitsTail, Layout.Width, Layout.Height;
    Layouts();
    TailInNumbers(l, 6, 32, 32, 0);
    TailInNumbers(l, 6, 32, 32, 1);
    MipBytesInNumbers(l, 32, 32, 0);
  }

  /** Six levels of 32 by 32 elements of 4 bytes in mode 5: mip 0 behind the tail block. */
  lemma {:induction false} SmallBlockChain()
    ensures Placed(5, 32, 32, 4, 6)
    ensures PlacementOf(Layout(5, 2), 6, 32, 32) == Placement(false, 0, 0, 4096, 8192)
  {
    hide MipExtent, MipBytes, FitsTail, Layout.Width, Layout.Height, FirstInTail, MipsFrom, LayoutOf, Pow2;
    var l := Layout(5, 2);
    Layouts();
    SmallExtents();
    SmallBlockMip(l);
    FirstStep(l, 6, 32, 32, 0);
    FirstStep(l, 6, 32, 32, 1);
    NextTerm(l, 32, 32, 1, 1);
    NextTerm(l, 32, 32, 1, 0);
    BlockSizes();
  }

  /** A mip of a 64 by 64 byte surface in mode 1, whose blocks are 16 by 16 bytes. */
  lemma {:induction false} ByteMip(i: nat, extent: nat, blocks: nat)
    requires MipExtent(64, i) == extent && i < 7 && blocks * 16 < extent + 16 <= (blocks + 1) * 16
    ensures MipBytes(Layout(1, 0), 64, 64, i) == blocks * blocks * 256
    ensures !FitsTail(Layout(1, 0), 7, 64, 64, i)
  {
    hide MipExtent, MipBytes, FitsTail, Layout.Width, Layout.Height;
    Layouts();
    MipBytesInNumbers(Layout(1, 0), 64, 64, i);
    TailInNumbers(Layout(1, 0), 7, 64, 64, i);
    EuclideanDivision(extent + 15, blocks, extent + 15 - blocks * 16, 16);
  }

  /** Seven levels of 64 by 64 bytes in mode 1: no tail, and mip 0 behind six small mips of
      1024 and five times 256 bytes. */
  lemma {:induction false} NoTailChain()
    ensures Placed(1, 64, 64, 1, 7)
    ensures PlacementOf(Layout(1, 0), 7, 64, 64) == Placement(false, 0, 0, 2304, 6400)
  {
    hide MipExtent, MipBytes, FitsTail, Layout.Width, Layout.Height, FirstInTail, MipsFrom, LayoutOf, Pow2;
    var l := Layout(1, 0);
    ByteExtents();
    Layouts();
    ByteMip(0, 64, 4);
    ByteMip(1, 32, 2);
    ByteMip(2, 16, 1);
    ByteMip(3, 8, 1);
    ByteMip(4, 4, 1);
    ByteMip(5, 2, 1);
    ByteMip(6, 1, 1);
    FirstStep(l, 7, 64, 64, 0);
    FirstStep(l, 7, 64, 64, 1);
    FirstStep(l, 7, 64, 64, 2);
    FirstStep(l, 7, 64, 64, 3);
    FirstStep(l, 7, 64, 64, 4);
    FirstStep(l, 7, 64, 64, 5);
    FirstStep(l, 7, 64, 64, 6);
    FirstStep(l, 7, 64, 64, 7);
    NextTerm(l, 64, 64, 7, 0);
    NextTerm(l, 64, 64, 7, 1);
    NextTerm(l, 64, 64, 7, 2);
    NextTerm(l, 64, 64, 7, 3);
    NextTerm(l, 64, 64, 7, 4);
    NextTerm(l, 64, 64, 7, 5);
    NextTerm(l, 64, 64, 7, 6);
    NextTerm(l, 64, 64, 7, 7);
  }

  lemma {:induction false} ByteExtents()
    ensures MipExtent(64, 0) == 64 && MipExtent(64, 1) == 32 && MipExtent(64, 2) == 16 && MipExtent(64, 3) == 8
    ensures MipExtent(64, 4) == 4 && MipExtent(64, 5) == 2 && MipExtent(64, 6) == 1
  {
  }
}
