/** Where mip 0 lies in a Gfx10 mip chain, which is stored smallest level first. */
module MipChain {
  import opened Basics
  import opened Bits
  import opened Swizzle
  import opened Detile

  datatype Placement = Placement(in_mip_tail: bool, tail_element_x: nat, tail_element_y: nat,
                                 byte_offset: nat, chain_slice_bytes: nat)

  const NO_PLACEMENT := Placement(false, 0, 0, 0, 0)

  // ------------------------------------------------------------ the chain

  function MaxMipsInTail(block_size_log2: nat): nat {
    if block_size_log2 <= 8 then 0
    else if block_size_log2 <= 11 then 1 + Pow2(block_size_log2 - 9)
    else block_size_log2 - 4
  }

  function TailWidth(block_size_log2: nat, block_width: nat): nat {
    if block_size_log2 % 2 != 0 then block_width / 2 else block_width
  }

  function TailHeight(block_size_log2: nat, block_height: nat): nat {
    if block_size_log2 % 2 != 0 then block_height else block_height / 2
  }

  /** An extent of mip i, never below one element. */
  function MipExtent(extent: nat, i: nat): nat {
    if Shr(extent, i) > 1 then Shr(extent, i) else 1
  }

  /** Mip i and every smaller one fit the tail block. */
  predicate FitsTail(l: Layout, levels: nat, w: nat, h: nat, i: nat)
    requires l.Valid() && i <= levels
  {
    && MaxMipsInTail(l.BlockLog()) > 0
    && MipExtent(w, i) <= TailWidth(l.BlockLog(), l.Width())
    && MipExtent(h, i) <= TailHeight(l.BlockLog(), l.Height())
    && levels - i <= MaxMipsInTail(l.BlockLog())
  }

  /** The largest mip of the tail, or the level count when there is no tail. */
  function FirstInTail(l: Layout, levels: nat, w: nat, h: nat, i: nat): (first: nat)
    requires l.Valid() && i <= levels
    ensures i <= first <= levels
    decreases levels - i
  {
    hide Pow2;
    if i == levels || FitsTail(l, levels, w, h, i) then i else FirstInTail(l, levels, w, h, i + 1)
  }

  lemma {:induction false} FirstFits(l: Layout, levels: nat, w: nat, h: nat, i: nat)
    requires l.Valid() && i <= levels
    ensures var first := FirstInTail(l, levels, w, h, i);
      && (first < levels ==> FitsTail(l, levels, w, h, first))
      && (forall j: nat :: i <= j < first ==> !FitsTail(l, levels, w, h, j))
    decreases levels - i
  {
    hide Pow2, MaxMipsInTail, MipExtent;
    if i < levels && !FitsTail(l, levels, w, h, i) {
      FirstFits(l, levels, w, h, i + 1);
    }
  }

  function AlignUp(n: nat, side: nat): nat
    requires side > 0
  {
    Mul(BlocksAlong(n, side), side)
  }

  /** The bytes of mip i, padded to whole blocks on both axes. */
  function MipBytes(l: Layout, w: nat, h: nat, i: nat): nat
    requires l.Valid()
  {
    Mul(Mul(AlignUp(MipExtent(w, i), l.Width()), AlignUp(MipExtent(h, i), l.Height())), l.Bpe())
  }

  /** The bytes of mips i up to but excluding `first`. */
  function MipsFrom(l: Layout, w: nat, h: nat, first: nat, i: nat): nat
    requires l.Valid()
    decreases first - i
  {
    if i >= first then 0 else MipBytes(l, w, h, i) + MipsFrom(l, w, h, first, i + 1)
  }

  /** What the tail block takes at the start of the chain. */
  function TailBytes(l: Layout, levels: nat, first: nat): nat {
    if first < levels then l.BlockBytes() else 0
  }

  /** Where mip i starts: behind the tail block and every smaller mip. */
  function MipStart(l: Layout, levels: nat, w: nat, h: nat, first: nat, i: nat): nat
    requires l.Valid()
  {
    TailBytes(l, levels, first) + MipsFrom(l, w, h, first, i + 1)
  }

  function ChainBytes(l: Layout, levels: nat, w: nat, h: nat, first: nat): nat
    requires l.Valid()
  {
    TailBytes(l, levels, first) + MipsFrom(l, w, h, first, 0)
  }

  function Levels(mip_levels: nat): nat {
    if mip_levels > 16 then 16 else mip_levels
  }

  // ---------------------------------------------------- the place in the tail

  function TailOffset(max_mips_in_tail: nat): nat
    requires max_mips_in_tail > 0
  {
    var m := max_mips_in_tail - 1;
    if m > 6 then Shl(16, m) else Shl(m, 8)
  }

  function DeinterleaveX(offset: nat): nat {
    Or(Or(Or(Or(Or(And(Shr(offset, 9), 1), And(Shr(offset, 10), 2)), And(Shr(offset, 11), 4)),
             And(Shr(offset, 12), 8)), And(Shr(offset, 13), 16)), And(Shr(offset, 14), 32))
  }

  function DeinterleaveY(offset: nat): nat {
    Or(Or(Or(Or(Or(And(Shr(offset, 8), 1), And(Shr(offset, 9), 2)), And(Shr(offset, 10), 4)),
             And(Shr(offset, 11), 8)), And(Shr(offset, 12), 16)), And(Shr(offset, 13), 32))
  }

  /** The tail position in 256-byte micro tiles. */
  function MicroPosition(block_size_log2: nat, bpp_log2: nat, offset: nat): (nat, nat) {
    var x, y := DeinterleaveX(offset), DeinterleaveY(offset);
    if block_size_log2 % 2 == 0 then (x, y)
    else if bpp_log2 % 2 == 0 then (y, x)
    else (y / 2, Or(2 * x, And(y, 1)))
  }

  /** One bit of a power of two, shifted down and masked. */
  lemma {:induction false} PickBit(t: nat, shift: nat, i: nat)
    ensures And(Shr(Pow2(t), shift), Pow2(i)) == if t == shift + i then Pow2(i) else 0
  {
    ShrOfPow2(t, shift);
    if shift <= t {
      AndOfPowers(t - shift, i);
    }
  }

  lemma {:induction false} AndOfPowers(m: nat, n: nat)
    ensures And(Pow2(m), Pow2(n)) == if m == n then Pow2(n) else 0
  {
    if m != 0 && n != 0 {
      AndOfPowers(m - 1, n - 1);
    }
  }

  lemma {:induction false} SmallPowers()
    ensures Pow2(0) == 1 && Pow2(1) == 2 && Pow2(2) == 4 && Pow2(3) == 8 && Pow2(4) == 16 && Pow2(5) == 32
    ensures Pow2(11) == 2048 && Pow2(15) == 32768
  {
  }

  /** A single set offset bit deinterleaves to a single coordinate bit. */
  lemma {:induction false} DeinterleavePower(t: nat)
    requires t == 11 || t == 15
    ensures DeinterleaveX(Pow2(t)) == (if t == 11 then 2 else 8) && DeinterleaveY(Pow2(t)) == 0
  {
    hide And, Shr, Pow2;
    SmallPowers();
    forall i | 0 <= i < 6
      ensures And(Shr(Pow2(t), 9 + i), Pow2(i)) == if t == 9 + 2 * i then Pow2(i) else 0
      ensures And(Shr(Pow2(t), 8 + i), Pow2(i)) == if t == 8 + 2 * i then Pow2(i) else 0
    {
      PickBit(t, 9 + i, i);
      PickBit(t, 8 + i, i);
    }
  }

  /** The tail starts half a block in, on the first row. */
  lemma {:induction false} TailOffsets()
    ensures MaxMipsInTail(8) == 0 && MaxMipsInTail(12) > 0 && MaxMipsInTail(16) > 0
    ensures TailOffset(MaxMipsInTail(12)) == Pow2(11) && TailOffset(MaxMipsInTail(16)) == Pow2(15)
  {
  }

  // -------------------------------------------------------- sizes of the mips

  /** A mip takes exactly what its own tiled surface takes. */
  lemma {:induction false} MipIsASurface(l: Layout, w: nat, h: nat, i: nat)
    requires l.Valid()
    ensures MipBytes(l, w, h, i) == TiledBytes(l, MipExtent(w, i), MipExtent(h, i))
  {
    hide Pow2, Mul, MipExtent, BlocksAlong;
    var W, H := l.Width(), l.Height();
    var bw, bh := BlocksAlong(MipExtent(w, i), W), BlocksAlong(MipExtent(h, i), H);
    BlockSize(l);
    SwapFactors(bw, W, bh, H);
    MulAssociates(Mul(bw, bh), l.Elements(), l.Bpe());
  }

  lemma {:induction false} SwapFactors(a: nat, b: nat, c: nat, d: nat)
    ensures Mul(Mul(a, b), Mul(c, d)) == Mul(Mul(a, c), Mul(b, d))
  {
    hide Mul;
    MulAssociates(a, b, Mul(c, d));
    MulAssociates(b, c, d);
    MulCommutes(b, c);
    MulAssociates(c, b, d);
    MulAssociates(a, c, Mul(b, d));
  }

  /** Every part of the chain starts on a block boundary. */
  lemma {:induction false} StartsAreAligned(l: Layout, levels: nat, w: nat, h: nat, first: nat,
        i: nat) returns (blocks: nat)
    requires l.Valid()
    ensures MipStart(l, levels, w, h, first, i) == Mul(blocks, l.BlockBytes())
    decreases first - i
  {
    hide Pow2, Mul, MipBytes;
    assert Mul(0, l.BlockBytes()) == 0 && Mul(1, l.BlockBytes()) == l.BlockBytes() by {
      MulIsProduct(0, l.BlockBytes());
      MulIsProduct(1, l.BlockBytes());
    }
    if i + 1 >= first {
      blocks := if first < levels then 1 else 0;
    } else {
      var above := StartsAreAligned(l, levels, w, h, first, i + 1);
      MipIsASurface(l, w, h, i + 1);
      var own := Mul(BlocksAlong(MipExtent(w, i + 1), l.Width()), BlocksAlong(MipExtent(h, i + 1), l.Height()));
      MulDistributes(above, own, l.BlockBytes());
      blocks := above + own;
    }
  }

  /** The parts follow one another without a gap, smallest mip first behind the tail block. */
  lemma {:induction false} ChainIsGapFree(l: Layout, levels: nat, w: nat, h: nat, first: nat, i: nat)
    requires l.Valid() && i < first
    ensures i == first - 1 ==> MipStart(l, levels, w, h, first, i) == TailBytes(l, levels, first)
    ensures i > 0 ==>
      MipStart(l, levels, w, h, first, i) + MipBytes(l, w, h, i) == MipStart(l, levels, w, h, first, i - 1)
    ensures i == 0 ==> MipStart(l, levels, w, h, first, i) + MipBytes(l, w, h, i) == ChainBytes(l, levels, w, h, first)
  {
    hide Pow2, Mul, MipBytes;
  }

  /** Byte b of the chain lies in mip i. */
  predicate InMip(l: Layout, levels: nat, w: nat, h: nat, first: nat, i: nat, b: nat)
    requires l.Valid()
  {
    i < first && MipStart(l, levels, w, h, first, i) <= b < MipStart(l, levels, w, h, first, i) + MipBytes(l, w, h, i)
  }

  /** Larger mips lie behind smaller ones. */
  lemma {:induction false} StartsAreOrdered(l: Layout, levels: nat, w: nat, h: nat, first: nat, i: nat, j: nat)
    requires l.Valid() && i < j < first
    ensures MipStart(l, levels, w, h, first, j) + MipBytes(l, w, h, j) <= MipStart(l, levels, w, h, first, i)
    decreases j - i
  {
    hide Pow2, Mul, MipBytes;
    if i + 1 < j {
      StartsAreOrdered(l, levels, w, h, first, i + 1, j);
    }
    ChainIsGapFree(l, levels, w, h, first, i + 1);
  }

  /** A partition: every byte of the slice is in the tail block or in exactly one mip. */
  lemma {:induction false} EveryByteHasOneOwner(l: Layout, levels: nat, w: nat, h: nat, first: nat, b: nat)
    requires l.Valid() && b < ChainBytes(l, levels, w, h, first)
    ensures b < TailBytes(l, levels, first) <==> !exists i :: InMip(l, levels, w, h, first, i, b)
    ensures forall i, j :: InMip(l, levels, w, h, first, i, b) && InMip(l, levels, w, h, first, j, b) ==> i == j
  {
    hide Pow2, Mul, MipBytes, TailBytes, MipsFrom;
    forall i, j | InMip(l, levels, w, h, first, i, b) && InMip(l, levels, w, h, first, j, b) ensures i == j {
      if i < j {
        StartsAreOrdered(l, levels, w, h, first, i, j);
      } else if j < i {
        StartsAreOrdered(l, levels, w, h, first, j, i);
      }
    }
    if b >= TailBytes(l, levels, first) {
      var i := OwnerOf(l, levels, w, h, first, b, 0);
    }
  }

  lemma {:induction false} OwnerOf(l: Layout, levels: nat, w: nat, h: nat, first: nat, b: nat,
        from: nat) returns (i: nat)
    requires l.Valid() && from <= first
    requires TailBytes(l, levels, first) <= b < TailBytes(l, levels, first) + MipsFrom(l, w, h, first, from)
    ensures InMip(l, levels, w, h, first, i, b)
    decreases first - from
  {
    hide Pow2, Mul, MipBytes, TailBytes;
    if b >= MipStart(l, levels, w, h, first, from) {
      i := from;
    } else {
      i := OwnerOf(l, levels, w, h, first, b, from + 1);
    }
  }

  // ------------------------------------------------------------- the code

  /** When the placement is known: everything but a tail mip that overhangs the block. */
  predicate Placed(mode: nat, w: nat, h: nat, bytes_per_element: nat, mip_levels: nat) {
    && mip_levels > 1 && w != 0 && h != 0 && LayoutOf(mode, bytes_per_element).Some?
    && var l := LayoutOf(mode, bytes_per_element).value;
       (FirstInTail(l, Levels(mip_levels), w, h, 0) == 0 ==> l.k <= 8 && w <= l.Width() / 2)
  }

  /** In the tail, mip 0 sits half a block in; otherwise behind everything smaller. */
  function PlacementOf(l: Layout, levels: nat, w: nat, h: nat): Placement
    requires l.Valid()
  {
    var first := FirstInTail(l, levels, w, h, 0);
    if first == 0 then Placement(true, l.Width() / 2, 0, 0, l.BlockBytes())
    else Placement(false, 0, 0, MipStart(l, levels, w, h, first, 0), ChainBytes(l, levels, w, h, first))
  }

  /** Mip 0 is where the placement says, and nothing of it is outside the slice. */
  lemma {:induction false} PlacementHoldsMip0(mode: nat, w: nat, h: nat, bytes_per_element: nat,
        mip_levels: nat) returns (blocks: nat)
    requires Placed(mode, w, h, bytes_per_element, mip_levels)
    ensures var l := LayoutOf(mode, bytes_per_element).value;
      var out := PlacementOf(l, Levels(mip_levels), w, h);
      && (out.in_mip_tail ==>
           && out.tail_element_x + w <= l.Width() && out.tail_element_y + h <= l.Height()
           && out.byte_offset == 0 && out.chain_slice_bytes == l.BlockBytes())
      && (!out.in_mip_tail ==>
           && out.byte_offset == Mul(blocks, l.BlockBytes())
           && out.byte_offset + TiledBytes(l, w, h) == out.chain_slice_bytes)
  {
    hide Pow2, Mul, Log2, Shr, FirstInTail, MaxMipsInTail, MipsFrom, MipBytes, MipExtent;
    var l, levels := LayoutOf(mode, bytes_per_element).value, Levels(mip_levels);
    var first := FirstInTail(l, levels, w, h, 0);
    MipZero(w);
    MipZero(h);
    if first == 0 {
      FirstFits(l, levels, w, h, 0);
      TailOffsets();
      MicroTiles(l);
      blocks := 0;
    } else {
      blocks := StartsAreAligned(l, levels, w, h, first, 0);
      ChainIsGapFree(l, levels, w, h, first, 0);
      MipIsASurface(l, w, h, 0);
    }
  }

  /** What 64-bit arithmetic leaves of the offsets. */
  function Kept(p: Placement): Placement {
    p.(byte_offset := Wrap64(p.byte_offset), chain_slice_bytes := Wrap64(p.chain_slice_bytes))
  }

  /** Succeeds exactly on the placed chains; the placement is the one in whole numbers
      exactly when the slice has less than 2^64 bytes. */
  method GetBaseMipPlacement(swizzle_mode: nat, elements_wide: nat, elements_high: nat, bytes_per_element: nat,
        mip_levels: nat)
      returns (ok: bool, out: Placement)
    requires elements_wide < U32_LIMIT && elements_high < U32_LIMIT && bytes_per_element < U32_LIMIT
    requires mip_levels < U32_LIMIT
    ensures ok <==> Placed(swizzle_mode, elements_wide, elements_high, bytes_per_element, mip_levels)
    ensures !ok ==> out == NO_PLACEMENT
    ensures ok ==>
      (var l := LayoutOf(swizzle_mode, bytes_per_element).value;
       var exact := PlacementOf(l, Levels(mip_levels), elements_wide, elements_high);
       out == Kept(exact) && (out == exact <==> exact.chain_slice_bytes < U64_LIMIT))
  {
    hide Pow2, Mul, Log2, Shr, FirstInTail, MaxMipsInTail, MipsFrom, MipBytes, Wrap64;
    out := NO_PLACEMENT;
    if mip_levels <= 1 || elements_wide == 0 || elements_high == 0 {
      return false, out;
    }
    var found, kind, block_bytes, bpp_log2, block_width, block_height := BlockGeometry(swizzle_mode, bytes_per_element);
    if !found {
      return false, out;
    }
    ghost var l := LayoutOf(swizzle_mode, bytes_per_element).value;
    Log2OfPow2(l.BlockLog());
    var block_size_log2 := BitLog2(block_bytes);
    if block_size_log2 < 8 {
      return false, out;
    }
    var levels := if mip_levels > 16 then 16 else mip_levels;
    var first_mip_in_tail, mip_sizes := WalkChain(l, levels, elements_wide, elements_high, block_size_log2,
      block_width, block_height, bytes_per_element);
    if first_mip_in_tail == 0 {
      FirstFits(l, levels, elements_wide, elements_high, 0);
      SidesAreSmall(l);
      ok, out := PlaceInTail(l, levels, elements_wide, elements_high, block_size_log2, bpp_log2, block_bytes,
        block_width, block_height);
    } else {
      ChainIsGapFree(l, levels, elements_wide, elements_high, first_mip_in_tail, 0);
      out := PlaceInChain(l, levels, elements_wide, elements_high, first_mip_in_tail, mip_sizes, block_bytes);
      ok := true;
    }
  }

  lemma {:induction false} FirstStep(l: Layout, levels: nat, w: nat, h: nat, i: nat)
    requires l.Valid() && i <= levels
    ensures FirstInTail(l, levels, w, h, i) ==
      if i == levels || FitsTail(l, levels, w, h, i) then i else FirstInTail(l, levels, w, h, i + 1)
  {
    hide FitsTail;
  }

  lemma {:induction false} SizeOfMip(l: Layout, w: nat, h: nat, i: nat)
    requires l.Valid()
    ensures var wide, high := MipExtent(w, i), MipExtent(h, i);
      var aligned_width := Mul(Quotient(wide + l.Width() - 1, l.Width()), l.Width());
      var aligned_height := Mul(Quotient(high + l.Height() - 1, l.Height()), l.Height());
      MipBytes(l, w, h, i) == Mul(Mul(aligned_width, aligned_height), l.Bpe())
  {
    hide Pow2, Mul, Quotient, MipExtent;
  }

  /** The largest-first walk: how many mips precede the tail, and their sizes. */
  method WalkChain(ghost l: Layout, levels: nat, elements_wide: nat, elements_high: nat, block_size_log2: nat,
                   block_width: nat, block_height: nat, bytes_per_element: nat)
      returns (first_mip_in_tail: nat, mip_sizes: array<nat>)
    requires l.Valid() && levels <= 16 && block_size_log2 == l.BlockLog()
    requires block_width == l.Width() && block_height == l.Height() && bytes_per_element == l.Bpe()
    ensures first_mip_in_tail == FirstInTail(l, levels, elements_wide, elements_high, 0)
    ensures fresh(mip_sizes) && mip_sizes.Length == 16
    ensures forall i :: 0 <= i < first_mip_in_tail ==>
      mip_sizes[i] == Wrap64(MipBytes(l, elements_wide, elements_high, i))
  {
    hide Pow2, Mul, Quotient, MaxMipsInTail, Shr, MipExtent, Wrap64, MipBytes, FirstInTail;
    var max_mips_in_tail := MaxMipsInTail(block_size_log2);
    var tail_width, tail_height := TailWidth(block_size_log2, block_width), TailHeight(block_size_log2, block_height);
    mip_sizes := new nat[16](_ => 0);
    var i := 0;
    while i < levels
      invariant 0 <= i <= levels
      invariant FirstInTail(l, levels, elements_wide, elements_high, 0)
        == FirstInTail(l, levels, elements_wide, elements_high, i)
      invariant forall j :: 0 <= j < i ==> mip_sizes[j] == Wrap64(MipBytes(l, elements_wide, elements_high, j))
    {
      var mip_width, mip_height := MipExtent(elements_wide, i), MipExtent(elements_high, i);
      FirstStep(l, levels, elements_wide, elements_high, i);
      if max_mips_in_tail > 0 && mip_width <= tail_width && mip_height <= tail_height
        && levels - i <= max_mips_in_tail {
        assert FitsTail(l, levels, elements_wide, elements_high, i);
        return i, mip_sizes;
      }
      var aligned_width := Mul(Quotient(mip_width + block_width - 1, block_width), block_width);
      var aligned_height := Mul(Quotient(mip_height + block_height - 1, block_height), block_height);
      SizeOfMip(l, elements_wide, elements_high, i);
      mip_sizes[i] := Wrap64(Mul(Mul(aligned_width, aligned_height), bytes_per_element));
      i := i + 1;
    }
    FirstStep(l, levels, elements_wide, elements_high, levels);
    return levels, mip_sizes;
  }

  method PlaceInTail(ghost l: Layout, ghost levels: nat, elements_wide: nat, elements_high: nat, block_size_log2: nat,
        bpp_log2: nat,
                     block_bytes: nat, block_width: nat, block_height: nat)
      returns (ok: bool, out: Placement)
    requires l.Valid() && FitsTail(l, levels, elements_wide, elements_high, 0) && elements_wide > 0 && elements_high > 0
    requires block_size_log2 == l.BlockLog() && bpp_log2 == l.k && block_bytes == l.BlockBytes()
    requires block_width == l.Width() && block_height == l.Height()
    ensures ok <==> l.k <= 8 && elements_wide <= l.Width() / 2
    ensures out == if ok then Placement(true, l.Width() / 2, 0, 0, l.BlockBytes()) else NO_PLACEMENT
  {
    hide Pow2, Mul, Log2, Shr, DeinterleaveX, DeinterleaveY, TailOffset, MaxMipsInTail, MipExtent, WideBits,
      NarrowBits;
    out := NO_PLACEMENT;
    var max_mips_in_tail := MaxMipsInTail(block_size_log2);
    TailOffsets();
    MipZero(elements_high);
    var mip_offset := TailOffset(max_mips_in_tail);
    assert mip_offset == Pow2(block_size_log2 - 1);
    var (mip_x, mip_y) := MicroPosition(block_size_log2, bpp_log2, mip_offset);
    DeinterleavePower(block_size_log2 - 1);
    MicroTiles(l);
    MulIsProduct(0, Pow2(NarrowBits(if l.k <= 8 then 8 - l.k else 0)));
    var found, micro_width, micro_height := SquareBlockDimensions(Shr(256, bpp_log2));
    if !found || micro_width == 0 || micro_height == 0 {
      return false, out;
    }
    var tail_x, tail_y := Mul(mip_x, micro_width), Mul(mip_y, micro_height);
    assert tail_x == l.Width() / 2 && tail_y == 0;
    if tail_x + elements_wide > block_width || tail_y + elements_high > block_height {
      return false, out;
    }
    out := Placement(true, tail_x, tail_y, 0, block_bytes);
    return true, out;
  }

  lemma {:induction false} MipZero(extent: nat)
    ensures MipExtent(extent, 0) == if extent > 1 then extent else 1
  {
  }

  /** Half a block is two or eight micro tiles wide. */
  lemma {:induction false} MicroTiles(l: Layout)
    requires l.Valid() && l.mode != 1
    ensures Log2(Shr(256, l.k)) == if l.k <= 8 then 8 - l.k else -1
    ensures l.k <= 8 ==> Mul(if l.BlockLog() == 12 then 2 else 8, Pow2(WideBits(8 - l.k))) == l.Width() / 2
    ensures l.k <= 8 ==> l.Width() / 2 + l.Width() / 2 == l.Width()
  {
    hide Pow2, Mul, Log2, Shr;
    BlockSizes();
    SmallPowers();
    ShrOfPow2(8, l.k);
    NoLogOfZero();
    if l.k <= 8 {
      Log2OfPow2(8 - l.k);
      var half := l.WBits() - 1;
      Pow2Add(if l.BlockLog() == 12 then 1 else 3, WideBits(8 - l.k));
      HalfOfPower(l.WBits());
    }
  }

  lemma {:induction false} HalfOfPower(n: nat)
    requires n > 0
    ensures Pow2(n) / 2 == Pow2(n - 1) && Pow2(n) == 2 * Pow2(n - 1)
  {
  }

  method PlaceInChain(ghost l: Layout, levels: nat, ghost elements_wide: nat, ghost elements_high: nat,
        first_mip_in_tail: nat,
                      mip_sizes: array<nat>, block_bytes: nat)
      returns (out: Placement)
    requires l.Valid() && 0 < first_mip_in_tail <= levels <= 16 == mip_sizes.Length && block_bytes == l.BlockBytes()
    requires forall i :: 0 <= i < first_mip_in_tail ==>
      mip_sizes[i] == Wrap64(MipBytes(l, elements_wide, elements_high, i))
    ensures out == Kept(Placement(false, 0, 0, MipStart(l, levels, elements_wide, elements_high, first_mip_in_tail, 0),
                                  ChainBytes(l, levels, elements_wide, elements_high, first_mip_in_tail)))
  {
    hide Pow2, Mul, MipBytes, Wrap64, MipStart, ChainBytes;
    SidesAreSmall(l);
    var tail := if first_mip_in_tail < levels then block_bytes else 0;
    var offset := BehindSmaller(l, levels, elements_wide, elements_high, first_mip_in_tail, mip_sizes, tail);
    var chain_slice_bytes := WholeSlice(l, levels, elements_wide, elements_high, first_mip_in_tail, mip_sizes, tail);
    out := Placement(false, 0, 0, offset, chain_slice_bytes);
  }

  /** The tail block and every mip but the largest. */
  method BehindSmaller(ghost l: Layout, ghost levels: nat, ghost w: nat, ghost h: nat, first: nat,
        mip_sizes: array<nat>, tail: nat)
      returns (offset: nat)
    requires l.Valid() && 0 < first <= mip_sizes.Length && tail == TailBytes(l, levels, first) < U64_LIMIT
    requires forall i :: 0 <= i < first ==> mip_sizes[i] == Wrap64(MipBytes(l, w, h, i))
    ensures offset == Wrap64(MipStart(l, levels, w, h, first, 0))
  {
    hide Pow2, Mul, MipBytes, Wrap64, TailBytes;
    offset := tail;
    var i := first - 1;
    while i >= 1
      invariant 0 <= i < first
      invariant offset == Wrap64(MipStart(l, levels, w, h, first, i))
    {
      WrapAdd(MipStart(l, levels, w, h, first, i), MipBytes(l, w, h, i));
      offset := Wrap64(offset + mip_sizes[i]);
      i := i - 1;
    }
  }

  /** The tail block and every mip. */
  method WholeSlice(ghost l: Layout, ghost levels: nat, ghost w: nat, ghost h: nat, first: nat, mip_sizes: array<nat>,
        tail: nat)
      returns (chain_slice_bytes: nat)
    requires l.Valid() && first <= mip_sizes.Length && tail == TailBytes(l, levels, first) < U64_LIMIT
    requires forall i :: 0 <= i < first ==> mip_sizes[i] == Wrap64(MipBytes(l, w, h, i))
    ensures chain_slice_bytes == Wrap64(ChainBytes(l, levels, w, h, first))
  {
    hide Pow2, Mul, MipBytes, Wrap64, TailBytes, MipsFrom;
    chain_slice_bytes := tail;
    for j := 0 to first
      invariant chain_slice_bytes == Wrap64(TailBytes(l, levels, first) + MipsUpTo(l, w, h, j))
    {
      WrapAdd(TailBytes(l, levels, first) + MipsUpTo(l, w, h, j), MipBytes(l, w, h, j));
      chain_slice_bytes := Wrap64(chain_slice_bytes + mip_sizes[j]);
    }
    UpToIsFrom(l, w, h, first, 0);
  }

  /** The bytes of the mips in front of n. */
  function MipsUpTo(l: Layout, w: nat, h: nat, n: nat): nat
    requires l.Valid()
  {
    if n == 0 then 0 else MipsUpTo(l, w, h, n - 1) + MipBytes(l, w, h, n - 1)
  }

  lemma {:induction false} UpToIsFrom(l: Layout, w: nat, h: nat, first: nat, i: nat)
    requires l.Valid() && i <= first
    ensures MipsUpTo(l, w, h, i) + MipsFrom(l, w, h, first, i) == MipsUpTo(l, w, h, first)
    decreases first - i
  {
    hide MipBytes;
    if i < first {
      UpToIsFrom(l, w, h, first, i + 1);
    }
  }

  /** Chains of surfaces that image descriptors name stay far below 2^64 bytes. */
  lemma {:induction false} DescriptorChainsFit(mode: nat, w: nat, h: nat, bytes_per_element: nat, levels: nat,
        first: nat)
    requires 0 < w <= MAX_EXTENT && 0 < h <= MAX_EXTENT && bytes_per_element < U32_LIMIT
    requires LayoutOf(mode, bytes_per_element).Some? && first <= levels <= 16
    ensures ChainBytes(LayoutOf(mode, bytes_per_element).value, levels, w, h, first) < U64_LIMIT
  {
    hide Pow2, Mul, Log2, MipBytes, TiledBytes;
    var l := LayoutOf(mode, bytes_per_element).value;
    SidesAreSmall(l);
    forall i: nat ensures MipBytes(l, w, h, i) <= 0x1_0000_0000_0000 {
      MipIsASurface(l, w, h, i);
      ExtentsShrink(w, i);
      ExtentsShrink(h, i);
      DescriptorsFitWords(mode, MipExtent(w, i), MipExtent(h, i), bytes_per_element);
    }
    MipsBounded(l, w, h, first, 0x1_0000_0000_0000, 0);
    assert first * 0x1_0000_0000_0000 <= 16 * 0x1_0000_0000_0000;
  }

  lemma {:induction false} ExtentsShrink(extent: nat, i: nat)
    requires extent > 0
    ensures 0 < MipExtent(extent, i) <= extent
  {
    ShrShrinks(extent, i);
  }

  lemma {:induction false} ShrShrinks(x: nat, n: nat)
    ensures Shr(x, n) <= x
  {
    if n != 0 {
      ShrShrinks(x / 2, n - 1);
    }
  }

  lemma {:induction false} MipsBounded(l: Layout, w: nat, h: nat, first: nat, most: nat, i: nat)
    requires l.Valid() && i <= first && forall j: nat :: MipBytes(l, w, h, j) <= most
    ensures MipsFrom(l, w, h, first, i) <= (first - i) * most
    decreases first - i
  {
    hide MipBytes;
    if i < first {
      MipsBounded(l, w, h, first, most, i + 1);
      assert (first - i) * most == (first - (i + 1)) * most + most;
    }
  }
}
