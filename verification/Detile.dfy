/** The Gfx10 detiler: block-tiled texture memory into tightly packed rows. */
module Detile {
  import opened Basics
  import opened Bits
  import opened Swizzle

  type Byte = bv8

  /** Extents come from image descriptors, whose 14+2 and 16 bit fields end here. */
  const MAX_EXTENT: nat := 0x1_0000

  datatype SwizzleKind = Standard | ZOrder

  predicate IsTiledSwizzleMode(mode: nat) {
    mode == 1 || mode == 4 || mode == 5 || mode == 8 || mode == 9 || mode == 24 || mode == 27
  }

  function SwizzleKindAndBlockBytes(mode: nat): Option<(SwizzleKind, nat)> {
    if mode == 0 || (12 <= mode <= 15) || mode > 27 then None
    else
      var kind := if mode == 4 || mode == 8 || mode == 16 || mode == 20 || mode == 24 then ZOrder else Standard;
      var block_bytes :=
        if 1 <= mode <= 3 then 256
        else if 4 <= mode <= 7 then 4096
        else if 20 <= mode <= 23 then 4096
        else 65536;
      Some((kind, block_bytes))
  }

  /** The exact equation of a mode, when its table carries the element size. */
  function ExactXorPattern(mode: nat, bpp_log2: int): Option<Pattern> {
    if bpp_log2 < 0 || bpp_log2 >= 5 then None
    else if mode == 5 then Some(Standard4K(bpp_log2))
    else if mode == 9 then Some(Standard64K(bpp_log2))
    else if mode == 24 then Some(DepthX(bpp_log2))
    else if mode == 27 then Some(RenderX(bpp_log2))
    else None
  }

  // ------------------------------------------------------------ the layout

  /** The squarer split of a block's bits, x taking the extra one. */
  function WideBits(bits: nat): nat {
    (bits + 1) / 2
  }

  function NarrowBits(bits: nat): nat {
    bits - WideBits(bits)
  }

  /** A supported mode with k = log2(bytes per element). */
  datatype Layout = Layout(mode: nat, k: nat) {
    ghost predicate Valid() {
      IsTiledSwizzleMode(mode) && k <= BlockLog()
    }

    function BlockLog(): nat {
      if mode == 1 then 8 else if mode == 4 || mode == 5 then 12 else 16
    }

    function WBits(): nat
      requires k <= BlockLog()
    {
      WideBits(BlockLog() - k)
    }

    function HBits(): nat
      requires k <= BlockLog()
    {
      NarrowBits(BlockLog() - k)
    }

    function Width(): (r: nat)
      requires k <= BlockLog()
      ensures r > 0
    {
      Pow2(WBits())
    }

    function Height(): (r: nat)
      requires k <= BlockLog()
      ensures r > 0
    {
      Pow2(HBits())
    }

    function Bpe(): (r: nat)
      ensures r > 0
    {
      Pow2(k)
    }

    function BlockBytes(): nat {
      Pow2(BlockLog())
    }

    function Elements(): nat
      requires k <= BlockLog()
    {
      Pow2(BlockLog() - k)
    }

    predicate Exact() {
      ExactXorPattern(mode, k).Some?
    }

    function Equation(): (p: Pattern)
      requires k <= BlockLog()
      ensures Tabulated(p)
      ensures IsTiledSwizzleMode(mode) ==> Swizzle.WBits(p) == WBits() && Swizzle.HBits(p) == HBits()
    {
      if Exact() then ExactXorPattern(mode, k).value
      else Interleave(WBits(), HBits(), mode == 1 || mode == 5 || mode == 9 || mode == 27)
    }
  }

  function LayoutOf(mode: nat, bytes_per_element: nat): (r: Option<Layout>)
    ensures r.Some? ==> r.value.Valid() && r.value.mode == mode && r.value.Bpe() == bytes_per_element
  {
    var k := Log2(bytes_per_element);
    if IsTiledSwizzleMode(mode) && 0 <= k <= Layout(mode, 0).BlockLog() then Some(Layout(mode, k)) else None
  }

  /** Whole blocks along one axis. */
  function BlocksAlong(extent: nat, side: nat): nat
    requires side > 0
  {
    Quotient(extent + side - 1, side)
  }

  function TiledBytes(l: Layout, w: nat, h: nat): nat
    requires l.Valid()
  {
    Mul(Mul(BlocksAlong(w, l.Width()), BlocksAlong(h, l.Height())), l.BlockBytes())
  }

  // ----------------------------------------------- where an element is read

  /** The place of an element inside its block, counted in elements. */
  function InBlockElement(l: Layout, x: nat, y: nat): nat
    requires l.Valid()
  {
    if l.Exact() then ElementOffset(l.Equation(), x, y)
    else ElementOffset(l.Equation(), Remainder(x, l.Width()), Remainder(y, l.Height()))
  }

  function BlockIndex(l: Layout, w: nat, x: nat, y: nat): nat
    requires l.Valid()
  {
    RowMajor(Quotient(y, l.Height()), BlocksAlong(w, l.Width()), Quotient(x, l.Width()))
  }

  /** The tiled position of element (x, y) of a surface w elements wide. */
  function SourceElement(l: Layout, w: nat, x: nat, y: nat): nat
    requires l.Valid()
  {
    RowMajor(BlockIndex(l, w, x, y), l.Elements(), InBlockElement(l, x, y))
  }

  function SourceByte(l: Layout, w: nat, x: nat, y: nat): nat
    requires l.Valid()
  {
    Mul(SourceElement(l, w, x, y), l.Bpe())
  }

  lemma {:induction false} BlockSize(l: Layout)
    requires l.Valid()
    ensures Mul(l.Elements(), l.Bpe()) == l.BlockBytes()
    ensures Mul(l.Width(), l.Height()) == l.Elements()
    ensures ElementBits(l.Equation()) == l.BlockLog() - l.k
  {
    Pow2Add(l.BlockLog() - l.k, l.k);
    Pow2Add(l.WBits(), l.HBits());
  }

  /** Inside its block an element is found through the permutation of that block. */
  lemma {:induction false} ElementIsPlaced(l: Layout, x: nat, y: nat)
    requires l.Valid()
    ensures var W, H := l.Width(), l.Height();
      InBlockElement(l, x, y) ==
        if l.Exact() then InBlock(l.Equation(), Quotient(x, W), Quotient(y, H), Remainder(x, W), Remainder(y, H))
        else InBlock(l.Equation(), 0, 0, Remainder(x, W), Remainder(y, H))
    ensures InBlockElement(l, x, y) < l.Elements()
  {
    hide Pow2, Mul, Quotient, Remainder, ElementOffset;
    var W, H := l.Width(), l.Height();
    BlockSize(l);
    assert At(Quotient(x, W), l.WBits(), Remainder(x, W)) == x;
    assert At(Quotient(y, H), l.HBits(), Remainder(y, H)) == y;
    MulIsProduct(0, W);
    MulIsProduct(0, H);
    assert At(0, l.WBits(), Remainder(x, W)) == Remainder(x, W) && At(0, l.HBits(), Remainder(y, H)) == Remainder(y, H);
    OffsetIsElementOffset(l.Equation(), x, y);
    OffsetIsElementOffset(l.Equation(), Remainder(x, W), Remainder(y, H));
  }

  lemma {:induction false} BlocksCover(n: nat, side: nat, x: nat)
    requires side > 0 && x < n
    ensures Quotient(x, side) < BlocksAlong(n, side)
  {
    QuotientBound(x, side, BlocksAlong(n, side));
  }

  lemma {:induction false} BlockInRange(l: Layout, w: nat, h: nat, x: nat, y: nat)
    requires l.Valid() && x < w && y < h
    ensures BlockIndex(l, w, x, y) < Mul(BlocksAlong(w, l.Width()), BlocksAlong(h, l.Height()))
  {
    BlocksCover(w, l.Width(), x);
    BlocksCover(h, l.Height(), y);
    MulCommutes(BlocksAlong(w, l.Width()), BlocksAlong(h, l.Height()));
    CellInGrid(Quotient(y, l.Height()), Quotient(x, l.Width()), BlocksAlong(w, l.Width()), BlocksAlong(h, l.Height()));
  }

  /** Every element of the surface is read inside the tiled surface. */
  lemma {:induction false} SourceInRange(l: Layout, w: nat, h: nat, x: nat, y: nat)
    requires l.Valid() && x < w && y < h
    ensures SourceByte(l, w, x, y) + l.Bpe() <= TiledBytes(l, w, h)
  {
    var blocks := Mul(BlocksAlong(w, l.Width()), BlocksAlong(h, l.Height()));
    BlockInRange(l, w, h, x, y);
    ElementIsPlaced(l, x, y);
    BlockSize(l);
    CellInGrid(BlockIndex(l, w, x, y), InBlockElement(l, x, y), l.Elements(), blocks);
    MultiplesApart(SourceElement(l, w, x, y), Mul(blocks, l.Elements()), l.Bpe());
    MulAssociates(blocks, l.Elements(), l.Bpe());
  }

  /** Two elements read from the same tiled position are the same element. */
  lemma {:induction false} SourcesAreDistinct(l: Layout, w: nat, x: nat, y: nat, x': nat, y': nat)
    requires l.Valid() && x < w && x' < w
    requires SourceElement(l, w, x, y) == SourceElement(l, w, x', y')
    ensures x == x' && y == y'
  {
    var W, H, wide := l.Width(), l.Height(), BlocksAlong(w, l.Width());
    ElementIsPlaced(l, x, y);
    ElementIsPlaced(l, x', y');
    SameCell(BlockIndex(l, w, x, y), InBlockElement(l, x, y), BlockIndex(l, w, x', y'), InBlockElement(l, x', y'),
      l.Elements());
    BlocksCover(w, W, x);
    BlocksCover(w, W, x');
    SameCell(Quotient(y, H), Quotient(x, W), Quotient(y', H), Quotient(x', W), wide);
    var blockX, blockY := if l.Exact() then Quotient(x, W) else 0, if l.Exact() then Quotient(y, H) else 0;
    PlacesAreDistinct(l.Equation(), blockX, blockY, Remainder(x, W), Remainder(y, H), Remainder(x', W),
      Remainder(y', H));
  }

  /** Distinct elements read disjoint byte ranges. */
  lemma {:induction false} SourcesAreDisjoint(l: Layout, w: nat, x: nat, y: nat, x': nat, y': nat)
    requires l.Valid() && x < w && x' < w && (x != x' || y != y')
    ensures SourceByte(l, w, x, y) + l.Bpe() <= SourceByte(l, w, x', y')
         || SourceByte(l, w, x', y') + l.Bpe() <= SourceByte(l, w, x, y)
  {
    var a, b := SourceElement(l, w, x, y), SourceElement(l, w, x', y');
    if a == b {
      SourcesAreDistinct(l, w, x, y, x', y');
    } else if a < b {
      MultiplesApart(a, b, l.Bpe());
    } else {
      MultiplesApart(b, a, l.Bpe());
    }
  }

  // ------------------------------------------------------ the result image

  /** The source byte of every element, row by row. */
  function SourceMap(l: Layout, w: nat, h: nat): (sources: seq<nat>)
    requires l.Valid() && w > 0
    ensures |sources| == Mul(h, w)
  {
    seq(Mul(h, w), e requires 0 <= e < Mul(h, w) => SourceByte(l, w, Remainder(e, w), Quotient(e, w)))
  }

  lemma {:induction false} SourceMapAt(l: Layout, w: nat, h: nat, x: nat, y: nat)
    requires l.Valid() && x < w && y < h
    ensures RowMajor(y, w, x) < Mul(h, w) && SourceMap(l, w, h)[RowMajor(y, w, x)] == SourceByte(l, w, x, y)
  {
    CellInGrid(y, x, w, h);
    DivisionIsUnique(y, x, w);
    var e := RowMajor(y, w, x);
    var x', y' := Remainder(e, w), Quotient(e, w);
    assert x' == x && y' == y;
  }

  /** Byte p of the linear image: copied from the source of its element, or left as
      it was where the tiled buffer is too short for that element. */
  function GatheredByte(sources: seq<nat>, size: nat, tiled: seq<Byte>, before: seq<Byte>, p: nat): Byte
    requires size > 0 && p < |before|
  {
    var e := Quotient(p, size);
    if e < |sources| && sources[e] + size <= |tiled| then tiled[sources[e] + Remainder(p, size)] else before[p]
  }

  function Gathered(sources: seq<nat>, size: nat, tiled: seq<Byte>, before: seq<Byte>): (image: seq<Byte>)
    requires size > 0
    ensures |image| == |before|
  {
    seq(|before|, p requires 0 <= p < |before| => GatheredByte(sources, size, tiled, before, p))
  }

  /** What detiling makes of the linear buffer. */
  function Detiled(l: Layout, w: nat, h: nat, tiled: seq<Byte>, before: seq<Byte>): (image: seq<Byte>)
    requires l.Valid() && w > 0
    ensures |image| == |before|
  {
    Gathered(SourceMap(l, w, h), l.Bpe(), tiled, before)
  }

  /** The image is finished below byte n and untouched from there on. */
  ghost predicate GatheredUpTo(sources: seq<nat>, size: nat, tiled: seq<Byte>, before: seq<Byte>, image: seq<Byte>,
        n: nat)
    requires size > 0
  {
    && |image| == |before|
    && (forall p :: 0 <= p < |image| && p < n ==> image[p] == GatheredByte(sources, size, tiled, before, p))
    && (forall p :: n <= p < |image| ==> image[p] == before[p])
  }

  function Spliced(image: seq<Byte>, at: nat, bytes: seq<Byte>): seq<Byte>
    requires at + |bytes| <= |image|
  {
    image[..at] + bytes + image[at + |bytes|..]
  }

  lemma {:induction false} SplicedAt(image: seq<Byte>, at: nat, bytes: seq<Byte>, p: nat)
    requires at + |bytes| <= |image| && p < |image|
    ensures |Spliced(image, at, bytes)| == |image|
    ensures Spliced(image, at, bytes)[p] == if at <= p < at + |bytes| then bytes[p - at] else image[p]
  {
  }

  /** Copying one element, or skipping one whose source is missing, finishes it. */
  lemma {:induction false} GatherStep(sources: seq<nat>, size: nat, tiled: seq<Byte>, before: seq<Byte>,
        image: seq<Byte>, e: nat, image': seq<Byte>)
    requires size > 0 && e < |sources| && Mul(e, size) + size <= |image|
    requires GatheredUpTo(sources, size, tiled, before, image, Mul(e, size))
    requires image' ==
      if sources[e] + size <= |tiled| then Spliced(image, Mul(e, size), tiled[sources[e]..sources[e] + size]) else image
    ensures GatheredUpTo(sources, size, tiled, before, image', Mul(e + 1, size))
  {
    hide Mul, Quotient, Remainder, Spliced, GatheredByte;
    var n := Mul(e, size);
    MulStep(e, size);
    if sources[e] + size <= |tiled| {
      SplicedAt(image, n, tiled[sources[e]..sources[e] + size], 0);
    }
    forall p: nat | p < |image|
      ensures image'[p] == if n <= p < n + size then GatheredByte(sources, size, tiled, before, p) else image[p]
    {
      if n <= p < n + size {
        ByteOfElement(sources, size, tiled, before, e, p);
      }
      if sources[e] + size <= |tiled| {
        SplicedAt(image, n, tiled[sources[e]..sources[e] + size], p);
      }
    }
  }

  /** What a byte of element e is gathered from. */
  lemma {:induction false} ByteOfElement(sources: seq<nat>, size: nat, tiled: seq<Byte>, before: seq<Byte>, e: nat,
        p: nat)
    requires size > 0 && e < |sources| && p < |before| && Mul(e, size) <= p < Mul(e, size) + size
    ensures GatheredByte(sources, size, tiled, before, p) ==
      if sources[e] + size <= |tiled| then tiled[sources[e] + (p - Mul(e, size))] else before[p]
  {
    hide Mul, Quotient, Remainder;
    DivisionIsUnique(e, p - Mul(e, size), size);
  }

  // ------------------------------------------------------------- the code

  lemma {:induction false} BlockSizes()
    ensures Pow2(8) == 256 && Pow2(12) == 4096 && Pow2(16) == 65536
  {
    assert Pow2(4) == 16;
  }

  /** A supported block holds whole elements up to its own size. */
  lemma {:induction false} BlockHolds(mode: nat, k: nat)
    requires IsTiledSwizzleMode(mode)
    ensures SwizzleKindAndBlockBytes(mode).Some?
    ensures SwizzleKindAndBlockBytes(mode).value.1 == Layout(mode, k).BlockBytes()
    ensures k > Layout(mode, k).BlockLog() ==> Log2(Shr(Layout(mode, k).BlockBytes(), k)) == -1
    ensures k <= Layout(mode, k).BlockLog() ==>
      Log2(Shr(Layout(mode, k).BlockBytes(), k)) == Layout(mode, k).BlockLog() - k
  {
    hide Pow2, Log2, Shr;
    var log := Layout(mode, k).BlockLog();
    BlockSizes();
    ShrOfPow2(log, k);
    if k <= log {
      Log2OfPow2(log - k);
    } else {
      NoLogOfZero();
    }
  }

  lemma {:induction false} NoLogOfZero()
    ensures Log2(0) == -1
  {
  }

  lemma {:induction false} Sides(l: Layout, bits: int)
    requires l.Valid() && bits == l.BlockLog() - l.k
    ensures Pow2(WideBits(bits)) == l.Width() && Pow2(NarrowBits(bits)) == l.Height()
  {
  }

  method BitLog2(v: nat) returns (log: int)
    ensures log == Log2(v)
  {
    if v == 0 {
      return -1;
    }
    ClearingLowestBit(v);
    if And(v, v - 1) != 0 {
      return -1;
    }
    log := 0;
    var rest: nat := v / 2;
    while rest != 0
      invariant rest == 0 ==> Log2(v) == log
      invariant rest != 0 ==> Log2(rest) >= 0 && Log2(v) == log + 1 + Log2(rest)
    {
      log := log + 1;
      rest := rest / 2;
    }
  }

  method SquareBlockDimensions(block_elements: nat) returns (ok: bool, width: nat, height: nat)
    ensures ok <==> Log2(block_elements) >= 0
    ensures ok ==> var bits := Log2(block_elements);
      width == Pow2(WideBits(bits)) && height == Pow2(NarrowBits(bits))
  {
    var total_bits := BitLog2(block_elements);
    if total_bits < 0 {
      return false, 0, 0;
    }
    var width_bits := (total_bits + 1) / 2;
    var height_bits := total_bits - width_bits;
    return true, Pow2(width_bits), Pow2(height_bits);
  }

  /** The checks every entry point starts with. */
  method BlockGeometry(mode: nat, bytes_per_element: nat)
      returns (ok: bool, kind: SwizzleKind, block_bytes: nat, bpp_log2: int, block_width: nat, block_height: nat)
    ensures ok <==> LayoutOf(mode, bytes_per_element).Some?
    ensures ok ==> var l := LayoutOf(mode, bytes_per_element).value;
      && SwizzleKindAndBlockBytes(mode) == Some((kind, block_bytes))
      && block_bytes == l.BlockBytes() && bpp_log2 == l.k
      && block_width == l.Width() && block_height == l.Height()
  {
    kind, block_bytes, bpp_log2, block_width, block_height := Standard, 0, -1, 0, 0;
    var found := SwizzleKindAndBlockBytes(mode);
    if !IsTiledSwizzleMode(mode) || found == None {
      return false, kind, block_bytes, bpp_log2, block_width, block_height;
    }
    kind, block_bytes := found.value.0, found.value.1;
    bpp_log2 := BitLog2(bytes_per_element);
    if bpp_log2 < 0 {
      return false, kind, block_bytes, bpp_log2, block_width, block_height;
    }
    BlockHolds(mode, bpp_log2);
    var block_elements := Shr(block_bytes, bpp_log2);
    ok, block_width, block_height := SquareBlockDimensions(block_elements);
    if ok {
      ghost var l := Layout(mode, bpp_log2);
      Sides(l, Log2(block_elements));
      assert LayoutOf(mode, bytes_per_element) == Some(l);
      assert block_width == l.Width() && block_height == l.Height();
    }
  }

  /** The element offset of place e of a block, counted row by row. */
  ghost function TableEntry(p: Pattern, width: nat, e: nat): nat
    requires Tabulated(p) && width > 0
  {
    ElementOffset(p, Remainder(e, width), Quotient(e, width))
  }

  ghost predicate TableFilled(p: Pattern, width: nat, table: seq<nat>, n: nat)
    requires Tabulated(p) && width > 0
  {
    n <= |table| && forall e :: 0 <= e < n ==> table[e] == TableEntry(p, width, e)
  }

  lemma {:induction false} TableEntryAt(p: Pattern, width: nat, x: nat, y: nat, e: nat)
    requires Tabulated(p) && x < width && e == RowMajor(y, width, x)
    ensures TableEntry(p, width, e) == ElementOffset(p, x, y)
  {
    DivisionIsUnique(y, x, width);
    var x', y' := Remainder(e, width), Quotient(e, width);
    assert x' == x && y' == y;
  }

  method InterleaveOffset(kind: SwizzleKind, x: nat, y: nat, width_bits: nat, height_bits: nat) returns (offset: nat)
    ensures offset == ElementOffset(Interleave(width_bits, height_bits, kind == Standard), x, y)
  {
    if kind == ZOrder {
      offset := MortonInterleave(x, y, width_bits, height_bits);
    } else {
      offset := StandardSwizzleOffset(x, y, width_bits, height_bits);
    }
    OffsetIsElementOffset(Interleave(width_bits, height_bits, kind == Standard), x, y);
    MulIsProduct(offset, 1);
    MulIsProduct(ElementOffset(Interleave(width_bits, height_bits, kind == Standard), x, y), 1);
  }

  /** The interleaved offset of every place of a block, row by row. */
  method BuildBlockTable(kind: SwizzleKind, block_width: nat, block_height: nat) returns (block_table: array<nat>)
    requires Log2(block_width) >= 0 && Log2(block_height) >= 0
    ensures fresh(block_table) && block_table.Length == Mul(block_height, block_width)
    ensures TableFilled(Interleave(Log2(block_width), Log2(block_height), kind == Standard),
                        block_width, block_table[..], block_table.Length)
  {
    var size := Mul(block_height, block_width);
    block_table := new nat[size];
    var width_bits := BitLog2(block_width);
    var height_bits := BitLog2(block_height);
    ghost var p := Interleave(width_bits, height_bits, kind == Standard);
    var filled := 0;
    for y := 0 to block_height
      invariant filled == Mul(y, block_width) && TableFilled(p, block_width, block_table[..], filled)
    {
      for x := 0 to block_width
        invariant filled == RowMajor(y, block_width, x) && TableFilled(p, block_width, block_table[..], filled)
      {
        var offset := InterleaveOffset(kind, x, y, width_bits, height_bits);
        CellInGrid(y, x, block_width, block_height);
        TableEntryAt(p, block_width, x, y, filled);
        block_table[filled] := offset;
        filled := filled + 1;
      }
      MulStep(y, block_width);
    }
  }

  /** Rounding up to whole blocks does not leave 32 bits. */
  predicate RoundsUp(extent: nat, side: nat) {
    extent + side <= U32_LIMIT
  }

  /** A sum that wraps in rounding up leaves less than one block. */
  lemma {:induction false} WrappedBlocks(extent: nat, side: nat)
    requires 0 < extent < U32_LIMIT && 0 < side < U32_LIMIT
    ensures RoundsUp(extent, side) ==> Quotient(Wrap32(extent + side - 1), side) == BlocksAlong(extent, side) > 0
    ensures !RoundsUp(extent, side) ==> Quotient(Wrap32(extent + side - 1), side) == 0
    ensures BlocksAlong(extent, side) > 0
  {
    hide Mul, Quotient, Remainder;
    DivisionIsDivision(extent + side - 1, side);
    BlocksCover(extent, side, 0);
    if !RoundsUp(extent, side) {
      var rest := extent + side - 1 - U32_LIMIT;
      assert Wrap32(extent + side - 1) == rest;
      SmallQuotient(rest, side);
    }
  }

  lemma {:induction false} SmallQuotient(x: nat, d: nat)
    requires x < d
    ensures Quotient(x, d) == 0
  {
  }

  /** The bytes of a tiled surface, which is padded to whole blocks on both axes: the
      result is that number exactly when neither the rounding nor the product wraps. */
  method TiledSurfaceByteCount(swizzle_mode: nat, elements_wide: nat, elements_high: nat, bytes_per_element: nat)
      returns (ok: bool, byte_count: nat)
    requires elements_wide < U32_LIMIT && elements_high < U32_LIMIT && bytes_per_element < U32_LIMIT
    ensures ok <==> elements_wide != 0 && elements_high != 0 && LayoutOf(swizzle_mode, bytes_per_element).Some?
    ensures ok ==>
      (var l := LayoutOf(swizzle_mode, bytes_per_element).value;
       byte_count == TiledBytes(l, elements_wide, elements_high) <==>
         RoundsUp(elements_wide, l.Width()) && RoundsUp(elements_high, l.Height())
           && TiledBytes(l, elements_wide, elements_high) < U64_LIMIT)
    ensures ok ==>
      (var l := LayoutOf(swizzle_mode, bytes_per_element).value;
       !RoundsUp(elements_wide, l.Width()) || !RoundsUp(elements_high, l.Height()) ==> byte_count == 0)
    ensures !ok ==> byte_count == 0
  {
    hide Pow2, Mul, Log2, Shr, Quotient, WideBits, NarrowBits, SwizzleKindAndBlockBytes, IsTiledSwizzleMode,
      BlocksAlong, Wrap32, Wrap64;
    byte_count := 0;
    if elements_wide == 0 || elements_high == 0 {
      return false, byte_count;
    }
    var found, kind, block_bytes, bpp_log2, block_width, block_height := BlockGeometry(swizzle_mode, bytes_per_element);
    if !found {
      return false, byte_count;
    }
    ghost var l := LayoutOf(swizzle_mode, bytes_per_element).value;
    SidesAreSmall(l);
    WrappedBlocks(elements_wide, block_width);
    WrappedBlocks(elements_high, block_height);
    var blocks_wide := Quotient(Wrap32(elements_wide + block_width - 1), block_width);
    var blocks_high := Quotient(Wrap32(elements_high + block_height - 1), block_height);
    NoBlocks(blocks_wide, blocks_high, block_bytes);
    NoBlocks(BlocksAlong(elements_wide, block_width), BlocksAlong(elements_high, block_height), block_bytes);
    byte_count := Wrap64(Mul(Mul(blocks_wide, blocks_high), block_bytes));
    return true, byte_count;
  }

  lemma {:induction false} NoBlocks(wide: nat, high: nat, size: nat)
    requires size > 0
    ensures Mul(Mul(wide, high), size) == 0 <==> wide == 0 || high == 0
  {
    MulIsProduct(wide, high);
    MulIsProduct(Mul(wide, high), size);
  }

  lemma {:induction false} SidesAreSmall(l: Layout)
    requires l.Valid()
    ensures l.Width() <= 0x1_0000 && l.Height() <= 0x1_0000 && 0 < l.BlockBytes() <= 0x1_0000
  {
    hide Pow2;
    HalfWordPower();
    Pow2Monotone(l.WBits(), 16);
    Pow2Monotone(l.HBits(), 16);
    Pow2Monotone(l.BlockLog(), 16);
  }

  /** What the 32- and 64-bit arithmetic of a surface needs: its width rounds up, and its
      tiled and linear byte counts fit. */
  ghost predicate FitsWords(mode: nat, w: nat, h: nat, bytes_per_element: nat) {
    && w < U32_LIMIT && h < U32_LIMIT && bytes_per_element < U32_LIMIT
    && (LayoutOf(mode, bytes_per_element).Some? ==>
        var l := LayoutOf(mode, bytes_per_element).value;
        RoundsUp(w, l.Width()) && TiledBytes(l, w, h) < U64_LIMIT && Mul(Mul(h, w), bytes_per_element) < U64_LIMIT)
  }

  lemma {:induction false} BlocksAtMost(extent: nat, side: nat)
    requires extent > 0 && side > 0
    ensures BlocksAlong(extent, side) <= extent
  {
    hide Mul, Quotient, Remainder;
    var n := extent + 1;
    MulIsProduct(n, side);
    assert extent + side - 1 < n * side by {
      assert n * side == extent * side + side && extent * side >= extent;
    }
    QuotientBound(extent + side - 1, side, n);
  }

  lemma {:induction false} MulBounded(a: nat, b: nat, m: nat, n: nat)
    requires a <= m && b <= n
    ensures Mul(a, b) <= Mul(m, n)
  {
    MulMonotone(a, m, b);
    MulCommutes(m, b);
    MulCommutes(m, n);
    MulMonotone(b, n, m);
  }

  /** Surfaces with extents up to 65536, which image descriptors name, stay far below. */
  lemma {:induction false} DescriptorsFitWords(mode: nat, w: nat, h: nat, bytes_per_element: nat)
    requires w <= MAX_EXTENT && h <= MAX_EXTENT && bytes_per_element < U32_LIMIT
    ensures FitsWords(mode, w, h, bytes_per_element)
    ensures LayoutOf(mode, bytes_per_element).Some? && w > 0 && h > 0 ==>
      TiledBytes(LayoutOf(mode, bytes_per_element).value, w, h) <= 0x1_0000_0000_0000
  {
    hide Pow2, Mul, Quotient, BlocksAlong, Log2;
    var n := MAX_EXTENT;
    MulIsProduct(n, n);
    MulIsProduct(n * n, n);
    if LayoutOf(mode, bytes_per_element).Some? {
      var l := LayoutOf(mode, bytes_per_element).value;
      SidesAreSmall(l);
      HalfWordPower();
      Pow2Monotone(l.k, 16);
      if w == 0 || h == 0 {
        NoSurface(l, w, h);
      } else {
        BlocksAtMost(w, l.Width());
        BlocksAtMost(h, l.Height());
        MulBounded(BlocksAlong(w, l.Width()), BlocksAlong(h, l.Height()), n, n);
        MulBounded(Mul(BlocksAlong(w, l.Width()), BlocksAlong(h, l.Height())), l.BlockBytes(), n * n, n);
      }
      MulBounded(h, w, n, n);
      MulBounded(Mul(h, w), bytes_per_element, n * n, n);
    }
  }

  lemma {:induction false} NoneAlong(side: nat)
    requires side > 0
    ensures BlocksAlong(0, side) == 0
  {
    hide Quotient;
    SmallQuotient(side - 1, side);
  }

  lemma {:induction false} NoSurface(l: Layout, w: nat, h: nat)
    requires l.Valid() && (w == 0 || h == 0)
    ensures TiledBytes(l, w, h) == 0
  {
    hide Pow2, Mul, BlocksAlong, Layout.Width, Layout.Height;
    NoneAlong(l.Width());
    NoneAlong(l.Height());
    SidesAreSmall(l);
    NoBlocks(BlocksAlong(w, l.Width()), BlocksAlong(h, l.Height()), l.BlockBytes());
  }

  // ------------------------------------------------------------ the surface

  /** The byte offset of an exact equation is its element offset in bytes. */
  lemma {:induction false} ExactSource(l: Layout, block: nat, x: nat, y: nat)
    requires l.Valid() && l.Exact()
    ensures Mul(block, l.BlockBytes()) + PatternOffset(l.Equation(), x, y)
         == Mul(RowMajor(block, l.Elements(), ElementOffset(l.Equation(), x, y)), l.Bpe())
  {
    hide Pow2, Mul, ElementOffset, PatternOffset;
    var e := ElementOffset(l.Equation(), x, y);
    OffsetIsElementOffset(l.Equation(), x, y);
    BlockSize(l);
    BytesOfElement(block, l.Elements(), e, l.Bpe());
  }

  lemma {:induction false} BytesOfElement(block: nat, elements: nat, e: nat, size: nat)
    ensures Mul(block, Mul(elements, size)) + Mul(e, size) == Mul(RowMajor(block, elements, e), size)
  {
    MulDistributes(Mul(block, elements), e, size);
    MulAssociates(block, elements, size);
  }

  lemma {:induction false} RowsOfElements(y: nat, width: nat, x: nat, size: nat)
    ensures Mul(Mul(y, width), size) + Mul(x, size) == Mul(RowMajor(y, width, x), size)
  {
    MulDistributes(Mul(y, width), x, size);
  }

  method MemCpy(to: array<Byte>, at: nat, from: array<Byte>, source: nat, size: nat)
    requires to != from && at + size <= to.Length && source + size <= from.Length
    modifies to
    ensures to[..] == Spliced(old(to[..]), at, from[source..source + size])
  {
    forall i | 0 <= i < size {
      to[at + i] := from[source + i];
    }
  }

  /** What the loops read: the equation or table, and the block's measures. */
  datatype Plan = Plan(pattern: Option<Pattern>, block_table: seq<nat>, block_bytes: nat, block_elements: nat,
                       block_width: nat, block_height: nat, blocks_per_row: nat, bytes_per_element: nat)
  {
    ghost predicate For(l: Layout, w: nat)
      requires l.Valid()
    {
      && pattern == ExactXorPattern(l.mode, l.k)
      && block_bytes == l.BlockBytes() && block_elements == l.Elements() && bytes_per_element == l.Bpe()
      && block_width == l.Width() && block_height == l.Height() && blocks_per_row == BlocksAlong(w, l.Width())
      && (pattern == None ==>
            && |block_table| == Mul(block_height, block_width)
            && TableFilled(l.Equation(), block_width, block_table, |block_table|))
    }
  }

  lemma {:induction false} TableHolds(l: Layout, plan: Plan, w: nat, x: nat, y: nat)
    requires l.Valid() && plan.For(l, w) && plan.pattern == None
    ensures var place := RowMajor(Remainder(y, plan.block_height), plan.block_width, Remainder(x, plan.block_width));
      place < |plan.block_table| && plan.block_table[place] == InBlockElement(l, x, y)
  {
    var ix, iy := Remainder(x, plan.block_width), Remainder(y, plan.block_height);
    CellInGrid(iy, ix, plan.block_width, plan.block_height);
    TableEntryAt(l.Equation(), plan.block_width, ix, iy, RowMajor(iy, plan.block_width, ix));
  }

  /** The source expression of the innermost loop body. */
  method SourceOf(ghost l: Layout, plan: Plan, ghost elements_wide: nat, x: nat, y: nat) returns (source_byte: nat)
    requires l.Valid() && plan.For(l, elements_wide)
    ensures source_byte == SourceByte(l, elements_wide, x, y)
  {
    hide Pow2, Mul, PatternOffset, ElementOffset;
    var row_block_base := Mul(Quotient(y, plan.block_height), plan.blocks_per_row);
    var block_index := row_block_base + Quotient(x, plan.block_width);
    if plan.pattern.Some? {
      source_byte := ExactSourceOf(l, plan, elements_wide, x, y, block_index);
    } else {
      source_byte := TableSourceOf(l, plan, elements_wide, x, y, block_index);
    }
  }

  method ExactSourceOf(ghost l: Layout, plan: Plan, ghost elements_wide: nat, x: nat, y: nat,
        block_index: nat) returns (source_byte: nat)
    requires l.Valid() && plan.For(l, elements_wide) && plan.pattern.Some?
    requires block_index == BlockIndex(l, elements_wide, x, y)
    ensures source_byte == SourceByte(l, elements_wide, x, y)
  {
    hide Pow2, Mul, PatternOffset, ElementOffset;
    var offset := ComputePatternOffset(x, y, plan.pattern.value);
    ExactSource(l, block_index, x, y);
    source_byte := Mul(block_index, plan.block_bytes) + offset;
  }

  method TableSourceOf(ghost l: Layout, plan: Plan, ghost elements_wide: nat, x: nat, y: nat,
        block_index: nat) returns (source_byte: nat)
    requires l.Valid() && plan.For(l, elements_wide) && plan.pattern == None
    requires block_index == BlockIndex(l, elements_wide, x, y)
    ensures source_byte == SourceByte(l, elements_wide, x, y)
  {
    var in_block_y := Remainder(y, plan.block_height);
    var in_block_x := Remainder(x, plan.block_width);
    var place := RowMajor(in_block_y, plan.block_width, in_block_x);
    TableHolds(l, plan, elements_wide, x, y);
    source_byte := Mul(RowMajor(block_index, plan.block_elements, plan.block_table[place]), plan.bytes_per_element);
  }

  /** Deswizzles `tiled` into `linear`; false leaves the buffer as it was. */
  method DetileSurface(tiled: array?<Byte>, tiled_size: nat, linear: array?<Byte>, swizzle_mode: nat,
                       elements_wide: nat, elements_high: nat, bytes_per_element: nat) returns (ok: bool)
    requires FitsWords(swizzle_mode, elements_wide, elements_high, bytes_per_element)
    requires tiled == linear ==> tiled == null
    requires tiled != null ==> tiled_size <= tiled.Length
    modifies if linear == null then {} else {linear}
    ensures ok <==>
      && tiled != null && linear != null && elements_wide != 0 && elements_high != 0
      && LayoutOf(swizzle_mode, bytes_per_element).Some?
      && Mul(Mul(elements_high, elements_wide), bytes_per_element) <= linear.Length
    ensures ok ==>
      (var l := LayoutOf(swizzle_mode, bytes_per_element).value;
       linear[..] == Detiled(l, elements_wide, elements_high, tiled[..tiled_size], old(linear[..])))
    ensures !ok && linear != null ==> linear[..] == old(linear[..])
  {
    hide Pow2, Mul, Log2, Shr, Quotient, PatternOffset, ElementOffset, Detiled;
    if tiled == null || linear == null || elements_wide == 0 || elements_high == 0 {
      return false;
    }
    var found, kind, block_bytes, bpp_log2, block_width, block_height := BlockGeometry(swizzle_mode, bytes_per_element);
    if !found {
      return false;
    }
    var blocks_per_row := Quotient(elements_wide + block_width - 1, block_width);
    var required_linear := Mul(Mul(elements_high, elements_wide), bytes_per_element);
    if linear.Length < required_linear {
      return false;
    }
    ghost var l := LayoutOf(swizzle_mode, bytes_per_element).value;
    var pattern := ExactXorPattern(swizzle_mode, bpp_log2);
    var block_table := new nat[0];
    if pattern == None {
      Log2OfPow2(l.WBits());
      Log2OfPow2(l.HBits());
      block_table := BuildBlockTable(kind, block_width, block_height);
    }
    ShrOfPow2(l.BlockLog(), l.k);
    var block_elements := Shr(block_bytes, bpp_log2);
    var plan := Plan(pattern, block_table[..], block_bytes, block_elements, block_width, block_height,
      blocks_per_row, bytes_per_element);
    CopyElements(l, tiled, tiled_size, linear, plan, elements_wide, elements_high);
    return true;
  }

  /** The copying loops of DetileSurface. */
  method CopyElements(ghost l: Layout, tiled: array<Byte>, tiled_size: nat, linear: array<Byte>, plan: Plan,
        elements_wide: nat, elements_high: nat)
    requires l.Valid() && plan.For(l, elements_wide) && elements_wide > 0
    requires tiled != linear && tiled_size <= tiled.Length
    requires Mul(Mul(elements_high, elements_wide), plan.bytes_per_element) <= linear.Length
    modifies linear
    ensures linear[..] == Detiled(l, elements_wide, elements_high, tiled[..tiled_size], old(linear[..]))
  {
    hide Pow2, Mul, Quotient, Remainder, SourceByte, GatheredByte;
    MulIsProduct(0, elements_wide);
    MulIsProduct(0, plan.bytes_per_element);
    ghost var sources, before := SourceMap(l, elements_wide, elements_high), linear[..];
    var y := 0;
    while y < elements_high
      invariant y <= elements_high
      invariant GatheredUpTo(sources, plan.bytes_per_element, tiled[..tiled_size], before, linear[..],
        Mul(Mul(y, elements_wide), plan.bytes_per_element))
    {
      CopyRow(l, sources, before, tiled, tiled_size, linear, plan, elements_wide, elements_high, y);
      y := y + 1;
    }
    GatherDone(sources, plan.bytes_per_element, tiled[..tiled_size], before, linear[..]);
  }

  method CopyRow(ghost l: Layout, ghost sources: seq<nat>, ghost before: seq<Byte>, tiled: array<Byte>, tiled_size: nat,
                 linear: array<Byte>, plan: Plan, elements_wide: nat, ghost elements_high: nat, y: nat)
    requires l.Valid() && plan.For(l, elements_wide) && y < elements_high && elements_wide > 0
    requires sources == SourceMap(l, elements_wide, elements_high)
    requires tiled != linear && tiled_size <= tiled.Length && Mul(|sources|, plan.bytes_per_element) <= linear.Length
    requires GatheredUpTo(sources, plan.bytes_per_element, tiled[..tiled_size], before, linear[..],
      Mul(Mul(y, elements_wide), plan.bytes_per_element))
    modifies linear
    ensures GatheredUpTo(sources, plan.bytes_per_element, tiled[..tiled_size], before, linear[..],
      Mul(Mul(y + 1, elements_wide), plan.bytes_per_element))
  {
    hide Pow2, Mul, SourceByte, SourceMap;
    var size := plan.bytes_per_element;
    var dest_row_base := Mul(Mul(y, elements_wide), size);
    ghost var e := Mul(y, elements_wide);
    var x := 0;
    while x < elements_wide
      invariant x <= elements_wide && e == RowMajor(y, elements_wide, x)
      invariant GatheredUpTo(sources, size, tiled[..tiled_size], before, linear[..], Mul(e, size))
    {
      var source_byte := SourceOf(l, plan, elements_wide, x, y);
      var dest_byte := dest_row_base + Mul(x, size);
      RowsOfElements(y, elements_wide, x, size);
      SourceMapAt(l, elements_wide, elements_high, x, y);
      CopyElement(sources, before, e, tiled, tiled_size, linear, size, source_byte, dest_byte);
      e := e + 1;
      x := x + 1;
    }
    MulStep(y, elements_wide);
  }

  method CopyElement(ghost sources: seq<nat>, ghost before: seq<Byte>, ghost e: nat, tiled: array<Byte>,
        tiled_size: nat,
                     linear: array<Byte>, bytes_per_element: nat, source_byte: nat, dest_byte: nat)
    requires bytes_per_element > 0 && e < |sources| && tiled != linear && tiled_size <= tiled.Length
    requires Mul(|sources|, bytes_per_element) <= linear.Length
    requires source_byte == sources[e] && dest_byte == Mul(e, bytes_per_element)
    requires GatheredUpTo(sources, bytes_per_element, tiled[..tiled_size], before, linear[..], dest_byte)
    modifies linear
    ensures GatheredUpTo(sources, bytes_per_element, tiled[..tiled_size], before, linear[..],
      Mul(e + 1, bytes_per_element))
  {
    MultiplesApart(e, |sources|, bytes_per_element);
    ghost var image := linear[..];
    if !(source_byte + bytes_per_element > tiled_size || dest_byte + bytes_per_element > linear.Length) {
      MemCpy(linear, dest_byte, tiled, source_byte, bytes_per_element);
      assert tiled[..tiled_size][source_byte..source_byte + bytes_per_element]
        == tiled[source_byte..source_byte + bytes_per_element];
    }
    GatherStep(sources, bytes_per_element, tiled[..tiled_size], before, image, e, linear[..]);
  }

  lemma {:induction false} GatherDone(sources: seq<nat>, size: nat, tiled: seq<Byte>, before: seq<Byte>,
        image: seq<Byte>)
    requires size > 0 && GatheredUpTo(sources, size, tiled, before, image, Mul(|sources|, size))
    ensures image == Gathered(sources, size, tiled, before)
  {
    forall p | Mul(|sources|, size) <= p < |image| ensures image[p] == GatheredByte(sources, size, tiled, before, p) {
      if Quotient(p, size) < |sources| {
        MultiplesApart(Quotient(p, size), |sources|, size);
      }
    }
  }
}