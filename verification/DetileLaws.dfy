/** What detiling promises: every byte of the image comes from the byte its equation
    names, and detiling undoes tiling in both directions. */
module DetileLaws {
  import opened Bits
  import opened Swizzle
  import opened Detile

  // ---------------------------------------------- the extents in a descriptor

  /** The width: two bits of word 1 below fourteen bits of word 2, plus one. */
  function DescriptorWidth(word1: bv32, word2: bv32): (width: bv32)
    ensures 1 <= width <= 0x1_0000
  {
    (((word1 >> 30) & 0x3) | ((word2 & 0x3FFF) << 2)) + 1
  }

  /** The height: sixteen bits of word 2 from bit 14 up, plus one. */
  function DescriptorHeight(word2: bv32): (height: bv32)
    ensures 1 <= height <= 0x1_0000
  {
    ((word2 >> 14) & 0xFFFF) + 1
  }

  // ------------------------------------------------- the image byte for byte

  /** With a whole tiled surface the skip guard never fires: byte j of element (x, y)
      is byte j of its source. */
  lemma {:induction false} EveryElementIsCopied(l: Layout, w: nat, h: nat, tiled: seq<Byte>, before: seq<Byte>,
        x: nat, y: nat, j: nat)
    requires l.Valid() && x < w && y < h && j < l.Bpe()
    requires TiledBytes(l, w, h) <= |tiled| && Mul(Mul(h, w), l.Bpe()) <= |before|
    ensures RowMajor(RowMajor(y, w, x), l.Bpe(), j) < |before|
    ensures SourceByte(l, w, x, y) + l.Bpe() <= |tiled|
    ensures Detiled(l, w, h, tiled, before)[RowMajor(RowMajor(y, w, x), l.Bpe(), j)]
      == tiled[SourceByte(l, w, x, y) + j]
  {
    hide Pow2, Mul, Quotient, Remainder, TiledBytes, SourceByte, SourceMap;
    var e := RowMajor(y, w, x);
    var p := RowMajor(e, l.Bpe(), j);
    SourceInRange(l, w, h, x, y);
    SourceMapAt(l, w, h, x, y);
    CellInGrid(e, j, l.Bpe(), Mul(h, w));
    DivisionIsUnique(e, j, l.Bpe());
    var q, r := Quotient(p, l.Bpe()), Remainder(p, l.Bpe());
    assert q == e && r == j;
  }

  /** Bytes past the image are never written. */
  lemma {:induction false} NothingElseIsWritten(l: Layout, w: nat, h: nat, tiled: seq<Byte>, before: seq<Byte>, p: nat)
    requires l.Valid() && w > 0 && Mul(Mul(h, w), l.Bpe()) <= p < |before|
    ensures Detiled(l, w, h, tiled, before)[p] == before[p]
  {
    hide Pow2, Mul, Remainder, SourceByte, SourceMap;
    if Quotient(p, l.Bpe()) < Mul(h, w) {
      MultiplesApart(Quotient(p, l.Bpe()), Mul(h, w), l.Bpe());
    }
  }

  // ------------------------------------------------- gathering and scattering

  /** Tiled byte t belongs to element e. */
  ghost predicate Feeds(sources: seq<nat>, size: nat, e: nat, t: nat) {
    e < |sources| && sources[e] <= t < sources[e] + size
  }

  ghost predicate IsFed(sources: seq<nat>, size: nat, t: nat) {
    exists e: nat :: Feeds(sources, size, e, t)
  }

  ghost predicate Disjoint(sources: seq<nat>, size: nat) {
    forall e, e' | 0 <= e < |sources| && 0 <= e' < |sources| && e != e' ::
      sources[e] + size <= sources[e'] || sources[e'] + size <= sources[e]
  }

  ghost predicate InRange(sources: seq<nat>, size: nat, n: nat) {
    forall e | 0 <= e < |sources| :: sources[e] + size <= n
  }

  ghost predicate Covering(sources: seq<nat>, size: nat, n: nat) {
    forall t: nat | t < n :: IsFed(sources, size, t)
  }

  ghost function ScatteredByte(sources: seq<nat>, size: nat, image: seq<Byte>, t: nat): Byte {
    if IsFed(sources, size, t) then
      var e: nat :| Feeds(sources, size, e, t);
      var p := Mul(e, size) + (t - sources[e]);
      if p < |image| then image[p] else 0
    else 0
  }

  /** The tiled buffer that holds an image: each element's bytes at its source, zero elsewhere. */
  ghost function Scattered(sources: seq<nat>, size: nat, image: seq<Byte>, n: nat): (tiled: seq<Byte>)
    ensures |tiled| == n
  {
    seq(n, t requires 0 <= t < n => ScatteredByte(sources, size, image, t))
  }

  lemma {:induction false} ScatteredAt(sources: seq<nat>, size: nat, image: seq<Byte>, n: nat, e: nat, t: nat)
    requires Disjoint(sources, size) && Mul(|sources|, size) <= |image|
    requires Feeds(sources, size, e, t) && t < n
    ensures Mul(e, size) + (t - sources[e]) < |image|
    ensures Scattered(sources, size, image, n)[t] == image[Mul(e, size) + (t - sources[e])]
  {
    hide Mul;
    CellInGrid(e, t - sources[e], size, |sources|);
    assert IsFed(sources, size, t);
  }

  lemma {:induction false} GatherUndoesScatter(sources: seq<nat>, size: nat, image: seq<Byte>, before: seq<Byte>,
        n: nat)
    requires size > 0 && Disjoint(sources, size) && InRange(sources, size, n)
    requires |image| == Mul(|sources|, size) == |before|
    ensures Gathered(sources, size, Scattered(sources, size, image, n), before) == image
  {
    hide Mul, Quotient, Remainder, Scattered, Disjoint;
    forall p | 0 <= p < |image|
      ensures GatheredByte(sources, size, Scattered(sources, size, image, n), before, p) == image[p]
    {
      var e, j := Quotient(p, size), Remainder(p, size);
      QuotientBound(p, size, |sources|);
      ScatteredAt(sources, size, image, n, e, sources[e] + j);
    }
  }

  lemma {:induction false} ScatterUndoesGather(sources: seq<nat>, size: nat, tiled: seq<Byte>, before: seq<Byte>)
    requires size > 0 && Disjoint(sources, size) && InRange(sources, size, |tiled|) && Covering(sources, size, |tiled|)
    requires |before| == Mul(|sources|, size)
    ensures Scattered(sources, size, Gathered(sources, size, tiled, before), |tiled|) == tiled
  {
    hide Mul, Quotient, Remainder, Scattered, Disjoint;
    var image := Gathered(sources, size, tiled, before);
    forall t | 0 <= t < |tiled| ensures Scattered(sources, size, image, |tiled|)[t] == tiled[t] {
      assert IsFed(sources, size, t);
      var e: nat :| Feeds(sources, size, e, t);
      var j := t - sources[e];
      ScatteredAt(sources, size, image, |tiled|, e, t);
      DivisionIsUnique(e, j, size);
      var q, r := Quotient(RowMajor(e, size, j), size), Remainder(RowMajor(e, size, j), size);
      assert q == e && r == j;
    }
  }

  // -------------------------------------------------------- the two directions

  /** Tiling: what a producer of the surface stores for a linear image. */
  ghost function Tiled(l: Layout, w: nat, h: nat, image: seq<Byte>): (tiled: seq<Byte>)
    requires l.Valid() && w > 0
    ensures |tiled| == TiledBytes(l, w, h)
  {
    Scattered(SourceMap(l, w, h), l.Bpe(), image, TiledBytes(l, w, h))
  }

  lemma {:induction false} ElementOfIndex(l: Layout, w: nat, h: nat, e: nat)
    requires l.Valid() && w > 0 && e < Mul(h, w)
    ensures Remainder(e, w) < w && Quotient(e, w) < h
    ensures SourceMap(l, w, h)[e] == SourceByte(l, w, Remainder(e, w), Quotient(e, w))
    ensures e == RowMajor(Quotient(e, w), w, Remainder(e, w))
  {
    hide Mul, SourceByte;
    QuotientBound(e, w, h);
  }

  lemma {:induction false} SourcesAreApart(l: Layout, w: nat, h: nat)
    requires l.Valid() && w > 0
    ensures Disjoint(SourceMap(l, w, h), l.Bpe())
    ensures InRange(SourceMap(l, w, h), l.Bpe(), TiledBytes(l, w, h))
  {
    hide Pow2, Mul, Quotient, Remainder, SourceByte, TiledBytes, SourceMap;
    var sources := SourceMap(l, w, h);
    forall e, e' | 0 <= e < |sources| && 0 <= e' < |sources| && e != e'
      ensures sources[e] + l.Bpe() <= sources[e'] || sources[e'] + l.Bpe() <= sources[e]
    {
      ElementOfIndex(l, w, h, e);
      ElementOfIndex(l, w, h, e');
      SourcesAreDisjoint(l, w, Remainder(e, w), Quotient(e, w), Remainder(e', w), Quotient(e', w));
    }
    forall e | 0 <= e < |sources| ensures sources[e] + l.Bpe() <= TiledBytes(l, w, h) {
      ElementOfIndex(l, w, h, e);
      SourceInRange(l, w, h, Remainder(e, w), Quotient(e, w));
    }
  }

  /** Detiling a tiled image gives the image back: every supported mode, element size
      and extent, every image. */
  lemma {:induction false} DetilingUndoesTiling(l: Layout, w: nat, h: nat, image: seq<Byte>, before: seq<Byte>)
    requires l.Valid() && w > 0 && |image| == |before| == Mul(Mul(h, w), l.Bpe())
    ensures Detiled(l, w, h, Tiled(l, w, h, image), before) == image
  {
    hide Pow2, Mul, SourceByte, TiledBytes, SourceMap, Gathered, Scattered, Disjoint, InRange;
    SourcesAreApart(l, w, h);
    GatherUndoesScatter(SourceMap(l, w, h), l.Bpe(), image, before, TiledBytes(l, w, h));
  }

  // ------------------------------------------------- surfaces of whole blocks

  lemma {:induction false} WholeBlocks(n: nat, side: nat, blocks: nat)
    requires side > 0 && n == Mul(blocks, side)
    ensures BlocksAlong(n, side) == blocks
  {
    hide Mul, Quotient;
    DivisionIsUnique(blocks, side - 1, side);
    assert RowMajor(blocks, side, side - 1) == n + side - 1;
  }

  lemma {:induction false} SidesOf(l: Layout)
    requires l.Valid()
    ensures Pow2(Swizzle.WBits(l.Equation())) == l.Width() && Pow2(Swizzle.HBits(l.Equation())) == l.Height()
  {
    hide Pow2, Mul;
  }

  /** On whole blocks every tiled element is some element's source. */
  lemma {:induction false} EveryElementIsRead(l: Layout, w: nat, h: nat, wide: nat, high: nat,
        s: nat) returns (x: nat, y: nat)
    requires l.Valid() && w == Mul(wide, l.Width()) && h == Mul(high, l.Height())
    requires s < Mul(Mul(wide, high), l.Elements())
    ensures x < w && y < h && SourceElement(l, w, x, y) == s
  {
    hide Pow2, Mul, Quotient, Remainder, InBlock, Layout.Equation, SourceElement, ElementOffset, Layout.Width,
      Layout.Height, Layout.Bpe, Layout.BlockBytes;
    var W, H, n := l.Width(), l.Height(), l.Elements();
    WholeBlocks(w, W, wide);
    BlockSize(l);
    QuotientBound(s, n, Mul(wide, high));
    var block, place := Quotient(s, n), Remainder(s, n);
    MulCommutes(wide, high);
    assert wide > 0 by { MulIsProduct(wide, high); }
    QuotientBound(block, wide, high);
    var blockY, blockX := Quotient(block, wide), Remainder(block, wide);
    var ix, iy := EveryOffsetIsTaken(
      l.Equation(), if l.Exact() then blockX else 0, if l.Exact() then blockY else 0, place);
    x, y := RowMajor(blockX, W, ix), RowMajor(blockY, H, iy);
    SidesOf(l);
    CellInGrid(blockX, ix, W, wide);
    CellInGrid(blockY, iy, H, high);
    DivisionIsUnique(blockX, ix, W);
    DivisionIsUnique(blockY, iy, H);
    ElementIsPlaced(l, x, y);
    SourceIsPlaced(l, w, x, y, blockX, blockY, ix, iy, wide);
  }

  lemma {:induction false} SourceIsPlaced(l: Layout, w: nat, x: nat, y: nat, blockX: nat, blockY: nat, ix: nat,
        iy: nat, wide: nat)
    requires l.Valid() && BlocksAlong(w, l.Width()) == wide
    requires Quotient(x, l.Width()) == blockX && Quotient(y, l.Height()) == blockY
    requires Remainder(x, l.Width()) == ix && Remainder(y, l.Height()) == iy
    ensures SourceElement(l, w, x, y) ==
      RowMajor(RowMajor(blockY, wide, blockX), l.Elements(),
               if l.Exact() then InBlock(l.Equation(), blockX, blockY, ix, iy) else InBlock(l.Equation(), 0, 0, ix, iy))
  {
    hide Pow2, Mul, Quotient, Remainder, InBlock, BlocksAlong;
    ElementIsPlaced(l, x, y);
  }

  lemma {:induction false} SourcesCover(l: Layout, w: nat, h: nat, wide: nat, high: nat)
    requires l.Valid() && w > 0 && w == Mul(wide, l.Width()) && h == Mul(high, l.Height())
    ensures Covering(SourceMap(l, w, h), l.Bpe(), TiledBytes(l, w, h))
  {
    hide Pow2, Mul, Quotient, Remainder, SourceMap, SourceElement;
    var blocks, size := Mul(wide, high), l.Bpe();
    WholeBlocks(w, l.Width(), wide);
    WholeBlocks(h, l.Height(), high);
    BlockSize(l);
    MulAssociates(blocks, l.Elements(), size);
    forall t: nat | t < TiledBytes(l, w, h) ensures IsFed(SourceMap(l, w, h), size, t) {
      QuotientBound(t, size, Mul(blocks, l.Elements()));
      var x, y := EveryElementIsRead(l, w, h, wide, high, Quotient(t, size));
      SourceMapAt(l, w, h, x, y);
      assert Feeds(SourceMap(l, w, h), size, RowMajor(y, w, x), t);
    }
  }

  /** On whole blocks detiling loses nothing: tiling the result gives every byte back. */
  lemma {:induction false} TilingUndoesDetiling(l: Layout, w: nat, h: nat, wide: nat, high: nat, tiled: seq<Byte>,
        before: seq<Byte>)
    requires l.Valid() && w > 0 && w == Mul(wide, l.Width()) && h == Mul(high, l.Height())
    requires |tiled| == TiledBytes(l, w, h) && |before| == Mul(Mul(h, w), l.Bpe())
    ensures Tiled(l, w, h, Detiled(l, w, h, tiled, before)) == tiled
  {
    hide Pow2, Mul, SourceByte, TiledBytes, SourceMap, Gathered, Scattered, Disjoint, InRange, Covering;
    SourcesAreApart(l, w, h);
    SourcesCover(l, w, h, wide, high);
    ScatterUndoesGather(SourceMap(l, w, h), l.Bpe(), tiled, before);
  }
}
