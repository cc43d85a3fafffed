/** PM4 command streams: building packets, and patching the handles of flip packets. */
module Pm4 {
  import opened Basics
  import opened Bits

  const IT_NOP: nat := 0x10
  const IT_DMA_DATA: nat := 0x50
  const R_FLIP: nat := 0x17
  const R_DMA_DATA: nat := 0x19

  type Word = w: nat | w < 0x1_0000_0000

  // ---------------------------------------------------------------- headers

  /** The type-3 header; its fields do not overlap, so they are summed. */
  function Header(length_dwords: nat, op: nat, reg: nat): Word {
    0xC000_0000 + (length_dwords + U32_LIMIT - 2) % 0x4000 * 0x1_0000 + op % 0x100 * 0x100 + reg % 0x40 * 4
  }

  method BuildHeader(length_dwords: nat, op: nat, reg: nat) returns (header: Word)
    requires length_dwords < U32_LIMIT && op < U32_LIMIT && reg < U32_LIMIT
    ensures header == Header(length_dwords, op, reg)
  {
    hide And, Or, Shl, Pow2, Header;
    FieldsJoin((length_dwords + U32_LIMIT - 2) % U32_LIMIT, op, reg);
    HeaderFields(length_dwords, op, reg);
    header := Or(Or(Or(0xC000_0000, Shl(And((length_dwords + U32_LIMIT - 2) % U32_LIMIT, 0x3FFF), 16)),
                    Shl(And(op, 0xFF), 8)), Shl(And(reg, 0x3F), 2));
  }

  lemma {:induction false} HeaderFields(length_dwords: nat, op: nat, reg: nat)
    ensures Header(length_dwords, op, reg) ==
      0xC000_0000 + (length_dwords + U32_LIMIT - 2) % U32_LIMIT % 0x4000 * 0x1_0000 + op % 0x100 * 0x100
        + reg % 0x40 * 4
  {
    var x := length_dwords + U32_LIMIT - 2;
    var q, r := x / U32_LIMIT, x % U32_LIMIT;
    var q', r' := r / 0x4000, r % 0x4000;
    EuclideanDivision(x, 0x4_0000 * q + q', r', 0x4000);
  }

  /** The masked and shifted fields do not overlap: joining them is adding them. */
  lemma {:induction false} FieldsJoin(length: nat, op: nat, reg: nat)
    ensures Or(Or(Or(0xC000_0000, Shl(And(length, 0x3FFF), 16)), Shl(And(op, 0xFF), 8)), Shl(And(reg, 0x3F), 2))
         == 0xC000_0000 + length % 0x4000 * 0x1_0000 + op % 0x100 * 0x100 + reg % 0x40 * 4
  {
    hide And, Or, Shl, Pow2;
    var l, o, r := length % 0x4000, op % 0x100, reg % 0x40;
    FieldPowers();
    HalfWordPower();
    TopBits();
    MaskIsRemainder(length, 14);
    MaskIsRemainder(op, 8);
    MaskIsRemainder(reg, 6);
    ShlIsProduct(l, 16);
    ShlIsProduct(o, 8);
    ShlIsProduct(r, 2);
    ShlIsProduct(3, 30);
    ShlIsProduct(0xC000 + l, 16);
    ShlIsProduct(0xC0_0000 + l * 0x100 + o, 8);
    OrJoins(3, Shl(l, 16), 30);
    OrJoins(0xC000 + l, Shl(o, 8), 16);
    OrJoins(0xC0_0000 + l * 0x100 + o, Shl(r, 2), 8);
  }

  lemma {:induction false} TopBits()
    ensures Pow2(30) == 0x4000_0000
  {
    hide Mul;
    FieldPowers();
    HalfWordPower();
    Pow2Add(14, 16);
    MulIsProduct(0x4000, 0x1_0000);
  }

  /** What the walker's masks and shifts read. */
  lemma {:induction false} FieldsRead(header: Word)
    ensures Shr(header, 30) == header / 0x4000_0000 && And(Shr(header, 16), 0x3FFF) + 2 == LengthOf(header)
    ensures And(Shr(header, 8), 0xFF) == OpOf(header) && And(Shr(header, 2), 0x3F) == RegOf(header)
  {
    hide And, Shr, Pow2;
    FieldPowers();
    HalfWordPower();
    TopBits();
    ShrIsQuotient(header, 30);
    ShrIsQuotient(header, 16);
    ShrIsQuotient(header, 8);
    ShrIsQuotient(header, 2);
    MaskIsRemainder(header / 0x1_0000, 14);
    MaskIsRemainder(header / 0x100, 8);
    MaskIsRemainder(header / 4, 6);
  }

  predicate IsPacket(header: Word) {
    header / 0x4000_0000 == 3
  }

  function LengthOf(header: Word): (n: nat)
    ensures 2 <= n <= 0x4001
  {
    header / 0x1_0000 % 0x4000 + 2
  }

  function OpOf(header: Word): nat {
    header / 0x100 % 0x100
  }

  function RegOf(header: Word): nat {
    header / 4 % 0x40
  }

  /** A header reads back as what it was built from. */
  lemma {:induction false} HeaderReadsBack(length: nat, op: nat, reg: nat)
    requires 2 <= length < 0x4002 && op < 0x100 && reg < 0x40
    ensures var h := Header(length, op, reg);
      IsPacket(h) && LengthOf(h) == length && OpOf(h) == op && RegOf(h) == reg
  {
    hide Header, LengthOf, OpOf, RegOf;
    var l := length - 2;
    HeaderIs(length, op, reg);
    ReadReg(l, op, reg);
    ReadOp(l, op, reg);
    ReadLength(l, op, reg);
  }

  lemma {:induction false} HeaderIs(length: nat, op: nat, reg: nat)
    requires 2 <= length < 0x4002 && op < 0x100 && reg < 0x40
    ensures Header(length, op, reg) == 0xC000_0000 + (length - 2) * 0x1_0000 + op * 0x100 + reg * 4
  {
    EuclideanDivision(length + U32_LIMIT - 2, 0x4_0000, length - 2, 0x4000);
    EuclideanDivision(op, 0, op, 0x100);
    EuclideanDivision(reg, 0, reg, 0x40);
  }

  lemma {:induction false} ReadReg(l: nat, op: nat, reg: nat)
    requires l < 0x4000 && op < 0x100 && reg < 0x40
    ensures RegOf(0xC000_0000 + l * 0x1_0000 + op * 0x100 + reg * 4) == reg
  {
    var x := 0x3000_0000 + l * 0x4000 + op * 0x40 + reg;
    EuclideanDivision(0xC000_0000 + l * 0x1_0000 + op * 0x100 + reg * 4, x, 0, 4);
    EuclideanDivision(x, 0xC0_0000 + l * 0x100 + op, reg, 0x40);
  }

  lemma {:induction false} ReadOp(l: nat, op: nat, reg: nat)
    requires l < 0x4000 && op < 0x100 && reg < 0x40
    ensures OpOf(0xC000_0000 + l * 0x1_0000 + op * 0x100 + reg * 4) == op
  {
    var x := 0xC0_0000 + l * 0x100 + op;
    EuclideanDivision(0xC000_0000 + l * 0x1_0000 + op * 0x100 + reg * 4, x, reg * 4, 0x100);
    EuclideanDivision(x, 0xC000 + l, op, 0x100);
  }

  lemma {:induction false} ReadLength(l: nat, op: nat, reg: nat)
    requires l < 0x4000 && op < 0x100 && reg < 0x40
    ensures var h := 0xC000_0000 + l * 0x1_0000 + op * 0x100 + reg * 4; LengthOf(h) == l + 2 && IsPacket(h)
  {
    var h := 0xC000_0000 + l * 0x1_0000 + op * 0x100 + reg * 4;
    EuclideanDivision(h, 0xC000 + l, op * 0x100 + reg * 4, 0x1_0000);
    EuclideanDivision(0xC000 + l, 3, l, 0x4000);
    EuclideanDivision(h, 3, l * 0x1_0000 + op * 0x100 + reg * 4, 0x4000_0000);
  }

  // ---------------------------------------------------------------- packets

  datatype Packet =
    | DmaFill(dst: nat, value: Word, byte_count: Word)
    | DmaCopy(to: nat, from: nat, bytes: Word)
    | Flip(handle: Word, buffer_index: Word, mode: Word, arg: nat)

  function Low(x: nat): Word {
    x % U32_LIMIT
  }

  function High(x: nat): Word {
    x / U32_LIMIT % U32_LIMIT
  }

  function WordsOf(p: Packet): seq<Word> {
    match p
    case DmaFill(dst, value, byte_count) => [Header(7, IT_NOP, R_DMA_DATA), Low(dst), High(dst), value, 0,
      byte_count, 0]
    case DmaCopy(to, from, bytes) => [Header(8, IT_DMA_DATA, 0), 0, 0, bytes, Low(to), High(to), Low(from), High(from)]
    case Flip(handle, buffer_index, mode, arg) => [Header(6, IT_NOP, R_FLIP), handle, buffer_index, mode, Low(arg),
      High(arg)]
  }

  function StreamOf(packets: seq<Packet>): seq<Word> {
    if packets == [] then [] else WordsOf(packets[0]) + StreamOf(packets[1..])
  }

  function Retargeted(p: Packet, handle: Word): Packet {
    if p.Flip? then p.(handle := handle) else p
  }

  function RetargetedAll(packets: seq<Packet>, handle: Word): (r: seq<Packet>)
    ensures |r| == |packets|
  {
    seq(|packets|, i requires 0 <= i < |packets| => Retargeted(packets[i], handle))
  }

  // --------------------------------------------------------------- the walk

  predicate IsFlip(header: Word) {
    OpOf(header) == IT_NOP && RegOf(header) == R_FLIP && LengthOf(header) >= 6
  }

  /** One whole packet, with the handle word of a flip replaced. */
  function PatchedPacket(p: seq<Word>, handle: Word): (r: seq<Word>)
    requires |p| >= 2
    ensures |r| == |p|
  {
    if IsFlip(p[0]) then p[1 := handle] else p
  }

  /** The stream behind the patch: words that are no header are stepped over, packets are
      taken whole, and a packet that does not fit ends the walk. */
  function Patched(s: seq<Word>, handle: Word): (r: seq<Word>)
    ensures |r| == |s|
    decreases |s|
  {
    if s == [] then []
    else if !IsPacket(s[0]) then [s[0]] + Patched(s[1..], handle)
    else
      var n := LengthOf(s[0]);
      if n > |s| then s else PatchedPacket(s[..n], handle) + Patched(s[n..], handle)
  }

  /** The positions the walk stops at, counted from `at`. */
  function Walk(s: seq<Word>, at: nat): seq<nat>
    decreases |s|
  {
    if s == [] then []
    else if !IsPacket(s[0]) then [at] + Walk(s[1..], at + 1)
    else
      var n := LengthOf(s[0]);
      if n > |s| then [at] else [at] + Walk(s[n..], at + n)
  }

  /** On emitted packets the patch replaces the handle of every flip and nothing else,
      whatever the payload words look like. */
  lemma {:induction false} PatchRetargets(packets: seq<Packet>, handle: Word)
    ensures Patched(StreamOf(packets), handle) == StreamOf(RetargetedAll(packets, handle))
  {
    hide WordsOf, PatchedPacket;
    if packets != [] {
      var p, rest := packets[0], StreamOf(packets[1..]);
      var w := WordsOf(p);
      PacketHeader(p);
      assert (w + rest)[..|w|] == w && (w + rest)[|w|..] == rest;
      PatchRetargets(packets[1..], handle);
      PacketPatch(p, handle);
      assert RetargetedAll(packets, handle)[1..] == RetargetedAll(packets[1..], handle);
    }
  }

  /** The 32-bit and the 64-bit number at a byte offset of a packet. */
  function U32At(words: seq<Word>, offset: nat): Word
    requires offset % 4 == 0 && offset / 4 < |words|
  {
    words[offset / 4]
  }

  function U64At(words: seq<Word>, offset: nat): nat
    requires offset % 4 == 0 && offset / 4 + 1 < |words|
  {
    var low: nat, high: nat := words[offset / 4], words[offset / 4 + 1];
    low + 0x1_0000_0000 * high
  }

  /** A fill packet: seven words, the destination at byte 4, the value at 12 and the byte
      count at 20. */
  lemma {:induction false} FillPacket(dst: nat, value: Word, byte_count: Word)
    requires dst < 0x1_0000_0000_0000_0000
    ensures var w := WordsOf(DmaFill(dst, value, byte_count));
      && |w| == 7 && U32At(w, 0) == 0xC005_1064
      && U64At(w, 4) == dst && U32At(w, 12) == value && U32At(w, 20) == byte_count
      && U32At(w, 16) == 0 == U32At(w, 24)
  {
    HeaderWords();
    HalvesJoin(dst);
    hide Header, Low, High;
  }

  /** A copy packet: eight words, the byte count at byte 12, the destination at 16 and the
      source at 24. */
  lemma {:induction false} CopyPacket(to: nat, from: nat, bytes: Word)
    requires to < 0x1_0000_0000_0000_0000 && from < 0x1_0000_0000_0000_0000
    ensures var w := WordsOf(DmaCopy(to, from, bytes));
      && |w| == 8 && U32At(w, 0) == 0xC006_5000
      && U32At(w, 12) == bytes && U64At(w, 16) == to && U64At(w, 24) == from
      && U64At(w, 4) == 0
  {
    HeaderWords();
    HalvesJoin(to);
    HalvesJoin(from);
    hide Header, Low, High;
  }

  /** A flip packet: six words, the handle at byte 4, the buffer index at 8, the mode at 12
      and the argument at 16. */
  lemma {:induction false} FlipPacket(handle: Word, buffer_index: Word, mode: Word, arg: nat)
    requires arg < 0x1_0000_0000_0000_0000
    ensures var w := WordsOf(Flip(handle, buffer_index, mode, arg));
      && |w| == 6 && U32At(w, 0) == 0xC004_105C
      && U32At(w, 4) == handle && U32At(w, 8) == buffer_index && U32At(w, 12) == mode && U64At(w, 16) == arg
  {
    HeaderWords();
    HalvesJoin(arg);
    hide Header, Low, High;
  }

  lemma {:induction false} HeaderWords()
    ensures Header(7, IT_NOP, R_DMA_DATA) == 0xC005_1064
    ensures Header(8, IT_DMA_DATA, 0) == 0xC006_5000
    ensures Header(6, IT_NOP, R_FLIP) == 0xC004_105C
  {
  }

  lemma {:induction false} HalvesJoin(x: nat)
    requires x < 0x1_0000_0000_0000_0000
    ensures Low(x) + 0x1_0000_0000 * High(x) == x
  {
  }

  lemma {:induction false} PacketHeader(p: Packet)
    ensures var w := WordsOf(p); |w| >= 6 && IsPacket(w[0]) && LengthOf(w[0]) == |w|
  {
    hide Header;
    HeaderReadsBack(7, IT_NOP, R_DMA_DATA);
    HeaderReadsBack(8, IT_DMA_DATA, 0);
    HeaderReadsBack(6, IT_NOP, R_FLIP);
  }

  lemma {:induction false} PacketPatch(p: Packet, handle: Word)
    ensures |WordsOf(p)| >= 2 && PatchedPacket(WordsOf(p), handle) == WordsOf(Retargeted(p, handle))
  {
    hide Header;
    HeaderReadsBack(7, IT_NOP, R_DMA_DATA);
    HeaderReadsBack(8, IT_DMA_DATA, 0);
    HeaderReadsBack(6, IT_NOP, R_FLIP);
  }

  lemma {:induction false} WalkStep(s: seq<Word>, at: nat)
    requires s != []
    ensures Walk(s, at) ==
      if !IsPacket(s[0]) then [at] + Walk(s[1..], at + 1)
      else if LengthOf(s[0]) > |s| then [at] else [at] + Walk(s[LengthOf(s[0])..], at + LengthOf(s[0]))
  {
  }

  lemma {:induction false} HeadStays(p: seq<Word>, handle: Word)
    requires |p| >= 2
    ensures PatchedPacket(p, handle)[0] == p[0]
  {
  }

  /** On any stream the patch leaves the walk as it is. */
  lemma {:induction false} PatchKeepsWalk(s: seq<Word>, handle: Word, at: nat)
    ensures Walk(Patched(s, handle), at) == Walk(s, at)
    decreases |s|
  {
    hide Patched, LengthOf, IsPacket, PatchedPacket, Walk;
    var r := Patched(s, handle);
    if s == [] {
      assert r == s;
    } else {
      var n := LengthOf(s[0]);
      WalkStep(s, at);
      WalkStep(r, at);
      if !IsPacket(s[0]) {
        SkipWord(s, handle);
        assert r[0] == r[..1][0];
        PatchKeepsWalk(s[1..], handle, at + 1);
      } else if n <= |s| {
        TakePacket(s, handle);
        HeadStays(s[..n], handle);
        assert r[0] == r[..n][0];
        PatchKeepsWalk(s[n..], handle, at + n);
      } else {
        ShortPacket(s, handle);
      }
    }
  }

  /** The last patch wins: patching h1 and then h2 is patching h2. */
  lemma {:induction false} LastPatchWins(s: seq<Word>, h1: Word, h2: Word)
    ensures Patched(Patched(s, h1), h2) == Patched(s, h2)
    decreases |s|
  {
    var r := Patched(s, h1);
    if s != [] {
      var n := LengthOf(s[0]);
      if !IsPacket(s[0]) {
        assert r[1..] == Patched(s[1..], h1);
        LastPatchWins(s[1..], h1, h2);
      } else if n <= |s| {
        assert r[..n] == PatchedPacket(s[..n], h1) && r[n..] == Patched(s[n..], h1);
        LastPatchWins(s[n..], h1, h2);
      }
    }
  }

  // ---------------------------------------------------------------- the code

  /** The stream being built. */
  class Stream {
    var s: seq<Word>

    constructor ()
      ensures s == []
    {
      s := [];
    }

    method Push(w: Word)
      modifies this
      ensures s == old(s) + [w]
    {
      s := s + [w];
    }

    method EmitDmaFill(dst: nat, value: Word, byte_count: Word)
      requires dst < U64_LIMIT
      modifies this
      ensures s == old(s) + WordsOf(DmaFill(dst, value, byte_count))
    {
      hide Header;
      var header := BuildHeader(7, IT_NOP, R_DMA_DATA);
      Push(header);
      Push(dst % U32_LIMIT);
      Push(dst / U32_LIMIT);
      Push(value);
      Push(0);
      Push(byte_count);
      Push(0);
    }

    method EmitDmaCopy(dst: nat, src: nat, byte_count: Word)
      requires dst < U64_LIMIT && src < U64_LIMIT
      modifies this
      ensures s == old(s) + WordsOf(DmaCopy(dst, src, byte_count))
    {
      hide Header;
      var header := BuildHeader(8, IT_DMA_DATA, 0);
      Push(header);
      Push(0);
      Push(0);
      Push(byte_count);
      Push(dst % U32_LIMIT);
      Push(dst / U32_LIMIT);
      Push(src % U32_LIMIT);
      Push(src / U32_LIMIT);
    }

    method EmitFlip(handle: Word, buffer_index: Word, mode: Word, arg: nat)
      requires arg < U64_LIMIT
      modifies this
      ensures s == old(s) + WordsOf(Flip(handle, buffer_index, mode, arg))
    {
      hide Header;
      var header := BuildHeader(6, IT_NOP, R_FLIP);
      Push(header);
      Push(handle);
      Push(buffer_index);
      Push(mode);
      Push(arg % U32_LIMIT);
      Push(arg / U32_LIMIT);
    }
  }

  /** The 32-bit guard sees every packet that runs past the end: a stream of almost 2^32
      words could hold one whose end wraps to a position inside. */
  ghost predicate EndsAreSeen(s: seq<Word>) {
    forall i :: 0 <= i < |s| && i + LengthOf(s[i]) > |s| ==> Wrap32(i + LengthOf(s[i])) > |s|
  }

  lemma {:induction false} ShortStreams(s: seq<Word>)
    requires |s| + 0x4001 <= U32_LIMIT
    ensures EndsAreSeen(s)
  {
  }

  /** Overwrites the handle word of every flip packet the walk reaches. */
  method PatchFlipHandles(dwords: array<Word>, handle: Word)
    requires dwords.Length < U32_LIMIT && EndsAreSeen(dwords[..])
    modifies dwords
    ensures dwords[..] == Patched(old(dwords[..]), handle)
  {
    hide Patched, LengthOf, PatchedPacket, And, Shr, Wrap32;
    ghost var before := dwords[..];
    var count := dwords.Length;
    var off := 0;
    NothingPatched(before, handle);
    while off < count
      invariant off <= count && Progress(dwords[..], before, handle, off)
      decreases count - off
    {
      ghost var now := dwords[..];
      var header := dwords[off];
      FieldsRead(header);
      if Shr(header, 30) != 3 {
        SkipForward(now, before, handle, off);
        off := off + 1;
        continue;
      }
      var length := And(Shr(header, 16), 0x3FFF) + 2;
      assert header == before[off];
      if length == 0 || Wrap32(off + length) > count {
        StopHere(now, before, handle, off);
        return;
      }
      PatchPacket(dwords, off, length, handle);
      TakeForward(now, before, handle, off, length, dwords[..]);
      off := off + length;
    }
    AllPatched(dwords[..], before, handle);
  }

  /** The packet at `off`: its second word, when it is a flip. */
  method PatchPacket(dwords: array<Word>, off: nat, length: nat, handle: Word)
    requires off + length <= dwords.Length && length >= 2 && length == LengthOf(dwords[off])
    modifies dwords
    ensures dwords[..] == old(dwords[..off]) + PatchedPacket(old(dwords[off..off + length]), handle)
      + old(dwords[off + length..])
  {
    hide LengthOf, OpOf, RegOf, And, Shr;
    FieldsRead(dwords[off]);
    var op, reg := And(Shr(dwords[off], 8), 0xFF), And(Shr(dwords[off], 2), 0x3F);
    if op == IT_NOP && reg == R_FLIP && length >= 6 {
      dwords[off + 1] := handle;
    }
  }

  lemma {:induction false} SkipWord(s: seq<Word>, handle: Word)
    requires s != [] && !IsPacket(s[0])
    ensures Patched(s, handle)[..1] == s[..1] && Patched(s, handle)[1..] == Patched(s[1..], handle)
  {
  }

  lemma {:induction false} ShortPacket(s: seq<Word>, handle: Word)
    requires s != [] && IsPacket(s[0]) && LengthOf(s[0]) > |s|
    ensures Patched(s, handle) == s
  {
  }

  lemma {:induction false} TakePacket(s: seq<Word>, handle: Word)
    requires s != [] && IsPacket(s[0]) && LengthOf(s[0]) <= |s|
    ensures var n := LengthOf(s[0]);
      Patched(s, handle)[..n] == PatchedPacket(s[..n], handle) && Patched(s, handle)[n..] == Patched(s[n..], handle)
  {
  }

  /** The words below `off` are patched, the others untouched, and the walk goes on from there. */
  ghost predicate Progress(now: seq<Word>, before: seq<Word>, handle: Word, off: nat) {
    && off <= |before| == |now|
    && now == Patched(before, handle)[..off] + before[off..]
    && Patched(before, handle)[off..] == Patched(before[off..], handle)
  }

  lemma {:induction false} NothingPatched(before: seq<Word>, handle: Word)
    ensures Progress(before, before, handle, 0)
  {
    hide Patched;
    assert before[0..] == before;
  }

  lemma {:induction false} AllPatched(now: seq<Word>, before: seq<Word>, handle: Word)
    requires Progress(now, before, handle, |before|)
    ensures now == Patched(before, handle)
  {
    hide Patched;
  }

  lemma {:induction false} SkipForward(now: seq<Word>, before: seq<Word>, handle: Word, off: nat)
    requires Progress(now, before, handle, off) && off < |now| && !IsPacket(now[off])
    ensures Progress(now, before, handle, off + 1)
  {
    hide Patched, IsPacket;
    assert now[off] == before[off..][0];
    SkipWord(before[off..], handle);
    Forward(before, handle, off, 1, now);
  }

  lemma {:induction false} TakeForward(now: seq<Word>, before: seq<Word>, handle: Word, off: nat, n: nat,
        now': seq<Word>)
    requires Progress(now, before, handle, off) && off < |now| && IsPacket(now[off]) && n == LengthOf(now[off])
    requires off + n <= |now|
    requires now' == now[..off] + PatchedPacket(now[off..off + n], handle) + now[off + n..]
    ensures Progress(now', before, handle, off + n)
  {
    hide Patched, IsPacket, LengthOf, PatchedPacket;
    assert now[off] == before[off..][0] && now[off..off + n] == before[off..][..n];
    TakePacket(before[off..], handle);
    Forward(before, handle, off, n, now');
  }

  lemma {:induction false} StopHere(now: seq<Word>, before: seq<Word>, handle: Word, off: nat)
    requires Progress(now, before, handle, off) && off < |now| && IsPacket(now[off]) && off + LengthOf(now[off]) > |now|
    ensures now == Patched(before, handle)
  {
    hide Patched, IsPacket, LengthOf;
    assert now[off] == before[off..][0];
    ShortPacket(before[off..], handle);
    assert now == Patched(before, handle)[..off] + Patched(before, handle)[off..];
  }

  /** Patching the next n words in place moves the finished part forward. */
  lemma {:induction false} Forward(before: seq<Word>, handle: Word, off: nat, n: nat, now: seq<Word>)
    requires off + n <= |before| == |now| && Patched(before, handle)[off..] == Patched(before[off..], handle)
    requires now[..off] == Patched(before, handle)[..off] && now[off..off + n] == Patched(before[off..], handle)[..n]
    requires now[off + n..] == before[off + n..]
    requires Patched(before[off..], handle)[n..] == Patched(before[off..][n..], handle)
    ensures Progress(now, before, handle, off + n)
  {
    hide Patched;
    var p := Patched(before, handle);
    assert before[off..][n..] == before[off + n..];
    assert p[off..off + n] == p[off..][..n] && p[off + n..] == p[off..][n..];
    assert p[..off + n] == p[..off] + p[off..off + n];
    assert now == now[..off] + now[off..off + n] + now[off + n..];
  }
}
