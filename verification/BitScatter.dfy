/** Parallel bit deposit and extract, and the bit-counting loops beside them. Words are
    naturals below 2^64; the operand size says how many of their bits take part. */
module BitScatter {
  import opened Basics
  import opened Bits

  function Width(operand_size: nat): nat {
    if operand_size == 32 then 32 else 64
  }

  predicate On(x: nat, i: nat) {
    Bit(x, i) == 1
  }

  // ------------------------------------------------------- reference form

  /** How many mask bits below n are set. */
  function Rank(mask: nat, n: nat): (r: nat)
    ensures r <= n
  {
    if n == 0 then 0 else Rank(mask, n - 1) + (if On(mask, n - 1) then 1 else 0)
  }

  /** Position i takes the next source bit when the mask has bit i, and nothing otherwise. */
  function Deposited(src: nat, mask: nat, n: nat): (bits: seq<bool>)
    ensures |bits| == n
  {
    seq(n, i requires 0 <= i < n => On(mask, i) && On(src, Rank(mask, i)))
  }

  /** The source bits under the mask, moved together. */
  function Extracted(src: nat, mask: nat, n: nat): (bits: seq<bool>)
    ensures |bits| == Rank(mask, n)
  {
    if n == 0 then [] else Extracted(src, mask, n - 1) + (if On(mask, n - 1) then [On(src, n - 1)] else [])
  }

  function Pdep(src: nat, mask: nat, w: nat): nat {
    FromBits(Deposited(src, mask, w))
  }

  function Pext(src: nat, mask: nat, w: nat): nat {
    FromBits(Extracted(src, mask, w))
  }

  /** The low n bits of a word. */
  function LowBits(x: nat, n: nat): (bits: seq<bool>)
    ensures |bits| == n
  {
    seq(n, i requires 0 <= i < n => On(x, i))
  }

  // --------------------------------------------------------------- words

  lemma {:induction false} BitOfFromBits(bits: seq<bool>, i: nat)
    ensures On(FromBits(bits), i) <==> i < |bits| && bits[i]
  {
    hide Pow2;
    if bits == [] {
      BitOfZero(i);
    } else if i > 0 {
      BitOfFromBits(bits[1..], i - 1);
    }
  }

  lemma {:induction false} BitOfZero(i: nat)
    ensures Bit(0, i) == 0
  {
    if i > 0 {
      BitOfZero(i - 1);
    }
  }

  /** A word is the number its bits make. */
  lemma {:induction false} LowBitsAreRemainder(x: nat, n: nat)
    ensures FromBits(LowBits(x, n)) == x % Pow2(n)
  {
    if n != 0 {
      var rest := LowBits(x / 2, n - 1);
      forall i | 0 <= i < n - 1 ensures LowBits(x, n)[1..][i] == rest[i] {
      }
      assert LowBits(x, n)[1..] == rest;
      LowBitsAreRemainder(x / 2, n - 1);
      HalfRemainder(x, Pow2(n - 1));
    }
  }

  lemma {:induction false} AndBit(x: nat, i: nat)
    ensures And(x, Pow2(i)) != 0 <==> On(x, i)
  {
    if i == 0 {
      assert And(x / 2, 0) == 0;
    } else if x != 0 {
      AndBit(x / 2, i - 1);
    } else {
      BitOfZero(i);
    }
  }

  lemma {:induction false} BitOfAnd(x: nat, y: nat, i: nat)
    ensures On(And(x, y), i) <==> On(x, i) && On(y, i)
  {
    if x == 0 || y == 0 {
      BitOfZero(i);
    } else if i > 0 {
      BitOfAnd(x / 2, y / 2, i - 1);
    }
  }

  // ----------------------------------------------------------- the two laws

  /** The bit extracted from position i ends up at the rank of i. */
  lemma {:induction false} ExtractedAt(src: nat, mask: nat, n: nat, i: nat)
    requires i < n && On(mask, i)
    ensures Rank(mask, i) < Rank(mask, n) && Extracted(src, mask, n)[Rank(mask, i)] == On(src, i)
  {
    if i < n - 1 {
      ExtractedAt(src, mask, n - 1, i);
    }
  }

  lemma {:induction false} RankMonotone(mask: nat, i: nat, n: nat)
    requires i <= n
    ensures Rank(mask, i) <= Rank(mask, n)
  {
    if i < n {
      RankMonotone(mask, i, n - 1);
    }
  }

  /** Extracting from a deposited word under the same mask. */
  lemma {:induction false} ExtractOfDeposit(src: nat, mask: nat, w: nat, n: nat)
    requires n <= w
    ensures Extracted(Pdep(src, mask, w), mask, n) == LowBits(src, Rank(mask, n))
  {
    hide FromBits, Bit;
    if n != 0 {
      ExtractOfDeposit(src, mask, w, n - 1);
      BitOfFromBits(Deposited(src, mask, w), n - 1);
      if On(mask, n - 1) {
        assert LowBits(src, Rank(mask, n)) == LowBits(src, Rank(mask, n - 1)) + [On(src, Rank(mask, n - 1))];
      }
    }
  }

  /** pext(pdep(s, m), m) keeps the low popcount(m) bits of s. */
  lemma {:induction false} PextOfPdep(src: nat, mask: nat, w: nat)
    ensures Pext(Pdep(src, mask, w), mask, w) == src % Pow2(Rank(mask, w))
  {
    hide Pow2, FromBits;
    ExtractOfDeposit(src, mask, w, w);
    LowBitsAreRemainder(src, Rank(mask, w));
  }

  /** pdep(pext(s, m), m) is s & m over the active bits. */
  lemma {:induction false} PdepOfPext(src: nat, mask: nat, w: nat)
    ensures Pdep(Pext(src, mask, w), mask, w) == And(src, mask) % Pow2(w)
  {
    hide Pow2, FromBits, Bit, And;
    var extracted := Extracted(src, mask, w);
    var deposited := Deposited(Pext(src, mask, w), mask, w);
    forall i | 0 <= i < w ensures deposited[i] == LowBits(And(src, mask), w)[i] {
      BitOfAnd(src, mask, i);
      BitOfFromBits(extracted, Rank(mask, i));
      if On(mask, i) {
        ExtractedAt(src, mask, w, i);
      }
    }
    assert deposited == LowBits(And(src, mask), w);
    LowBitsAreRemainder(And(src, mask), w);
  }

  /** The rank over the whole width is the number of one bits the width holds. */
  lemma {:induction false} RankIsPopCount(mask: nat, w: nat)
    ensures Rank(mask, w) == PopCount(mask % Pow2(w))
  {
    hide Pow2;
    LowBitsAreRemainder(mask, w);
    RankCounts(mask, w);
  }

  lemma {:induction false} RankCounts(mask: nat, w: nat)
    ensures Rank(mask, w) == PopCount(FromBits(LowBits(mask, w)))
  {
    if w != 0 {
      var rest := LowBits(mask / 2, w - 1);
      assert LowBits(mask, w)[1..] == rest;
      RankCounts(mask / 2, w - 1);
      RankShift(mask, w);
    }
  }

  lemma {:induction false} RankShift(mask: nat, w: nat)
    requires w > 0
    ensures Rank(mask, w) == mask % 2 + Rank(mask / 2, w - 1)
  {
    if w > 1 {
      RankShift(mask, w - 1);
    }
  }

  /** Words that agree on the active bits give the same results: the 32-bit forms ignore
      the high halves of both inputs. */
  lemma {:induction false} OnlyActiveBits(src: nat, mask: nat, src': nat, mask': nat, w: nat)
    requires forall i :: 0 <= i < w ==> On(src, i) == On(src', i) && On(mask, i) == On(mask', i)
    ensures Pdep(src, mask, w) == Pdep(src', mask', w) && Pext(src, mask, w) == Pext(src', mask', w)
  {
    hide FromBits, Bit, On;
    SameRanks(src, mask, src', mask', w, w);
    forall i | 0 <= i < w ensures Deposited(src, mask, w)[i] == Deposited(src', mask', w)[i] {
      SameRanks(src, mask, src', mask', w, i);
    }
    assert Deposited(src, mask, w) == Deposited(src', mask', w);
  }

  lemma {:induction false} SameRanks(src: nat, mask: nat, src': nat, mask': nat, w: nat, n: nat)
    requires forall i :: 0 <= i < w ==> On(src, i) == On(src', i) && On(mask, i) == On(mask', i)
    requires n <= w
    ensures Rank(mask, n) == Rank(mask', n) && Extracted(src, mask, n) == Extracted(src', mask', n)
  {
    hide On;
    if n != 0 {
      SameRanks(src, mask, src', mask', w, n - 1);
    }
  }

  // ------------------------------------------------------------- the loops

  method EmulatePdep(src: nat, mask: nat, operand_size: nat) returns (result: nat)
    requires src < U64_LIMIT && mask < U64_LIMIT
    ensures result == Pdep(src, mask, Width(operand_size))
  {
    hide FromBits, Pow2, Shl, Or, And, Bit, On;
    result := 0;
    var src_mask := 1;
    var max_bits := if operand_size == 32 then 32 else 64;
    EmptyWord();
    PowersBelow64(0);
    for i := 0 to max_bits
      invariant result == FromBits(Deposited(src, mask, i))
      invariant Rank(mask, i) < 64 ==> src_mask == Pow2(Rank(mask, i))
    {
      AndBit(src, Rank(mask, i));
      FromBitsAppend(Deposited(src, mask, i), if On(mask, i) && On(src, Rank(mask, i)) then 1 else 0);
      assert Deposited(src, mask, i + 1) == Deposited(src, mask, i) + [On(mask, i) && On(src, Rank(mask, i))];
      OrZero(result, i);
      if On(mask, i) {
        if And(src, src_mask) != 0 {
          result := Or(result, Shl(1, i));
        }
        PowersBelow64(Rank(mask, i));
        src_mask := src_mask * 2 % U64_LIMIT;
      }
    }
  }

  method EmulatePext(src: nat, mask: nat, operand_size: nat) returns (result: nat)
    requires src < U64_LIMIT && mask < U64_LIMIT
    ensures result == Pext(src, mask, Width(operand_size))
  {
    hide FromBits, Pow2, Shl, Or, And, Bit, On;
    result := 0;
    var dst_bit := 1;
    var max_bits := if operand_size == 32 then 32 else 64;
    EmptyWord();
    PowersBelow64(0);
    for i := 0 to max_bits
      invariant result == FromBits(Extracted(src, mask, i))
      invariant Rank(mask, i) < 64 ==> dst_bit == Pow2(Rank(mask, i))
    {
      var bits := Extracted(src, mask, i);
      FromBitsAppend(bits, if On(src, i) then 1 else 0);
      OrZero(result, Rank(mask, i));
      ShlOfOne(Rank(mask, i));
      if On(mask, i) {
        assert Extracted(src, mask, i + 1) == bits + [On(src, i)];
        if On(src, i) {
          result := Or(result, dst_bit);
        }
        PowersBelow64(Rank(mask, i));
        dst_bit := dst_bit * 2 % U64_LIMIT;
      } else {
        assert Extracted(src, mask, i + 1) == bits;
      }
    }
  }

  lemma {:induction false} EmptyWord()
    ensures FromBits([]) == 0
  {
  }

  lemma {:induction false} OrZero(x: nat, n: nat)
    ensures Or(x, Shl(0, n)) == x
  {
    ShlOfOne(n);
  }

  lemma {:induction false} PowersBelow64(k: nat)
    ensures Pow2(0) == 1
    ensures k < 63 ==> Pow2(k) * 2 % U64_LIMIT == Pow2(k + 1)
  {
    if k < 63 {
      Pow2Monotone(k + 1, 63);
      TopPower();
    }
  }

  lemma {:induction false} TopPower()
    ensures Pow2(63) == 0x8000_0000_0000_0000
  {
    hide Mul;
    WordPowers();
    assert Pow2(64) == 2 * Pow2(63);
  }

  /** The number of zero bits below the lowest one bit. */
  method EmulateTzcnt(src: nat, operand_size: nat) returns (count: nat)
    requires src < U64_LIMIT
    ensures count <= Width(operand_size)
    ensures forall i :: 0 <= i < count ==> !On(src, i)
    ensures count < Width(operand_size) ==> On(src, count)
  {
    hide Pow2, Bit, Shr;
    var max_bits := if operand_size == 32 then 32 else 64;
    ghost var w := Width(operand_size);
    var val := if operand_size == 32 then src % 0x1_0000_0000 else src;
    ActiveBits(src, w);
    if val == 0 {
      forall i: nat | i < w ensures !On(src, i) {
        BitOfZero(i);
      }
      return max_bits;
    }
    count := 0;
    ghost var start := val;
    NoShift(start);
    while val % 2 == 0
      invariant val > 0 && val == Shr(start, count) && count < w
      invariant forall i :: 0 <= i < count ==> !On(start, i)
      decreases val
    {
      LowBit(start, count, val);
      ShrStep(start, count);
      count := count + 1;
      val := val / 2;
      Reaches(start, w, count, val);
    }
    LowBit(start, count, val);
  }

  lemma {:induction false} NoShift(x: nat)
    ensures Shr(x, 0) == x
  {
  }

  lemma {:induction false} ShrStep(x: nat, n: nat)
    ensures Shr(x, n + 1) == Shr(x, n) / 2
  {
    if n != 0 {
      ShrStep(x / 2, n - 1);
    }
  }

  /** The low bit of a shifted word. */
  lemma {:induction false} LowBit(x: nat, n: nat, shifted: nat)
    requires shifted == Shr(x, n)
    ensures On(x, n) <==> shifted % 2 == 1
  {
    BitOfShr(x, n, 0);
  }

  /** What is left of a word below 2^w was shifted by less than w. */
  lemma {:induction false} Reaches(x: nat, w: nat, n: nat, shifted: nat)
    requires x < Pow2(w) && shifted == Shr(x, n) && shifted > 0
    ensures n < w
  {
    hide Pow2, Shr;
    var b := HighestBit(shifted);
    BitOfShr(x, n, b);
    BitsBelow(x, w, n + b);
  }

  /** The number of zero bits above the highest one bit. */
  method EmulateLzcnt(src: nat, operand_size: nat) returns (count: nat)
    requires src < U64_LIMIT
    ensures count <= Width(operand_size)
    ensures forall i :: Width(operand_size) - count <= i < Width(operand_size) ==> !On(src, i)
    ensures count < Width(operand_size) ==> On(src, Width(operand_size) - 1 - count)
  {
    hide Pow2, Bit, And;
    var max_bits := if operand_size == 32 then 32 else 64;
    ghost var w := Width(operand_size);
    var val := if operand_size == 32 then src % 0x1_0000_0000 else src;
    ActiveBits(src, w);
    if val == 0 {
      forall i: nat | i < w ensures !On(src, i) {
        BitOfZero(i);
      }
      return max_bits;
    }
    count := 0;
    var mask := Pow2(max_bits - 1);
    ghost var top := HighestBit(val);
    BitsBelow(val, w, top);
    AndBit(val, w - 1);
    while And(val, mask) == 0
      invariant top <= w - 1 - count && mask == Pow2(w - 1 - count)
      invariant And(val, mask) != 0 <==> On(val, w - 1 - count)
      invariant forall i :: w - count <= i < w ==> !On(val, i)
      decreases w - count
    {
      HalfPower(w - 1 - count);
      count := count + 1;
      mask := mask / 2;
      AndBit(val, w - 1 - count);
    }
  }

  lemma {:induction false} HalfPower(n: nat)
    requires n > 0
    ensures Pow2(n) / 2 == Pow2(n - 1)
  {
  }

  ghost function HighestBit(x: nat): (b: nat)
    requires x > 0
    ensures On(x, b)
  {
    if x == 1 then 0 else HighestBit(x / 2) + 1
  }

  lemma {:induction false} SomeBit(x: nat)
    requires x > 0
    ensures On(x, HighestBit(x))
  {
  }

  /** A word below 2^w has no bit from w up. */
  lemma {:induction false} BitsBelow(x: nat, w: nat, i: nat)
    requires x < Pow2(w) && On(x, i)
    ensures i < w
  {
    if w == 0 {
      BitOfZero(i);
    } else if i > 0 {
      BitsBelow(x / 2, w - 1, i - 1);
    }
  }

  /** The masked value has the bits of the source below the width, and no others. */
  lemma {:induction false} ActiveBits(src: nat, w: nat)
    requires src < U64_LIMIT && (w == 32 || w == 64)
    ensures var val := if w == 32 then src % 0x1_0000_0000 else src;
      val < Pow2(w) && forall i: nat :: i < w ==> (On(val, i) <==> On(src, i))
  {
    WordPowers();
    if w == 32 {
      forall i: nat | i < 32 ensures On(src % 0x1_0000_0000, i) <==> On(src, i) {
        LowBitsAreRemainder(src, 32);
        BitOfFromBits(LowBits(src, 32), i);
      }
    }
  }
}
