/** Bit fields of 64-bit words (EXTRQ and INSERTQ) and the lowest-set-bit operations. */
module BitFields {
  import opened Basics
  import opened Bits
  import opened BitScatter

  /** length & 0x3F and index & 0x3F name a field inside the word; length 0 stands for
      the whole word. */
  predicate IsValidBitField(length: int, index: int) {
    var len, idx := length % 64, index % 64;
    (len != 0 || idx == 0) && if len == 0 then idx == 0 else idx + len <= 64
  }

  /** A field ends inside the word; the whole word starts at its first bit. */
  lemma {:induction false} ValidFields(length: int, index: int)
    ensures IsValidBitField(length, index) <==>
      index % 64 <= if length % 64 == 0 then 0 else 64 - length % 64
  {
  }

  function FieldMask(len: nat): nat {
    Pow2(len) - 1
  }

  function ExtractBitField(value: nat, length: int, index: int): nat {
    var len, idx := length % 64, index % 64;
    if !IsValidBitField(length, index) then 0
    else if len == 0 then value
    else And(Shr(value, idx), FieldMask(len))
  }

  /** destination & ~mask is the destination below the complement of the mask. */
  function InsertBitField(destination: nat, source: nat, length: int, index: int): nat {
    var len, idx := length % 64, index % 64;
    if !IsValidBitField(length, index) then destination
    else if len == 0 then source
    else
      var clear, field := Shl(FieldMask(len), idx) % U64_LIMIT, Shl(And(source, FieldMask(len)), idx) % U64_LIMIT;
      Or(And(destination, U64_LIMIT - 1 - clear), field)
  }

  // ------------------------------------------------------- single bits

  lemma {:induction false} OnShl(x: nat, n: nat, i: nat)
    ensures On(Shl(x, n), i) <==> i >= n && On(x, i - n)
  {
    if n != 0 && i != 0 {
      OnShl(x, n - 1, i - 1);
    }
  }

  lemma {:induction false} OnShr(x: nat, n: nat, i: nat)
    ensures On(Shr(x, n), i) <==> On(x, n + i)
  {
    BitOfShr(x, n, i);
  }

  lemma {:induction false} OnOr(x: nat, y: nat, i: nat)
    ensures On(Or(x, y), i) <==> On(x, i) || On(y, i)
  {
    BitOfZero(i);
    if x != 0 && y != 0 && i != 0 {
      OnOr(x / 2, y / 2, i - 1);
    }
  }

  /** The complement in a word of n bits. */
  lemma {:induction false} OnComplement(x: nat, n: nat, i: nat)
    requires x < Pow2(n)
    ensures On(Pow2(n) - 1 - x, i) <==> i < n && !On(x, i)
  {
    if n == 0 {
      BitOfZero(i);
    } else if i != 0 {
      OnComplement(x / 2, n - 1, i - 1);
      assert (Pow2(n) - 1 - x) / 2 == Pow2(n - 1) - 1 - x / 2;
    }
  }

  lemma {:induction false} OnMask(len: nat, i: nat)
    ensures On(FieldMask(len), i) <==> i < len
  {
    OnComplement(0, len, i);
    BitOfZero(i);
  }

  lemma {:induction false} ShlBound(x: nat, len: nat, n: nat)
    requires x < Pow2(len)
    ensures Shl(x, n) < Pow2(len + n)
  {
    if n != 0 {
      ShlBound(x, len, n - 1);
    }
  }

  lemma {:induction false} SmallRemainder(x: nat, p: nat)
    requires x < p
    ensures x % p == x
  {
  }

  /** A word is its bits. */
  lemma {:induction false} SameBits(x: nat, y: nat, n: nat)
    requires x < Pow2(n) && y < Pow2(n) && forall i :: 0 <= i < n ==> On(x, i) == On(y, i)
    ensures x == y
  {
    hide Pow2, On;
    LowBitsAreRemainder(x, n);
    LowBitsAreRemainder(y, n);
    SmallRemainder(x, Pow2(n));
    SmallRemainder(y, Pow2(n));
    assert LowBits(x, n) == LowBits(y, n);
  }

  lemma {:induction false} NoBitsAbove(x: nat, n: nat)
    requires forall i: nat :: On(x, i) ==> i < n
    ensures x < Pow2(n)
  {
    if n == 0 {
      if x > 0 {
        SomeBit(x);
      }
    } else {
      forall i: nat | On(x / 2, i) ensures i < n - 1 {
        assert On(x, i + 1);
      }
      NoBitsAbove(x / 2, n - 1);
    }
  }

  // ------------------------------------------------------------ the fields

  /** The field's bits move to the bottom; nothing is above them. */
  lemma {:induction false} ExtractedBit(value: nat, length: int, index: int, i: nat)
    requires IsValidBitField(length, index) && length % 64 != 0
    ensures On(ExtractBitField(value, length, index), i) <==> i < length % 64 && On(value, index % 64 + i)
  {
    hide On, Pow2, And, Shr, FieldMask;
    var len, idx := length % 64, index % 64;
    BitOfAnd(Shr(value, idx), FieldMask(len), i);
    OnMask(len, i);
    OnShr(value, idx, i);
  }

  /** The field takes the low bits of the source; every other bit stays. */
  lemma {:induction false} InsertedBit(destination: nat, source: nat, length: int, index: int, i: nat)
    requires IsValidBitField(length, index) && length % 64 != 0 && destination < U64_LIMIT
    ensures On(InsertBitField(destination, source, length, index), i) <==>
      if index % 64 <= i < index % 64 + length % 64 then On(source, i - index % 64) else On(destination, i)
  {
    hide On, Pow2, And, Or, Shl;
    var len, idx := length % 64, index % 64;
    var mask := FieldMask(len);
    FieldFits(source, len, idx);
    var clear, field := Shl(mask, idx), Shl(And(source, mask), idx);
    WordPowers();
    OnOr(And(destination, U64_LIMIT - 1 - clear), field, i);
    BitOfAnd(destination, U64_LIMIT - 1 - clear, i);
    OnComplement(clear, 64, i);
    OnShl(mask, idx, i);
    OnShl(And(source, mask), idx, i);
    if i >= idx {
      OnMask(len, i - idx);
      BitOfAnd(source, mask, i - idx);
    }
    if On(destination, i) {
      BitsBelow(destination, 64, i);
    }
  }

  /** No bit of the field is shifted out of the word. */
  lemma {:induction false} FieldFits(source: nat, len: nat, idx: nat)
    requires len + idx <= 64
    ensures Shl(FieldMask(len), idx) < U64_LIMIT && Shl(And(source, FieldMask(len)), idx) < U64_LIMIT
  {
    hide Pow2, And, Shl;
    WordPowers();
    AndBound(source, FieldMask(len));
    ShlBound(FieldMask(len), len, idx);
    ShlBound(And(source, FieldMask(len)), len, idx);
    Pow2Monotone(len + idx, 64);
  }

  lemma {:induction false} InsertedIsWord(destination: nat, source: nat, length: int, index: int)
    requires destination < U64_LIMIT && source < U64_LIMIT
    ensures InsertBitField(destination, source, length, index) < U64_LIMIT
  {
    if IsValidBitField(length, index) && length % 64 != 0 {
      hide On, Pow2, And, Or, Shl, InsertBitField;
      WordPowers();
      var w := InsertBitField(destination, source, length, index);
      forall i: nat | On(w, i) ensures i < 64 {
        InsertedBit(destination, source, length, index, i);
        if !(index % 64 <= i < index % 64 + length % 64) {
          BitsBelow(destination, 64, i);
        }
      }
      NoBitsAbove(w, 64);
    }
  }

  /** Extracting an inserted field gives the bits that were inserted; an invalid field
      inserts nothing and extracts zero. */
  lemma {:induction false} ExtractOfInsert(destination: nat, source: nat, length: int, index: int)
    requires destination < U64_LIMIT
    ensures ExtractBitField(InsertBitField(destination, source, length, index), length, index) ==
      if !IsValidBitField(length, index) then 0 else if length % 64 == 0 then source else source % Pow2(length % 64)
  {
    if IsValidBitField(length, index) && length % 64 != 0 {
      hide On, Pow2, And, Or, Shl, Shr, InsertBitField, ExtractBitField;
      var len := length % 64;
      var w := InsertBitField(destination, source, length, index);
      var r := ExtractBitField(w, length, index);
      forall i: nat ensures On(r, i) <==> i < len && On(source, i) {
        ExtractedBit(w, length, index, i);
        InsertedBit(destination, source, length, index, index % 64 + i);
      }
      NoBitsAbove(r, len);
      SmallRemainder(r, Pow2(len));
      LowBitsAreRemainder(r, len);
      LowBitsAreRemainder(source, len);
      assert LowBits(r, len) == LowBits(source, len);
    }
  }

  /** Inserting what was extracted changes nothing, for any length and index. */
  lemma {:induction false} InsertOfExtract(word: nat, length: int, index: int)
    requires word < U64_LIMIT
    ensures InsertBitField(word, ExtractBitField(word, length, index), length, index) == word
  {
    if IsValidBitField(length, index) && length % 64 != 0 {
      hide On, Pow2, And, Or, Shl, Shr, InsertBitField, ExtractBitField;
      WordPowers();
      var field := ExtractBitField(word, length, index);
      var w := InsertBitField(word, field, length, index);
      forall i: nat ensures On(w, i) == On(word, i) {
        InsertedBit(word, field, length, index, i);
        if i >= index % 64 {
          ExtractedBit(word, length, index, i - index % 64);
        }
      }
      forall i: nat | On(w, i) ensures i < 64 {
        BitsBelow(word, 64, i);
      }
      NoBitsAbove(w, 64);
      SameBits(w, word, 64);
    }
  }

  /** The last insert into a field wins. */
  lemma {:induction false} LastInsertWins(destination: nat, first: nat, second: nat, length: int, index: int)
    requires destination < U64_LIMIT && first < U64_LIMIT && second < U64_LIMIT
    ensures InsertBitField(InsertBitField(destination, first, length, index), second, length, index)
         == InsertBitField(destination, second, length, index)
  {
    InsertedIsWord(destination, first, length, index);
    if IsValidBitField(length, index) && length % 64 != 0 {
      hide On, Pow2, And, Or, Shl, Shr, InsertBitField;
      WordPowers();
      var w := InsertBitField(destination, first, length, index);
      InsertedIsWord(w, second, length, index);
      InsertedIsWord(destination, second, length, index);
      forall i: nat | i < 64
        ensures On(InsertBitField(w, second, length, index), i)
          == On(InsertBitField(destination, second, length, index), i)
      {
        InsertedBit(w, second, length, index, i);
        InsertedBit(destination, first, length, index, i);
        InsertedBit(destination, second, length, index, i);
      }
      SameBits(InsertBitField(w, second, length, index), InsertBitField(destination, second, length, index), 64);
    }
  }

  // ------------------------------------------- a field is a parallel extract

  /** A contiguous mask ranks its positions by their distance from the field. */
  lemma {:induction false} RankOfField(len: nat, idx: nat, n: nat)
    ensures Rank(Shl(FieldMask(len), idx), n) == if n <= idx then 0 else if n <= idx + len then n - idx else len
  {
    hide On, Pow2, Shl;
    if n != 0 {
      RankOfField(len, idx, n - 1);
      OnShl(FieldMask(len), idx, n - 1);
      if n - 1 >= idx {
        OnMask(len, n - 1 - idx);
      }
    }
  }

  /** Extracting a field is PEXT under its mask. */
  lemma {:induction false} FieldIsPext(value: nat, length: int, index: int)
    requires IsValidBitField(length, index) && length % 64 != 0
    ensures ExtractBitField(value, length, index) == Pext(value, Shl(FieldMask(length % 64), index % 64), 64)
  {
    hide On, Pow2, And, Shl, Shr, ExtractBitField, FieldMask, FromBits;
    var len, idx := length % 64, index % 64;
    var mask := Shl(FieldMask(len), idx);
    var bits := Extracted(value, mask, 64);
    var r := ExtractBitField(value, length, index);
    RankOfField(len, idx, 64);
    forall i | 0 <= i < len ensures bits[i] == On(value, idx + i) {
      RankOfField(len, idx, idx + i);
      OnShl(FieldMask(len), idx, idx + i);
      OnMask(len, i);
      ExtractedAt(value, mask, 64, idx + i);
    }
    forall i: nat ensures On(r, i) <==> i < len && bits[i] {
      ExtractedBit(value, length, index, i);
    }
    NoBitsAbove(r, len);
    SmallRemainder(r, Pow2(len));
    LowBitsAreRemainder(r, len);
    assert LowBits(r, len) == bits;
  }

  // ------------------------------------------------ the lowest set bit

  function Active(x: nat, operand_size: nat): nat {
    if operand_size == 32 then x % U32_LIMIT else x
  }

  function EmulateBlsi(src: nat, operand_size: nat): nat
    requires src < U64_LIMIT
  {
    Active(And((U64_LIMIT - src) % U64_LIMIT, src), operand_size)
  }

  function EmulateBlsmsk(src: nat, operand_size: nat): nat {
    Active(Xor((src + U64_LIMIT - 1) % U64_LIMIT, src), operand_size)
  }

  function EmulateBlsr(src: nat, operand_size: nat): nat {
    Active(And((src + U64_LIMIT - 1) % U64_LIMIT, src), operand_size)
  }

  lemma {:induction false} HalfOf(b: nat, q: nat)
    requires b < 2
    ensures (b + 2 * q) / 2 == q && (b + 2 * q) % 2 == b
  {
  }

  /** The low n bits of a word, p being 2^n. */
  function Cut(x: nat, p: nat): nat
    requires p > 0
  {
    x % p
  }

  lemma {:induction false} CutHalf(b: nat, q: nat, p: nat)
    requires b < 2 && p > 0
    ensures Cut(b + 2 * q, 2 * p) == b + 2 * Cut(q, p)
  {
    HalfOf(b, q);
    HalfRemainder(b + 2 * q, p);
  }

  lemma {:induction false} HalvesOf(x: nat)
    ensures x == x % 2 + 2 * (x / 2) && x % 2 < 2
  {
  }

  lemma {:induction false} CutToNothing(x: nat)
    ensures Cut(x, 1) == 0 && And(0, 0) == 0 && Xor(0, 0) == 0
  {
  }

  /** Cutting to n bits before or after an operation is the same. */
  lemma {:induction false} CutAnd(x: nat, y: nat, n: nat)
    ensures Cut(And(x, y), Pow2(n)) == And(Cut(x, Pow2(n)), Cut(y, Pow2(n)))
  {
    if n == 0 {
      hide Cut, And;
      CutToNothing(x);
      CutToNothing(y);
      CutToNothing(And(x, y));
    } else {
      hide Cut, And, Pow2;
      var p, a, h, b, k := Pow2(n - 1), x % 2, x / 2, y % 2, y / 2;
      var both := if a == 1 && b == 1 then 1 else 0;
      HalvesOf(x);
      HalvesOf(y);
      DoublePower(n);
      CutAnd(h, k, n - 1);
      CutHalf(a, h, p);
      CutHalf(b, k, p);
      AndHalves(a, h, b, k);
      CutHalf(both, And(h, k), p);
      AndHalves(a, Cut(h, p), b, Cut(k, p));
    }
  }

  lemma {:induction false} AndHalves(a: nat, x: nat, b: nat, y: nat)
    requires a < 2 && b < 2
    ensures And(a + 2 * x, b + 2 * y) == (if a == 1 && b == 1 then 1 else 0) + 2 * And(x, y)
  {
    HalfOf(a, x);
    HalfOf(b, y);
  }

  lemma {:induction false} CutXor(x: nat, y: nat, n: nat)
    ensures Cut(Xor(x, y), Pow2(n)) == Xor(Cut(x, Pow2(n)), Cut(y, Pow2(n)))
  {
    if n == 0 {
      hide Cut, Xor;
      CutToNothing(x);
      CutToNothing(y);
      CutToNothing(Xor(x, y));
    } else {
      hide Cut, Xor, Pow2;
      var p, a, h, b, k := Pow2(n - 1), x % 2, x / 2, y % 2, y / 2;
      HalvesOf(x);
      HalvesOf(y);
      DoublePower(n);
      CutXor(h, k, n - 1);
      CutHalf(a, h, p);
      CutHalf(b, k, p);
      XorHalves(a, h, b, k);
      CutHalf((a + b) % 2, Xor(h, k), p);
      XorHalves(a, Cut(h, p), b, Cut(k, p));
    }
  }

  lemma {:induction false} XorHalves(a: nat, x: nat, b: nat, y: nat)
    requires a < 2 && b < 2
    ensures Xor(a + 2 * x, b + 2 * y) == (a + b) % 2 + 2 * Xor(x, y)
  {
    HalfOf(a, x);
    HalfOf(b, y);
    assert (a + 2 * x + (b + 2 * y)) % 2 == (a + b) % 2;
  }

  lemma {:induction false} DoublePower(n: nat)
    requires n > 0
    ensures Pow2(n) == 2 * Pow2(n - 1)
  {
  }

  lemma {:induction false} AndComplement(x: nat, n: nat)
    requires x < Pow2(n)
    ensures And(Pow2(n) - 1 - x, x) == 0
  {
    if n != 0 {
      AndComplement(x / 2, n - 1);
      assert (Pow2(n) - 1 - x) / 2 == Pow2(n - 1) - 1 - x / 2;
    }
  }

  /** Bit t is the lowest one bit. */
  ghost predicate Lowest(x: nat, t: nat) {
    On(x, t) && forall i: nat :: i < t ==> !On(x, i)
  }

  lemma {:induction false} LowestOfHalf(x: nat, t: nat)
    requires Lowest(x, t)
    ensures x > 0 && (t == 0 <==> x % 2 == 1) && (t > 0 ==> Lowest(x / 2, t - 1))
  {
    BitOfZero(t);
    if t > 0 {
      assert !On(x, 0);
      forall i: nat | i < t - 1 ensures !On(x / 2, i) {
        assert !On(x, i + 1);
      }
    }
  }

  /** A word against its negation and its predecessor. */
  lemma {:induction false} LowestBit(x: nat, n: nat, t: nat)
    requires x < Pow2(n) && Lowest(x, t)
    ensures And(Pow2(n) - x, x) == Pow2(t) <= x
    ensures x > 0 && And(x - 1, x) == x - Pow2(t)
    decreases t
  {
    hide Lowest, And, On;
    LowestOfHalf(x, t);
    BitsDoNotFit(x, n);
    DoublePower(n);
    var h := x / 2;
    if t == 0 {
      AndSelf(h);
      AndHalves(0, h, 1, h);
      AndComplement(h, n - 1);
      AndHalves(1, Pow2(n - 1) - 1 - h, 1, h);
    } else {
      LowestBit(h, n - 1, t - 1);
      AndHalves(0, Pow2(n - 1) - h, 0, h);
      AndHalves(1, h - 1, 0, h);
    }
  }

  lemma {:induction false} BitsDoNotFit(x: nat, n: nat)
    requires 0 < x < Pow2(n)
    ensures n > 0
  {
  }

  /** BLSI isolates the lowest one bit of the active word, BLSR clears it, and BLSMSK
      reaches up to it; of a word without one bits they give zero, zero and all ones. */
  lemma {:induction false} LowestBitOperations(src: nat, operand_size: nat, t: nat)
    requires src < U64_LIMIT
    requires Active(src, operand_size) > 0 ==> Lowest(Active(src, operand_size), t)
    ensures var v := Active(src, operand_size);
      && EmulateBlsi(src, operand_size) == (if v > 0 then Pow2(t) else 0)
      && EmulateBlsr(src, operand_size) == (if v > 0 then v - Pow2(t) else 0)
      && EmulateBlsmsk(src, operand_size) == (if v > 0 then 2 * Pow2(t) - 1 else Pow2(Width(operand_size)) - 1)
  {
    hide And, Xor, Pow2, Lowest;
    var n, v := Width(operand_size), Active(src, operand_size);
    WordPowers();
    ActiveOperands(src, operand_size);
    XorIsSum((v + Pow2(n) - 1) % Pow2(n), v);
    if v > 0 {
      LowestBit(v, n, t);
      SmallRemainder(Pow2(n) - v, Pow2(n));
      Wrapped(v - 1, Pow2(n));
    } else {
      NoBits();
      SmallRemainder(Pow2(n) - 1, Pow2(n));
    }
  }

  /** The results are those of the active word at its own width. */
  lemma {:induction false} ActiveOperands(src: nat, operand_size: nat)
    requires src < U64_LIMIT
    ensures var v, p := Active(src, operand_size), Pow2(Width(operand_size));
      && v < p && EmulateBlsi(src, operand_size) == And((p - v) % p, v)
      && EmulateBlsr(src, operand_size) == And((v + p - 1) % p, v)
      && EmulateBlsmsk(src, operand_size) == Xor((v + p - 1) % p, v)
  {
    hide And, Xor, Pow2;
    WordPowers();
    CutAnd((U64_LIMIT - src) % U64_LIMIT, src, 32);
    CutAnd((src + U64_LIMIT - 1) % U64_LIMIT, src, 32);
    CutXor((src + U64_LIMIT - 1) % U64_LIMIT, src, 32);
    CutOperands(src);
  }

  lemma {:induction false} CutOperands(src: nat)
    requires src < U64_LIMIT
    ensures (U64_LIMIT - src) % U64_LIMIT % U32_LIMIT == (U32_LIMIT - src % U32_LIMIT) % U32_LIMIT
    ensures (src + U64_LIMIT - 1) % U64_LIMIT % U32_LIMIT == (src % U32_LIMIT + U32_LIMIT - 1) % U32_LIMIT
  {
    var high, low := src / U32_LIMIT, src % U32_LIMIT;
    assert src == high * U32_LIMIT + low && high < U32_LIMIT;
    // the predecessor
    if src == 0 {
      assert (src + U64_LIMIT - 1) % U64_LIMIT == U64_LIMIT - 1;
    } else {
      EuclideanDivision(src + U64_LIMIT - 1, 1, src - 1, U64_LIMIT);
      if low == 0 {
        EuclideanDivision(src - 1, high - 1, U32_LIMIT - 1, U32_LIMIT);
      } else {
        EuclideanDivision(src - 1, high, low - 1, U32_LIMIT);
        EuclideanDivision(low + U32_LIMIT - 1, 1, low - 1, U32_LIMIT);
      }
      // the negation
      EuclideanDivision(U64_LIMIT - src, 0, U64_LIMIT - src, U64_LIMIT);
      if low == 0 {
        EuclideanDivision(U64_LIMIT - src, U32_LIMIT - high, 0, U32_LIMIT);
      } else {
        EuclideanDivision(U64_LIMIT - src, U32_LIMIT - high - 1, U32_LIMIT - low, U32_LIMIT);
      }
    }
  }

  lemma {:induction false} Wrapped(x: nat, p: nat)
    requires x < p
    ensures (x + p) % p == x
  {
    var q := x + p;
    assert q % p == x by {
      EuclideanDivision(q, 1, x, p);
    }
  }

  lemma {:induction false} NoBits()
    ensures forall x :: And(x, 0) == 0 && And(0, x) == 0
  {
  }
}
