/** Counting one bits by folding: neighbouring fields are added in parallel, first pairs of
    bits, then nibbles, then bytes, and a product collects the four bytes. */
module PopulationCount {
  import opened Basics
  import opened Bits

  // --------------------------------------------- fields of a word, counted

  /** Every two-bit field replaced by its count; then the four- and eight-bit fields. */
  function Pairs(v: nat): nat {
    if v == 0 then 0 else PopCount(v % 4) + 4 * Pairs(v / 4)
  }

  function Nibbles(v: nat): nat {
    if v == 0 then 0 else PopCount(v % 16) + 16 * Nibbles(v / 16)
  }

  function Octets(v: nat): nat {
    if v == 0 then 0 else PopCount(v % 256) + 256 * Octets(v / 256)
  }

  /** The masks of n fields: 0x5…5, 0x3…3 and 0x0F…0F. */
  function Mask5(n: nat): nat {
    if n == 0 then 0 else 1 + 4 * Mask5(n - 1)
  }

  function Mask3(n: nat): nat {
    if n == 0 then 0 else 3 + 16 * Mask3(n - 1)
  }

  function MaskF(n: nat): nat {
    if n == 0 then 0 else 15 + 256 * MaskF(n - 1)
  }

  lemma {:induction false} SmallCounts(v: nat)
    ensures v < 4 ==> PopCount(v) == v - v / 2 && PopCount(v) <= 2
    ensures v < 16 ==> PopCount(v) == PopCount(v % 4) + PopCount(v / 4) <= 4
  {
    hide PopCount;
    TwoBits(v);
    TwoBitCount(v % 4);
    TwoBitCount(v / 4);
  }

  lemma {:induction false} TwoBitCount(v: nat)
    ensures v < 4 ==> PopCount(v) == v - v / 2 && PopCount(v) <= 2
  {
    if v < 4 {
      assert PopCount(v) == v % 2 + PopCount(v / 2);
      assert PopCount(v / 2) == v / 2 + PopCount(0);
    }
  }

  /** The count of a word is the count of its lowest byte and of the rest. */
  lemma {:induction false} CountOfByte(v: nat)
    ensures PopCount(v) == PopCount(v % 16) + PopCount(v / 16)
    ensures PopCount(v) == PopCount(v % 256) + PopCount(v / 256)
  {
    hide PopCount;
    NibbleCount(v);
    NibbleCount(v / 16);
    NibbleCount(v % 256);
    ByteDigits(v);
  }

  lemma {:induction false} NibbleCount(v: nat)
    ensures PopCount(v) == PopCount(v % 16) + PopCount(v / 16)
  {
    hide PopCount;
    TwoBits(v);
    TwoBits(v / 4);
    TwoBits(v % 16);
    LowestDigits(v);
  }

  lemma {:induction false} TwoBits(v: nat)
    ensures PopCount(v) == PopCount(v % 4) + PopCount(v / 4)
  {
    var r := v % 4;
    assert PopCount(v) == v % 2 + (v / 2 % 2 + PopCount(v / 4));
    assert PopCount(r) == r % 2 + (r / 2 % 2 + PopCount(0));
  }

  // ------------------------------------------------------------ masking

  /** A mask that takes or drops the lowest two bits. */
  lemma {:induction false} MaskTwo(q: nat, r: nat, c: nat, m: nat)
    requires q < 4 && (c == 0 || c == 3)
    ensures And(q + 4 * r, c + 4 * m) == (if c == 3 then q else 0) + 4 * And(r, m)
  {
    hide And;
    MaskOne(q % 2, q / 2 + 2 * r, c % 2, c / 2 + 2 * m);
    MaskOne(q / 2, r, c / 2, m);
    assert q + 4 * r == q % 2 + 2 * (q / 2 + 2 * r);
    assert c + 4 * m == c % 2 + 2 * (c / 2 + 2 * m);
  }

  lemma {:induction false} MaskOne(q: nat, r: nat, c: nat, m: nat)
    requires q < 2 && c < 2
    ensures And(q + 2 * r, c + 2 * m) == (if q == 1 && c == 1 then 1 else 0) + 2 * And(r, m)
  {
    if q + 2 * r != 0 && c + 2 * m != 0 {
      assert (q + 2 * r) / 2 == r && (c + 2 * m) / 2 == m;
    }
  }

  lemma {:induction false} MaskNibble(q: nat, r: nat, c: nat, m: nat)
    requires q < 16 && (c == 0 || c == 15)
    ensures And(q + 16 * r, c + 16 * m) == (if c == 15 then q else 0) + 16 * And(r, m)
  {
    hide And;
    MaskTwo(q % 4, q / 4 + 4 * r, c % 4, c / 4 + 4 * m);
    MaskTwo(q / 4, r, c / 4, m);
  }

  // ----------------------------------------------------- the three folds

  lemma {:induction false} FieldPower(n: nat)
    ensures n >= 2 ==> Pow2(n) == 4 * Pow2(n - 2)
    ensures n >= 4 ==> Pow2(n) == 16 * Pow2(n - 4)
    ensures n >= 8 ==> Pow2(n) == 256 * Pow2(n - 8)
  {
    if n >= 2 {
      assert Pow2(n - 1) == 2 * Pow2(n - 2);
      FieldPower(n - 2);
    }
  }

  /** Subtracting the upper bits leaves the counts of the pairs. */
  lemma {:induction false} FoldPairs(v: nat, n: nat)
    requires v < Pow2(2 * n)
    ensures And(v / 2, Mask5(n)) <= v && v - And(v / 2, Mask5(n)) == Pairs(v)
  {
    hide Pow2, And, PopCount, Pairs;
    if n == 0 {
      SmallPower();
      NothingToCount();
    } else {
      var d, r, m := v % 4, v / 4, Mask5(n - 1);
      FieldPower(2 * n);
      FoldPairs(r, n - 1);
      SmallCounts(d);
      PairAt(v);
      assert v / 2 == d / 2 + 2 * r;
      MaskOne(d / 2, r, 1, 2 * m);
      MaskOne(r % 2, r / 2, 0, m);
      assert And(v / 2, Mask5(n)) == d / 2 + 4 * And(r / 2, m);
    }
  }

  lemma {:induction false} SmallPower()
    ensures Pow2(0) == 1
  {
  }

  lemma {:induction false} PairAt(v: nat)
    ensures Pairs(v) == PopCount(v % 4) + 4 * Pairs(v / 4) && Pairs(v) % 4 == PopCount(v % 4)
    ensures Pairs(v) / 4 == Pairs(v / 4)
  {
    hide PopCount;
    SmallCounts(v % 4);
    LowestDigit(PopCount(v % 4), Pairs(v / 4));
    CountOfNothing();
  }

  lemma {:induction false} EveryOtherPair(p0: nat, p1: nat, s: nat, m: nat)
    requires p0 < 4 && p1 < 4
    ensures And(p0 + 4 * (p1 + 4 * s), 3 + 16 * m) == p0 + 16 * And(s, m)
    ensures And(p1 + 4 * s, 3 + 16 * m) == p1 + 16 * And(s / 4, m)
  {
    hide And;
    MaskTwo(p0, p1 + 4 * s, 3, 4 * m);
    MaskTwo(p1, s, 0, m);
    MaskTwo(p1, s, 3, 4 * m);
    MaskTwo(s % 4, s / 4, 0, m);
  }

  /** The two lowest pairs of a word, and the rest. */
  lemma {:induction false} LowestPairs(v: nat)
    ensures var p0, p1, s := PopCount(v % 4), PopCount(v / 4 % 4), Pairs(v / 16);
      && Pairs(v) == p0 + 4 * (p1 + 4 * s) && Pairs(v) / 4 == p1 + 4 * s
      && p0 <= 2 && p1 <= 2 && PopCount(v % 16) == p0 + p1
  {
    hide PopCount, Pairs;
    PairAt(v);
    PairAt(v / 4);
    LowestDigits(v);
    SmallCounts(v % 16);
    SmallCounts(v % 4);
    SmallCounts(v / 4 % 4);
  }

  lemma {:induction false} LowestDigits(v: nat)
    ensures v / 4 / 4 == v / 16 && v % 16 % 4 == v % 4 && v % 16 / 4 == v / 4 % 4
  {
  }

  lemma {:induction false} ByteDigits(v: nat)
    ensures v / 16 / 16 == v / 256 && v % 256 % 16 == v % 16 && v % 256 / 16 == v / 16 % 16
  {
  }

  lemma {:induction false} LowestDigit(d: nat, r: nat)
    ensures d < 4 ==> (d + 4 * r) % 4 == d && (d + 4 * r) / 4 == r
    ensures d < 16 ==> (d + 16 * r) % 16 == d && (d + 16 * r) / 16 == r
  {
  }

  /** Adding neighbouring pairs leaves the counts of the nibbles. */
  lemma {:induction false} FoldNibbles(v: nat, n: nat)
    requires v < Pow2(4 * n)
    ensures And(Pairs(v), Mask3(n)) + And(Pairs(v) / 4, Mask3(n)) == Nibbles(v)
  {
    hide Pairs, PopCount, Pow2, And, Nibbles;
    if n == 0 {
      SmallPower();
      NothingToCount();
    } else {
      var r, m := v / 16, Mask3(n - 1);
      FieldPower(4 * n);
      FoldNibbles(r, n - 1);
      LowestPairs(v);
      EveryOtherPair(PopCount(v % 4), PopCount(v / 4 % 4), Pairs(r), m);
      NibbleAt(v);
    }
  }

  lemma {:induction false} NothingToCount()
    ensures Pairs(0) == 0 && Nibbles(0) == 0 && Octets(0) == 0 && And(0, 0) == 0
  {
  }

  lemma {:induction false} NibbleAt(v: nat)
    ensures Nibbles(v) == PopCount(v % 16) + 16 * Nibbles(v / 16)
    ensures Nibbles(v) % 16 == PopCount(v % 16) <= 4 && Nibbles(v) / 16 == Nibbles(v / 16)
  {
    hide PopCount;
    SmallCounts(v % 16);
    LowestDigit(PopCount(v % 16), Nibbles(v / 16));
    CountOfNothing();
  }

  lemma {:induction false} CountOfNothing()
    ensures PopCount(0) == 0
  {
  }

  /** Adding neighbouring nibbles leaves the counts of the bytes. */
  lemma {:induction false} FoldOctets(v: nat, n: nat)
    requires v < Pow2(8 * n)
    ensures And(Nibbles(v) + Nibbles(v) / 16, MaskF(n)) == Octets(v)
  {
    hide Nibbles, PopCount, Pow2, And;
    if n == 0 {
      SmallPower();
      NothingToCount();
    } else {
      var r, m := v / 256, MaskF(n - 1);
      FieldPower(8 * n);
      FoldOctets(r, n - 1);
      NibbleAt(v);
      NibbleAt(v / 16);
      NibbleAt(r);
      var q0, q1, s := PopCount(v % 16), PopCount(v / 16 % 16), Nibbles(r);
      var upper := q1 + s % 16 + 16 * (s + s / 16);
      assert Nibbles(v) + Nibbles(v) / 16 == q0 + q1 + 16 * upper;
      MaskNibble(q0 + q1, upper, 15, 16 * m);
      MaskNibble(q1 + s % 16, s + s / 16, 0, m);
      CountOfByte(v % 256);
      ByteDigits(v);
      OctetAt(v);
    }
  }

  lemma {:induction false} OctetAt(v: nat)
    ensures Octets(v) == PopCount(v % 256) + 256 * Octets(v / 256)
    ensures PopCount(v % 256) <= 8
  {
    CountOfByte(v % 256);
    SmallCounts(v % 256 % 16);
    SmallCounts(v % 256 / 16);
  }

  // ------------------------------------------------------------- the code

  lemma {:induction false} Masks()
    ensures Mask5(16) == 0x5555_5555 && Mask3(8) == 0x3333_3333 && MaskF(4) == 0x0F0F_0F0F
  {
    assert Mask5(4) == 0x55;
    assert Mask5(8) == 0x5555;
    assert Mask5(12) == 0x55_5555;
    assert Mask3(4) == 0x3333;
  }

  /** The product adds the four byte counts in its top byte. */
  lemma {:induction false} Collect(v: nat)
    requires v < U32_LIMIT
    ensures Octets(v) * 0x0101_0101 % U32_LIMIT / 0x100_0000 == PopCount(v)
  {
    hide Octets, PopCount;
    var v1, v2, v3 := v / 256, v / 256 / 256, v / 256 / 256 / 256;
    OctetAt(v);
    OctetAt(v1);
    OctetAt(v2);
    OctetAt(v3);
    NothingToCount();
    CountOfByte(v);
    CountOfByte(v1);
    CountOfByte(v2);
    Product(PopCount(v % 256), PopCount(v1 % 256), PopCount(v2 % 256), PopCount(v3 % 256));
  }

  lemma {:induction false} TopByte(low: nat, top: nat, over: nat)
    requires low < 0x100_0000 && top < 256
    ensures (low + 0x100_0000 * top + U32_LIMIT * over) % U32_LIMIT / 0x100_0000 == top
  {
    var word := low + 0x100_0000 * top;
    EuclideanDivision(word + U32_LIMIT * over, over, word, U32_LIMIT);
    EuclideanDivision(word, top, low, 0x100_0000);
  }

  lemma {:induction false} Product(b0: nat, b1: nat, b2: nat, b3: nat)
    requires b0 <= 8 && b1 <= 8 && b2 <= 8 && b3 <= 8
    ensures (b0 + 256 * (b1 + 256 * (b2 + 256 * b3))) * 0x0101_0101 % U32_LIMIT / 0x100_0000 == b0 + b1 + b2 + b3
  {
    TopByte(b0 + 256 * (b0 + b1) + 0x1_0000 * (b0 + b1 + b2), b0 + b1 + b2 + b3,
      b1 + b2 + b3 + 256 * (b2 + b3) + 0x1_0000 * b3);
  }

  /** The folds count the ones of a 32-bit word. */
  method FoldedPopCount(v: nat) returns (count: nat)
    requires v < U32_LIMIT
    ensures count == PopCount(v)
  {
    hide Pow2, And, PopCount, Pairs, Nibbles, Octets, Mask5, Mask3, MaskF;
    Masks();
    WordPowers();
    FoldPairs(v, 16);
    FoldNibbles(v, 8);
    FoldOctets(v, 4);
    Collect(v);
    var w := v - And(v / 2, 0x5555_5555);
    w := And(w, 0x3333_3333) + And(w / 4, 0x3333_3333);
    count := And(w + w / 16, 0x0F0F_0F0F) * 0x0101_0101 % U32_LIMIT / 0x100_0000;
  }
}
