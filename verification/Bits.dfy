/** Unsigned machine words as naturals: single bits, masks and their arithmetic.
    Every word of the sources modelled on top of this module fits its C++ width;
    where an operation can leave that width the model writes the reduction out.

    Products and quotients of two variables are defined by doubling and by repeated
    subtraction, which keeps the proofs in linear arithmetic; MulIsProduct and
    DivisionIsDivision say that they are the ordinary operations. */
module Bits {
  import opened Basics

  /** 1 << n */
  function Pow2(n: nat): (p: nat)
    ensures p >= 1
  {
    if n == 0 then 1 else 2 * Pow2(n - 1)
  }

  /** (x >> i) & 1 */
  function Bit(x: nat, i: nat): (b: nat)
    ensures b <= 1
  {
    if i == 0 then x % 2 else Bit(x / 2, i - 1)
  }

  /** x & y */
  function And(x: nat, y: nat): nat
  {
    if x == 0 || y == 0 then 0
    else (if x % 2 == 1 && y % 2 == 1 then 1 else 0) + 2 * And(x / 2, y / 2)
  }

  /** x | y */
  function Or(x: nat, y: nat): nat
  {
    if x == 0 then y else if y == 0 then x
    else (if x % 2 == 1 || y % 2 == 1 then 1 else 0) + 2 * Or(x / 2, y / 2)
  }

  /** x ^ y */
  function Xor(x: nat, y: nat): nat {
    if x == 0 then y else if y == 0 then x else (x + y) % 2 + 2 * Xor(x / 2, y / 2)
  }

  /** The number of one bits. */
  function PopCount(x: nat): nat
  {
    if x == 0 then 0 else x % 2 + PopCount(x / 2)
  }

  /** x >> n */
  function Shr(x: nat, n: nat): nat
  {
    if n == 0 then x else Shr(x / 2, n - 1)
  }

  /** x << n */
  function Shl(x: nat, n: nat): nat
  {
    if n == 0 then x else 2 * Shl(x, n - 1)
  }

  /** a * b */
  function Mul(a: nat, b: nat): nat
  {
    if a == 0 then 0 else 2 * Mul(a / 2, b) + (if a % 2 == 1 then b else 0)
  }

  /** row * width + column */
  function RowMajor(row: nat, width: nat, column: nat): nat
  {
    Mul(row, width) + column
  }

  /** x % d */
  function Remainder(x: nat, d: nat): (r: nat)
    requires d > 0
    ensures r < d
  {
    if x < d then x else Remainder(x - d, d)
  }

  /** x / d */
  function Quotient(x: nat, d: nat): (q: nat)
    requires d > 0
    ensures x == RowMajor(q, d, Remainder(x, d))
  {
    if x < d then 0 else
      var q := Quotient(x - d, d);
      MulStep(q, d);
      q + 1
  }

  // -------------------------------------------------------------- products

  lemma {:induction false} MulIsProduct(a: nat, b: nat)
    ensures Mul(a, b) == a * b
  {
    if a != 0 {
      var half, odd := a / 2, a % 2;
      MulIsProduct(half, b);
      ProductsDistribute(2 * half, odd, b);
      ProductsAssociate(2, half, b);
      assert a == 2 * half + odd;
      OneTimes(odd, b);
    }
  }

  lemma {:induction false} OneTimes(odd: nat, b: nat)
    requires odd <= 1
    ensures odd * b == if odd == 1 then b else 0
  {
  }

  lemma {:induction false} MulCommutes(a: nat, b: nat)
    ensures Mul(a, b) == Mul(b, a)
  {
    MulIsProduct(a, b);
    MulIsProduct(b, a);
  }

  lemma {:induction false} MulDistributes(a: nat, b: nat, d: nat)
    ensures Mul(a + b, d) == Mul(a, d) + Mul(b, d)
  {
    MulIsProduct(a, d);
    MulIsProduct(b, d);
    var sum := a + b;
    MulIsProduct(sum, d);
    ProductsDistribute(a, b, d);
  }

  lemma {:induction false} ProductsDistribute(a: nat, b: nat, d: nat)
    ensures (a + b) * d == a * d + b * d
  {
  }

  /** One more multiple. */
  lemma {:induction false} MulStep(a: nat, d: nat)
    ensures Mul(a + 1, d) == Mul(a, d) + d
  {
    MulDistributes(a, 1, d);
    assert Mul(1, d) == d;
  }

  lemma {:induction false} MulAssociates(a: nat, b: nat, c: nat)
    ensures Mul(Mul(a, b), c) == Mul(a, Mul(b, c))
  {
    var ab, bc := Mul(a, b), Mul(b, c);
    MulIsProduct(a, b);
    MulIsProduct(b, c);
    MulIsProduct(ab, c);
    MulIsProduct(a, bc);
    ProductsAssociate(a, b, c);
  }

  lemma {:induction false} ProductsAssociate(a: nat, b: nat, c: nat)
    ensures (a * b) * c == a * (b * c)
  {
  }

  lemma {:induction false} MulMonotone(a: nat, b: nat, d: nat)
    requires a <= b
    ensures Mul(a, d) <= Mul(b, d)
  {
    MulDistributes(a, b - a, d);
  }

  /** Different multiples of d are at least d apart. */
  lemma {:induction false} MultiplesApart(a: nat, b: nat, d: nat)
    requires a < b
    ensures Mul(a, d) + d <= Mul(b, d)
  {
    MulStep(a, d);
    MulMonotone(a + 1, b, d);
  }

  /** A cell of a grid has a row-major index below the cell count. */
  lemma {:induction false} CellInGrid(row: nat, column: nat, width: nat, height: nat)
    requires row < height && column < width
    ensures RowMajor(row, width, column) < Mul(height, width)
  {
    MultiplesApart(row, height, width);
  }

  // -------------------------------------------------------------- division

  lemma {:induction false} DivisionIsUnique(q: nat, r: nat, d: nat)
    requires r < d
    ensures Quotient(RowMajor(q, d, r), d) == q && Remainder(RowMajor(q, d, r), d) == r
  {
    if q != 0 {
      MulStep(q - 1, d);
      DivisionIsUnique(q - 1, r, d);
      assert RowMajor(q, d, r) - d == RowMajor(q - 1, d, r);
    }
  }

  /** Equal row-major indices name the same cell. */
  lemma {:induction false} SameCell(q: nat, r: nat, q': nat, r': nat, d: nat)
    requires r < d && r' < d && RowMajor(q, d, r) == RowMajor(q', d, r')
    ensures q == q' && r == r'
  {
    DivisionIsUnique(q, r, d);
    DivisionIsUnique(q', r', d);
  }

  lemma {:induction false} SmallMultipleIsZero(k: int, d: int)
    requires -d < k * d < d
    ensures k == 0
  {
    if k >= 1 {
      MultiplesApart(0, k, d);
      MulIsProduct(k, d);
    } else if k <= -1 {
      assert (-k) * d == -(k * d);
      MultiplesApart(0, -k, d);
      MulIsProduct(-k, d);
    }
  }

  lemma {:induction false} DivisionIsDivision(x: nat, d: nat)
    requires d > 0
    ensures Quotient(x, d) == x / d && Remainder(x, d) == x % d
  {
    var q, r := Quotient(x, d), Remainder(x, d);
    MulIsProduct(q, d);
    EuclideanDivision(x, q, r, d);
  }

  lemma {:induction false} EuclideanDivision(x: nat, q: nat, r: nat, d: nat)
    requires r < d && x == q * d + r
    ensures q == x / d && r == x % d
  {
    var k := q - x / d;
    assert k * d == q * d - (x / d) * d;
    SmallMultipleIsZero(k, d);
  }

  lemma {:induction false} QuotientBound(x: nat, d: nat, n: nat)
    requires d > 0 && x < Mul(n, d)
    ensures Quotient(x, d) < n
  {
    if Quotient(x, d) >= n {
      MulMonotone(n, Quotient(x, d), d);
    }
  }

  // ---------------------------------------------------------------- powers

  lemma {:induction false} DoubleMul(a: nat, b: nat)
    ensures Mul(2 * a, b) == 2 * Mul(a, b)
  {
    MulDistributes(a, a, b);
  }

  lemma {:induction false} Pow2Add(m: nat, n: nat)
    ensures Pow2(m + n) == Mul(Pow2(m), Pow2(n))
  {
    if m != 0 {
      Pow2Add(m - 1, n);
      DoubleMul(Pow2(m - 1), Pow2(n));
    }
  }

  lemma {:induction false} Pow2Monotone(m: nat, n: nat)
    requires m <= n
    ensures Pow2(m) <= Pow2(n)
  {
    if m < n {
      Pow2Monotone(m, n - 1);
    }
  }

  lemma {:induction false} Pow2Strict(m: nat, n: nat)
    requires m < n
    ensures Pow2(m) < Pow2(n)
  {
    Pow2Monotone(m, n - 1);
  }

  lemma {:induction false} WordPowers()
    ensures Pow2(32) == U32_LIMIT && Pow2(64) == U64_LIMIT
  {
    hide Mul, Pow2;
    HalfWordPower();
    Pow2Add(16, 16);
    MulIsProduct(65536, 65536);
    Pow2Add(32, 32);
    MulIsProduct(0x1_0000_0000, 0x1_0000_0000);
  }

  lemma {:induction false} HalfWordPower()
    ensures Pow2(16) == 0x1_0000
  {
    assert Pow2(4) == 16;
  }

  lemma {:induction false} ShlOfOne(n: nat)
    ensures Shl(1, n) == Pow2(n) && Shl(0, n) == 0
  {
    if n != 0 {
      ShlOfOne(n - 1);
    }
  }

  // ------------------------------------------------------------------ bits

  lemma {:induction false} BitOfShr(x: nat, n: nat, i: nat)
    ensures Bit(x, n + i) == Bit(Shr(x, n), i)
  {
    if n != 0 {
      BitOfShr(x / 2, n - 1, i);
    }
  }

  /** Shifting right is dividing by a power of two. */
  lemma {:induction false} ShrOfMultiple(q: nat, r: nat, n: nat)
    requires r < Pow2(n)
    ensures Shr(RowMajor(q, Pow2(n), r), n) == q
  {
    if n == 0 {
      MulIsProduct(q, 1);
    } else {
      MulCommutes(q, Pow2(n));
      DoubleMul(Pow2(n - 1), q);
      MulCommutes(q, Pow2(n - 1));
      assert RowMajor(q, Pow2(n), r) / 2 == RowMajor(q, Pow2(n - 1), r / 2);
      ShrOfMultiple(q, r / 2, n - 1);
    }
  }

  /** A word is its high part above bit n together with its n low bits. */
  lemma {:induction false} BitsDetermine(x: nat, y: nat, n: nat)
    requires Shr(x, n) == Shr(y, n)
    requires forall i :: 0 <= i < n ==> Bit(x, i) == Bit(y, i)
    ensures x == y
  {
    if n != 0 {
      forall i | 0 <= i < n - 1 ensures Bit(x / 2, i) == Bit(y / 2, i) {
        assert Bit(x, i + 1) == Bit(y, i + 1);
      }
      BitsDetermine(x / 2, y / 2, n - 1);
      assert Bit(x, 0) == Bit(y, 0);
    }
  }

  /** Masking one more low bit m counts it exactly when it is set on both sides. */
  lemma {:induction false} CountStep(x: nat, m: nat, low: nat)
    requires low <= 1
    ensures PopCount(And(x, low + 2 * m)) == (if x % 2 == 1 && low == 1 then 1 else 0) + PopCount(And(x / 2, m))
  {
    var rest := And(x / 2, m);
    var head := if x % 2 == 1 && low == 1 then 1 else 0;
    if x != 0 && low + 2 * m != 0 {
      assert (low + 2 * m) % 2 == low && (low + 2 * m) / 2 == m;
      assert And(x, low + 2 * m) == head + 2 * rest;
    }
    assert PopCount(head + 2 * rest) == head + PopCount(rest);
  }

  lemma {:induction false} AndPow2(x: nat, i: nat)
    ensures PopCount(And(x, Pow2(i))) == Bit(x, i)
  {
    if i == 0 {
      CountStep(x, 0, 1);
    } else {
      CountStep(x, Pow2(i - 1), 0);
      AndPow2(x / 2, i - 1);
    }
  }

  lemma {:induction false} AndTwoPow2(x: nat, i: nat, j: nat)
    requires i < j
    ensures PopCount(And(x, Pow2(i) + Pow2(j))) == Bit(x, i) + Bit(x, j)
  {
    hide And, PopCount;
    if i == 0 {
      AndPow2(x / 2, j - 1);
      CountStep(x, Pow2(j - 1), 1);
      assert Pow2(i) + Pow2(j) == 1 + 2 * Pow2(j - 1);
    } else {
      AndTwoPow2(x / 2, i - 1, j - 1);
      var m := Pow2(i - 1) + Pow2(j - 1);
      CountStep(x, m, 0);
      assert Pow2(i) + Pow2(j) == 0 + 2 * m;
    }
  }

  lemma {:induction false} AndBound(x: nat, m: nat)
    ensures And(x, m) <= m
  {
    if x != 0 && m != 0 {
      AndBound(x / 2, m / 2);
    }
  }

  /** Setting bits above the ones already present is an addition. */
  lemma {:induction false} OrIsAdd(a: nat, k: nat, n: nat)
    requires a < Pow2(n)
    ensures Or(a, Shl(k, n)) == a + Shl(k, n)
  {
    if a != 0 && Shl(k, n) != 0 {
      OrIsAdd(a / 2, k, n - 1);
    }
  }

  /** The same with the fields the other way round. */
  lemma {:induction false} OrJoins(k: nat, a: nat, n: nat)
    requires a < Pow2(n)
    ensures Or(Shl(k, n), a) == Shl(k, n) + a
  {
    OrCommutes(Shl(k, n), a);
    OrIsAdd(a, k, n);
  }

  lemma {:induction false} OrCommutes(x: nat, y: nat)
    ensures Or(x, y) == Or(y, x)
  {
    if x != 0 && y != 0 {
      OrCommutes(x / 2, y / 2);
    }
  }

  /** A number is its lowest bit and twice the rest. */
  lemma {:induction false} Halves(x: nat)
    ensures x == 2 * (x / 2) + x % 2 && x % 2 <= 1
  {
  }

  /** What one more bit makes of a number. */
  lemma {:induction false} HalvesOf(b: nat, h: nat)
    requires b <= 1
    ensures (b + 2 * h) / 2 == h && (b + 2 * h) % 2 == b
  {
  }

  /** The lowest bit of a sum. */
  lemma {:induction false} LowestOfSum(x: nat, y: nat)
    ensures (x + y) % 2 == (x % 2 + y % 2) % 2
    ensures (x + y) % 2 + (if x % 2 == 1 && y % 2 == 1 then 2 else 0) == x % 2 + y % 2
  {
    Halves(x);
    Halves(y);
    assert x + y == 2 * (x / 2 + y / 2) + (x % 2 + y % 2);
  }

  lemma {:induction false} XorIsSum(x: nat, y: nat)
    ensures Xor(x, y) + 2 * And(x, y) == x + y
  {
    if x != 0 && y != 0 {
      XorIsSum(x / 2, y / 2);
      XorStep(x, y);
      Halves(x);
      Halves(y);
      LowestOfSum(x, y);
    }
  }

  lemma {:induction false} XorStep(x: nat, y: nat)
    requires x != 0 && y != 0
    ensures Xor(x, y) == (x + y) % 2 + 2 * Xor(x / 2, y / 2)
    ensures And(x, y) == (if x % 2 == 1 && y % 2 == 1 then 1 else 0) + 2 * And(x / 2, y / 2)
  {
  }

  /** Bit by bit, ^ is a sum modulo two. */
  lemma {:induction false} BitOfXor(x: nat, y: nat, i: nat)
    ensures Bit(Xor(x, y), i) == (Bit(x, i) + Bit(y, i)) % 2
  {
    hide And;
    NoBit(i);
    if x != 0 && y != 0 {
      var z, h := Xor(x, y), Xor(x / 2, y / 2);
      XorStep(x, y);
      HalvesOf((x + y) % 2, h);
      if i == 0 {
        LowestOfSum(x, y);
        assert Bit(z, 0) == z % 2;
      } else {
        BitOfXor(x / 2, y / 2, i - 1);
        assert Bit(z, i) == Bit(h, i - 1);
      }
    }
  }

  lemma {:induction false} NoBit(i: nat)
    ensures Bit(0, i) == 0
  {
    if i != 0 {
      NoBit(i - 1);
    }
  }

  /** Masking the low n bits is taking the remainder. */
  lemma {:induction false} MaskIsRemainder(x: nat, n: nat)
    ensures And(x, Pow2(n) - 1) == x % Pow2(n)
  {
    if n != 0 {
      var p := Pow2(n - 1);
      MaskIsRemainder(x / 2, n - 1);
      assert (Pow2(n) - 1) / 2 == p - 1 && (Pow2(n) - 1) % 2 == 1;
      if x != 0 {
        HalfRemainder(x, p);
      }
    }
  }

  lemma {:induction false} HalfRemainder(x: nat, p: nat)
    requires p > 0
    ensures x % (2 * p) == x % 2 + 2 * (x / 2 % p)
    ensures x / (2 * p) == x / 2 / p
  {
    var q, r := x / 2 / p, x / 2 % p;
    assert x / 2 == q * p + r;
    var d, rest := 2 * p, x % 2 + 2 * r;
    assert x == q * d + rest by {
      assert x == 2 * (q * p + r) + x % 2;
      assert 2 * (q * p) == q * d;
    }
    EuclideanDivision(x, q, rest, d);
  }

  lemma {:induction false} ShrIsQuotient(x: nat, n: nat)
    ensures Shr(x, n) == x / Pow2(n)
  {
    if n != 0 {
      ShrIsQuotient(x / 2, n - 1);
      HalfRemainder(x, Pow2(n - 1));
    }
  }

  lemma {:induction false} ShlIsProduct(x: nat, n: nat)
    ensures Shl(x, n) == x * Pow2(n)
  {
    if n != 0 {
      ShlIsProduct(x, n - 1);
      assert 2 * (x * Pow2(n - 1)) == x * (2 * Pow2(n - 1));
    }
  }

  /** Powers whose values the field layouts need. */
  lemma {:induction false} FieldPowers()
    ensures Pow2(2) == 4 && Pow2(4) == 16 && Pow2(6) == 64 && Pow2(8) == 256 && Pow2(14) == 0x4000
  {
    assert Pow2(10) == 0x400;
  }

  lemma {:induction false} AndEitherPow2(x: nat, i: nat, j: nat)
    requires i < j
    ensures PopCount(And(x, Or(Pow2(i), Pow2(j)))) == Bit(x, i) + Bit(x, j)
  {
    Pow2Strict(i, j);
    ShlOfOne(j);
    OrIsAdd(Pow2(i), 1, j);
    AndTwoPow2(x, i, j);
  }

  // ------------------------------------------------------------- logarithms

  /** The exponent of a power of two, -1 of anything else. */
  function Log2(v: nat): (log: int)
    ensures log >= -1
    ensures log >= 0 ==> v == Pow2(log)
  {
    if v == 0 then -1
    else if v == 1 then 0
    else if v % 2 == 1 || Log2(v / 2) < 0 then -1
    else Log2(v / 2) + 1
  }

  lemma {:induction false} Log2OfPow2(n: nat)
    ensures Log2(Pow2(n)) == n
  {
    if n != 0 {
      Log2OfPow2(n - 1);
    }
  }

  lemma {:induction false} AndSelf(x: nat)
    ensures And(x, x) == x
  {
    if x != 0 {
      AndSelf(x / 2);
    }
  }

  /** v & (v - 1) clears the lowest one bit: nothing is left of powers of two only. */
  lemma {:induction false} ClearingLowestBit(v: nat)
    requires v > 0
    ensures And(v, v - 1) == 0 <==> Log2(v) >= 0
  {
    if v > 1 {
      if v % 2 == 1 {
        assert And(v, v - 1) == 2 * And(v / 2, v / 2);
        AndSelf(v / 2);
      } else {
        assert (v - 1) / 2 == v / 2 - 1 && (v - 1) % 2 == 1;
        assert And(v, v - 1) == 2 * And(v / 2, v / 2 - 1);
        ClearingLowestBit(v / 2);
      }
    }
  }

  lemma {:induction false} ShrOfPow2(m: nat, n: nat)
    ensures Shr(Pow2(m), n) == if n <= m then Pow2(m - n) else 0
  {
    if n != 0 {
      if m != 0 {
        ShrOfPow2(m - 1, n - 1);
      } else {
        ShrOfZero(n - 1);
      }
    }
  }

  lemma {:induction false} ShrOfZero(n: nat)
    ensures Shr(0, n) == 0
  {
    if n != 0 {
      ShrOfZero(n - 1);
    }
  }

  // ------------------------------------------------- words from their bits

  /** The word whose bit i is bits[i]. */
  function FromBits(bits: seq<bool>): nat
  {
    if bits == [] then 0 else (if bits[0] then 1 else 0) + 2 * FromBits(bits[1..])
  }

  lemma {:induction false} FromBitsBound(bits: seq<bool>)
    ensures FromBits(bits) < Pow2(|bits|)
  {
    if bits != [] {
      FromBitsBound(bits[1..]);
    }
  }

  lemma {:induction false} FromBitsInjective(a: seq<bool>, b: seq<bool>)
    requires |a| == |b| && FromBits(a) == FromBits(b)
    ensures a == b
  {
    if a != [] {
      FromBitsInjective(a[1..], b[1..]);
      assert a == [a[0]] + a[1..] && b == [b[0]] + b[1..];
    }
  }

  /** Setting the next higher bit, as the loops over address bits do. */
  lemma {:induction false} FromBitsAppend(bits: seq<bool>, b: nat)
    requires b <= 1
    ensures Or(FromBits(bits), Shl(b, |bits|)) == FromBits(bits + [b == 1])
  {
    FromBitsBound(bits);
    OrIsAdd(FromBits(bits), b, |bits|);
    AddBit(bits, b);
  }

  lemma {:induction false} AddBit(bits: seq<bool>, b: nat)
    requires b <= 1
    ensures FromBits(bits + [b == 1]) == FromBits(bits) + Shl(b, |bits|)
  {
    if bits == [] {
      assert FromBits([b == 1]) == b + 2 * FromBits([]);
    } else {
      assert (bits + [b == 1])[1..] == bits[1..] + [b == 1];
      AddBit(bits[1..], b);
    }
  }

  /** Zero bits at the bottom make the word a multiple of a power of two. */
  lemma {:induction false} FromBitsMultiple(bits: seq<bool>, k: nat)
    requires k <= |bits| && forall i :: 0 <= i < k ==> !bits[i]
    ensures FromBits(bits) == Mul(FromBits(bits[k..]), Pow2(k))
  {
    var q := FromBits(bits[k..]);
    if k == 0 {
      assert bits[0..] == bits;
      MulIsProduct(q, 1);
    } else {
      assert bits[1..][k - 1..] == bits[k..];
      FromBitsMultiple(bits[1..], k - 1);
      MulCommutes(q, Pow2(k));
      DoubleMul(Pow2(k - 1), q);
      MulCommutes(q, Pow2(k - 1));
    }
  }
}
