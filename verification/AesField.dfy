/** What the AES tables are: GF(2^8) is bytes under Gmul, and the S-box takes a byte to an
    affine image of its inverse there (FIPS 197, sections 4.2 and 5.1.1). */
module AesField {
  import opened AesTables
  import opened Aes
  import opened AesModes

  /** Doubling moves every bit up and reduces by x^8 + x^4 + x^3 + x + 1. */
  lemma {:induction false} XtimeBits(x: Byte, j: nat)
    requires j < 8
    ensures BitOf(Xtime(x), j) ==
      ((j > 0 && BitOf(x, j - 1)) != (BitOf(x, 7) && (j == 0 || j == 1 || j == 3 || j == 4)))
  {
  }

  /** The first byte where bit k of the second is set. */
  function Taken(a: Byte, b: Byte, mask: Byte): Byte {
    if b & mask != 0 then a else 0
  }

  /** The product of two bytes: for every bit k of the second the first times x^k. */
  function Product(a: Byte, b: Byte): Byte {
    var a1 := Xtime(a);
    var a2 := Xtime(a1);
    var a3 := Xtime(a2);
    var a4 := Xtime(a3);
    var a5 := Xtime(a4);
    var a6 := Xtime(a5);
    var a7 := Xtime(a6);
    Xor(Taken(a, b, 0x01), Xor(Taken(a1, b, 0x02), Xor(Taken(a2, b, 0x04), Xor(Taken(a3, b, 0x08),
      Xor(Taken(a4, b, 0x10), Xor(Taken(a5, b, 0x20), Xor(Taken(a6, b, 0x40), Taken(a7, b, 0x80))))))))
  }

  /** The bits from k on. */
  function Rest(b: Byte, k: Byte): Byte
    requires k <= 8
  {
    match k
    case 0 => b
    case 1 => b >> 1
    case 2 => b >> 2
    case 3 => b >> 3
    case 4 => b >> 4
    case 5 => b >> 5
    case 6 => b >> 6
    case 7 => b >> 7
    case _ => 0
  }

  lemma {:induction false} RestStep(b: Byte, k: Byte, mask: Byte)
    requires k < 8 && mask == 1 << k
    ensures Rest(b, k) >> 1 == Rest(b, k + 1) && (Rest(b, k) & 1 == 1 <==> b & mask != 0)
  {
  }

  lemma {:induction false} GmulStep(a: Byte, b: Byte, k: Byte, mask: Byte)
    requires k < 8 && mask == 1 << k
    ensures Gmul(a, Rest(b, k)) == Xor(Taken(a, b, mask), Gmul(Xtime(a), Rest(b, k + 1)))
  {
    hide Xtime, Rest;
    var b' := Rest(b, k);
    RestStep(b, k, mask);
    if b' == 0 {
      XorZero(0);
    }
  }

  lemma {:induction false} XorZero(b: Byte)
    ensures Xor(b, 0) == b && Gmul(b, 0) == 0
  {
  }

  /** The shift-and-add product is that sum. */
  lemma {:induction false} GmulIsProduct(a: Byte, b: Byte)
    ensures Gmul(a, b) == Product(a, b)
  {
    hide Xtime, Xor, Taken, Gmul;
    var a1 := Xtime(a);
    var a2 := Xtime(a1);
    var a3 := Xtime(a2);
    var a4 := Xtime(a3);
    var a5 := Xtime(a4);
    var a6 := Xtime(a5);
    var a7 := Xtime(a6);
    assert Rest(b, 0) == b && Rest(b, 8) == 0;
    GmulStep(a, b, 0, 0x01);
    GmulStep(a1, b, 1, 0x02);
    GmulStep(a2, b, 2, 0x04);
    GmulStep(a3, b, 3, 0x08);
    GmulStep(a4, b, 4, 0x10);
    GmulStep(a5, b, 5, 0x20);
    GmulStep(a6, b, 6, 0x40);
    GmulStep(a7, b, 7, 0x80);
    XorZero(Taken(a7, b, 0x80));
    XorZero(Xtime(a7));
  }

  /** The byte plus its rotations by one to four bits, plus 63. */
  function Affine(i: Byte): Byte {
    i ^ ((i << 1) | (i >> 7)) ^ ((i << 2) | (i >> 6)) ^ ((i << 3) | (i >> 5)) ^ ((i << 4) | (i >> 4)) ^ 0x63
  }

  function InvAffine(s: Byte): Byte {
    ((s << 1) | (s >> 7)) ^ ((s << 3) | (s >> 5)) ^ ((s << 6) | (s >> 2)) ^ 0x05
  }

  lemma {:induction false} AffineIsUndone(s: Byte)
    ensures Affine(InvAffine(s)) == s
  {
  }

  lemma {:induction false} Row0(low: Byte)
    requires low < 16
    ensures low != 0 ==> Product(low, InvAffine(Sbox0(low))) == 1
    ensures low == 0 ==> InvAffine(Sbox0(low)) == 0
  {
    match low
    case 0 => case 1 => case 2 => case 3 => case 4 => case 5 => case 6 => case 7 =>
    case 8 => case 9 => case 10 => case 11 => case 12 => case 13 => case 14 => case _ =>
  }

  lemma {:induction false} Row1(low: Byte)
    requires low < 16
    ensures Product(low | 0x10, InvAffine(Sbox1(low))) == 1
  {
    match low
    case 0 => case 1 => case 2 => case 3 => case 4 => case 5 => case 6 => case 7 =>
    case 8 => case 9 => case 10 => case 11 => case 12 => case 13 => case 14 => case _ =>
  }

  lemma {:induction false} Row2(low: Byte)
    requires low < 16
    ensures Product(low | 0x20, InvAffine(Sbox2(low))) == 1
  {
    match low
    case 0 => case 1 => case 2 => case 3 => case 4 => case 5 => case 6 => case 7 =>
    case 8 => case 9 => case 10 => case 11 => case 12 => case 13 => case 14 => case _ =>
  }

  lemma {:induction false} Row3(low: Byte)
    requires low < 16
    ensures Product(low | 0x30, InvAffine(Sbox3(low))) == 1
  {
    match low
    case 0 => case 1 => case 2 => case 3 => case 4 => case 5 => case 6 => case 7 =>
    case 8 => case 9 => case 10 => case 11 => case 12 => case 13 => case 14 => case _ =>
  }

  lemma {:induction false} Row4(low: Byte)
    requires low < 16
    ensures Product(low | 0x40, InvAffine(Sbox4(low))) == 1
  {
    match low
    case 0 => case 1 => case 2 => case 3 => case 4 => case 5 => case 6 => case 7 =>
    case 8 => case 9 => case 10 => case 11 => case 12 => case 13 => case 14 => case _ =>
  }

  lemma {:induction false} Row5(low: Byte)
    requires low < 16
    ensures Product(low | 0x50, InvAffine(Sbox5(low))) == 1
  {
    match low
    case 0 => case 1 => case 2 => case 3 => case 4 => case 5 => case 6 => case 7 =>
    case 8 => case 9 => case 10 => case 11 => case 12 => case 13 => case 14 => case _ =>
  }

  lemma {:induction false} Row6(low: Byte)
    requires low < 16
    ensures Product(low | 0x60, InvAffine(Sbox6(low))) == 1
  {
    match low
    case 0 => case 1 => case 2 => case 3 => case 4 => case 5 => case 6 => case 7 =>
    case 8 => case 9 => case 10 => case 11 => case 12 => case 13 => case 14 => case _ =>
  }

  lemma {:induction false} Row7(low: Byte)
    requires low < 16
    ensures Product(low | 0x70, InvAffine(Sbox7(low))) == 1
  {
    match low
    case 0 => case 1 => case 2 => case 3 => case 4 => case 5 => case 6 => case 7 =>
    case 8 => case 9 => case 10 => case 11 => case 12 => case 13 => case 14 => case _ =>
  }

  lemma {:induction false} Row8(low: Byte)
    requires low < 16
    ensures Product(low | 0x80, InvAffine(Sbox8(low))) == 1
  {
    match low
    case 0 => case 1 => case 2 => case 3 => case 4 => case 5 => case 6 => case 7 =>
    case 8 => case 9 => case 10 => case 11 => case 12 => case 13 => case 14 => case _ =>
  }

  lemma {:induction false} Row9(low: Byte)
    requires low < 16
    ensures Product(low | 0x90, InvAffine(Sbox9(low))) == 1
  {
    match low
    case 0 => case 1 => case 2 => case 3 => case 4 => case 5 => case 6 => case 7 =>
    case 8 => case 9 => case 10 => case 11 => case 12 => case 13 => case 14 => case _ =>
  }

  lemma {:induction false} RowA(low: Byte)
    requires low < 16
    ensures Product(low | 0xa0, InvAffine(SboxA(low))) == 1
  {
    match low
    case 0 => case 1 => case 2 => case 3 => case 4 => case 5 => case 6 => case 7 =>
    case 8 => case 9 => case 10 => case 11 => case 12 => case 13 => case 14 => case _ =>
  }

  lemma {:induction false} RowB(low: Byte)
    requires low < 16
    ensures Product(low | 0xb0, InvAffine(SboxB(low))) == 1
  {
    match low
    case 0 => case 1 => case 2 => case 3 => case 4 => case 5 => case 6 => case 7 =>
    case 8 => case 9 => case 10 => case 11 => case 12 => case 13 => case 14 => case _ =>
  }

  lemma {:induction false} RowC(low: Byte)
    requires low < 16
    ensures Product(low | 0xc0, InvAffine(SboxC(low))) == 1
  {
    match low
    case 0 => case 1 => case 2 => case 3 => case 4 => case 5 => case 6 => case 7 =>
    case 8 => case 9 => case 10 => case 11 => case 12 => case 13 => case 14 => case _ =>
  }

  lemma {:induction false} RowD(low: Byte)
    requires low < 16
    ensures Product(low | 0xd0, InvAffine(SboxD(low))) == 1
  {
    match low
    case 0 => case 1 => case 2 => case 3 => case 4 => case 5 => case 6 => case 7 =>
    case 8 => case 9 => case 10 => case 11 => case 12 => case 13 => case 14 => case _ =>
  }

  lemma {:induction false} RowE(low: Byte)
    requires low < 16
    ensures Product(low | 0xe0, InvAffine(SboxE(low))) == 1
  {
    match low
    case 0 => case 1 => case 2 => case 3 => case 4 => case 5 => case 6 => case 7 =>
    case 8 => case 9 => case 10 => case 11 => case 12 => case 13 => case 14 => case _ =>
  }

  lemma {:induction false} RowF(low: Byte)
    requires low < 16
    ensures Product(low | 0xf0, InvAffine(SboxF(low))) == 1
  {
    match low
    case 0 => case 1 => case 2 => case 3 => case 4 => case 5 => case 6 => case 7 =>
    case 8 => case 9 => case 10 => case 11 => case 12 => case 13 => case 14 => case _ =>
  }

  /** The S-box entry of every byte is the affine image of its inverse, and of 0 at 0. */
  lemma {:induction false} SboxIsAffineInverse(x: Byte) returns (inverse: Byte)
    ensures Sbox(x) == Affine(inverse)
    ensures x == 0 ==> inverse == 0
    ensures x != 0 ==> Gmul(x, inverse) == 1
  {
    hide Product, Gmul, Affine, InvAffine, Sbox;
    inverse := InvAffine(Sbox(x));
    AffineIsUndone(Sbox(x));
    GmulIsProduct(x, inverse);
    ByRow(x, x & 15);
  }

  lemma {:induction false} ByRow(x: Byte, low: Byte)
    requires low == x & 15
    ensures x != 0 ==> Product(x, InvAffine(Sbox(x))) == 1
    ensures x == 0 ==> InvAffine(Sbox(x)) == 0
  {
    hide Product, InvAffine, InvSbox,
      Sbox0, Sbox1, Sbox2, Sbox3, Sbox4, Sbox5, Sbox6, Sbox7,
      Sbox8, Sbox9, SboxA, SboxB, SboxC, SboxD, SboxE, SboxF;
    assert low < 16;
    match x >> 4
    case 0 => Row0(low);
    case 1 => Row1(low);
    case 2 => Row2(low);
    case 3 => Row3(low);
    case 4 => Row4(low);
    case 5 => Row5(low);
    case 6 => Row6(low);
    case 7 => Row7(low);
    case 8 => Row8(low);
    case 9 => Row9(low);
    case 10 => RowA(low);
    case 11 => RowB(low);
    case 12 => RowC(low);
    case 13 => RowD(low);
    case 14 => RowE(low);
    case _ => RowF(low);
  }
}
