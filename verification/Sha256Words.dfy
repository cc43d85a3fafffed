/** The word functions of SHA-256 bit by bit (FIPS 180-4, sections 3.2 and 4.1.2). */
module Sha256Words {
  import Bits
  import opened Sha256

  function WordBit(x: Word, i: Word): bool
    requires i < 32
  {
    (x >> i) & 1 == 1
  }

  /** Ch takes the bits of y where x has ones and those of z elsewhere. */
  lemma {:induction false} ChChooses(x: Word, y: Word, z: Word)
    ensures Ch(x, y, z) & x == y & x && Ch(x, y, z) & !x == z & !x
  {
  }

  /** Maj has a one where two of the three words do. */
  lemma {:induction false} MajIsMajority(x: Word, y: Word, z: Word)
    ensures Maj(x, y, z) == (x & y) | (x & z) | (y & z)
  {
  }

  // -------------------------------------------------------------- rotation

  function Right(x: Word, n: Word): Word
    requires n < 32
  {
    x >> n
  }

  function Left(x: Word, n: Word): Word
    requires n < 32
  {
    x << n
  }

  function Either(x: Word, y: Word): Word {
    x | y
  }

  /** The rotation with a word as its count. */
  function Rotated(x: Word, n: Word): Word
    requires 0 < n < 32
  {
    Either(Right(x, n), Left(x, 32 - n))
  }

  lemma {:induction false} BitOfRight(x: Word, n: Word, i: Word)
    requires n < 32 && i < 32
    ensures i + n < 32 ==> WordBit(Right(x, n), i) == WordBit(x, i + n)
    ensures i + n >= 32 ==> !WordBit(Right(x, n), i)
  {
  }

  lemma {:induction false} BitOfShiftedLeft(x: Word, n: Word, i: Word)
    requires n <= i < 32
    ensures WordBit(x << n, i) == WordBit(x, i - n)
  {
  }

  lemma {:induction false} BitOfLeft(x: Word, n: Word, i: Word)
    requires n <= i < 32
    ensures WordBit(Left(x, n), i) == WordBit(x, i - n)
  {
    hide WordBit;
    BitOfShiftedLeft(x, n, i);
  }

  lemma {:induction false} LowBitsOfLeft(x: Word, n: Word, i: Word)
    requires i < n < 32
    ensures !WordBit(Left(x, n), i)
  {
  }

  lemma {:induction false} BitOfEither(x: Word, y: Word, i: Word)
    requires i < 32
    ensures WordBit(Either(x, y), i) == (WordBit(x, i) || WordBit(y, i))
  {
  }

  lemma {:induction false} CountAsWord(n: nat)
    requires 0 < n < 32
    ensures 0 < n as Word < 32
  {
    match n
    case 1 => case 2 => case 3 => case 4 => case 5 => case 6 => case 7 => case 8 =>
    case 9 => case 10 => case 11 => case 12 => case 13 => case 14 => case 15 => case 16 =>
    case 17 => case 18 => case 19 => case 20 => case 21 => case 22 => case 23 => case 24 =>
    case 25 => case 26 => case 27 => case 28 => case 29 => case 30 => case _ =>
  }

  function Shifted(x: Word, n: Word): Word
    requires 0 < n < 32
  {
    (x >> n) | (x << (32 - n))
  }

  lemma {:induction false} SmallRotation(x: Word, n: nat)
    requires 0 < n < 16
    ensures 0 < n as Word < 32 && Rotr(x, n) == Shifted(x, n as Word)
  {
    match n
    case 1 => case 2 => case 3 => case 4 => case 5 => case 6 => case 7 => case 8 =>
    case 9 => case 10 => case 11 => case 12 => case 13 => case 14 => case 15 =>
  }

  lemma {:induction false} LargeRotation(x: Word, n: nat)
    requires 16 <= n < 24
    ensures 0 < n as Word < 32 && Rotr(x, n) == Shifted(x, n as Word)
  {
    match n
    case 16 => case 17 => case 18 => case 19 => case 20 => case 21 => case 22 => case 23 =>
  }

  lemma {:induction false} LargestRotation(x: Word, n: nat)
    requires 24 <= n < 32
    ensures 0 < n as Word < 32 && Rotr(x, n) == Shifted(x, n as Word)
  {
    match n
    case 24 => case 25 => case 26 => case 27 => case 28 => case 29 => case 30 => case 31 =>
  }

  lemma {:induction false} RotrIsShifts(x: Word, n: nat)
    requires 0 < n < 32
    ensures 0 < n as Word < 32 && Rotr(x, n) == Shifted(x, n as Word)
  {
    hide Rotr, Shifted;
    if n < 16 {
      SmallRotation(x, n);
    } else if n < 24 {
      LargeRotation(x, n);
    } else {
      LargestRotation(x, n);
    }
  }

  lemma {:induction false} RotrIsRotated(x: Word, n: nat)
    requires 0 < n < 32
    ensures 0 < n as Word < 32 && Rotr(x, n) == Rotated(x, n as Word)
  {
    hide Rotr;
    RotrIsShifts(x, n);
  }

  lemma {:induction false} RotatedMovesBits(x: Word, n: Word, i: Word)
    requires 0 < n < 32 && i < 32
    ensures WordBit(Rotated(x, n), i) == WordBit(x, if i + n < 32 then i + n else i + n - 32)
  {
    hide WordBit, Right, Left, Either;
    BitOfRight(x, n, i);
    BitOfEither(Right(x, n), Left(x, 32 - n), i);
    if i + n < 32 {
      LowBitsOfLeft(x, 32 - n, i);
    } else {
      BitOfLeft(x, 32 - n, i);
    }
  }

  /** Rotating right by n moves the bit at i + n, modulo 32, to i. */
  lemma {:induction false} RotrMovesBits(x: Word, n: nat, i: Word)
    requires 0 < n < 32 && i < 32
    ensures var from := i + n as Word; WordBit(Rotr(x, n), i) == WordBit(x, if from < 32 then from else from - 32)
  {
    hide WordBit, Rotated, Rotr;
    RotrIsRotated(x, n);
    RotatedMovesBits(x, n as Word, i);
  }

  // ---------------------------------------------------------------- bytes

  /** The bytes of a word, most significant first. */
  function Bytes(word: Word): seq<Byte> {
    [((word >> 24) & 0xFF) as Byte, ((word >> 16) & 0xFF) as Byte, ((word >> 8) & 0xFF) as Byte, (word & 0xFF) as Byte]
  }

  lemma {:induction false} ByteOfWord(word: Word, k: nat)
    requires k < 4
    ensures WordByte(word, k) == Bytes(word)[k]
  {
  }

  // ---------------------------------------------------------------- length

  /** The number eight bytes spell, most significant first. */
  function BigEndian(s: seq<Byte>): nat {
    if s == [] then 0 else BigEndian(s[..|s| - 1]) * 256 + s[|s| - 1] as nat
  }

  /** The padding ends in the message length in bits. */
  lemma {:induction false} LengthIsBigEndian(bits: nat)
    requires bits < 0x1_0000_0000_0000_0000
    ensures BigEndian(LengthBytes(bits)) == bits
  {
    hide Scale, BigEndian;
    assert LengthBytes(bits)[..8] == LengthBytes(bits);
    assert Scale(0) == 1 by { Scales(); }
    LeadingBytes(bits, 8);
  }

  lemma {:induction false} Scales()
    ensures Scale(0) == 1 && Scale(8) == 0x1_0000_0000_0000_0000
  {
    assert Scale(4) == 0x1_0000_0000;
  }

  lemma {:induction false} LeadingBytes(bits: nat, n: nat)
    requires n <= 8 && bits < 0x1_0000_0000_0000_0000
    ensures BigEndian(LengthBytes(bits)[..n]) == bits / Scale(8 - n)
  {
    hide Scale, LengthByte;
    var s := LengthBytes(bits);
    if n == 0 {
      Scales();
    } else {
      LeadingBytes(bits, n - 1);
      assert s[..n][..n - 1] == s[..n - 1] && s[..n][n - 1] == LengthByte(bits, n - 1);
      ByteIs(bits, n - 1);
      NextByte(bits, 8 - n);
    }
  }

  lemma {:induction false} ByteIs(bits: nat, i: nat)
    requires i < 8
    ensures LengthByte(bits, i) as nat == bits / Scale(7 - i) % 256
  {
    hide Scale;
    CastBack(bits / Scale(7 - i) % 256);
  }

  lemma {:induction false} CastBack(v: nat)
    requires v < 256
    ensures (v as Byte) as nat == v
  {
    var b := ByteOf(v);
  }

  lemma {:induction false} ByteOf(v: nat) returns (b: Byte)
    requires v < 256
    ensures b as nat == v
  {
    if v == 0 {
      b := 0;
    } else {
      var c := ByteOf(v - 1);
      OneMore(c);
      b := c + 1;
    }
  }

  lemma {:induction false} OneMore(c: Byte)
    requires c < 255
    ensures (c + 1) as nat == c as nat + 1
  {
  }

  /** Dividing by 256 once more drops the last byte. */
  lemma {:induction false} NextByte(bits: nat, k: nat)
    ensures bits / Scale(k) == bits / Scale(k + 1) * 256 + bits / Scale(k) % 256
  {
    var d := Scale(k);
    assert Scale(k + 1) == 256 * d;
    DropDigit(bits, bits / d, bits % d, d, 256 * d);
  }

  lemma {:induction false} DropDigit(bits: nat, x: nat, low: nat, d: nat, large: nat)
    requires low < d && bits == x * d + low && large == 256 * d
    ensures bits / large == x / 256
  {
    Digits(x, low, d);
    Bits.EuclideanDivision(bits, x / 256, x % 256 * d + low, large);
  }

  lemma {:induction false} Digits(x: nat, low: nat, d: nat)
    requires low < d
    ensures x * d + low == x / 256 * (256 * d) + (x % 256 * d + low) && x % 256 * d + low < 256 * d
  {
    var h, l := x / 256, x % 256;
    Bits.ProductsDistribute(h * 256, l, d);
    Bits.ProductsAssociate(h, 256, d);
    Bits.ProductsDistribute(l, 255 - l, d);
    assert h * 256 + l == x;
  }
}
