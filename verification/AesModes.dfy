/** ECB, CBC (NIST SP 800-38A) and XTS (IEEE 1619) on whole messages, and their round trips. */
module AesModes {
  import opened AesTables
  import opened Aes

  /** Whole blocks. */
  type Data = s: seq<Byte> | |s| % 16 == 0 witness []

  function XorBlocks(a: Block, b: Block): Block {
    seq(16, i requires 0 <= i < 16 => Xor(a[i], b[i]))
  }

  lemma {:induction false} XorBlocksTwice(a: Block, k: Block)
    ensures XorBlocks(XorBlocks(a, k), k) == a
  {
    hide Xor;
    forall i | 0 <= i < 16 ensures XorBlocks(XorBlocks(a, k), k)[i] == a[i] {
      XorTwice(a[i], k[i]);
    }
  }

  // ------------------------------------------------------------------- ECB

  function EcbEncrypted(key: Schedule, s: Data): (r: Data)
    ensures |r| == |s|
    decreases |s|
  {
    hide Encrypt, Decrypt, XorBlocks, DoubledTweak;
    if s == [] then [] else Encrypt(key, s[..16]) + EcbEncrypted(key, s[16..])
  }

  function EcbDecrypted(key: Schedule, s: Data): (r: Data)
    ensures |r| == |s|
    decreases |s|
  {
    hide Encrypt, Decrypt, XorBlocks, DoubledTweak;
    if s == [] then [] else Decrypt(key, s[..16]) + EcbDecrypted(key, s[16..])
  }

  lemma {:induction false} EcbRoundTrip(key: Schedule, s: Data)
    ensures EcbDecrypted(key, EcbEncrypted(key, s)) == s
    ensures EcbEncrypted(key, EcbDecrypted(key, s)) == s
  {
    hide Encrypt, Decrypt;
    if s != [] {
      DecryptOfEncrypt(key, s[..16]);
      EncryptOfDecrypt(key, s[..16]);
      EcbRoundTrip(key, s[16..]);
      var e, d := EcbEncrypted(key, s), EcbDecrypted(key, s);
      assert e[..16] == Encrypt(key, s[..16]) && e[16..] == EcbEncrypted(key, s[16..]);
      assert d[..16] == Decrypt(key, s[..16]) && d[16..] == EcbDecrypted(key, s[16..]);
      assert s[..16] + s[16..] == s;
    }
  }

  // ------------------------------------------------------------------- CBC

  function CbcEncrypted(key: Schedule, chain: Block, s: Data): (r: Data)
    ensures |r| == |s|
    decreases |s|
  {
    hide Encrypt, Decrypt, XorBlocks, DoubledTweak;
    if s == [] then []
    else var c := Encrypt(key, XorBlocks(s[..16], chain)); c + CbcEncrypted(key, c, s[16..])
  }

  function CbcDecrypted(key: Schedule, chain: Block, s: Data): (r: Data)
    ensures |r| == |s|
    decreases |s|
  {
    hide Encrypt, Decrypt, XorBlocks, DoubledTweak;
    if s == [] then []
    else XorBlocks(Decrypt(key, s[..16]), chain) + CbcDecrypted(key, s[..16], s[16..])
  }

  lemma {:induction false} CbcRoundTrip(key: Schedule, iv: Block, s: Data)
    ensures CbcDecrypted(key, iv, CbcEncrypted(key, iv, s)) == s
    ensures CbcEncrypted(key, iv, CbcDecrypted(key, iv, s)) == s
    decreases |s|
  {
    hide Encrypt, Decrypt, XorBlocks;
    if s != [] {
      var x := XorBlocks(s[..16], iv);
      var c := Encrypt(key, x);
      DecryptOfEncrypt(key, x);
      XorBlocksTwice(s[..16], iv);
      CbcRoundTrip(key, c, s[16..]);
      var e := CbcEncrypted(key, iv, s);
      assert e[..16] == c && e[16..] == CbcEncrypted(key, c, s[16..]);
      var p := Decrypt(key, s[..16]);
      EncryptOfDecrypt(key, s[..16]);
      XorBlocksTwice(p, iv);
      CbcRoundTrip(key, s[..16], s[16..]);
      var d := CbcDecrypted(key, iv, s);
      assert d[..16] == XorBlocks(p, iv) && d[16..] == CbcDecrypted(key, s[..16], s[16..]);
      assert s[..16] + s[16..] == s;
    }
  }

  // ------------------------------------------------------------------- XTS

  /** One byte of a doubled tweak: its own bits moved up, the top bit of the byte below
      moved in, and the reduction in the lowest byte. */
  function DoubledByte(tweak: Block, i: nat): Byte
    requires i < 16
  {
    var moved := (tweak[i] << 1) | (if i == 0 then 0 else tweak[i - 1] >> 7);
    if i == 0 && tweak[15] >> 7 != 0 then moved ^ 0x87 else moved
  }

  /** The tweak multiplied by x. */
  function DoubledTweak(tweak: Block): Block {
    seq(16, i requires 0 <= i < 16 => DoubledByte(tweak, i))
  }

  /** The coefficient of x^j, least significant bit of the first byte first. */
  function Coefficient(tweak: Block, j: nat): bool
    requires j < 128
  {
    BitOf(tweak[j / 8], j % 8)
  }

  function BitOf(b: Byte, k: nat): bool
    requires k < 8
  {
    match k
    case 0 => b & 0x01 != 0
    case 1 => b & 0x02 != 0
    case 2 => b & 0x04 != 0
    case 3 => b & 0x08 != 0
    case 4 => b & 0x10 != 0
    case 5 => b & 0x20 != 0
    case 6 => b & 0x40 != 0
    case _ => b & 0x80 != 0
  }

  /** Moving a byte up by one bit, with a bit coming in from below. */
  lemma {:induction false} MovedBits(b: Byte, below: Byte, k: nat)
    requires k < 8
    ensures BitOf((b << 1) | (below >> 7), k) == if k == 0 then BitOf(below, 7) else BitOf(b, k - 1)
  {
  }

  lemma {:induction false} MovedLowest(b: Byte, k: nat)
    requires k < 8
    ensures BitOf((b << 1) | 0, k) == (k != 0 && BitOf(b, k - 1))
    ensures BitOf(((b << 1) | 0) ^ 0x87, k) == ((k != 0 && BitOf(b, k - 1)) != (k == 0 || k == 1 || k == 2 || k == 7))
  {
  }

  lemma {:induction false} TopBit(b: Byte)
    ensures b >> 7 != 0 <==> BitOf(b, 7)
  {
  }

  /** Doubling multiplies the polynomial by x modulo x^128 + x^7 + x^2 + x + 1. */
  lemma {:induction false} DoublingTimesX(tweak: Block, j: nat)
    requires j < 128
    ensures Coefficient(DoubledTweak(tweak), j) ==
      ((j > 0 && Coefficient(tweak, j - 1)) != (Coefficient(tweak, 127) && (j == 0 || j == 1 || j == 2 || j == 7)))
  {
    hide BitOf;
    var i, k := j / 8, j % 8;
    TopBit(tweak[15]);
    if i == 0 {
      MovedLowest(tweak[0], k);
      assert k != 0 ==> (j - 1) / 8 == 0 && (j - 1) % 8 == k - 1;
    } else {
      MovedBits(tweak[i], tweak[i - 1], k);
      assert k != 0 ==> (j - 1) / 8 == i && (j - 1) % 8 == k - 1;
      assert k == 0 ==> (j - 1) / 8 == i - 1 && (j - 1) % 8 == 7;
    }
  }

  function XtsEncrypted(key: Schedule, tweak: Block, s: Data): (r: Data)
    ensures |r| == |s|
    decreases |s|
  {
    hide Encrypt, Decrypt, XorBlocks, DoubledTweak;
    if s == [] then []
    else XorBlocks(Encrypt(key, XorBlocks(s[..16], tweak)), tweak) + XtsEncrypted(key, DoubledTweak(tweak), s[16..])
  }

  function XtsDecrypted(key: Schedule, tweak: Block, s: Data): (r: Data)
    ensures |r| == |s|
    decreases |s|
  {
    hide Encrypt, Decrypt, XorBlocks, DoubledTweak;
    if s == [] then []
    else XorBlocks(Decrypt(key, XorBlocks(s[..16], tweak)), tweak) + XtsDecrypted(key, DoubledTweak(tweak), s[16..])
  }

  /** The first tweak is the encrypted data unit number, under the second key. */
  function XtsEncryptedUnit(key1: Schedule, key2: Schedule, unit: Block, s: Data): Data {
    XtsEncrypted(key1, Encrypt(key2, unit), s)
  }

  function XtsDecryptedUnit(key1: Schedule, key2: Schedule, unit: Block, s: Data): Data {
    XtsDecrypted(key1, Encrypt(key2, unit), s)
  }

  lemma {:induction false} XtsRoundTrip(key: Schedule, tweak: Block, s: Data)
    ensures XtsDecrypted(key, tweak, XtsEncrypted(key, tweak, s)) == s
    ensures XtsEncrypted(key, tweak, XtsDecrypted(key, tweak, s)) == s
    decreases |s|
  {
    hide Encrypt, Decrypt, XorBlocks, DoubledTweak;
    if s != [] {
      var x := XorBlocks(s[..16], tweak);
      XorBlocksTwice(s[..16], tweak);
      XorBlocksTwice(Encrypt(key, x), tweak);
      DecryptOfEncrypt(key, x);
      XorBlocksTwice(Decrypt(key, x), tweak);
      EncryptOfDecrypt(key, x);
      XtsRoundTrip(key, DoubledTweak(tweak), s[16..]);
      var e, d := XtsEncrypted(key, tweak, s), XtsDecrypted(key, tweak, s);
      assert e[..16] == XorBlocks(Encrypt(key, x), tweak) && e[16..] == XtsEncrypted(key, DoubledTweak(tweak), s[16..]);
      assert d[..16] == XorBlocks(Decrypt(key, x), tweak) && d[16..] == XtsDecrypted(key, DoubledTweak(tweak), s[16..]);
      assert s[..16] + s[16..] == s;
    }
  }

  lemma {:induction false} XtsUnitRoundTrip(key1: Schedule, key2: Schedule, unit: Block, s: Data)
    ensures XtsDecryptedUnit(key1, key2, unit, XtsEncryptedUnit(key1, key2, unit, s)) == s
    ensures XtsEncryptedUnit(key1, key2, unit, XtsDecryptedUnit(key1, key2, unit, s)) == s
  {
    hide Encrypt, XtsEncrypted, XtsDecrypted;
    XtsRoundTrip(key1, Encrypt(key2, unit), s);
  }

  // -------------------------------------------------------- block by block

  function BlockAt(s: Data, i: nat): Block
    requires 16 * i + 16 <= |s|
  {
    s[16 * i..16 * i + 16]
  }

  /** Block i of a message is block i - 1 of its tail. */
  lemma {:induction false} TailBlock(head: Block, tail: Data, i: nat)
    requires 16 * i + 16 <= |head + tail|
    ensures |head + tail| % 16 == 0
    ensures BlockAt(head + tail, i) == if i == 0 then head else BlockAt(tail, i - 1)
  {
  }

  lemma {:induction false} SplitBlock(s: Data, i: nat)
    requires 16 * i + 16 <= |s|
    ensures BlockAt(s, i) == if i == 0 then s[..16] else BlockAt(s[16..], i - 1)
  {
  }

  /** ECB takes every block by itself. */
  lemma {:induction false} EcbBlocks(key: Schedule, s: Data, i: nat)
    requires 16 * i + 16 <= |s|
    ensures BlockAt(EcbEncrypted(key, s), i) == Encrypt(key, BlockAt(s, i))
    ensures BlockAt(EcbDecrypted(key, s), i) == Decrypt(key, BlockAt(s, i))
    decreases i
  {
    hide Encrypt, Decrypt, BlockAt;
    SplitBlock(s, i);
    TailBlock(Encrypt(key, s[..16]), EcbEncrypted(key, s[16..]), i);
    TailBlock(Decrypt(key, s[..16]), EcbDecrypted(key, s[16..]), i);
    if i > 0 {
      EcbBlocks(key, s[16..], i - 1);
    }
  }

  /** CBC adds the ciphertext block before, and the vector to the first, to the plaintext. */
  lemma {:induction false} CbcBlocks(key: Schedule, iv: Block, s: Data, i: nat)
    requires 16 * i + 16 <= |s|
    ensures var c := CbcEncrypted(key, iv, s);
      BlockAt(c, i) == Encrypt(key, XorBlocks(BlockAt(s, i), if i == 0 then iv else BlockAt(c, i - 1)))
    ensures BlockAt(CbcDecrypted(key, iv, s), i) ==
      XorBlocks(Decrypt(key, BlockAt(s, i)), if i == 0 then iv else BlockAt(s, i - 1))
    decreases i
  {
    hide Encrypt, Decrypt, BlockAt, XorBlocks;
    var c := Encrypt(key, XorBlocks(s[..16], iv));
    SplitBlock(s, i);
    TailBlock(c, CbcEncrypted(key, c, s[16..]), i);
    TailBlock(XorBlocks(Decrypt(key, s[..16]), iv), CbcDecrypted(key, s[..16], s[16..]), i);
    if i > 0 {
      SplitBlock(s, i - 1);
      TailBlock(c, CbcEncrypted(key, c, s[16..]), i - 1);
      CbcBlocks(key, c, s[16..], i - 1);
      CbcBlocks(key, s[..16], s[16..], i - 1);
    }
  }

  /** The tweak of block i: the first one times x^i. */
  function TweakAt(tweak: Block, i: nat): Block {
    if i == 0 then tweak else DoubledTweak(TweakAt(tweak, i - 1))
  }

  lemma {:induction false} LaterTweak(tweak: Block, i: nat)
    ensures TweakAt(DoubledTweak(tweak), i) == TweakAt(tweak, i + 1)
  {
    hide DoubledTweak;
    if i > 0 {
      LaterTweak(tweak, i - 1);
    }
  }

  /** XTS adds the tweak of a block to it before and after the cipher. */
  lemma {:induction false} XtsBlocks(key: Schedule, tweak: Block, s: Data, i: nat)
    requires 16 * i + 16 <= |s|
    ensures var t := TweakAt(tweak, i);
      && BlockAt(XtsEncrypted(key, tweak, s), i) == XorBlocks(Encrypt(key, XorBlocks(BlockAt(s, i), t)), t)
      && BlockAt(XtsDecrypted(key, tweak, s), i) == XorBlocks(Decrypt(key, XorBlocks(BlockAt(s, i), t)), t)
    decreases i
  {
    hide Encrypt, Decrypt, BlockAt, XorBlocks, DoubledTweak;
    SplitBlock(s, i);
    var x := XorBlocks(s[..16], tweak);
    TailBlock(XorBlocks(Encrypt(key, x), tweak), XtsEncrypted(key, DoubledTweak(tweak), s[16..]), i);
    TailBlock(XorBlocks(Decrypt(key, x), tweak), XtsDecrypted(key, DoubledTweak(tweak), s[16..]), i);
    if i > 0 {
      XtsBlocks(key, DoubledTweak(tweak), s[16..], i - 1);
      LaterTweak(tweak, i - 1);
    }
  }

  /** A data unit: the tweak comes from its number under the second key, the blocks go
      through the first. */
  lemma {:induction false} XtsUnitBlocks(key1: Schedule, key2: Schedule, unit: Block, s: Data, i: nat)
    requires 16 * i + 16 <= |s|
    ensures |XtsEncryptedUnit(key1, key2, unit, s)| == |s| == |XtsDecryptedUnit(key1, key2, unit, s)|
    ensures var t := TweakAt(Encrypt(key2, unit), i);
      && BlockAt(XtsEncryptedUnit(key1, key2, unit, s), i)
           == XorBlocks(Encrypt(key1, XorBlocks(BlockAt(s, i), t)), t)
      && BlockAt(XtsDecryptedUnit(key1, key2, unit, s), i)
           == XorBlocks(Decrypt(key1, XorBlocks(BlockAt(s, i), t)), t)
  {
    hide Encrypt, Decrypt, BlockAt, XorBlocks, XtsEncrypted, XtsDecrypted, TweakAt;
    XtsBlocks(key1, Encrypt(key2, unit), s, i);
  }
}
