/** SHA-256 (FIPS 180-4): the compression function, padding, and the hash of a message. */
module Sha256 {
  import opened Basics
  type Byte = bv8
  type Word = bv32

  /** The eight working words. */
  datatype Hash = Hash(a: Word, b: Word, c: Word, d: Word, e: Word, f: Word, g: Word, h: Word)

  type Chunk = s: seq<Byte> | |s| == 64 witness seq(64, _ => 0)

  /** Section 5.3.3. */
  function Initial(): Hash {
    Hash(0x6a09e667, 0xbb67ae85, 0x3c6ef372, 0xa54ff53a, 0x510e527f, 0x9b05688c, 0x1f83d9ab, 0x5be0cd19)
  }

  /** The round constants (section 4.2.2). */
  function K(t: nat): Word
    requires t < 64
  {
    match t
    case 0 => 0x428a2f98 case 1 => 0x71374491 case 2 => 0xb5c0fbcf case 3 => 0xe9b5dba5
    case 4 => 0x3956c25b case 5 => 0x59f111f1 case 6 => 0x923f82a4 case 7 => 0xab1c5ed5
    case 8 => 0xd807aa98 case 9 => 0x12835b01 case 10 => 0x243185be case 11 => 0x550c7dc3
    case 12 => 0x72be5d74 case 13 => 0x80deb1fe case 14 => 0x9bdc06a7 case 15 => 0xc19bf174
    case 16 => 0xe49b69c1 case 17 => 0xefbe4786 case 18 => 0x0fc19dc6 case 19 => 0x240ca1cc
    case 20 => 0x2de92c6f case 21 => 0x4a7484aa case 22 => 0x5cb0a9dc case 23 => 0x76f988da
    case 24 => 0x983e5152 case 25 => 0xa831c66d case 26 => 0xb00327c8 case 27 => 0xbf597fc7
    case 28 => 0xc6e00bf3 case 29 => 0xd5a79147 case 30 => 0x06ca6351 case 31 => 0x14292967
    case 32 => 0x27b70a85 case 33 => 0x2e1b2138 case 34 => 0x4d2c6dfc case 35 => 0x53380d13
    case 36 => 0x650a7354 case 37 => 0x766a0abb case 38 => 0x81c2c92e case 39 => 0x92722c85
    case 40 => 0xa2bfe8a1 case 41 => 0xa81a664b case 42 => 0xc24b8b70 case 43 => 0xc76c51a3
    case 44 => 0xd192e819 case 45 => 0xd6990624 case 46 => 0xf40e3585 case 47 => 0x106aa070
    case 48 => 0x19a4c116 case 49 => 0x1e376c08 case 50 => 0x2748774c case 51 => 0x34b0bcb5
    case 52 => 0x391c0cb3 case 53 => 0x4ed8aa4a case 54 => 0x5b9cca4f case 55 => 0x682e6ff3
    case 56 => 0x748f82ee case 57 => 0x78a5636f case 58 => 0x84c87814 case 59 => 0x8cc70208
    case 60 => 0x90befffa case 61 => 0xa4506ceb case 62 => 0xbef9a3f7 case _ => 0xc67178f2
  }

  // ------------------------------------------ the logical functions, section 4.1.2

  /** Addition modulo 2^32. */
  function Add(x: Word, y: Word): Word {
    x + y
  }

  function Rotr(x: Word, n: nat): Word
    requires 0 < n < 32
  {
    (x >> n) | (x << (32 - n))
  }

  function Ch(x: Word, y: Word, z: Word): Word {
    (x & y) ^ (!x & z)
  }

  function Maj(x: Word, y: Word, z: Word): Word {
    (x & y) ^ (x & z) ^ (y & z)
  }

  function Xor3(x: Word, y: Word, z: Word): Word {
    x ^ y ^ z
  }

  function BigSigma0(x: Word): Word {
    Xor3(Rotr(x, 2), Rotr(x, 13), Rotr(x, 22))
  }

  function BigSigma1(x: Word): Word {
    Xor3(Rotr(x, 6), Rotr(x, 11), Rotr(x, 25))
  }

  function SmallSigma0(x: Word): Word {
    Xor3(Rotr(x, 7), Rotr(x, 18), x >> 3)
  }

  function SmallSigma1(x: Word): Word {
    Xor3(Rotr(x, 17), Rotr(x, 19), x >> 10)
  }

  // ------------------------------------------------------ one block, section 6.2.2

  /** Four bytes, most significant first. */
  function WordAt(block: Chunk, t: nat): Word
    requires t < 16
  {
    ((block[4 * t] as Word) << 24) | ((block[4 * t + 1] as Word) << 16) | ((block[4 * t + 2] as Word) << 8)
      | (block[4 * t + 3] as Word)
  }

  /** The message schedule, summed from the oldest word on. */
  function W(block: Chunk, t: nat): Word
    requires t < 64
  {
    if t < 16 then WordAt(block, t)
    else Add(Add(Add(W(block, t - 16), SmallSigma0(W(block, t - 15))), W(block, t - 7)), SmallSigma1(W(block, t - 2)))
  }

  function Round(s: Hash, k: Word, w: Word): Hash {
    var t1 := Add(Add(Add(Add(s.h, BigSigma1(s.e)), Ch(s.e, s.f, s.g)), k), w);
    var t2 := Add(BigSigma0(s.a), Maj(s.a, s.b, s.c));
    Hash(Add(t1, t2), s.a, s.b, s.c, Add(s.d, t1), s.e, s.f, s.g)
  }

  /** The working words behind n rounds. */
  function Rounds(s: Hash, block: Chunk, n: nat): Hash
    requires n <= 64
  {
    if n == 0 then s else Round(Rounds(s, block, n - 1), K(n - 1), W(block, n - 1))
  }

  function Sum(s: Hash, t: Hash): Hash {
    Hash(Add(s.a, t.a), Add(s.b, t.b), Add(s.c, t.c), Add(s.d, t.d), Add(s.e, t.e), Add(s.f, t.f), Add(s.g, t.g),
      Add(s.h, t.h))
  }

  function Compressed(s: Hash, block: Chunk): Hash {
    Sum(s, Rounds(s, block, 64))
  }

  /** The hash behind a whole number of blocks. */
  function HashOfBlocks(m: seq<Byte>): Hash
    requires |m| % 64 == 0
  {
    hide Compressed;
    if m == [] then Initial() else Compressed(HashOfBlocks(m[..|m| - 64]), m[|m| - 64..])
  }

  // ------------------------------------------------------- padding, section 5.1.1

  /** The zero bytes that bring the length to 56 modulo 64. */
  function ZeroCount(length: nat): (k: nat)
    ensures k < 64 && (length + 1 + k) % 64 == 56
  {
    (119 - length % 64) % 64
  }

  lemma {:induction false} ZeroCountIsLeast(length: nat, j: nat)
    requires (length + 1 + j) % 64 == 56
    ensures ZeroCount(length) <= j
  {
    var q := length / 64;
    assert length % 64 == length - 64 * q;
  }

  function Zeros(n: nat): (z: seq<Byte>)
    ensures |z| == n
  {
    seq(n, _ => 0)
  }

  /** 256 to the n. */
  function Scale(n: nat): (p: nat)
    ensures p > 0
  {
    if n == 0 then 1 else 256 * Scale(n - 1)
  }

  /** Byte i of a 64-bit number, most significant first. */
  function LengthByte(bits: nat, i: nat): Byte
    requires i < 8
  {
    (bits / Scale(7 - i) % 256) as Byte
  }

  function LengthBytes(bits: nat): (s: seq<Byte>)
    ensures |s| == 8
  {
    seq(8, i requires 0 <= i < 8 => LengthByte(bits, i))
  }

  /** The message length in bits; the counter holds it modulo 2^64. */
  function BitLength(length: nat): nat {
    length * 8 % U64_LIMIT
  }

  lemma {:induction false} PaddingFits(length: nat, k: nat)
    requires (length + 1 + k) % 64 == 56
    ensures (length + (1 + k + 8)) % 64 == 0
  {
  }

  function Padding(length: nat): (p: seq<Byte>)
    ensures (length + |p|) % 64 == 0
  {
    hide LengthBytes, Zeros;
    PaddingFits(length, ZeroCount(length));
    [0x80] + Zeros(ZeroCount(length)) + LengthBytes(BitLength(length))
  }

  function Padded(m: seq<Byte>): (p: seq<Byte>)
    ensures |p| % 64 == 0
  {
    hide Padding;
    m + Padding(|m|)
  }

  function DigestByte(s: Hash, i: nat): Byte
    requires i < 32
  {
    WordByte(WordOf(s, i / 4), i % 4)
  }

  function WordOf(s: Hash, k: nat): Word
    requires k < 8
  {
    if k == 0 then s.a else if k == 1 then s.b else if k == 2 then s.c else if k == 3 then s.d
    else if k == 4 then s.e else if k == 5 then s.f else if k == 6 then s.g else s.h
  }

  /** Byte k of a word, most significant first. */
  function WordByte(word: Word, k: nat): Byte
    requires k < 4
  {
    match k
    case 0 => ((word >> 24) & 0xFF) as Byte
    case 1 => ((word >> 16) & 0xFF) as Byte
    case 2 => ((word >> 8) & 0xFF) as Byte
    case _ => (word & 0xFF) as Byte
  }

  function Digest(s: Hash): (d: seq<Byte>)
    ensures |d| == 32
  {
    seq(32, i requires 0 <= i < 32 => DigestByte(s, i))
  }

  /** The SHA-256 hash of a message. */
  function Sha256Of(m: seq<Byte>): (d: seq<Byte>)
    ensures |d| == 32
  {
    hide HashOfBlocks;
    Digest(HashOfBlocks(Padded(m)))
  }
}
