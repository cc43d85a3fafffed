/** SHA-1 (FIPS 180-4): the compression function and the hash of a message, over the bytes,
    words and padding of SHA-256. */
module Sha1 {
  import opened Basics
  import Sha256

  type Byte = Sha256.Byte
  type Word = Sha256.Word
  type Chunk = Sha256.Chunk

  /** The five working words. */
  datatype Hash = Hash(a: Word, b: Word, c: Word, d: Word, e: Word)

  /** Section 5.3.1. */
  function Initial(): Hash {
    Hash(0x67452301, 0xEFCDAB89, 0x98BADCFE, 0x10325476, 0xC3D2E1F0)
  }

  function Rotl(x: Word, n: nat): Word
    requires 0 < n < 32
  {
    (x << n) | (x >> (32 - n))
  }

  /** Choose, parity, majority and parity again, twenty rounds each (section 4.1.1). */
  function F(t: nat, b: Word, c: Word, d: Word): Word {
    if t < 20 then (b & c) | (!b & d)
    else if t < 40 then b ^ c ^ d
    else if t < 60 then (b & c) | (b & d) | (c & d)
    else b ^ c ^ d
  }

  /** Section 4.2.1. */
  function K(t: nat): Word {
    if t < 20 then 0x5A827999 else if t < 40 then 0x6ED9EBA1 else if t < 60 then 0x8F1BBCDC else 0xCA62C1D6
  }

  function Mixed(w3: Word, w8: Word, w14: Word, w16: Word): Word {
    Rotl(w3 ^ w8 ^ w14 ^ w16, 1)
  }

  /** The message schedule. */
  function W(block: Chunk, t: nat): Word
    requires t < 80
  {
    if t < 16 then Sha256.WordAt(block, t)
    else Mixed(W(block, t - 3), W(block, t - 8), W(block, t - 14), W(block, t - 16))
  }

  function Round(s: Hash, t: nat, w: Word): Hash {
    var sum := Sha256.Add(Sha256.Add(Sha256.Add(Sha256.Add(Rotl(s.a, 5), F(t, s.b, s.c, s.d)), s.e), K(t)), w);
    Hash(sum, s.a, Rotl(s.b, 30), s.c, s.d)
  }

  /** The working words behind n rounds (section 6.1.2). */
  function Rounds(s: Hash, block: Chunk, n: nat): Hash
    requires n <= 80
  {
    if n == 0 then s else Round(Rounds(s, block, n - 1), n - 1, W(block, n - 1))
  }

  function Sum(s: Hash, t: Hash): Hash {
    Hash(Sha256.Add(s.a, t.a), Sha256.Add(s.b, t.b), Sha256.Add(s.c, t.c), Sha256.Add(s.d, t.d), Sha256.Add(s.e, t.e))
  }

  function Compressed(s: Hash, block: Chunk): Hash {
    Sum(s, Rounds(s, block, 80))
  }

  /** The hash behind a whole number of blocks. */
  function HashOfBlocks(m: seq<Byte>): Hash
    requires |m| % 64 == 0
  {
    hide Compressed;
    if m == [] then Initial() else Compressed(HashOfBlocks(m[..|m| - 64]), m[|m| - 64..])
  }

  function WordOf(s: Hash, k: nat): Word
    requires k < 5
  {
    if k == 0 then s.a else if k == 1 then s.b else if k == 2 then s.c else if k == 3 then s.d else s.e
  }

  function DigestByte(s: Hash, i: nat): Byte
    requires i < 20
  {
    Sha256.WordByte(WordOf(s, i / 4), i % 4)
  }

  function Digest(s: Hash): (d: seq<Byte>)
    ensures |d| == 20
  {
    seq(20, i requires 0 <= i < 20 => DigestByte(s, i))
  }

  /** The SHA-1 hash of a message. */
  function Sha1Of(m: seq<Byte>): (d: seq<Byte>)
    ensures |d| == 20
  {
    hide HashOfBlocks;
    Digest(HashOfBlocks(Sha256.Padded(m)))
  }
}
