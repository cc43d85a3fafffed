/** The streaming SHA-1 context of the symbol scanner, and the identifier it derives from a name. */
module Sha1Code {
  import opened Basics
  import opened Sha1
  import Sha256
  import Sha256Code
  import Nid
  import NidCode

  ghost function HashIn(state: array<Word>): Hash
    requires state.Length == 5
    reads state
  {
    Hash(state[0], state[1], state[2], state[3], state[4])
  }

  /** ProcessBlock: one block into the state, through the expanded message schedule. */
  method Compress(state: array<Word>, block: array<Byte>)
    requires state.Length == 5 && block.Length == 64
    modifies state
    ensures HashIn(state) == Compressed(old(HashIn(state)), block[..])
  {
    hide Sha256.WordAt, W, Mixed, Round, K, F, Rotl, Sha256.Add;
    ghost var start := HashIn(state);
    var w := Schedule(block);
    var s := Hash(state[0], state[1], state[2], state[3], state[4]);
    for i := 0 to 80
      invariant s == Rounds(start, block[..], i) && HashIn(state) == start
      invariant forall t :: 0 <= t < 80 ==> w[t] == W(block[..], t)
    {
      s := RoundStep(s, i, w[i]);
    }
    AddInto(state, s);
  }

  method AddInto(state: array<Word>, s: Hash)
    requires state.Length == 5
    modifies state
    ensures HashIn(state) == Sum(old(HashIn(state)), s)
  {
    hide Sha256.Add;
    state[0] := Sha256.Add(state[0], s.a);
    state[1] := Sha256.Add(state[1], s.b);
    state[2] := Sha256.Add(state[2], s.c);
    state[3] := Sha256.Add(state[3], s.d);
    state[4] := Sha256.Add(state[4], s.e);
  }

  method Schedule(block: array<Byte>) returns (w: array<Word>)
    requires block.Length == 64
    ensures fresh(w) && w.Length == 80 && forall t :: 0 <= t < 80 ==> w[t] == W(block[..], t)
  {
    hide Sha256.WordAt, Mixed;
    w := new Word[80];
    for i := 0 to 16
      invariant forall t :: 0 <= t < i ==> w[t] == W(block[..], t)
    {
      w[i] := Sha256.WordAt(block[..], i);
    }
    for i := 16 to 80
      invariant forall t :: 0 <= t < i ==> w[t] == W(block[..], t)
    {
      w[i] := Mixed(w[i - 3], w[i - 8], w[i - 14], w[i - 16]);
    }
  }

  /** The working variables of one round, moved along one by one. */
  method RoundStep(s: Hash, i: nat, w: Word) returns (r: Hash)
    ensures r == Round(s, i, w)
  {
    hide F, K, Rotl, Sha256.Add;
    var a, b, c, d, e := s.a, s.b, s.c, s.d, s.e;
    var f, k := F(i, b, c, d), K(i);
    var tmp := Sha256.Add(Sha256.Add(Sha256.Add(Sha256.Add(Rotl(a, 5), f), e), k), w);
    e := d;
    d := c;
    c := Rotl(b, 30);
    b := a;
    a := tmp;
    r := Hash(a, b, c, d, e);
  }

  method SetInitial(state: array<Word>)
    requires state.Length == 5
    modifies state
    ensures HashIn(state) == Initial()
  {
    state[0], state[1], state[2], state[3], state[4] := 0x67452301, 0xEFCDAB89, 0x98BADCFE, 0x10325476, 0xC3D2E1F0;
  }

  class Sha1Context {
    const state: array<Word>
    const block: array<Byte>
    var total_len: nat
    var block_len: nat
    /** Everything passed to Update so far. */
    ghost var message: seq<Byte>

    ghost predicate Valid()
      reads this, state, block
    {
      && state.Length == 5 && block.Length == 64 && block_len < 64
      && block_len == |message| % 64
      && block[..block_len] == message[|message| - block_len..]
      && HashIn(state) == HashOfBlocks(message[..|message| - block_len])
      && total_len == |message| % U64_LIMIT
    }

    /** Reset. */
    constructor ()
      ensures Valid() && message == [] && fresh(state) && fresh(block)
    {
      hide HashOfBlocks, HashIn, Initial, Valid;
      var words, bytes := new Word[5], new Byte[64];
      SetInitial(words);
      EmptyMessage();
      state, block := words, bytes;
      total_len, block_len, message := 0, 0, [];
      new;
      StartsEmpty();
    }

    lemma {:induction false} StartsEmpty()
      requires state.Length == 5 && block.Length == 64 && block_len == 0 && total_len == 0 && message == []
      requires HashIn(state) == HashOfBlocks([])
      ensures Valid()
    {
      hide HashOfBlocks, HashIn;
      assert message[..0] == [] && block[..0] == message[0..];
    }

    /** Fills the block and compresses it whenever it is full. */
    method Update(data: seq<Byte>)
      requires Valid()
      modifies this, state, block
      ensures Valid() && message == old(message) + data
    {
      hide HashOfBlocks, Compressed, HashIn, Holds;
      ghost var m := message;
      HoldsMessage(m);
      Sha256Code.CounterAdds(|m|, |data|);
      total_len := (total_len + |data|) % U64_LIMIT;
      message := m + data;
      var at := 0;
      assert m + data[..0] == m;
      while at < |data|
        invariant 0 <= at <= |data| && Holds(m + data[..at]) && message == m + data
        invariant total_len == (|m| + |data|) % U64_LIMIT
      {
        BlockHasRoom(m + data[..at]);
        var size := |data| - at;
        var take := if size < 64 - block_len then size else 64 - block_len;
        ghost var before, piece := m + data[..at], data[at..at + take];
        Append(before, piece, data[at..at + take]);
        Sha256Code.Pieces(m, data, at, take);
        at := at + take;
      }
      assert m + data[..|data|] == m + data;
      MessageHolds(m + data);
    }

    lemma {:induction false} BlockHasRoom(prefix: seq<Byte>)
      requires Holds(prefix)
      ensures block_len < 64
    {
    }

    lemma {:induction false} HoldsMessage(m: seq<Byte>)
      requires Valid() && m == message
      ensures Holds(m)
    {
      hide HashOfBlocks, HashIn;
    }

    lemma {:induction false} MessageHolds(m: seq<Byte>)
      requires Holds(m) && m == message && total_len == |m| % U64_LIMIT
      ensures Valid()
    {
      hide HashOfBlocks, HashIn;
    }

    /** The state and block belong to this prefix of the message. */
    ghost predicate Holds(prefix: seq<Byte>)
      reads `block_len, state, block
    {
      && state.Length == 5 && block.Length == 64 && block_len < 64
      && block_len == |prefix| % 64
      && block[..block_len] == prefix[|prefix| - block_len..]
      && HashIn(state) == HashOfBlocks(prefix[..|prefix| - block_len])
    }

    /** One memcpy into the block, and the compression when it is full. */
    method Append(ghost before: seq<Byte>, ghost piece: seq<Byte>, data: seq<Byte>)
      requires Holds(before) && piece == data && 0 < |data| <= 64 - block_len
      modifies this`block_len, state, block
      ensures Holds(before + piece)
    {
      hide HashOfBlocks, Compressed, HashIn;
      forall i | 0 <= i < |data| {
        block[block_len + i] := data[i];
      }
      ghost var after := before + piece;
      assert block[..block_len + |data|] == after[|before| - block_len..];
      block_len := block_len + |data|;
      if block_len == 64 {
        FullBlock(before, after, |before| - |before| % 64, block[..]);
        Compress(state, block);
        block_len := 0;
      } else {
        Sha256Code.PartBlock(before, piece);
      }
    }

    /** Pads the message and gives its digest. */
    method Final() returns (digest: seq<Byte>)
      requires Valid()
      modifies this, state, block
      ensures digest == Sha1Of(old(message))
    {
      hide HashOfBlocks, Digest, Sha256.LengthBytes, HashIn, Sha256.BitLength, Valid;
      InForce();
      ghost var m := message;
      var bit_len := total_len * 8 % U64_LIMIT;
      Sha256Code.BitsOfCounter(|m|);
      Update([0x80]);
      ghost var zeros := 0;
      Sha256Code.PaddingStarts(|m|);
      while block_len != 56
        invariant Valid() && zeros <= Sha256.ZeroCount(|m|) && message == m + [0x80] + Sha256.Zeros(zeros)
        decreases Sha256.ZeroCount(|m|) - zeros
      {
        InForce();
        Sha256Code.ZeroCountIsNext(|m|, zeros);
        Update([0]);
        assert Sha256.Zeros(zeros) + [0] == Sha256.Zeros(zeros + 1);
        zeros := zeros + 1;
      }
      InForce();
      Sha256Code.PaddingEnds(|m|, zeros);
      Update(Sha256.LengthBytes(bit_len));
      assert message == Sha256.Padded(m);
      InForce();
      digest := DigestOf();
    }

    /** What validity says about the counters, and about a message of whole blocks. */
    lemma {:induction false} InForce()
      requires Valid()
      ensures state.Length == 5 && block_len == |message| % 64 && total_len == |message| % U64_LIMIT
      ensures |message| % 64 == 0 ==> HashIn(state) == HashOfBlocks(message)
    {
      hide HashOfBlocks, HashIn;
      assert message[..|message|] == message;
    }

    /** The state words, most significant byte first. */
    method DigestOf() returns (digest: seq<Byte>)
      requires state.Length == 5
      ensures digest == Digest(HashIn(state))
    {
      hide Sha256.WordByte, HashIn, DigestByte;
      digest := [];
      for i := 0 to 5
        invariant |digest| == 4 * i && forall k :: 0 <= k < 4 * i ==> digest[k] == DigestByte(HashIn(state), k)
      {
        var word := state[i];
        StateWord(state, i);
        digest := digest + [Sha256.WordByte(word, 0)];
        digest := digest + [Sha256.WordByte(word, 1)];
        digest := digest + [Sha256.WordByte(word, 2)];
        digest := digest + [Sha256.WordByte(word, 3)];
      }
    }
  }

  /** The four digest bytes of a state word. */
  lemma {:induction false} StateWord(state: array<Word>, i: nat)
    requires state.Length == 5 && i < 5
    ensures var s := HashIn(state);
      && DigestByte(s, 4 * i) == Sha256.WordByte(state[i], 0)
      && DigestByte(s, 4 * i + 1) == Sha256.WordByte(state[i], 1)
      && DigestByte(s, 4 * i + 2) == Sha256.WordByte(state[i], 2)
      && DigestByte(s, 4 * i + 3) == Sha256.WordByte(state[i], 3)
  {
    hide Sha256.WordByte;
    assert WordOf(HashIn(state), i) == state[i];
  }

  lemma {:induction false} EmptyMessage()
    ensures HashOfBlocks([]) == Initial()
  {
  }

  /** A full block is the next one the message hash covers. */
  lemma {:induction false} FullBlock(before: seq<Byte>, m: seq<Byte>, start: nat, block: Chunk)
    requires start <= |before| <= |m| == start + 64 && start % 64 == 0
    requires m[..start] == before[..start] && block == m[start..]
    ensures |m| % 64 == 0 && HashOfBlocks(m) == Compressed(HashOfBlocks(before[..start]), block)
    ensures m[..|m|] == m
  {
    hide Compressed;
  }

  // ------------------------------------------------------------- identifiers

  const NID_SALT: seq<Byte> :=
    [0x51, 0x8D, 0x64, 0xA6, 0x35, 0xDE, 0xD8, 0xC1, 0xE6, 0xB0, 0x39, 0xB1, 0xC3, 0xE5, 0x52, 0x30]

  function AsNumber(b: Byte): Nid.Byte {
    b as nat
  }

  function AsNumbers(s: seq<Byte>): (n: seq<Nid.Byte>)
    ensures |n| == |s|
  {
    seq(|s|, i requires 0 <= i < |s| => AsNumber(s[i]))
  }

  /** nid_of: the integer-shift spelling of the first eight bytes of the salted hash. */
  function NidOf(name: seq<Byte>): string {
    Nid.ShiftEncoded(AsNumbers(Sha1Of(name + NID_SALT))[..8])
  }

  method HashWithSalt(name: seq<Byte>, salt: seq<Byte>) returns (digest: seq<Byte>)
    ensures digest == Sha1Of(name + salt)
  {
    hide Sha1Of, Sha1Context.Valid;
    var sha := new Sha1Context();
    sha.Update(name);
    sha.Update(salt);
    assert [] + name + salt == name + salt;
    digest := sha.Final();
  }

  /** The scanner's identifier of a name: two updates, the digest reversed, and the encoder
      of bytes. It is the one the resolver computes with shifts. */
  method NameToNid(name: seq<Byte>) returns (encoded: string)
    ensures encoded == NidOf(name)
  {
    hide Sha1Of, Nid.ShiftEncoded, AsNumbers;
    var digest := HashWithSalt(name, NID_SALT);
    encoded := NidCode.NidOfDigest(AsNumbers(digest));
  }

  /** However the salted name is split into updates, the digest is the hash of the whole. */
  method HashInChunks(chunks: seq<seq<Byte>>) returns (digest: seq<Byte>)
    ensures digest == Sha1Of(Sha256Code.Concatenated(chunks))
  {
    hide Sha1Of, Sha1Context.Valid;
    var ctx := new Sha1Context();
    for i := 0 to |chunks|
      invariant ctx.Valid() && fresh(ctx) && fresh(ctx.state) && fresh(ctx.block)
      invariant ctx.message + Sha256Code.Concatenated(chunks[i..]) == Sha256Code.Concatenated(chunks)
    {
      assert chunks[i..][1..] == chunks[i + 1..];
      ctx.Update(chunks[i]);
    }
    assert Sha256Code.Concatenated(chunks[|chunks|..]) == [] && ctx.message + [] == ctx.message;
    digest := ctx.Final();
  }
}
