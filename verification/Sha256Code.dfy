/** The streaming SHA-256 context: eight state words, a partly filled block, two counters. */
module Sha256Code {
  import opened Basics
  import opened Sha256

  ghost function HashIn(state: array<Word>): Hash
    requires state.Length == 8
    reads state
  {
    Hash(state[0], state[1], state[2], state[3], state[4], state[5], state[6], state[7])
  }

  /** One block into the state, through the expanded message schedule. */
  method Compress(state: array<Word>, block: array<Byte>)
    requires state.Length == 8 && block.Length == 64
    modifies state
    ensures HashIn(state) == Compressed(old(HashIn(state)), block[..])
  {
    hide WordAt, W, SmallSigma0, SmallSigma1, Round, K, Add;
    ghost var start := HashIn(state);
    var w := Schedule(block);
    var s := Hash(state[0], state[1], state[2], state[3], state[4], state[5], state[6], state[7]);
    for i := 0 to 64
      invariant s == Rounds(start, block[..], i) && HashIn(state) == start
      invariant forall t :: 0 <= t < 64 ==> w[t] == W(block[..], t)
    {
      s := RoundStep(s, K(i), w[i]);
    }
    AddInto(state, s);
  }

  method AddInto(state: array<Word>, s: Hash)
    requires state.Length == 8
    modifies state
    ensures HashIn(state) == Sum(old(HashIn(state)), s)
  {
    hide Add;
    state[0] := Add(state[0], s.a);
    state[1] := Add(state[1], s.b);
    state[2] := Add(state[2], s.c);
    state[3] := Add(state[3], s.d);
    state[4] := Add(state[4], s.e);
    state[5] := Add(state[5], s.f);
    state[6] := Add(state[6], s.g);
    state[7] := Add(state[7], s.h);
  }

  method Schedule(block: array<Byte>) returns (w: array<Word>)
    requires block.Length == 64
    ensures fresh(w) && w.Length == 64 && forall t :: 0 <= t < 64 ==> w[t] == W(block[..], t)
  {
    hide SmallSigma0, SmallSigma1, WordAt, Add;
    w := new Word[64];
    for i := 0 to 16
      invariant forall t :: 0 <= t < i ==> w[t] == W(block[..], t)
    {
      w[i] := WordAt(block[..], i);
    }
    for i := 16 to 64
      invariant forall t :: 0 <= t < i ==> w[t] == W(block[..], t)
    {
      var s0 := SmallSigma0(w[i - 15]);
      var s1 := SmallSigma1(w[i - 2]);
      w[i] := Add(Add(Add(w[i - 16], s0), w[i - 7]), s1);
    }
  }

  /** The working variables of one round, moved along one by one. */
  method RoundStep(s: Hash, k: Word, w: Word) returns (r: Hash)
    ensures r == Round(s, k, w)
  {
    hide BigSigma0, BigSigma1, Ch, Maj, Add;
    var a, b, c, d, e, f, g, h := s.a, s.b, s.c, s.d, s.e, s.f, s.g, s.h;
    var s1 := BigSigma1(e);
    var ch := Ch(e, f, g);
    var t1 := Add(Add(Add(Add(h, s1), ch), k), w);
    var s0 := BigSigma0(a);
    var maj := Maj(a, b, c);
    var t2 := Add(s0, maj);
    h := g;
    g := f;
    f := e;
    e := Add(d, t1);
    d := c;
    c := b;
    b := a;
    a := Add(t1, t2);
    r := Hash(a, b, c, d, e, f, g, h);
  }

  method SetInitial(state: array<Word>)
    requires state.Length == 8
    modifies state
    ensures HashIn(state) == Initial()
  {
    state[0], state[1], state[2], state[3] := 0x6a09e667, 0xbb67ae85, 0x3c6ef372, 0xa54ff53a;
    state[4], state[5], state[6], state[7] := 0x510e527f, 0x9b05688c, 0x1f83d9ab, 0x5be0cd19;
  }

  class Context {
    const state: array<Word>
    const block: array<Byte>
    var total_len: nat
    var block_len: nat
    /** Everything passed to Update so far. */
    ghost var message: seq<Byte>

    ghost predicate Valid()
      reads this, state, block
    {
      && state.Length == 8 && block.Length == 64 && block_len < 64
      && block_len == |message| % 64
      && block[..block_len] == message[|message| - block_len..]
      && HashIn(state) == HashOfBlocks(message[..|message| - block_len])
      && total_len == |message| % U64_LIMIT
    }

    /** Init. */
    constructor ()
      ensures Valid() && message == [] && fresh(state) && fresh(block)
    {
      hide HashOfBlocks, HashIn, Initial, Valid;
      var words, bytes := new Word[8], new Byte[64];
      SetInitial(words);
      EmptyMessage();
      state, block := words, bytes;
      total_len, block_len, message := 0, 0, [];
      new;
      StartsEmpty();
    }

    lemma {:induction false} StartsEmpty()
      requires state.Length == 8 && block.Length == 64 && block_len == 0 && total_len == 0 && message == []
      requires HashIn(state) == HashOfBlocks([])
      ensures Valid()
    {
      hide HashOfBlocks, HashIn;
      assert message[..0] == [] && block[..0] == message[0..];
    }

    /** Fills the block and compresses it whenever it is full. */
    method Update(data: seq<Byte>)
      requires Valid()
      modifies this, state, block
      ensures Valid() && message == old(message) + data
    {
      hide HashOfBlocks, Compressed, HashIn, Holds;
      ghost var m := message;
      HoldsMessage(m);
      CounterAdds(|m|, |data|);
      total_len := (total_len + |data|) % U64_LIMIT;
      message := m + data;
      var at := 0;
      assert m + data[..0] == m;
      while at < |data|
        invariant 0 <= at <= |data| && Holds(m + data[..at]) && message == m + data
        invariant total_len == (|m| + |data|) % U64_LIMIT
      {
        BlockHasRoom(m + data[..at]);
        var size := |data| - at;
        var take := if size < 64 - block_len then size else 64 - block_len;
        ghost var before, piece := m + data[..at], data[at..at + take];
        Append(before, piece, data[at..at + take]);
        Pieces(m, data, at, take);
        at := at + take;
      }
      assert m + data[..|data|] == m + data;
      MessageHolds(m + data);
    }

    lemma {:induction false} BlockHasRoom(prefix: seq<Byte>)
      requires Holds(prefix)
      ensures block_len < 64
    {
    }

    lemma {:induction false} HoldsMessage(m: seq<Byte>)
      requires Valid() && m == message
      ensures Holds(m)
    {
      hide HashOfBlocks, HashIn;
    }

    lemma {:induction false} MessageHolds(m: seq<Byte>)
      requires Holds(m) && m == message && total_len == |m| % U64_LIMIT
      ensures Valid()
    {
      hide HashOfBlocks, HashIn;
    }

    /** The state and block belong to this prefix of the message. */
    ghost predicate Holds(prefix: seq<Byte>)
      reads `block_len, state, block
    {
      && state.Length == 8 && block.Length == 64 && block_len < 64
      && block_len == |prefix| % 64
      && block[..block_len] == prefix[|prefix| - block_len..]
      && HashIn(state) == HashOfBlocks(prefix[..|prefix| - block_len])
    }

    /** One memcpy into the block, and the compression when it is full. */
    method Append(ghost before: seq<Byte>, ghost piece: seq<Byte>, data: seq<Byte>)
      requires Holds(before) && piece == data && 0 < |data| <= 64 - block_len
      modifies this`block_len, state, block
      ensures Holds(before + piece)
    {
      hide HashOfBlocks, Compressed, HashIn;
      forall i | 0 <= i < |data| {
        block[block_len + i] := data[i];
      }
      ghost var after := before + piece;
      assert block[..block_len + |data|] == after[|before| - block_len..];
      block_len := block_len + |data|;
      if block_len == 64 {
        FullBlock(before, after, |before| - |before| % 64, block[..]);
        Compress(state, block);
        block_len := 0;
      } else {
        PartBlock(before, piece);
      }
    }

    /** Pads the message and gives its digest. */
    method Final() returns (digest: seq<Byte>)
      requires Valid()
      modifies this, state, block
      ensures digest == Sha256Of(old(message))
    {
      hide HashOfBlocks, Digest, LengthBytes, HashIn, BitLength, Valid;
      InForce();
      ghost var m := message;
      var bit_len := total_len * 8 % U64_LIMIT;
      BitsOfCounter(|m|);
      Update([0x80]);
      ghost var zeros := 0;
      PaddingStarts(|m|);
      while block_len != 56
        invariant Valid() && zeros <= ZeroCount(|m|) && message == m + [0x80] + Zeros(zeros)
        decreases ZeroCount(|m|) - zeros
      {
        InForce();
        ZeroCountIsNext(|m|, zeros);
        Update([0]);
        assert Zeros(zeros) + [0] == Zeros(zeros + 1);
        zeros := zeros + 1;
      }
      InForce();
      PaddingEnds(|m|, zeros);
      Update(LengthBytes(bit_len));
      assert message == Padded(m);
      InForce();
      digest := DigestOf();
    }

    /** What validity says about the counters, and about a message of whole blocks. */
    lemma {:induction false} InForce()
      requires Valid()
      ensures state.Length == 8 && block_len == |message| % 64 && total_len == |message| % U64_LIMIT
      ensures |message| % 64 == 0 ==> HashIn(state) == HashOfBlocks(message)
    {
      hide HashOfBlocks, HashIn;
      assert message[..|message|] == message;
    }

    /** The state words, most significant byte first. */
    method DigestOf() returns (digest: seq<Byte>)
      requires state.Length == 8
      ensures digest == Digest(HashIn(state))
    {
      hide WordByte, HashIn, DigestByte;
      digest := [];
      for i := 0 to 8
        invariant |digest| == 4 * i && forall k :: 0 <= k < 4 * i ==> digest[k] == DigestByte(HashIn(state), k)
      {
        var word := state[i];
        StateWord(state, i);
        digest := digest + [WordByte(word, 0)];
        digest := digest + [WordByte(word, 1)];
        digest := digest + [WordByte(word, 2)];
        digest := digest + [WordByte(word, 3)];
      }
    }
  }

  /** The four digest bytes of a state word. */
  lemma {:induction false} StateWord(state: array<Word>, i: nat)
    requires state.Length == 8 && i < 8
    ensures var s := HashIn(state);
      && DigestByte(s, 4 * i) == WordByte(state[i], 0) && DigestByte(s, 4 * i + 1) == WordByte(state[i], 1)
      && DigestByte(s, 4 * i + 2) == WordByte(state[i], 2) && DigestByte(s, 4 * i + 3) == WordByte(state[i], 3)
  {
    hide WordByte;
    assert WordOf(HashIn(state), i) == state[i];
  }

  // ------------------------------------------------------------- arithmetic

  lemma {:induction false} EmptyMessage()
    ensures HashOfBlocks([]) == Initial()
  {
  }

  lemma {:induction false} CounterAdds(m: nat, n: nat)
    ensures (m % U64_LIMIT + n) % U64_LIMIT == (m + n) % U64_LIMIT
  {
  }

  lemma {:induction false} MultipleDropsOut(x: nat, q: nat)
    ensures (x + U64_LIMIT * q) % U64_LIMIT == x % U64_LIMIT
  {
  }

  lemma {:induction false} BitsOfCounter(length: nat)
    ensures (length % U64_LIMIT) * 8 % U64_LIMIT == BitLength(length)
  {
    var q := length / U64_LIMIT;
    assert length * 8 == (length % U64_LIMIT) * 8 + U64_LIMIT * (8 * q);
    MultipleDropsOut((length % U64_LIMIT) * 8, 8 * q);
  }

  lemma {:induction false} Pieces(m: seq<Byte>, data: seq<Byte>, at: nat, take: nat)
    requires at + take <= |data|
    ensures m + data[..at] + data[at..at + take] == m + data[..at + take]
  {
  }

  /** A full block is the next one the message hash covers. */
  lemma {:induction false} FullBlock(before: seq<Byte>, m: seq<Byte>, start: nat, block: Chunk)
    requires start <= |before| <= |m| == start + 64 && start % 64 == 0
    requires m[..start] == before[..start] && block == m[start..]
    ensures |m| % 64 == 0 && HashOfBlocks(m) == Compressed(HashOfBlocks(before[..start]), block)
    ensures m[..|m|] == m
  {
    hide Compressed;
  }

  lemma {:induction false} PartBlock(before: seq<Byte>, piece: seq<Byte>)
    requires |before| % 64 + |piece| < 64
    ensures |before + piece| % 64 == |before| % 64 + |piece|
    ensures (before + piece)[..|before + piece| - |before + piece| % 64] == before[..|before| - |before| % 64]
  {
  }

  /** The padding loop stops behind the least number of zeros, and not before. */
  lemma {:induction false} ZeroCountIsNext(length: nat, zeros: nat)
    requires zeros <= ZeroCount(length) && (length + 1 + zeros) % 64 != 56
    ensures zeros < ZeroCount(length)
  {
  }

  lemma {:induction false} PaddingStarts(length: nat)
    ensures Zeros(0) == []
  {
  }

  lemma {:induction false} PaddingEnds(length: nat, zeros: nat)
    requires zeros <= ZeroCount(length) && (length + 1 + zeros) % 64 == 56
    ensures zeros == ZeroCount(length)
  {
    ZeroCountIsLeast(length, zeros);
  }

  // ------------------------------------------------------------ whole messages

  /** The one-shot hash. */
  method Sha256Hash(data: seq<Byte>) returns (digest: seq<Byte>)
    ensures digest == Sha256Of(data)
  {
    hide Sha256Of;
    var ctx := new Context();
    ctx.Update(data);
    assert [] + data == data;
    digest := ctx.Final();
  }

  function Concatenated(chunks: seq<seq<Byte>>): seq<Byte> {
    if chunks == [] then [] else chunks[0] + Concatenated(chunks[1..])
  }

  /** However a message is split into updates, its digest is the one-shot hash. */
  method HashInChunks(chunks: seq<seq<Byte>>) returns (digest: seq<Byte>)
    ensures digest == Sha256Of(Concatenated(chunks))
  {
    hide Sha256Of, Context.Valid;
    var ctx := new Context();
    for i := 0 to |chunks|
      invariant ctx.Valid() && fresh(ctx) && fresh(ctx.state) && fresh(ctx.block)
      invariant ctx.message + Concatenated(chunks[i..]) == Concatenated(chunks)
    {
      assert chunks[i..][1..] == chunks[i + 1..];
      ctx.Update(chunks[i]);
    }
    assert Concatenated(chunks[|chunks|..]) == [] && ctx.message + [] == ctx.message;
    digest := ctx.Final();
  }
}
