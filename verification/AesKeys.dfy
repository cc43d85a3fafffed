/** The AES-128 key schedule (FIPS 197, section 5.2). */
module AesKeys {
  import opened AesTables
  import opened Aes

  /** The round constants, x^(i - 1). */
  function Rcon(i: nat): Byte
    requires 1 <= i <= 10
  {
    match i
    case 1 => 0x01 case 2 => 0x02 case 3 => 0x04 case 4 => 0x08 case 5 => 0x10
    case 6 => 0x20 case 7 => 0x40 case 8 => 0x80 case 9 => 0x1b case _ => 0x36
  }

  lemma {:induction false} RconDoubles(i: nat)
    requires 1 <= i < 10
    ensures Rcon(1) == 1 && Rcon(i + 1) == Xtime(Rcon(i))
  {
  }

  /** The word in front of a round key: rotated, substituted, and the constant added. */
  function Turned(c: Column, round: nat): Column
    requires 1 <= round <= 10
  {
    var s := SubColumn(Column(c.r1, c.r2, c.r3, c.r0));
    s.(r0 := Xor(s.r0, Rcon(round)))
  }

  /** Word i of the schedule. */
  function KeyWord(key: Block, i: nat): Column
    requires i < 44
  {
    if i < 4 then ColumnOf(key, i)
    else
      var before := KeyWord(key, i - 1);
      XorColumn(KeyWord(key, i - 4), if i % 4 == 0 then Turned(before, i / 4) else before)
  }

  function RowOf(c: Column, r: nat): Byte
    requires r < 4
  {
    if r == 0 then c.r0 else if r == 1 then c.r1 else if r == 2 then c.r2 else c.r3
  }

  /** The forty-four words as bytes. */
  function Expanded(key: Block): (k: Schedule) {
    seq(176, j requires 0 <= j < 176 => RowOf(KeyWord(key, j / 4), j % 4))
  }

  // ----------------------------------------------------------- properties

  /** Four words in a row. */
  function WordsFrom(key: Block, i: nat): State
    requires i <= 40
  {
    State(KeyWord(key, i), KeyWord(key, i + 1), KeyWord(key, i + 2), KeyWord(key, i + 3))
  }

  /** Round key n is the four words from 4n on, and round key 0 is the key. */
  lemma {:induction false} RoundKeyWords(key: Block, n: nat)
    requires n <= 10
    ensures RoundKey(Expanded(key), n) == WordsFrom(key, 4 * n)
    ensures WordsFrom(key, 0) == StateOf(key)
  {
    hide KeyWord, ColumnOf, Expanded;
    WordInBytes(key, n, 0);
    WordInBytes(key, n, 1);
    WordInBytes(key, n, 2);
    WordInBytes(key, n, 3);
    FirstWords(key);
  }

  lemma {:induction false} FirstWords(key: Block)
    ensures KeyWord(key, 0) == ColumnOf(key, 0) && KeyWord(key, 1) == ColumnOf(key, 1)
    ensures KeyWord(key, 2) == ColumnOf(key, 2) && KeyWord(key, 3) == ColumnOf(key, 3)
  {
    hide ColumnOf;
  }

  lemma {:induction false} ByteOfWord(key: Block, i: nat, r: nat)
    requires i < 44 && r < 4
    ensures Expanded(key)[4 * i + r] == RowOf(KeyWord(key, i), r)
  {
    hide KeyWord, RowOf;
    assert (4 * i + r) / 4 == i && (4 * i + r) % 4 == r;
  }

  lemma {:induction false} WordInBytes(key: Block, n: nat, c: nat)
    requires n <= 10 && c < 4
    ensures ColumnOf(Expanded(key)[16 * n..16 * n + 16], c) == KeyWord(key, 4 * n + c)
  {
    hide KeyWord, Expanded;
    var i := 4 * n + c;
    ByteOfWord(key, i, 0);
    ByteOfWord(key, i, 1);
    ByteOfWord(key, i, 2);
    ByteOfWord(key, i, 3);
    var s := Expanded(key)[16 * n..16 * n + 16];
    assert s[4 * c] == Expanded(key)[4 * i + 0] && s[4 * c + 1] == Expanded(key)[4 * i + 1];
    assert s[4 * c + 2] == Expanded(key)[4 * i + 2] && s[4 * c + 3] == Expanded(key)[4 * i + 3];
  }

  /** Four words in a row determine the key: the schedule can be run backwards. */
  lemma {:induction false} WordsDetermineKey(key: Block, key': Block, i: nat)
    requires i <= 40 && WordsFrom(key, i) == WordsFrom(key', i)
    ensures key == key'
    decreases i
  {
    hide KeyWord, XorColumn, Turned;
    if i == 0 {
      RoundKeyWords(key, 0);
      RoundKeyWords(key', 0);
      BlockIsState(key, StateOf(key));
      BlockIsState(key', StateOf(key'));
    } else {
      StepBack(key, key', i + 3);
      WordsDetermineKey(key, key', i - 1);
    }
  }

  /** A word and the one before it give the word four places back. */
  lemma {:induction false} StepBack(key: Block, key': Block, i: nat)
    requires 4 <= i < 44
    requires KeyWord(key, i) == KeyWord(key', i) && KeyWord(key, i - 1) == KeyWord(key', i - 1)
    ensures KeyWord(key, i - 4) == KeyWord(key', i - 4)
  {
    hide XorColumn, Turned;
    var before := KeyWord(key, i - 1);
    var added := if i % 4 == 0 then Turned(before, i / 4) else before;
    XorColumnTwice(KeyWord(key, i - 4), added);
    XorColumnTwice(KeyWord(key', i - 4), added);
  }

  /** No round key belongs to two keys. */
  lemma {:induction false} RoundKeysDiffer(key: Block, key': Block, n: nat)
    requires n <= 10 && RoundKey(Expanded(key), n) == RoundKey(Expanded(key'), n)
    ensures key == key'
  {
    hide KeyWord, Expanded, RoundKey;
    RoundKeyWords(key, n);
    RoundKeyWords(key', n);
    WordsDetermineKey(key, key', 4 * n);
  }

  // ------------------------------------------------------------------ code

  /** What is added to the word four places back to make word i. */
  function Added(key: Block, i: nat): Column
    requires 4 <= i < 44
  {
    if i % 4 == 0 then Turned(KeyWord(key, i - 1), i / 4) else KeyWord(key, i - 1)
  }

  /** Byte r of word i of the schedule, from the bytes before it. */
  lemma {:induction false} NextByte(key: Block, i: nat, r: nat)
    requires 4 <= i < 44 && r < 4
    ensures Expanded(key)[4 * i + r] == Xor(Expanded(key)[4 * i + r - 16], RowOf(Added(key, i), r))
  {
    hide Turned, Xor;
    assert (4 * i + r) / 4 == i && (4 * i + r) % 4 == r;
    assert (4 * i + r - 16) / 4 == i - 4 && (4 * i + r - 16) % 4 == r;
  }

  /** The column in front of byte j, j a multiple of four. */
  lemma {:induction false} ColumnBefore(key: Block, out: seq<Byte>, j: nat)
    requires 16 <= j < 176 && j % 4 == 0 && |out| == 176 && out[..j] == Expanded(key)[..j]
    ensures Column(out[j - 4], out[j - 3], out[j - 2], out[j - 1]) == KeyWord(key, j / 4 - 1)
  {
    hide KeyWord;
    assert out[j - 4] == out[..j][j - 4] && out[j - 3] == out[..j][j - 3];
    assert out[j - 2] == out[..j][j - 2] && out[j - 1] == out[..j][j - 1];
    assert (j - 4) / 4 == j / 4 - 1 == (j - 3) / 4 == (j - 2) / 4 == (j - 1) / 4;
  }

  method ExpandKey(key: array<Byte>) returns (out: array<Byte>)
    requires key.Length == 16
    ensures fresh(out) && out.Length == 176 && out[..] == Expanded(key[..])
  {
    hide Expanded;
    ghost var k: Block := key[..];
    out := new Byte[176];
    forall i | 0 <= i < 16 {
      out[i] := key[i];
    }
    assert out[..16] == k;
    KeyFirst(k, out[..]);
    ExpandRest(k, out);
    assert key[..] == k;
  }

  /** The loop behind the copied key. */
  method ExpandRest(ghost key: Block, out: array<Byte>)
    requires out.Length == 176 && out[..16] == Expanded(key)[..16]
    modifies out
    ensures out[..] == Expanded(key)
  {
    hide Expanded, KeyWord, SubColumn, Rcon, Xor;
    var bytes, rcon_iter := 16, 1;
    while bytes < 176
      invariant 16 <= bytes <= 176 && bytes % 4 == 0 && rcon_iter == (bytes + 12) / 16
      invariant out[..bytes] == Expanded(key)[..bytes]
    {
      var temp := Column(out[bytes - 4], out[bytes - 3], out[bytes - 2], out[bytes - 1]);
      ColumnBefore(key, out[..], bytes);
      Progress(bytes, rcon_iter);
      if bytes % 16 == 0 {
        TurnedIs(temp, rcon_iter);
        var t := temp.r0;
        temp := Column(Xor(Sbox(temp.r1), Rcon(rcon_iter)), Sbox(temp.r2), Sbox(temp.r3), Sbox(t));
        rcon_iter := rcon_iter + 1;
      }
      bytes := AddWord(key, out, bytes, temp);
    }
    assert out[..] == out[..176] && Expanded(key)[..176] == Expanded(key);
  }

  /** The constant in use, and the one after the next word. */
  lemma {:induction false} Progress(bytes: nat, rcon_iter: nat)
    requires 16 <= bytes < 176 && bytes % 4 == 0 && rcon_iter == (bytes + 12) / 16
    ensures bytes % 16 == 0 ==> 1 <= rcon_iter <= 10 && rcon_iter == bytes / 16 == bytes / 4 / 4
    ensures bytes % 16 == 0 <==> bytes / 4 % 4 == 0
    ensures (bytes + 4) % 4 == 0
    ensures (bytes + 4 + 12) / 16 == if bytes % 16 == 0 then rcon_iter + 1 else rcon_iter
  {
  }

  lemma {:induction false} TurnedIs(c: Column, round: nat)
    requires 1 <= round <= 10
    ensures Turned(c, round) == Column(Xor(Sbox(c.r1), Rcon(round)), Sbox(c.r2), Sbox(c.r3), Sbox(c.r0))
  {
    hide Sbox, Xor, Rcon;
  }

  /** The first sixteen bytes are the key. */
  lemma {:induction false} KeyFirst(key: Block, out: seq<Byte>)
    requires |out| == 176 && out[..16] == key
    ensures out[..16] == Expanded(key)[..16]
  {
    forall j | 0 <= j < 16
      ensures out[..16][j] == Expanded(key)[j]
    {
    }
  }

  /** The innermost loop: four bytes behind the finished ones. */
  method AddWord(ghost key: Block, out: array<Byte>, bytes: nat, temp: Column) returns (next: nat)
    requires out.Length == 176 && 16 <= bytes < 176 && bytes % 4 == 0
    requires out[..bytes] == Expanded(key)[..bytes] && temp == Added(key, bytes / 4)
    modifies out
    ensures next == bytes + 4 && out[..next] == Expanded(key)[..next]
  {
    hide Expanded, Added, Xor;
    next := bytes;
    for i := 0 to 4
      invariant next == bytes + i && out[..next] == Expanded(key)[..next]
    {
      NextByte(key, bytes / 4, i);
      assert out[next - 16] == out[..next][next - 16];
      out[next] := Xor(out[next - 16], RowOf(temp, i));
      next := next + 1;
    }
  }
}
