/** AES on 4 by 4 state arrays and buffers that may be the same in and out. */
module AesCode {
  import opened AesTables
  import Aes
  import opened AesModes

  method Gmul(a: Byte, b: Byte) returns (r: Byte)
    ensures r == Aes.Gmul(a, b)
  {
    hide Aes.Xtime, Aes.Xor;
    r := 0;
    var x, y := a, b;
    Aes.XorUnits(Aes.Gmul(a, b));
    while y != 0
      invariant Aes.Xor(r, Aes.Gmul(x, y)) == Aes.Gmul(a, b)
      decreases y
    {
      Aes.XorUnits(Aes.Gmul(Aes.Xtime(x), y >> 1));
      if y & 1 != 0 {
        Aes.XorAssociates(r, x, Aes.Gmul(Aes.Xtime(x), y >> 1));
        r := Aes.Xor(r, x);
      }
      x := Aes.Xtime(x);
      y := y >> 1;
    }
    Aes.XorUnits(r);
  }

  // ------------------------------------------------------------ the state

  ghost predicate IsState(s: array2<Byte>) {
    s.Length0 == 4 && s.Length1 == 4
  }

  /** s[r][c] is row r of column c. */
  ghost function StateIn(s: array2<Byte>): Aes.State
    requires IsState(s)
    reads s
  {
    Aes.State(Aes.Column(s[0, 0], s[1, 0], s[2, 0], s[3, 0]), Aes.Column(s[0, 1], s[1, 1], s[2, 1], s[3, 1]),
              Aes.Column(s[0, 2], s[1, 2], s[2, 2], s[3, 2]), Aes.Column(s[0, 3], s[1, 3], s[2, 3], s[3, 3]))
  }

  method StateFromBlock(s: array2<Byte>, block: array<Byte>, at: nat)
    requires IsState(s) && at + 16 <= block.Length
    modifies s
    ensures StateIn(s) == Aes.StateOf(block[at..at + 16])
  {
    for c := 0 to 4
      invariant forall i, j :: 0 <= i < 4 && 0 <= j < c ==> s[i, j] == block[at + 4 * j + i]
    {
      for r := 0 to 4
        invariant forall i, j :: 0 <= i < 4 && 0 <= j < c ==> s[i, j] == block[at + 4 * j + i]
        invariant forall i :: 0 <= i < r ==> s[i, c] == block[at + 4 * c + i]
      {
        s[r, c] := block[at + 4 * c + r];
      }
    }
  }

  lemma {:induction false} EntryInBlock(s: array2<Byte>, r: nat, c: nat)
    requires IsState(s) && r < 4 && c < 4
    ensures Aes.BlockOf(StateIn(s))[4 * c + r] == s[r, c]
  {
    assert (4 * c + r) % 4 == r && (4 * c + r) / 4 == c;
  }

  method BlockFromState(block: array<Byte>, at: nat, s: array2<Byte>)
    requires IsState(s) && at + 16 <= block.Length
    modifies block
    ensures block[..] == old(block[..at]) + Aes.BlockOf(StateIn(s)) + old(block[at + 16..])
  {
    hide Aes.BlockOf, StateIn;
    ghost var before, b := block[..], Aes.BlockOf(StateIn(s));
    for c := 0 to 4
      invariant forall k :: 0 <= k < block.Length ==> block[k] == if at <= k < at + 4 * c then b[k - at] else before[k]
    {
      for r := 0 to 4
        invariant forall k :: 0 <= k < block.Length ==>
          block[k] == if at <= k < at + 4 * c + r then b[k - at] else before[k]
      {
        EntryInBlock(s, r, c);
        block[at + 4 * c + r] := s[r, c];
      }
    }
    assert block[..] == before[..at] + b + before[at + 16..];
  }

  method AddRoundKey(s: array2<Byte>, key: Aes.Schedule, round: nat)
    requires IsState(s) && round <= 10
    modifies s
    ensures StateIn(s) == Aes.AddRoundKey(old(StateIn(s)), Aes.RoundKey(key, round))
  {
    hide Aes.Xor;
    for c := 0 to 4
      invariant forall i, j :: 0 <= i < 4 && 0 <= j < 4 ==>
        s[i, j] == if j < c then Aes.Xor(old(s[i, j]), key[16 * round + 4 * j + i]) else old(s[i, j])
    {
      for r := 0 to 4
        invariant forall i, j :: 0 <= i < 4 && 0 <= j < 4 ==>
          s[i, j] == if j < c || (j == c && i < r) then Aes.Xor(old(s[i, j]), key[16 * round + 4 * j + i])
            else old(s[i, j])
      {
        s[r, c] := Aes.Xor(s[r, c], key[16 * round + 4 * c + r]);
      }
    }
  }

  method SubBytes(s: array2<Byte>)
    requires IsState(s)
    modifies s
    ensures StateIn(s) == Aes.SubBytes(old(StateIn(s)))
  {
    hide Sbox, InvSbox;
    for r := 0 to 4
      invariant forall i, j :: 0 <= i < 4 && 0 <= j < 4 ==>
        s[i, j] == if i < r then Sbox(old(s[i, j])) else old(s[i, j])
    {
      for c := 0 to 4
        invariant forall i, j :: 0 <= i < 4 && 0 <= j < 4 ==>
          s[i, j] == if i < r || (i == r && j < c) then Sbox(old(s[i, j])) else old(s[i, j])
      {
        s[r, c] := Sbox(s[r, c]);
      }
    }
  }

  method InvSubBytes(s: array2<Byte>)
    requires IsState(s)
    modifies s
    ensures StateIn(s) == Aes.InvSubBytes(old(StateIn(s)))
  {
    hide InvSbox;
    for r := 0 to 4
      invariant forall i, j :: 0 <= i < 4 && 0 <= j < 4 ==>
        s[i, j] == if i < r then InvSbox(old(s[i, j])) else old(s[i, j])
    {
      for c := 0 to 4
        invariant forall i, j :: 0 <= i < 4 && 0 <= j < 4 ==>
          s[i, j] == if i < r || (i == r && j < c) then InvSbox(old(s[i, j])) else old(s[i, j])
      {
        s[r, c] := InvSbox(s[r, c]);
      }
    }
  }

  /** Row r has moved left by n places; the other rows are as they were. */
  twostate predicate RowMoved(s: array2<Byte>, r: nat, n: nat)
    requires IsState(s) && r < 4
    reads s
  {
    forall i, j {:trigger s[i, j]} :: 0 <= i < 4 && 0 <= j < 4 ==>
      s[i, j] == if i == r then old(s[i, (j + n) % 4]) else old(s[i, j])
  }

  method Row1Left(s: array2<Byte>)
    requires IsState(s)
    modifies s
    ensures RowMoved(s, 1, 1)
  {
    var t := s[1, 0];
    s[1, 0] := s[1, 1];
    s[1, 1] := s[1, 2];
    s[1, 2] := s[1, 3];
    s[1, 3] := t;
  }

  method Row1Right(s: array2<Byte>)
    requires IsState(s)
    modifies s
    ensures RowMoved(s, 1, 3)
  {
    var t := s[1, 3];
    s[1, 3] := s[1, 2];
    s[1, 2] := s[1, 1];
    s[1, 1] := s[1, 0];
    s[1, 0] := t;
  }

  method Row2Swap(s: array2<Byte>)
    requires IsState(s)
    modifies s
    ensures RowMoved(s, 2, 2)
  {
    var t := s[2, 0];
    s[2, 0] := s[2, 2];
    s[2, 2] := t;
    t := s[2, 1];
    s[2, 1] := s[2, 3];
    s[2, 3] := t;
  }

  method Row3Right(s: array2<Byte>)
    requires IsState(s)
    modifies s
    ensures RowMoved(s, 3, 3)
  {
    var t := s[3, 3];
    s[3, 3] := s[3, 2];
    s[3, 2] := s[3, 1];
    s[3, 1] := s[3, 0];
    s[3, 0] := t;
  }

  method Row3Left(s: array2<Byte>)
    requires IsState(s)
    modifies s
    ensures RowMoved(s, 3, 1)
  {
    var t := s[3, 0];
    s[3, 0] := s[3, 1];
    s[3, 1] := s[3, 2];
    s[3, 2] := s[3, 3];
    s[3, 3] := t;
  }

  method ShiftRows(s: array2<Byte>)
    requires IsState(s)
    modifies s
    ensures StateIn(s) == Aes.ShiftRows(old(StateIn(s)))
  {
    Row1Left(s);
    Row2Swap(s);
    Row3Right(s);
  }

  method InvShiftRows(s: array2<Byte>)
    requires IsState(s)
    modifies s
    ensures StateIn(s) == Aes.InvShiftRows(old(StateIn(s)))
  {
    Row1Right(s);
    Row2Swap(s);
    Row3Left(s);
  }

  ghost function ColumnIn(s: array2<Byte>, c: nat): Aes.Column
    requires IsState(s) && c < 4
    reads s
  {
    Aes.Column(s[0, c], s[1, c], s[2, c], s[3, c])
  }

  method MixColumns(s: array2<Byte>)
    requires IsState(s)
    modifies s
    ensures StateIn(s) == Aes.MixColumns(old(StateIn(s)))
  {
    hide Aes.Xor, Aes.Xtime, Aes.Xor4;
    for c := 0 to 4
      invariant forall j :: 0 <= j < 4 ==>
        ColumnIn(s, j) == if j < c then Aes.MixColumn(old(ColumnIn(s, j))) else old(ColumnIn(s, j))
    {
      label L:
      var a0, a1, a2, a3 := s[0, c], s[1, c], s[2, c], s[3, c];
      s[0, c] := Aes.Xor4(Aes.Xtime(a0), Aes.Xor(Aes.Xtime(a1), a1), a2, a3);
      s[1, c] := Aes.Xor4(a0, Aes.Xtime(a1), Aes.Xor(Aes.Xtime(a2), a2), a3);
      s[2, c] := Aes.Xor4(a0, a1, Aes.Xtime(a2), Aes.Xor(Aes.Xtime(a3), a3));
      s[3, c] := Aes.Xor4(Aes.Xor(Aes.Xtime(a0), a0), a1, a2, Aes.Xtime(a3));
      assert forall j :: 0 <= j < 4 && j != c ==> ColumnIn(s, j) == old@L(ColumnIn(s, j));
      assert ColumnIn(s, c) == Aes.MixColumn(old@L(ColumnIn(s, c)));
    }
    assert ColumnIn(s, 0) == StateIn(s).c0 && ColumnIn(s, 1) == StateIn(s).c1;
    assert ColumnIn(s, 2) == StateIn(s).c2 && ColumnIn(s, 3) == StateIn(s).c3;
  }

  method InvMixColumns(s: array2<Byte>)
    requires IsState(s)
    modifies s
    ensures StateIn(s) == Aes.InvMixColumns(old(StateIn(s)))
  {
    hide Aes.MixColumn, Aes.InvMixColumn;
    for c := 0 to 4
      invariant forall j :: 0 <= j < 4 ==>
        ColumnIn(s, j) == if j < c then Aes.InvMixColumn(old(ColumnIn(s, j))) else old(ColumnIn(s, j))
    {
      label L:
      var a := Aes.Column(s[0, c], s[1, c], s[2, c], s[3, c]);
      var b := InvMixed(a);
      s[0, c] := b.r0;
      s[1, c] := b.r1;
      s[2, c] := b.r2;
      s[3, c] := b.r3;
      assert forall j :: 0 <= j < 4 && j != c ==> ColumnIn(s, j) == old@L(ColumnIn(s, j));
      assert ColumnIn(s, c) == b && a == old@L(ColumnIn(s, c));
    }
    assert ColumnIn(s, 0) == StateIn(s).c0 && ColumnIn(s, 1) == StateIn(s).c1;
    assert ColumnIn(s, 2) == StateIn(s).c2 && ColumnIn(s, 3) == StateIn(s).c3;
  }

  /** One column times the inverse matrix, product by product. */
  method InvMixed(a: Aes.Column) returns (b: Aes.Column)
    ensures b == Aes.InvMixColumn(a)
  {
    hide Aes.Gmul, Aes.Xor;
    var p0 := InvRow(a, 14, 11, 13, 9);
    var p1 := InvRow(a, 9, 14, 11, 13);
    var p2 := InvRow(a, 13, 9, 14, 11);
    var p3 := InvRow(a, 11, 13, 9, 14);
    b := Aes.Column(p0, p1, p2, p3);
  }

  method InvRow(a: Aes.Column, m0: Byte, m1: Byte, m2: Byte, m3: Byte) returns (r: Byte)
    ensures r == Aes.Xor4(Aes.Gmul(a.r0, m0), Aes.Gmul(a.r1, m1), Aes.Gmul(a.r2, m2), Aes.Gmul(a.r3, m3))
  {
    hide Aes.Gmul, Aes.Xor;
    var p0 := Gmul(a.r0, m0);
    var p1 := Gmul(a.r1, m1);
    var p2 := Gmul(a.r2, m2);
    var p3 := Gmul(a.r3, m3);
    r := Aes.Xor4(p0, p1, p2, p3);
  }

  // ------------------------------------------------------------ one block

  /** The sixteen bytes at an offset. */
  ghost function BlockAt(a: array<Byte>, at: nat): Aes.Block
    requires at + 16 <= a.Length
    reads a
  {
    a[at..at + 16]
  }

  method EncryptBlock(key: Aes.Schedule, input: array<Byte>, from: nat, output: array<Byte>, to: nat)
    requires from + 16 <= input.Length && to + 16 <= output.Length
    modifies output
    ensures output[..] == old(output[..to]) + Aes.Encrypt(key, old(BlockAt(input, from))) + old(output[to + 16..])
  {
    hide Aes.SubBytes, Aes.ShiftRows, Aes.MixColumns, Aes.AddRoundKey, Aes.RoundKey, Aes.StateOf, Aes.BlockOf,
      StateIn;
    var s := new Byte[4, 4];
    StateFromBlock(s, input, from);
    AddRoundKey(s, key, 0);
    ghost var start := StateIn(s);
    for round := 1 to 10
      invariant output[..] == old(output[..])
      invariant StateIn(s) == Aes.EncryptRounds(key, start, round - 1)
    {
      SubBytes(s);
      ShiftRows(s);
      MixColumns(s);
      AddRoundKey(s, key, round);
    }
    SubBytes(s);
    ShiftRows(s);
    AddRoundKey(s, key, 10);
    BlockFromState(output, to, s);
  }

  method DecryptBlock(key: Aes.Schedule, input: array<Byte>, from: nat, output: array<Byte>, to: nat)
    requires from + 16 <= input.Length && to + 16 <= output.Length
    modifies output
    ensures output[..] == old(output[..to]) + Aes.Decrypt(key, old(BlockAt(input, from))) + old(output[to + 16..])
  {
    hide Aes.InvSubBytes, Aes.InvShiftRows, Aes.InvMixColumns, Aes.AddRoundKey, Aes.RoundKey, Aes.StateOf,
      Aes.BlockOf, StateIn;
    var s := new Byte[4, 4];
    StateFromBlock(s, input, from);
    AddRoundKey(s, key, 10);
    ghost var start := StateIn(s);
    var round := 9;
    while round >= 1
      invariant 0 <= round <= 9 && output[..] == old(output[..])
      invariant Aes.DecryptRounds(key, StateIn(s), round) == Aes.DecryptRounds(key, start, 9)
    {
      InvShiftRows(s);
      InvSubBytes(s);
      AddRoundKey(s, key, round);
      InvMixColumns(s);
      round := round - 1;
    }
    InvShiftRows(s);
    InvSubBytes(s);
    AddRoundKey(s, key, 0);
    BlockFromState(output, to, s);
  }
}
