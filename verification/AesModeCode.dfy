/** The mode loops over buffers; `input` and `output` may be one buffer. */
module AesModeCode {
  import opened AesTables
  import Aes
  import opened AesModes
  import opened AesCode

  // ---------------------------------------------------- how a loop advances

  /** The output holds the first `off` bytes of the result and is untouched behind them;
      the input, shared or not, still holds the data from there on. */
  ghost predicate Loop(input: seq<Byte>, output: seq<Byte>, shared: bool, data: Data, before: seq<Byte>, result: Data,
        off: nat) {
    && off % 16 == 0 && off <= |data| == |result| <= |before| && |data| <= |input|
    && output == result[..off] + before[off..]
    && (if shared then input == output && before[..|data|] == data else input[..|data|] == data)
  }

  lemma {:induction false} Start(input: seq<Byte>, shared: bool, data: Data, before: seq<Byte>, result: Data)
    requires |data| == |result| <= |before| && |data| <= |input| && input[..|data|] == data
    requires (shared ==> input == before)
    ensures Loop(input, before, shared, data, before, result, 0) && data[0..] == data && result[0..] == result
  {
  }

  /** The next block of the input is the next block of the data. */
  lemma {:induction false} Ready(input: seq<Byte>, output: seq<Byte>, shared: bool, data: Data, before: seq<Byte>,
        result: Data, off: nat)
    requires Loop(input, output, shared, data, before, result, off) && off < |data|
    ensures off + 16 <= |data| && |data[off..]| % 16 == 0 && |data[off + 16..]| % 16 == 0
    ensures off + 16 <= |output| && off + 16 <= |input| && input[off..off + 16] == data[off..][..16]
    ensures data[off..] != [] && data[off..][16..] == data[off + 16..]
  {
  }

  /** Writing the next sixteen bytes of the result. */
  lemma {:induction false} Advance(input: seq<Byte>, output: seq<Byte>, shared: bool, data: Data, before: seq<Byte>,
        result: Data, off: nat,
                                   block: Aes.Block, rest: seq<Byte>, input': seq<Byte>, output': seq<Byte>)
    requires Loop(input, output, shared, data, before, result, off) && off + 16 <= |data|
    requires result[off..] == block + rest
    requires off + 16 <= |output| && output' == output[..off] + block + output[off + 16..]
    requires input' == if shared then output' else input
    ensures Loop(input', output', shared, data, before, result, off + 16) && result[off + 16..] == rest
  {
    assert result[off..off + 16] == result[off..][..16] == block;
    assert result[off + 16..] == result[off..][16..];
    assert result[..off + 16] == result[..off] + result[off..off + 16];
    assert output[..off] == result[..off] && output[off + 16..] == before[off + 16..];
  }

  lemma {:induction false} Finish(input: seq<Byte>, output: seq<Byte>, shared: bool, data: Data, before: seq<Byte>,
        result: Data)
    requires Loop(input, output, shared, data, before, result, |data|)
    ensures output == result + before[|data|..]
  {
    assert result[..|data|] == result;
  }

  // ---------------------------------------------------------------- pieces

  /** block[i] = from[at + i] ^ mask[i] */
  method XorOut(block: array<Byte>, from: array<Byte>, at: nat, mask: array<Byte>)
    requires block.Length == 16 == mask.Length && at + 16 <= from.Length && block != from && block != mask
    modifies block
    ensures block[..] == XorBlocks(from[at..at + 16], mask[..])
  {
    hide Aes.Xor;
    for i := 0 to 16
      invariant forall j :: 0 <= j < i ==> block[j] == Aes.Xor(from[at + j], mask[j])
    {
      block[i] := Aes.Xor(from[at + i], mask[i]);
    }
  }

  /** to[at + i] = block[i] ^ mask[i] */
  method XorIn(to: array<Byte>, at: nat, block: array<Byte>, mask: array<Byte>)
    requires block.Length == 16 == mask.Length && at + 16 <= to.Length && to != block && to != mask
    modifies to
    ensures to[..] == old(to[..at]) + XorBlocks(block[..], mask[..]) + old(to[at + 16..])
  {
    hide Aes.Xor;
    ghost var before := to[..];
    for i := 0 to 16
      invariant forall k :: 0 <= k < to.Length ==>
        to[k] == if at <= k < at + i then Aes.Xor(block[k - at], mask[k - at]) else before[k]
    {
      to[at + i] := Aes.Xor(block[i], mask[i]);
    }
    assert to[..] == before[..at] + XorBlocks(block[..], mask[..]) + before[at + 16..];
  }

  method CopyBlock(to: array<Byte>, from: array<Byte>, at: nat)
    requires to.Length == 16 && at + 16 <= from.Length && to != from
    modifies to
    ensures to[..] == from[at..at + 16]
  {
    forall i | 0 <= i < 16 {
      to[i] := from[at + i];
    }
  }

  /** A local block, one that is decrypted into, and blocks encrypted over themselves. */
  method NewBlock(bytes: Aes.Block) returns (block: array<Byte>)
    ensures fresh(block) && block.Length == 16 && block[..] == bytes
  {
    block := new Byte[16](i requires 0 <= i < 16 => bytes[i]);
  }

  method NewDecrypted(key: Aes.Schedule, from: array<Byte>) returns (block: array<Byte>)
    requires from.Length == 16
    ensures fresh(block) && block.Length == 16 && block[..] == Aes.Decrypt(key, from[..])
  {
    hide Aes.Decrypt;
    block := new Byte[16];
    assert from[0..16] == from[..];
    DecryptBlock(key, from, 0, block, 0);
  }

  method EncryptInPlace(key: Aes.Schedule, block: array<Byte>)
    requires block.Length == 16
    modifies block
    ensures block[..] == Aes.Encrypt(key, old(block[..]))
  {
    hide Aes.Encrypt;
    assert block[0..16] == block[..];
    EncryptBlock(key, block, 0, block, 0);
  }

  method DecryptInPlace(key: Aes.Schedule, block: array<Byte>)
    requires block.Length == 16
    modifies block
    ensures block[..] == Aes.Decrypt(key, old(block[..]))
  {
    hide Aes.Decrypt;
    assert block[0..16] == block[..];
    DecryptBlock(key, block, 0, block, 0);
  }

  method XtsMultiplyByX(tweak: array<Byte>)
    requires tweak.Length == 16
    modifies tweak
    ensures tweak[..] == DoubledTweak(old(tweak[..]))
  {
    ghost var before := tweak[..];
    var carry: Byte := 0;
    for i := 0 to 16
      invariant carry == if i == 0 then 0 else before[i - 1] >> 7
      invariant forall j :: i <= j < 16 ==> tweak[j] == before[j]
      invariant forall j :: 0 <= j < i ==> tweak[j] == (before[j] << 1) | (if j == 0 then 0 else before[j - 1] >> 7)
    {
      var next_carry := tweak[i] >> 7;
      tweak[i] := (tweak[i] << 1) | carry;
      carry := next_carry;
    }
    if carry != 0 {
      tweak[0] := tweak[0] ^ 0x87;
    }
  }

  // ------------------------------------------------------------------- ECB

  method EcbEncrypt(key: Aes.Schedule, input: array<Byte>, output: array<Byte>, size: nat) returns (ok: bool)
    requires size <= input.Length && size <= output.Length
    modifies output
    ensures ok <==> size % 16 == 0
    ensures ok ==> output[..] == EcbEncrypted(key, old(input[..size])) + old(output[size..])
    ensures !ok ==> output[..] == old(output[..])
  {
    hide Aes.Encrypt, Loop;
    if size % 16 != 0 {
      return false;
    }
    ghost var data, before, shared := input[..size], output[..], input == output;
    ghost var result := EcbEncrypted(key, data);
    Start(input[..], shared, data, before, result);
    var off := 0;
    while off < size
      invariant off <= size && Loop(input[..], output[..], shared, data, before, result, off)
      invariant |data[off..]| % 16 == 0 && result[off..] == EcbEncrypted(key, data[off..])
    {
      Ready(input[..], output[..], shared, data, before, result, off);
      ghost var was, wasOut := input[..], output[..];
      ghost var block, rest := Aes.Encrypt(key, data[off..][..16]), EcbEncrypted(key, data[off + 16..]);
      EncryptBlock(key, input, off, output, off);
      Advance(was, wasOut, shared, data, before, result, off, block, rest, input[..], output[..]);
      off := off + 16;
    }
    Finish(input[..], output[..], shared, data, before, result);
    return true;
  }

  method EcbDecrypt(key: Aes.Schedule, input: array<Byte>, output: array<Byte>, size: nat) returns (ok: bool)
    requires size <= input.Length && size <= output.Length
    modifies output
    ensures ok <==> size % 16 == 0
    ensures ok ==> output[..] == EcbDecrypted(key, old(input[..size])) + old(output[size..])
    ensures !ok ==> output[..] == old(output[..])
  {
    hide Aes.Decrypt, Loop;
    if size % 16 != 0 {
      return false;
    }
    ghost var data, before, shared := input[..size], output[..], input == output;
    ghost var result := EcbDecrypted(key, data);
    Start(input[..], shared, data, before, result);
    var off := 0;
    while off < size
      invariant off <= size && Loop(input[..], output[..], shared, data, before, result, off)
      invariant |data[off..]| % 16 == 0 && result[off..] == EcbDecrypted(key, data[off..])
    {
      Ready(input[..], output[..], shared, data, before, result, off);
      ghost var was, wasOut := input[..], output[..];
      ghost var block, rest := Aes.Decrypt(key, data[off..][..16]), EcbDecrypted(key, data[off + 16..]);
      DecryptBlock(key, input, off, output, off);
      Advance(was, wasOut, shared, data, before, result, off, block, rest, input[..], output[..]);
      off := off + 16;
    }
    Finish(input[..], output[..], shared, data, before, result);
    return true;
  }

  // ------------------------------------------------------------------- CBC

  /** One block of the encryption loop. */
  method CbcEncryptBlock(key: Aes.Schedule, chain: array<Byte>, input: array<Byte>, output: array<Byte>, off: nat)
    requires chain.Length == 16 && chain != input && chain != output && off + 16 <= input.Length
    requires off + 16 <= output.Length
    modifies chain, output
    ensures var c := Aes.Encrypt(key, XorBlocks(old(input[off..off + 16]), old(chain[..])));
      output[..] == old(output[..off]) + c + old(output[off + 16..]) && chain[..] == c
  {
    hide Aes.Encrypt, XorBlocks;
    var block := new Byte[16];
    XorOut(block, input, off, chain);
    assert block[0..16] == block[..];
    EncryptBlock(key, block, 0, output, off);
    CopyBlock(chain, output, off);
  }

  /** One block of the decryption loop; the ciphertext is captured before it may be overwritten. */
  method CbcDecryptBlock(key: Aes.Schedule, chain: array<Byte>, input: array<Byte>, output: array<Byte>, off: nat)
    requires chain.Length == 16 && chain != input && chain != output && off + 16 <= input.Length
    requires off + 16 <= output.Length
    modifies chain, output
    ensures var c := old(input[off..off + 16]);
      output[..] == old(output[..off]) + XorBlocks(Aes.Decrypt(key, c), old(chain[..])) + old(output[off + 16..])
        && chain[..] == c
  {
    hide Aes.Decrypt, XorBlocks;
    var next_chain := new Byte[16];
    CopyBlock(next_chain, input, off);
    var block := NewDecrypted(key, next_chain);
    XorIn(output, off, block, chain);
    assert next_chain[0..16] == next_chain[..];
    CopyBlock(chain, next_chain, 0);
  }

  method CbcEncrypt(key: Aes.Schedule, iv: Aes.Block, input: array<Byte>, output: array<Byte>,
        size: nat) returns (ok: bool)
    requires size <= input.Length && size <= output.Length
    modifies output
    ensures ok <==> size % 16 == 0
    ensures ok ==> output[..] == CbcEncrypted(key, iv, old(input[..size])) + old(output[size..])
    ensures !ok ==> output[..] == old(output[..])
  {
    hide Aes.Encrypt, XorBlocks, Loop;
    if size % 16 != 0 {
      return false;
    }
    ghost var data, before, shared := input[..size], output[..], input == output;
    ghost var result := CbcEncrypted(key, iv, data);
    Start(input[..], shared, data, before, result);
    var chain := NewBlock(iv);
    var off := 0;
    while off < size
      invariant off <= size && Loop(input[..], output[..], shared, data, before, result, off)
      invariant |data[off..]| % 16 == 0 && result[off..] == CbcEncrypted(key, chain[..], data[off..])
    {
      Ready(input[..], output[..], shared, data, before, result, off);
      ghost var was, wasOut := input[..], output[..];
      ghost var c := Aes.Encrypt(key, XorBlocks(data[off..][..16], chain[..]));
      CbcEncryptBlock(key, chain, input, output, off);
      Advance(was, wasOut, shared, data, before, result, off, c, CbcEncrypted(key, c, data[off + 16..]), input[..],
        output[..]);
      off := off + 16;
    }
    Finish(input[..], output[..], shared, data, before, result);
    return true;
  }

  method CbcDecrypt(key: Aes.Schedule, iv: Aes.Block, input: array<Byte>, output: array<Byte>,
        size: nat) returns (ok: bool)
    requires size <= input.Length && size <= output.Length
    modifies output
    ensures ok <==> size % 16 == 0
    ensures ok ==> output[..] == CbcDecrypted(key, iv, old(input[..size])) + old(output[size..])
    ensures !ok ==> output[..] == old(output[..])
  {
    hide Aes.Decrypt, XorBlocks, Loop;
    if size % 16 != 0 {
      return false;
    }
    ghost var data, before, shared := input[..size], output[..], input == output;
    ghost var result := CbcDecrypted(key, iv, data);
    Start(input[..], shared, data, before, result);
    var chain := NewBlock(iv);
    var off := 0;
    while off < size
      invariant off <= size && Loop(input[..], output[..], shared, data, before, result, off)
      invariant |data[off..]| % 16 == 0 && result[off..] == CbcDecrypted(key, chain[..], data[off..])
    {
      Ready(input[..], output[..], shared, data, before, result, off);
      ghost var was, wasOut := input[..], output[..];
      ghost var x := XorBlocks(Aes.Decrypt(key, data[off..][..16]), chain[..]);
      ghost var rest := CbcDecrypted(key, data[off..][..16], data[off + 16..]);
      CbcDecryptBlock(key, chain, input, output, off);
      Advance(was, wasOut, shared, data, before, result, off, x, rest, input[..], output[..]);
      off := off + 16;
    }
    Finish(input[..], output[..], shared, data, before, result);
    return true;
  }

  // ------------------------------------------------------------------- XTS

  method FirstTweak(key2: Aes.Schedule, unit: Aes.Block) returns (tweak: array<Byte>)
    ensures fresh(tweak) && tweak.Length == 16 && tweak[..] == Aes.Encrypt(key2, unit)
  {
    hide Aes.Encrypt;
    var data_unit := NewBlock(unit);
    assert data_unit[0..16] == unit;
    tweak := new Byte[16];
    EncryptBlock(key2, data_unit, 0, tweak, 0);
  }

  method XtsEncrypt(key1: Aes.Schedule, key2: Aes.Schedule, unit: Aes.Block, input: array<Byte>, output: array<Byte>,
        size: nat)
      returns (ok: bool)
    requires size <= input.Length && size <= output.Length
    modifies output
    ensures ok <==> size % 16 == 0
    ensures ok ==> output[..] == XtsEncryptedUnit(key1, key2, unit, old(input[..size])) + old(output[size..])
    ensures !ok ==> output[..] == old(output[..])
  {
    hide Aes.Encrypt, Aes.Decrypt, XorBlocks, DoubledTweak, Loop;
    if size % 16 != 0 {
      return false;
    }
    ghost var data, before, shared := input[..size], output[..], input == output;
    var tweak := FirstTweak(key2, unit);
    ghost var result := XtsEncrypted(key1, tweak[..], data);
    Start(input[..], shared, data, before, result);
    var off := 0;
    while off < size
      invariant off <= size && Loop(input[..], output[..], shared, data, before, result, off)
      invariant |data[off..]| % 16 == 0 && result[off..] == XtsEncrypted(key1, tweak[..], data[off..])
    {
      Ready(input[..], output[..], shared, data, before, result, off);
      ghost var was, wasOut := input[..], output[..];
      var block := new Byte[16];
      XorOut(block, input, off, tweak);
      EncryptInPlace(key1, block);
      ghost var x := XorBlocks(block[..], tweak[..]);
      ghost var rest := XtsEncrypted(key1, DoubledTweak(tweak[..]), data[off + 16..]);
      XorIn(output, off, block, tweak);
      Advance(was, wasOut, shared, data, before, result, off, x, rest, input[..], output[..]);
      XtsMultiplyByX(tweak);
      off := off + 16;
    }
    Finish(input[..], output[..], shared, data, before, result);
    return true;
  }

  method XtsDecrypt(key1: Aes.Schedule, key2: Aes.Schedule, unit: Aes.Block, input: array<Byte>, output: array<Byte>,
        size: nat)
      returns (ok: bool)
    requires size <= input.Length && size <= output.Length
    modifies output
    ensures ok <==> size % 16 == 0
    ensures ok ==> output[..] == XtsDecryptedUnit(key1, key2, unit, old(input[..size])) + old(output[size..])
    ensures !ok ==> output[..] == old(output[..])
  {
    hide Aes.Encrypt, Aes.Decrypt, XorBlocks, DoubledTweak, Loop;
    if size % 16 != 0 {
      return false;
    }
    ghost var data, before, shared := input[..size], output[..], input == output;
    var tweak := FirstTweak(key2, unit);
    ghost var result := XtsDecrypted(key1, tweak[..], data);
    Start(input[..], shared, data, before, result);
    var off := 0;
    while off < size
      invariant off <= size && Loop(input[..], output[..], shared, data, before, result, off)
      invariant |data[off..]| % 16 == 0 && result[off..] == XtsDecrypted(key1, tweak[..], data[off..])
    {
      Ready(input[..], output[..], shared, data, before, result, off);
      ghost var was, wasOut := input[..], output[..];
      var block := new Byte[16];
      XorOut(block, input, off, tweak);
      DecryptInPlace(key1, block);
      ghost var x := XorBlocks(block[..], tweak[..]);
      ghost var rest := XtsDecrypted(key1, DoubledTweak(tweak[..]), data[off + 16..]);
      XorIn(output, off, block, tweak);
      Advance(was, wasOut, shared, data, before, result, off, x, rest, input[..], output[..]);
      XtsMultiplyByX(tweak);
      off := off + 16;
    }
    Finish(input[..], output[..], shared, data, before, result);
    return true;
  }
}
