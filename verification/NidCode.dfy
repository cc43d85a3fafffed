/** The encoder and decoder in masks and shifts over local groups, the reverse table, and
    the name table. */
module NidCode {
  import opened Basics
  import opened Bits
  import opened Spelling = Nid

  /** The masks and shifts of a byte pair, as arithmetic. */
  lemma {:induction false} ByteFields(a: Byte, b: Byte)
    ensures Shr(a, 2) == a / 4 && And(a, 0x3F) == a % 64
    ensures Or(Shl(And(a, 0x03), 4), Shr(b, 4)) == a % 4 * 16 + b / 16
    ensures Or(Shl(And(a, 0x0F), 2), Shr(b, 6)) == a % 16 * 4 + b / 64
    ensures Shl(And(a, 0x0F), 2) == a % 16 * 4
  {
    hide And, Or, Shl, Shr, Pow2;
    FieldPowers();
    ShrIsQuotient(a, 2);
    ShrIsQuotient(b, 4);
    ShrIsQuotient(b, 6);
    MaskIsRemainder(a, 2);
    MaskIsRemainder(a, 4);
    MaskIsRemainder(a, 6);
    ShlIsProduct(a % 4, 4);
    ShlIsProduct(a % 16, 2);
    OrJoins(a % 4, b / 16, 4);
    OrJoins(a % 16, b / 64, 2);
  }

  /** Those of a pair of six-bit groups. */
  lemma {:induction false} SextetFields(p: Sextet, q: Sextet)
    ensures Or(Shl(p, 2), Shr(q, 4)) == p * 4 + q / 16
    ensures Or(Shl(And(p, 0x0F), 4), Shr(q, 2)) == p % 16 * 16 + q / 4
    ensures Or(Shl(And(p, 0x03), 6), q) == p % 4 * 64 + q
  {
    hide And, Or, Shl, Shr, Pow2;
    FieldPowers();
    ShrIsQuotient(q, 2);
    ShrIsQuotient(q, 4);
    MaskIsRemainder(p, 2);
    MaskIsRemainder(p, 4);
    ShlIsProduct(p, 2);
    ShlIsProduct(p % 16, 4);
    ShlIsProduct(p % 4, 6);
    OrJoins(p, q / 16, 2);
    OrJoins(p % 16, q / 4, 4);
    OrJoins(p % 4, q, 6);
  }

  /** The eleven groups of the eight bytes, by masks and shifts. */
  method Unpacked(b: Nid) returns (c: seq<nat>)
    ensures c == Sextets(b)
  {
    hide And, Or, Shl, Shr;
    ByteFields(b[0], b[1]);
    ByteFields(b[1], b[2]);
    ByteFields(b[2], b[3]);
    ByteFields(b[3], b[4]);
    ByteFields(b[4], b[5]);
    ByteFields(b[5], b[6]);
    ByteFields(b[6], b[7]);
    ByteFields(b[7], b[7]);
    c := [Shr(b[0], 2), Or(Shl(And(b[0], 0x03), 4), Shr(b[1], 4)),
          Or(Shl(And(b[1], 0x0F), 2), Shr(b[2], 6)), And(b[2], 0x3F),
          Shr(b[3], 2), Or(Shl(And(b[3], 0x03), 4), Shr(b[4], 4)),
          Or(Shl(And(b[4], 0x0F), 2), Shr(b[5], 6)), And(b[5], 0x3F),
          Shr(b[6], 2), Or(Shl(And(b[6], 0x03), 4), Shr(b[7], 4)), Shl(And(b[7], 0x0F), 2)];
  }

  method Encode(b: Nid) returns (out: string)
    ensures out == EncodeNid(b)
  {
    hide CharOf, Sextets, ALPHABET;
    var c := Unpacked(b);
    out := "";
    for i := 0 to 11
      invariant out == EncodeNid(b)[..i]
    {
      AlphabetIs(c[i]);
      out := out + [ALPHABET[c[i]]];
    }
  }

  /** The reverse table: character to six-bit value, 0xFF for everything else. */
  class ReverseTable {
    const value: array<nat>

    /** The table of the alphabet. */
    ghost predicate Ready()
      reads value
    {
      value.Length == 256 && forall c: nat :: c < 256 ==> value[c] == EntryFor(c)
    }

    constructor ()
      ensures fresh(value) && value.Length == 256 && forall c :: 0 <= c < 256 ==> value[c] == 0xFF
    {
      value := new nat[256](_ => 0xFF);
    }

    /** Enters a list of distinct characters at their positions. */
    method Build(alpha: string)
      requires value.Length == 256 && |alpha| <= 64
      requires forall i :: 0 <= i < |alpha| ==> alpha[i] as nat < 256
      requires forall i, j :: 0 <= i < j < |alpha| ==> alpha[i] != alpha[j]
      requires forall c :: 0 <= c < 256 ==> value[c] == 0xFF
      modifies value
      ensures forall i :: 0 <= i < |alpha| ==> value[alpha[i] as nat] == i
      ensures forall c :: 0 <= c < 256 && (forall i :: 0 <= i < |alpha| ==> alpha[i] as nat != c) ==> value[c] == 0xFF
    {
      for i := 0 to |alpha|
        invariant forall j :: 0 <= j < i ==> value[alpha[j] as nat] == j
        invariant forall c :: 0 <= c < 256 && (forall j :: 0 <= j < i ==> alpha[j] as nat != c) ==> value[c] == 0xFF
      {
        value[alpha[i] as nat] := i;
      }
    }

    /** Succeeds exactly on the characters of the alphabet, with their values. */
    method Lookup(c: char) returns (ok: bool, v: nat)
      requires Ready() && c as nat < 256
      ensures ok <==> ValueOf(c).Some?
      ensures ok ==> ValueOf(c) == Some(v)
    {
      v := value[c as nat];
      ok := v != 0xFF;
    }
  }

  ghost function EntryFor(c: nat): nat
    requires c < 256
  {
    match ValueOf(c as char) case Some(v) => v case None => 0xFF
  }

  lemma {:induction false} AlphabetHasNoRepeats()
    ensures |ALPHABET| == 64
    ensures forall i :: 0 <= i < 64 ==> ALPHABET[i] as nat < 256 && ValueOf(ALPHABET[i]) == Some(i)
    ensures forall i, j :: 0 <= i < j < 64 ==> ALPHABET[i] != ALPHABET[j]
  {
    hide ALPHABET;
    AlphabetIs(0);
    forall i | 0 <= i < 64 ensures ALPHABET[i] as nat < 256 && ValueOf(ALPHABET[i]) == Some(i) {
      AlphabetIs(i);
      AlphabetIsDense(i, 'A');
    }
  }

  method GetReverseTable() returns (rt: ReverseTable)
    ensures fresh(rt) && fresh(rt.value) && rt.Ready()
  {
    hide ValueOf, ALPHABET;
    AlphabetHasNoRepeats();
    rt := new ReverseTable();
    rt.Build(ALPHABET);
    forall c: nat | c < 256 ensures rt.value[c] == EntryFor(c) {
      if ValueOf(c as char).Some? {
        var v := ValueOf(c as char).value;
        AlphabetIsDense(v, c as char);
        AlphabetIs(v);
      } else {
        forall i | 0 <= i < 64 ensures ALPHABET[i] as nat != c {
          assert ValueOf(ALPHABET[i]).Some?;
        }
      }
    }
  }

  /** Texts are byte strings, a byte written as the character of the same code. */
  method Decode(s: string) returns (out: Option<Nid>)
    requires forall i :: 0 <= i < |s| ==> s[i] as nat < 256
    ensures out == DecodeNid(s)
  {
    if |s| != ENCODED_LENGTH {
      return None;
    }
    var rt := GetReverseTable();
    var c: seq<nat> := [];
    for i := 0 to 11
      invariant rt.Ready() && |c| == i && forall j :: 0 <= j < i ==> ValueOf(s[j]) == Some(c[j])
    {
      var ok, v := rt.Lookup(s[i]);
      if !ok {
        return None;
      }
      c := c + [v];
    }
    assert InAlphabet(s) && c == Values(s);
    var b := Packed(c);
    out := Some(b);
  }

  /** The eight bytes of eleven groups, by masks and shifts. */
  method Packed(c: seq<Sextet>) returns (b: Nid)
    requires |c| == 11
    ensures b == Bytes(c)
  {
    hide And, Or, Shl, Shr;
    SextetFields(c[0], c[1]);
    SextetFields(c[1], c[2]);
    SextetFields(c[2], c[3]);
    SextetFields(c[4], c[5]);
    SextetFields(c[5], c[6]);
    SextetFields(c[6], c[7]);
    SextetFields(c[8], c[9]);
    SextetFields(c[9], c[10]);
    b := [Or(Shl(c[0], 2), Shr(c[1], 4)), Or(Shl(And(c[1], 0x0F), 4), Shr(c[2], 2)), Or(Shl(And(c[2], 0x03), 6), c[3]),
          Or(Shl(c[4], 2), Shr(c[5], 4)), Or(Shl(And(c[5], 0x0F), 4), Shr(c[6], 2)), Or(Shl(And(c[6], 0x03), 6), c[7]),
          Or(Shl(c[8], 2), Shr(c[9], 4)), Or(Shl(And(c[9], 0x0F), 4), Shr(c[10], 2))];
  }

  /** NameToNid behind its hash: the first eight digest bytes, the last one first. It
      spells what nid_of makes of the same digest. */
  method NidOfDigest(digest: seq<Byte>) returns (encoded: string)
    requires |digest| >= 8
    ensures encoded == ShiftEncoded(digest[..8])
  {
    hide ShiftEncoded, EncodeNid;
    var bytes: seq<Byte> := [];
    for i := 0 to 8
      invariant |bytes| == i && forall j :: 0 <= j < i ==> bytes[j] == digest[7 - j]
    {
      bytes := bytes + [digest[7 - i]];
    }
    assert bytes == Reversed(digest[..8]);
    EncodingsAgree(digest[..8]);
    encoded := Encode(bytes);
  }

  /** How many of the first n lines the loader accepts. */
  function Accepted(lines: seq<string>, n: nat): nat
    requires n <= |lines|
  {
    if n == 0 then 0 else Accepted(lines, n - 1) + (if ParseLine(lines[n - 1]).Some? then 1 else 0)
  }

  /** Merges a database file into the live table. */
  class NameTable {
    var names: NameMap

    constructor (known: NameMap)
      ensures names == known
    {
      names := known;
    }

    method LoadNidDatabase(lines: seq<string>) returns (added: nat)
      modifies this
      ensures names == Merged(old(names), lines, |lines|)
      ensures added == Accepted(lines, |lines|)
    {
      hide ParseLine;
      added := 0;
      for n := 0 to |lines|
        invariant names == Merged(old(names), lines, n) && added == Accepted(lines, n)
      {
        match ParseLine(lines[n]) {
          case None =>
          case Some(entry) =>
            names := names[entry.0 := entry.1];
            added := added + 1;
        }
      }
    }

    /** The name of an identifier, through its spelling. */
    method LookupNidName(nid: Nid) returns (name: Option<string>)
      ensures name == Spelling.LookupNidName(names, nid)
    {
      var encoded := Encode(nid);
      if encoded in names {
        return Some(names[encoded].name);
      }
      return None;
    }
  }
}
