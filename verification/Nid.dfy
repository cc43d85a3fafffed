/** PS5 symbol identifiers: eight bytes spelled with eleven characters of a 64-character
    alphabet, two implementations of the spelling, and the name table keyed by it. */
module Nid {
  import opened Basics
  import opened Bits

  const ENCODED_LENGTH: nat := 11
  const FULL_LENGTH: nat := 15
  const UPPER_CASE: string := "ABCDEFGHIJKLMNOPQRSTUVWXYZ"
  const LOWER_CASE: string := "abcdefghijklmnopqrstuvwxyz"
  const DIGITS_AND_SIGNS: string := "0123456789+-"
  const ALPHABET: string := UPPER_CASE + LOWER_CASE + DIGITS_AND_SIGNS

  type Byte = b: nat | b < 256
  type Sextet = c: nat | c < 64
  /** The eight raw bytes. */
  type Nid = n: seq<Byte> | |n| == 8 witness [0, 0, 0, 0, 0, 0, 0, 0]

  // -------------------------------------------------------------- alphabet

  /** Character v of the alphabet. */
  function CharOf(v: Sextet): char {
    if v < 26 then 'A' + v as char
    else if v < 52 then 'a' + (v - 26) as char
    else if v < 62 then '0' + (v - 52) as char
    else if v == 62 then '+'
    else '-'
  }

  /** The alphabet as the string both implementations index. */
  lemma {:induction false} AlphabetIs(v: Sextet)
    ensures |ALPHABET| == 64 && ALPHABET[v] == CharOf(v)
  {
    if v < 26 {
      UpperCase(v);
    } else if v < 52 {
      LowerCase(v - 26);
    } else {
      Signs(v - 52);
    }
  }

  lemma {:induction false} UpperCase(v: nat)
    requires v < 26
    ensures UPPER_CASE[v] == 'A' + v as char
  {
  }

  lemma {:induction false} LowerCase(v: nat)
    requires v < 26
    ensures LOWER_CASE[v] == 'a' + v as char
  {
  }

  lemma {:induction false} Signs(v: nat)
    requires v < 12
    ensures DIGITS_AND_SIGNS[v] == if v < 10 then '0' + v as char else if v == 10 then '+' else '-'
  {
  }

  function ValueOf(c: char): Option<Sextet> {
    if 'A' <= c <= 'Z' then Some(c as nat - 'A' as nat)
    else if 'a' <= c <= 'z' then Some(c as nat - 'a' as nat + 26)
    else if '0' <= c <= '9' then Some(c as nat - '0' as nat + 52)
    else if c == '+' then Some(62)
    else if c == '-' then Some(63)
    else None
  }

  lemma {:induction false} AlphabetIsDense(v: Sextet, c: char)
    ensures ValueOf(CharOf(v)) == Some(v)
    ensures ValueOf(c).Some? ==> CharOf(ValueOf(c).value) == c
  {
  }

  // ------------------------------------------------------- bytes and sextets

  /** The eleven six-bit groups; the last holds four bits and two zeros. */
  function Sextets(b: Nid): (c: seq<Sextet>)
    ensures |c| == 11
  {
    [b[0] / 4, b[0] % 4 * 16 + b[1] / 16, b[1] % 16 * 4 + b[2] / 64, b[2] % 64,
     b[3] / 4, b[3] % 4 * 16 + b[4] / 16, b[4] % 16 * 4 + b[5] / 64, b[5] % 64,
     b[6] / 4, b[6] % 4 * 16 + b[7] / 16, b[7] % 16 * 4]
  }

  function Bytes(sextets: seq<Sextet>): Nid
    requires |sextets| == 11
  {
    var c: seq<nat> := sextets;
    [c[0] * 4 + c[1] / 16, c[1] % 16 * 16 + c[2] / 4, c[2] % 4 * 64 + c[3],
     c[4] * 4 + c[5] / 16, c[5] % 16 * 16 + c[6] / 4, c[6] % 4 * 64 + c[7],
     c[8] * 4 + c[9] / 16, c[9] % 16 * 16 + c[10] / 4]
  }

  /** Three bytes taken apart into four groups and packed again. */
  lemma {:induction false} Packs(x: Byte, y: Byte, z: Byte)
    ensures var q, r := x % 4 * 16 + y / 16, y % 16 * 4 + z / 64;
      x / 4 * 4 + q / 16 == x && q % 16 * 16 + r / 4 == y && r % 4 * 64 + z % 64 == z
    ensures y % 16 * 4 / 4 == y % 16
  {
    EuclideanDivision(x % 4 * 16 + y / 16, x % 4, y / 16, 16);
    EuclideanDivision(y % 16 * 4 + z / 64, y % 16, z / 64, 4);
  }

  lemma {:induction false} BytesOfSextets(n: Nid)
    ensures Bytes(Sextets(n)) == n
  {
    Packs(n[0], n[1], n[2]);
    Packs(n[3], n[4], n[5]);
    Packs(n[6], n[7], 0);
    var b := Bytes(Sextets(n));
    assert b[0] == n[0] && b[1] == n[1] && b[2] == n[2] && b[3] == n[3];
    assert b[4] == n[4] && b[5] == n[5] && b[6] == n[6] && b[7] == n[7];
  }

  /** Going through the bytes only clears the two lowest bits of the last group. */
  lemma {:induction false} SextetsOfBytes(c: seq<Sextet>)
    requires |c| == 11
    ensures Sextets(Bytes(c)) == c[..10] + [c[10] / 4 * 4]
  {
    var b := Bytes(c);
    Groups(c[0], c[1], c[2], c[3]);
    Groups(c[4], c[5], c[6], c[7]);
    Groups(c[8], c[9], c[10], 0);
    var s := Sextets(b);
    assert s[0] == c[0] && s[1] == c[1] && s[2] == c[2] && s[3] == c[3];
    assert s[4] == c[4] && s[5] == c[5] && s[6] == c[6] && s[7] == c[7];
    assert s[8] == c[8] && s[9] == c[9] && s[10] == c[10] / 4 * 4;
  }

  /** Four groups packed into three bytes and taken apart again. */
  lemma {:induction false} Groups(p: Sextet, q: Sextet, r: Sextet, t: Sextet)
    ensures var b0, b1, b2 := p * 4 + q / 16, q % 16 * 16 + r / 4, r % 4 * 64 + t;
      b0 / 4 == p && b0 % 4 * 16 + b1 / 16 == q && b1 % 16 * 4 + b2 / 64 == r && b2 % 64 == t
        && b1 % 16 * 4 == r / 4 * 4
  {
  }

  // ----------------------------------------------------------- the spelling

  function Spelled(c: seq<Sextet>): (s: string)
    ensures |s| == |c|
  {
    seq(|c|, i requires 0 <= i < |c| => CharOf(c[i]))
  }

  function EncodeNid(n: Nid): (s: string)
    ensures |s| == 11
  {
    Spelled(Sextets(n))
  }

  predicate InAlphabet(s: string) {
    forall i :: 0 <= i < |s| ==> ValueOf(s[i]).Some?
  }

  function Values(s: string): (c: seq<Sextet>)
    requires InAlphabet(s)
    ensures |c| == |s|
  {
    seq(|s|, i requires 0 <= i < |s| => ValueOf(s[i]).value)
  }

  function DecodeNid(s: string): Option<Nid> {
    if |s| != ENCODED_LENGTH || !InAlphabet(s) then None else Some(Bytes(Values(s)))
  }

  lemma {:induction false} ValuesOfSpelled(c: seq<Sextet>)
    ensures InAlphabet(Spelled(c)) && Values(Spelled(c)) == c
  {
    hide CharOf, ValueOf;
    forall i | 0 <= i < |c| ensures ValueOf(Spelled(c)[i]) == Some(c[i]) {
      AlphabetIsDense(c[i], 'A');
    }
  }

  /** Every identifier survives spelling. */
  lemma {:induction false} DecodeOfEncode(n: Nid)
    ensures DecodeNid(EncodeNid(n)) == Some(n)
  {
    hide Sextets, Bytes, Spelled, Values, InAlphabet;
    ValuesOfSpelled(Sextets(n));
    BytesOfSextets(n);
  }

  /** The value of the last character without its two padding bits. */
  function Canonical(s: string): (r: string)
    requires |s| == 11 && InAlphabet(s)
    ensures |r| == 11
  {
    s[..10] + [CharOf(ValueOf(s[10]).value / 4 * 4)]
  }

  /** Spelling a decoded text again only clears the padding bits of its last character. */
  lemma {:induction false} EncodeOfDecode(s: string)
    requires |s| == 11 && InAlphabet(s)
    ensures EncodeNid(DecodeNid(s).value) == Canonical(s)
    ensures Canonical(s) == s <==> ValueOf(s[10]).value % 4 == 0
  {
    hide CharOf, ValueOf, Sextets, Bytes;
    var c := Values(s);
    SextetsOfBytes(c);
    forall i | 0 <= i < 11 ensures EncodeNid(DecodeNid(s).value)[i] == Canonical(s)[i] {
      AlphabetIsDense(c[i], s[i]);
    }
    AlphabetIsDense(c[10] / 4 * 4, s[10]);
    assert s[..10] + [s[10]] == s;
  }

  // ------------------------------------------- the integer-shift encoding

  function Number(digits: seq<nat>, base: nat): nat {
    if digits == [] then 0 else Number(digits[..|digits| - 1], base) * base + digits[|digits| - 1]
  }

  function Reversed(s: seq<Byte>): (r: seq<Byte>)
    ensures |r| == |s|
  {
    seq(|s|, i requires 0 <= i < |s| => s[|s| - 1 - i])
  }

  /** x >> 6 * k */
  function ShiftedSextets(x: nat, k: nat): nat {
    if k == 0 then x else ShiftedSextets(x / 64, k - 1)
  }

  /** nid_of: the first eight digest bytes as a little-endian number, two zero bits
      appended, and eleven groups of six bits from the top. */
  function ShiftEncoded(digest: Nid): (s: string)
    ensures |s| == 11
  {
    var value := Number(Reversed(digest), 256) * 4;
    seq(11, i requires 0 <= i < 11 => CharOf(ShiftedSextets(value, 10 - i) % 64))
  }

  /** Digit i of a base-64 number, counted from the top. */
  lemma {:induction false} DigitAt(c: seq<Sextet>, i: nat)
    requires i < |c|
    ensures ShiftedSextets(Number(c, 64), |c| - 1 - i) % 64 == c[i]
  {
    var n := |c| - 1;
    var rest := Number(c[..n], 64);
    assert Number(c, 64) == rest * 64 + c[n];
    EuclideanDivision(Number(c, 64), rest, c[n], 64);
    if i < n {
      DigitAt(c[..n], i);
    }
  }

  lemma {:induction false} NumberOf(c: seq<nat>, base: nat)
    requires |c| == 11
    ensures Number(c, base) == ((((((((((c[0] * base + c[1]) * base + c[2]) * base + c[3]) * base + c[4]) * base
      + c[5]) * base + c[6]) * base
                                 + c[7]) * base + c[8]) * base + c[9]) * base + c[10])
  {
    hide Number;
    NumberOfNothing(base);
    NumberStep(c, base, 11);
    NumberStep(c, base, 10);
    NumberStep(c, base, 9);
    NumberStep(c, base, 8);
    NumberStep(c, base, 7);
    NumberStep(c, base, 6);
    NumberStep(c, base, 5);
    NumberStep(c, base, 4);
    NumberStep(c, base, 3);
    NumberStep(c, base, 2);
    NumberStep(c, base, 1);
    assert c[..11] == c && c[..0] == [];
  }

  lemma {:induction false} NumberOfNothing(base: nat)
    ensures Number([], base) == 0
  {
  }

  lemma {:induction false} NumberStep(c: seq<nat>, base: nat, n: nat)
    requires 0 < n <= |c|
    ensures Number(c[..n], base) == Number(c[..n - 1], base) * base + c[n - 1]
  {
    assert c[..n][..n - 1] == c[..n - 1];
  }

  lemma {:induction false} NumberOfEight(b: seq<nat>, base: nat)
    requires |b| == 8
    ensures Number(b, base) == (((((((b[0] * base + b[1]) * base + b[2]) * base + b[3]) * base + b[4]) * base
      + b[5]) * base + b[6]) * base + b[7])
  {
    hide Number;
    NumberOfNothing(base);
    NumberStep(b, base, 8);
    NumberStep(b, base, 7);
    NumberStep(b, base, 6);
    NumberStep(b, base, 5);
    NumberStep(b, base, 4);
    NumberStep(b, base, 3);
    NumberStep(b, base, 2);
    NumberStep(b, base, 1);
    assert b[..8] == b && b[..0] == [];
  }

  /** The groups spell the number of the bytes with two zero bits appended. */
  lemma {:induction false} SextetsSpellNumber(b: Nid)
    ensures Number(Sextets(b), 64) == Number(b, 256) * 4
  {
    hide Number;
    var c := Sextets(b);
    NumberOf(c, 64);
    NumberOfEight(b, 256);
    assert b[0] == 4 * (b[0] / 4) + b[0] % 4 && b[3] == 4 * (b[3] / 4) + b[3] % 4 && b[6] == 4 * (b[6] / 4) + b[6] % 4;
    assert b[1] == 16 * (b[1] / 16) + b[1] % 16 && b[4] == 16 * (b[4] / 16) + b[4] % 16
      && b[7] == 16 * (b[7] / 16) + b[7] % 16;
    assert b[2] == 64 * (b[2] / 64) + b[2] % 64 && b[5] == 64 * (b[5] / 64) + b[5] % 64;
  }

  /** Both implementations agree on every digest: the bytes in reverse order through the
      table of groups, and the number through shifts. */
  lemma {:induction false} EncodingsAgree(digest: Nid)
    ensures EncodeNid(Reversed(digest)) == ShiftEncoded(digest)
  {
    hide Number, Sextets, CharOf, ShiftedSextets;
    var b := Reversed(digest);
    SextetsSpellNumber(b);
    forall i | 0 <= i < 11 ensures EncodeNid(b)[i] == ShiftEncoded(digest)[i] {
      DigitAt(Sextets(b), i);
    }
  }

  // ------------------------------------------------------- the name table

  datatype NidType = Unknown | Function | Data | Object | Block

  /** The type letter of a tag such as "#T#T". */
  function NidTypeFromString(tag: string): Option<NidType> {
    if |tag| != 4 || tag[0] != '#' || tag[2] != '#' then None
    else if tag[1] == 'T' then Some(Function)
    else if tag[1] == 'A' then Some(Data)
    else if tag[1] == 'S' then Some(Object)
    else if tag[1] == 'B' then Some(Block)
    else None
  }

  datatype ParsedNid = ParsedNid(nid: Nid, raw_tag: string, kind: NidType)

  function ParseNidString(s: string): Option<ParsedNid> {
    if |s| < FULL_LENGTH then None
    else match DecodeNid(s[..ENCODED_LENGTH])
      case None => None
      case Some(nid) =>
        var rest := s[ENCODED_LENGTH..];
        Some(ParsedNid(nid, rest, match NidTypeFromString(rest) case Some(t) => t case None => Unknown))
  }

  /** The key of a database line: a bare spelling as it stands, a tagged one spelled again. */
  function ParseDbNidField(field: string): Option<string> {
    if |field| == ENCODED_LENGTH then (if DecodeNid(field).Some? then Some(field) else None)
    else match ParseNidString(field) case None => None case Some(p) => Some(EncodeNid(p.nid))
  }

  datatype Entry = Entry(name: string, library: string)

  type NameMap = map<string, Entry>

  /** LookupNidName finds names by the spelling of the identifier. */
  function LookupNidName(names: NameMap, nid: Nid): Option<string> {
    var key := EncodeNid(nid);
    if key in names then Some(names[key].name) else None
  }

  /** What a lookup through a stored key's identifier finds in any table: the entry of
      the canonical spelling, which is the key itself exactly when the key came with a
      tag or its padding bits are clear. */
  lemma {:induction false} KeyIsFound(names: NameMap, field: string)
    requires ParseDbNidField(field).Some?
    ensures var key := ParseDbNidField(field).value;
      && |key| == 11 && InAlphabet(key)
      && LookupNidName(names, DecodeNid(key).value)
        == (if Canonical(key) in names then Some(names[Canonical(key)].name) else None)
      && (Canonical(key) == key <==> |field| != ENCODED_LENGTH || ValueOf(field[10]).value % 4 == 0)
  {
    hide EncodeNid, CharOf, ValueOf, Bytes, Canonical, InAlphabet;
    KeyIsSpelling(field);
    var key := ParseDbNidField(field).value;
    EncodeOfDecode(key);
    if |field| != ENCODED_LENGTH {
      DecodeOfEncode(ParseNidString(field).value.nid);
    }
  }

  lemma {:induction false} KeyIsSpelling(field: string)
    requires ParseDbNidField(field).Some?
    ensures var key := ParseDbNidField(field).value; |key| == 11 && InAlphabet(key)
  {
    hide EncodeNid, InAlphabet, Bytes;
    if |field| != ENCODED_LENGTH {
      DecodeOfEncode(ParseNidString(field).value.nid);
    }
  }

  // -------------------------------------------------------- the database file

  /** The first position from `from` on whose character is c, or the end. */
  function Position(s: string, c: char, from: nat): (i: nat)
    requires from <= |s|
    ensures from <= i <= |s| && (i < |s| ==> s[i] == c) && forall j :: from <= j < i ==> s[j] != c
    decreases |s| - from
  {
    if from == |s| || s[from] == c then from else Position(s, c, from + 1)
  }

  function FirstNonBlank(s: string, from: nat): (i: nat)
    requires from <= |s|
    ensures from <= i <= |s|
    decreases |s| - from
  {
    if from < |s| && (s[from] == ' ' || s[from] == '\t') then FirstNonBlank(s, from + 1) else from
  }

  /** A name without trailing blanks; one that is all blanks stays. */
  function Trimmed(s: string): string {
    if AllBlank(s) then s else WithoutTrailing(s)
  }

  predicate AllBlank(s: string) {
    forall i :: 0 <= i < |s| ==> s[i] == ' ' || s[i] == '\t'
  }

  function WithoutTrailing(s: string): string {
    if s != "" && (s[|s| - 1] == ' ' || s[|s| - 1] == '\t') then WithoutTrailing(s[..|s| - 1]) else s
  }

  /** NID, tab, library, tab, name; None for what the loader skips. */
  function ParseLine(line: string): Option<(string, Entry)> {
    var line := if line != "" && line[|line| - 1] == '\r' then line[..|line| - 1] else line;
    var first := FirstNonBlank(line, 0);
    if first == |line| || line[first] == '#' then None
    else
      var tab1 := Position(line, '\t', first);
      if tab1 == |line| then None
      else
        var tab2 := Position(line, '\t', tab1 + 1);
        if tab2 == |line| || tab2 + 1 >= |line| then None
        else match ParseDbNidField(line[first..tab1])
          case None => None
          case Some(key) => Some((key, Entry(Trimmed(line[tab2 + 1..]), line[tab1 + 1..tab2])))
  }

  /** The names behind the first n lines: later lines replace earlier ones. */
  function Merged(names: NameMap, lines: seq<string>, n: nat): NameMap
    requires n <= |lines|
  {
    if n == 0 then names
    else match ParseLine(lines[n - 1])
      case None => Merged(names, lines, n - 1)
      case Some(entry) => Merged(names, lines, n - 1)[entry.0 := entry.1]
  }

  /** The last line that gives a key decides it; without one the old entry stays. */
  lemma {:induction false} LastLineWins(names: NameMap, lines: seq<string>, n: nat, key: string, k: nat)
    requires k <= n <= |lines|
    requires k > 0 ==> ParseLine(lines[k - 1]).Some? && ParseLine(lines[k - 1]).value.0 == key
    requires forall j :: k <= j < n ==> ParseLine(lines[j]).None? || ParseLine(lines[j]).value.0 != key
    ensures k > 0 ==> key in Merged(names, lines, n) && Merged(names, lines, n)[key] == ParseLine(lines[k - 1]).value.1
    ensures k == 0 ==> (key in Merged(names, lines, n) <==> key in names)
    ensures k == 0 && key in names ==> Merged(names, lines, n)[key] == names[key]
  {
    hide ParseLine;
    if k < n {
      LastLineWins(names, lines, n - 1, key, k);
    }
  }

  lemma {:induction false} LineHasKey(line: string)
    requires ParseLine(line).Some?
    ensures exists field :: ParseDbNidField(field) == Some(ParseLine(line).value.0)
  {
    hide ParseDbNidField, FirstNonBlank, Position, Trimmed;
  }

  /** Through a whole file: the last line of a key is in the table; its identifier finds
      that line's name when the key is canonical, and otherwise whatever entry the
      canonical spelling has, or nothing. */
  lemma {:induction false} LineIsFound(names: NameMap, lines: seq<string>, k: nat)
    requires 0 < k <= |lines| && ParseLine(lines[k - 1]).Some?
    requires forall j :: k <= j < |lines| ==>
      ParseLine(lines[j]).None? || ParseLine(lines[j]).value.0 != ParseLine(lines[k - 1]).value.0
    ensures var (key, entry) := ParseLine(lines[k - 1]).value;
      var table := Merged(names, lines, |lines|);
      && |key| == 11 && InAlphabet(key) && key in table && table[key] == entry
      && var found := LookupNidName(table, DecodeNid(key).value);
         found == if Canonical(key) == key then Some(entry.name)
                  else if Canonical(key) in table then Some(table[Canonical(key)].name)
                  else None
  {
    hide ParseLine, ParseDbNidField, Merged, Canonical, InAlphabet, DecodeNid, LookupNidName;
    var (key, entry) := ParseLine(lines[k - 1]).value;
    LastLineWins(names, lines, |lines|, key, k);
    LineHasKey(lines[k - 1]);
    var field :| ParseDbNidField(field) == Some(key);
    KeyIsFound(Merged(names, lines, |lines|), field);
  }

  /** A file whose one line is stored and missed: its key ends in a padding bit. */
  lemma {:induction false} StoredAndMissed()
    ensures var key, line := "AAAAAAAAAAB", "AAAAAAAAAAB\tlibc\tmemmove";
      && ParseLine(line) == Some((key, Entry("memmove", "libc")))
      && var table := Merged(map[], [line], 1);
         key in table && DecodeNid(key).Some? && LookupNidName(table, DecodeNid(key).value) == None
  {
    var key, line := "AAAAAAAAAAB", "AAAAAAAAAAB\tlibc\tmemmove";
    LineOfKey(key, line);
    PaddedKey(key);
    assert [line][0] == line;
    OneLine(line);
    KeyIsFound(Merged(map[], [line], 1), key);
  }

  lemma {:induction false} OneLine(line: string)
    requires ParseLine(line).Some?
    ensures var entry := ParseLine(line).value; Merged(map[], [line], 1) == map[entry.0 := entry.1]
  {
    hide ParseLine;
    assert Merged(map[], [line], 0) == map[];
  }

  lemma {:induction false} PaddedKey(key: string)
    requires key == "AAAAAAAAAAB"
    ensures ParseDbNidField(key) == Some(key) && ValueOf(key[10]).value % 4 == 1
  {
  }

  lemma {:induction false} LineOfKey(key: string, line: string)
    requires key == "AAAAAAAAAAB" && line == "AAAAAAAAAAB\tlibc\tmemmove"
    ensures ParseLine(line) == Some((key, Entry("memmove", "libc")))
  {
    hide ParseDbNidField, Position;
    PaddedKey(key);
    FirstAt(line, '\t', 0, 11);
    FirstAt(line, '\t', 12, 16);
    assert line[0..11] == key && line[12..16] == "libc" && line[17..] == "memmove";
    assert "memmove"[0] == 'm';
    assert Trimmed("memmove") == "memmove";
  }

  lemma {:induction false} FirstAt(s: string, c: char, from: nat, i: nat)
    requires from <= i < |s| && s[i] == c && forall j :: from <= j < i ==> s[j] != c
    ensures Position(s, c, from) == i
  {
  }
}
