/** The texts of the symbol names: the alphabet, the type tags, and the lines of a database file. */
module NidText {
  import opened Basics
  import opened Nid

  /** The alphabet: upper case, lower case, digits, plus and minus. */
  lemma {:induction false} AlphabetText()
    ensures |ALPHABET| == 64
    ensures ALPHABET[..26] == "ABCDEFGHIJKLMNOPQRSTUVWXYZ"
    ensures ALPHABET[26..52] == "abcdefghijklmnopqrstuvwxyz"
    ensures ALPHABET[52..] == "0123456789+-"
  {
  }

  /** The letter of a tag names the type. */
  lemma {:induction false} TypeTags()
    ensures NidTypeFromString("#T#T") == Some(Function) && NidTypeFromString("#A#B") == Some(Data)
    ensures NidTypeFromString("#S#T") == Some(Object) && NidTypeFromString("#B#T") == Some(Block)
    ensures NidTypeFromString("#X#T") == None && NidTypeFromString("T#T#") == None && NidTypeFromString("#T#") == None
  {
  }

  predicate IsBlank(c: char) {
    c == ' ' || c == '\t'
  }

  /** A name loses the blanks behind it, unless it is nothing else. */
  lemma {:induction false} TrimmedName(name: string, blanks: string)
    requires name != "" && !IsBlank(name[|name| - 1])
    requires forall i :: 0 <= i < |blanks| ==> IsBlank(blanks[i])
    ensures Trimmed(name + blanks) == name
    ensures Trimmed(blanks) == blanks
  {
    assert (name + blanks)[|name| - 1] == name[|name| - 1];
    TrailingBlanks(name, blanks);
  }

  lemma {:induction false} TrailingBlanks(name: string, blanks: string)
    requires name != "" && !IsBlank(name[|name| - 1])
    requires forall i :: 0 <= i < |blanks| ==> IsBlank(blanks[i])
    ensures WithoutTrailing(name + blanks) == name
    decreases |blanks|
  {
    if blanks == "" {
      assert name + blanks == name;
    } else {
      var n := |blanks| - 1;
      assert (name + blanks)[..|name + blanks| - 1] == name + blanks[..n];
      TrailingBlanks(name, blanks[..n]);
    }
  }

  lemma {:induction false} PositionIs(s: string, c: char, from: nat, i: nat)
    requires from <= i < |s| && s[i] == c && forall j :: from <= j < i ==> s[j] != c
    ensures Position(s, c, from) == i
  {
    hide Position;
    var k := Position(s, c, from);
    assert k == |s| || k == i || k < i || k > i;
  }

  lemma {:induction false} FirstIs(s: string, from: nat, i: nat)
    requires from <= i < |s| && !IsBlank(s[i]) && forall j :: from <= j < i ==> IsBlank(s[j])
    ensures FirstNonBlank(s, from) == i
    decreases i - from
  {
    if from < i {
      FirstIs(s, from + 1, i);
    }
  }

  /** A line is an identifier, a library and a name, with a tab behind each of the first
      two; blanks in front are passed over, the name is what is left, and a carriage return
      behind it is dropped. */
  lemma {:induction false} LineFields(blanks: string, field: string, library: string, name: string, line: string)
    requires forall i :: 0 <= i < |blanks| ==> IsBlank(blanks[i])
    requires field != "" && !IsBlank(field[0]) && field[0] != '#' && '\t' !in field && '\t' !in library
    requires name != "" && name[|name| - 1] != '\r'
    requires line == blanks + field + "\t" + library + "\t" + name
    ensures ParseLine(line) ==
      match ParseDbNidField(field)
      case None => None
      case Some(key) => Some((key, Entry(Trimmed(name), library)))
    ensures ParseLine(line + "\r") == ParseLine(line)
  {
    hide ParseLine, ParseDbNidField, Trimmed;
    PartsOf(blanks, field, library, name, line);
    ParsedParts(line, |blanks|, |blanks + field|, |blanks + field + "\t" + library|);
    LineEnd(line);
  }

  lemma {:induction false} LineEnd(line: string)
    requires line != "" && line[|line| - 1] != '\r'
    ensures ParseLine(line + "\r") == ParseLine(line)
  {
    hide ParseDbNidField, Trimmed, Position, FirstNonBlank;
    assert (line + "\r")[..|line + "\r"| - 1] == line;
  }

  /** Where the parts of a line stand. */
  lemma {:induction false} PartsOf(blanks: string, field: string, library: string, name: string, line: string)
    requires field != "" && name != "" && line == blanks + field + "\t" + library + "\t" + name
    ensures var first, tab1, tab2 := |blanks|, |blanks + field|, |blanks + field + "\t" + library|;
      && first < tab1 < tab2 && tab2 + 1 < |line|
      && line[..first] == blanks && line[first..tab1] == field && line[tab1] == '\t'
      && line[tab1 + 1..tab2] == library && line[tab2] == '\t' && line[tab2 + 1..] == name
      && line[|line| - 1] == name[|name| - 1]
  {
  }

  lemma {:induction false} ParsedParts(line: string, first: nat, tab1: nat, tab2: nat)
    requires first < tab1 < tab2 && tab2 + 1 < |line| && line[tab1] == '\t' == line[tab2]
    requires forall i :: 0 <= i < first ==> IsBlank(line[..first][i])
    requires !IsBlank(line[first..tab1][0]) && line[first..tab1][0] != '#' && '\t' !in line[first..tab1]
    requires '\t' !in line[tab1 + 1..tab2] && line[|line| - 1] != '\r'
    ensures ParseLine(line) ==
      match ParseDbNidField(line[first..tab1])
      case None => None
      case Some(key) => Some((key, Entry(Trimmed(line[tab2 + 1..]), line[tab1 + 1..tab2])))
  {
    hide ParseDbNidField, Trimmed, Position, FirstNonBlank;
    assert line[first] == line[first..tab1][0];
    assert forall j :: 0 <= j < first ==> line[j] == line[..first][j];
    FirstIs(line, 0, first);
    assert forall j :: first <= j < tab1 ==> line[j] == line[first..tab1][j - first];
    assert forall j :: tab1 + 1 <= j < tab2 ==> line[j] == line[tab1 + 1..tab2][j - tab1 - 1];
    PositionIs(line, '\t', first, tab1);
    PositionIs(line, '\t', tab1 + 1, tab2);
  }

  /** Comments, lines without two tabs and lines without a name are passed over. */
  lemma {:induction false} PassedOver(text: string)
    ensures ParseLine("#" + text) == None
    ensures '\t' !in text ==> ParseLine(text) == None
    ensures '\t' !in text ==> ParseLine(text + "\t") == None
  {
    hide ParseDbNidField, Trimmed;
    var comment := "#" + text;
    assert FirstNonBlank(comment, 0) == 0;
  }
}
