/** The text forms of JSON values: the UTF-8 bytes of escapes, and strings and values whose
    texts are written out. */
module JsonText {
  import opened Basics
  import opened Json

  // ----------------------------------------------------------------- UTF-8

  predicate IsContinuation(c: char) {
    0x80 <= c as nat < 0xC0
  }

  /** The code point that the payload bits of one, two or three bytes make. */
  function Decoded(bytes: string): nat
    requires 1 <= |bytes| <= 3
    requires |bytes| == 2 ==> 0xC0 <= bytes[0] as nat && IsContinuation(bytes[1])
    requires |bytes| == 3 ==> 0xE0 <= bytes[0] as nat && IsContinuation(bytes[1]) && IsContinuation(bytes[2])
  {
    if |bytes| == 1 then bytes[0] as nat
    else if |bytes| == 2 then (bytes[0] as nat - 0xC0) * 64 + (bytes[1] as nat - 0x80)
    else (bytes[0] as nat - 0xE0) * 4096 + (bytes[1] as nat - 0x80) * 64 + (bytes[2] as nat - 0x80)
  }

  /** A lead byte that tells the length, continuation bytes behind it, and the code point
      in the payload; the shortest form that holds it. */
  lemma {:induction false} Utf8Form(cp: nat)
    requires cp < 0x1_0000
    ensures var u := Utf8(cp);
      && |u| == (if cp < 0x80 then 1 else if cp < 0x800 then 2 else 3)
      && (|u| == 1 ==> u[0] as nat < 0x80)
      && (|u| == 2 ==> 0xC2 <= u[0] as nat < 0xE0 && IsContinuation(u[1]))
      && (|u| == 3 ==> 0xE0 <= u[0] as nat < 0xF0 && IsContinuation(u[1]) && IsContinuation(u[2]))
      && Decoded(u) == cp
  {
    if cp < 0x80 {
    } else if cp < 0x800 {
      TwoBytes(cp / 64, cp % 64);
    } else {
      ThreeBytes(cp / 4096, cp / 64 % 64, cp % 64);
      assert cp == cp / 4096 * 4096 + cp / 64 % 64 * 64 + cp % 64;
    }
  }

  lemma {:induction false} TwoBytes(high: nat, low: nat)
    requires 2 <= high < 32 && low < 64
    ensures var u := [(0xC0 + high) as char, (0x80 + low) as char];
      0xC2 <= u[0] as nat < 0xE0 && IsContinuation(u[1]) && Decoded(u) == high * 64 + low
  {
  }

  lemma {:induction false} ThreeBytes(high: nat, middle: nat, low: nat)
    requires high < 16 && middle < 64 && low < 64
    ensures var u := [(0xE0 + high) as char, (0x80 + middle) as char, (0x80 + low) as char];
      && 0xE0 <= u[0] as nat < 0xF0 && IsContinuation(u[1]) && IsContinuation(u[2])
      && Decoded(u) == high * 4096 + middle * 64 + low
  {
  }

  /** A \u escape: four hex digits, first one highest. */
  lemma {:induction false} UnicodeEscape(h: string, rest: string, out: string)
    requires |h| == 4 && forall i :: 0 <= i < 4 ==> HexValue(h[i]).Some?
    ensures var cp := HexValue(h[0]).value * 4096 + HexValue(h[1]).value * 256 + HexValue(h[2]).value * 16
                    + HexValue(h[3]).value;
      ParseStringBody("\\u" + h + rest, out) == ParseStringBody(rest, out + Utf8(cp))
  {
    hide Utf8, HexValue;
    var s := "\\u" + h + rest;
    assert s[2..6] == h && s[6..] == rest;
    FourDigits(h);
  }

  lemma {:induction false} FourDigits(h: string)
    requires |h| == 4 && forall i :: 0 <= i < 4 ==> HexValue(h[i]).Some?
    ensures HexNumber(h, 4) == Some(HexValue(h[0]).value * 4096 + HexValue(h[1]).value * 256
                                    + HexValue(h[2]).value * 16 + HexValue(h[3]).value)
  {
    hide HexValue;
    assert HexNumber(h, 0) == Some(0);
    assert HexNumber(h, 1) == Some(HexValue(h[0]).value);
    assert HexNumber(h, 2) == Some(HexValue(h[0]).value * 16 + HexValue(h[1]).value);
    assert HexNumber(h, 3) == Some(HexValue(h[0]).value * 256 + HexValue(h[1]).value * 16 + HexValue(h[2]).value);
  }

  lemma {:induction false} OpeningQuote(body: string)
    ensures ParseString("\"" + body) == ParseStringBody(body, "")
  {
    hide ParseStringBody;
    var s := "\"" + body;
    assert s[1..] == body && SkipWs(s) == s;
  }

  lemma {:induction false} ClosingQuote(out: string)
    ensures ParseStringBody("\"", out) == Parsed(out, "")
  {
  }

  /** "\u00e9" is e with an acute accent, C3 A9, and "\u20AC" the euro sign, E2 82 AC. */
  lemma {:induction false} AccentAndEuro()
    ensures ParseString("\"\\u00e9\"") == Parsed("\U{c3}\U{a9}", "")
    ensures ParseString("\"\\u20AC\"") == Parsed("\U{e2}\U{82}\U{ac}", "")
  {
    hide ParseString, ParseStringBody, Utf8;
    EscapedText("00e9", "\"\\u00e9\"");
    EscapedText("20AC", "\"\\u20AC\"");
    CodePoints();
  }

  lemma {:induction false} CodePoints()
    ensures Utf8(0xe9) == "\U{c3}\U{a9}" && Utf8(0x20ac) == "\U{e2}\U{82}\U{ac}"
  {
  }

  lemma {:induction false} EscapedText(h: string, text: string)
    requires |h| == 4 && forall i :: 0 <= i < 4 ==> HexValue(h[i]).Some?
    requires text == "\"\\u" + h + "\""
    ensures var cp := HexValue(h[0]).value * 4096 + HexValue(h[1]).value * 256 + HexValue(h[2]).value * 16
                    + HexValue(h[3]).value;
      ParseString(text) == Parsed(Utf8(cp), "")
  {
    hide Utf8, HexValue, ParseString, ParseStringBody;
    var cp := HexValue(h[0]).value * 4096 + HexValue(h[1]).value * 256 + HexValue(h[2]).value * 16
            + HexValue(h[3]).value;
    assert text == "\"" + ("\\u" + h + "\"");
    OpeningQuote("\\u" + h + "\"");
    UnicodeEscape(h, "\"", "");
    ClosingQuote("" + Utf8(cp));
    assert "" + Utf8(cp) == Utf8(cp);
  }

  // --------------------------------------------------------------- strings

  lemma {:induction false} SimpleEscapeStep(s: string, out: string, c: char, rest: string, out': string)
    requires |s| >= 2 && s[0] == '\\' && s[1] != 'u' && SimpleEscape(s[1]) == Some(c)
    requires rest == s[2..] && out' == out + [c]
    ensures ParseStringBody(s, out) == ParseStringBody(rest, out')
  {
    hide SimpleEscape;
  }

  /** Every one-letter escape. */
  lemma {:induction false} SimpleEscapes()
    ensures ParseStringBody("\\\"\\\\\\/\\b\\f\\n\\r\\t\"", "") ==
      Parsed(['\"', '\\', '/', '\U{08}', '\U{0c}', '\U{0a}', '\U{0d}', '\U{09}'], "")
  {
    hide ParseStringBody;
    PlainEscapes("\\b\\f\\n\\r\\t\"");
    assert "\\\"\\\\\\/\\b\\f\\n\\r\\t\"" == "\\\"\\\\\\/" + "\\b\\f\\n\\r\\t\"";
    ControlEscapes(['\"', '\\', '/']);
    assert ['\"', '\\', '/'] + ['\U{08}', '\U{0c}', '\U{0a}', '\U{0d}', '\U{09}']
        == ['\"', '\\', '/', '\U{08}', '\U{0c}', '\U{0a}', '\U{0d}', '\U{09}'];
  }

  lemma {:induction false} PlainEscapes(rest: string)
    ensures ParseStringBody("\\\"\\\\\\/" + rest, "") == ParseStringBody(rest, ['\"', '\\', '/'])
  {
    hide ParseStringBody;
    SimpleEscapeStep("\\\"\\\\\\/" + rest, "", '\"', "\\\\\\/" + rest, ['\"']);
    SimpleEscapeStep("\\\\\\/" + rest, ['\"'], '\\', "\\/" + rest, ['\"', '\\']);
    SimpleEscapeStep("\\/" + rest, ['\"', '\\'], '/', rest, ['\"', '\\', '/']);
  }

  lemma {:induction false} ControlEscapes(out: string)
    ensures ParseStringBody("\\b\\f\\n\\r\\t\"", out) ==
      Parsed(out + ['\U{08}', '\U{0c}', '\U{0a}', '\U{0d}', '\U{09}'], "")
  {
    hide ParseStringBody;
    SimpleEscapeStep("\\b\\f\\n\\r\\t\"", out, '\U{08}', "\\f\\n\\r\\t\"", out + ['\U{08}']);
    SimpleEscapeStep("\\f\\n\\r\\t\"", out + ['\U{08}'], '\U{0c}', "\\n\\r\\t\"", out + ['\U{08}', '\U{0c}']);
    SimpleEscapeStep("\\n\\r\\t\"", out + ['\U{08}', '\U{0c}'], '\U{0a}', "\\r\\t\"",
      out + ['\U{08}', '\U{0c}', '\U{0a}']);
    SimpleEscapeStep("\\r\\t\"", out + ['\U{08}', '\U{0c}', '\U{0a}'], '\U{0d}', "\\t\"",
      out + ['\U{08}', '\U{0c}', '\U{0a}', '\U{0d}']);
    SimpleEscapeStep("\\t\"", out + ['\U{08}', '\U{0c}', '\U{0a}', '\U{0d}'], '\U{09}', "\"",
      out + ['\U{08}', '\U{0c}', '\U{0a}', '\U{0d}', '\U{09}']);
    ClosingQuote(out + ['\U{08}', '\U{0c}', '\U{0a}', '\U{0d}', '\U{09}']);
  }

  lemma {:induction false} EscapedCharacters()
    ensures Escaped('\"') == "\\\"" && Escaped('\\') == "\\\\" && Escaped('/') == "/"
    ensures Escaped('\U{08}') == "\\b" && Escaped('\U{0c}') == "\\f" && Escaped('\U{0a}') == "\\n"
    ensures Escaped('\U{0d}') == "\\r" && Escaped('\U{09}') == "\\t"
  {
  }

  lemma {:induction false} EscapedCodes()
    ensures Escaped('\U{00}') == "\\u0000" && Escaped('\U{1b}') == "\\u001b"
    ensures Escaped(' ') == " " && Escaped('\U{7f}') == "\U{7f}" && Escaped('\U{c3}') == "\U{c3}"
  {
  }

  lemma {:induction false} EscapedStep(s: string, head: string, tail: string)
    requires s != "" && Escaped(s[0]) == head && EscapedAll(s[1..]) == tail
    ensures EscapedAll(s) == head + tail
  {
    hide Escaped;
  }

  /** What the printer escapes, and how. */
  lemma {:induction false} PrintedEscapes()
    ensures Quoted(['\"', '\\', '/', '\U{08}']) == "\"\\\"\\\\/\\b\""
  {
    hide Escaped, EscapedAll;
    EscapedCharacters();
    NothingEscaped();
    var s := ['\"', '\\', '/', '\U{08}'];
    assert s[3..][1..] == "";
    EscapedStep(s[3..], "\\b", "");
    EscapedStep(s[2..], "/", "\\b");
    EscapedStep(s[1..], "\\\\", "/\\b");
    EscapedStep(s, "\\\"", "\\\\/\\b");
  }

  lemma {:induction false} PrintedControls()
    ensures Quoted(['\U{0c}', '\U{0a}', '\U{0d}', '\U{09}']) == "\"\\f\\n\\r\\t\""
  {
    hide Escaped, EscapedAll;
    EscapedCharacters();
    NothingEscaped();
    var s := ['\U{0c}', '\U{0a}', '\U{0d}', '\U{09}'];
    assert s[3..][1..] == "";
    EscapedStep(s[3..], "\\t", "");
    EscapedStep(s[2..], "\\r", "\\t");
    EscapedStep(s[1..], "\\n", "\\r\\t");
    EscapedStep(s, "\\f", "\\n\\r\\t");
  }

  lemma {:induction false} NothingEscaped()
    ensures EscapedAll("") == ""
  {
  }

  // ---------------------------------------------------------------- values

  const ITEMS: JsonValue := Array([Array([]), Array([])])

  lemma {:induction false} CompactArray(t: NumberText)
    ensures Printed(t, ITEMS, false, 1) == "[[],[]]"
  {
  }

  lemma {:induction false} PrettyArray(t: NumberText)
    ensures Printed(t, ITEMS, true, 1) == "[\n    [],\n    []\n  ]"
  {
    hide PrintedItems, NewLine;
    ItemTexts(t);
    var a := [Array([]), Array([])];
    assert a[1..] == [Array([])] && a[1..][1..] == [];
    NextItem(t, a[1..], false, "");
    NextItem(t, a, true, ",\n    []");
    assert "[" + ("" + "\n    " + "[]" + ",\n    []") + "\n  " + "]" == "[\n    [],\n    []\n  ]";
  }

  lemma {:induction false} ItemTexts(t: NumberText)
    ensures Printed(t, Array([]), true, 2) == "[]" && PrintedItems(t, [], false, true, 1) == ""
    ensures NewLine(true, 4) == "\n    " && NewLine(true, 2) == "\n  "
  {
  }

  lemma {:induction false} NextItem(t: NumberText, a: seq<JsonValue>, first: bool, rest: string)
    requires a != [] && PrintedItems(t, a[1..], false, true, 1) == rest
    ensures PrintedItems(t, a, first, true, 1) == (if first then "" else ",") + NewLine(true, 4)
      + Printed(t, a[0], true, 2) + rest
  {
    hide NewLine, Printed;
  }

  lemma {:induction false} SmallTexts(t: NumberText)
    ensures Quoted("a") == "\"a\"" && Quoted("b") == "\"b\""
    ensures Printed(t, Object([]), false, 1) == "{}" == Printed(t, Object([]), true, 1)
    ensures NewLine(true, 0) == "\n" && NewLine(true, 2) == "\n  "
  {
  }

  lemma {:induction false} NextMember(t: NumberText, o: seq<Member>, first: bool, pretty: bool, rest: string)
    requires o != [] && PrintedMembers(t, o[1..], false, pretty, 0) == rest
    ensures PrintedMembers(t, o, first, pretty, 0) == (if first then "" else ",") + NewLine(pretty, 2)
      + Quoted(o[0].key) + ":" + (if pretty then " " else "") + Printed(t, o[0].value, pretty, 1) + rest
  {
    hide NewLine, Quoted, Printed;
  }

  lemma {:induction false} NoMembers(t: NumberText, pretty: bool)
    ensures PrintedMembers(t, [], false, pretty, 0) == ""
  {
  }

  /** An object of an array and an empty object, compact and pretty. */
  lemma {:induction false} CompactSample(t: NumberText)
    ensures Printed(t, Object([Member("a", ITEMS), Member("b", Object([]))]), false, 0) ==
      "{\"a\":[[],[]],\"b\":{}}"
  {
    hide PrintedMembers, Quoted, PrintedItems, ITEMS;
    var o := [Member("a", ITEMS), Member("b", Object([]))];
    CompactArray(t);
    SmallTexts(t);
    assert o[1..] == [Member("b", Object([]))] && o[1..][1..] == [];
    NoMembers(t, false);
    NextMember(t, o[1..], false, false, "");
    NextMember(t, o, true, false, ",\"b\":{}");
  }

  lemma {:induction false} PrettyObject(t: NumberText, o: seq<Member>, inside: string)
    requires o != [] && PrintedMembers(t, o, true, true, 0) == inside
    ensures Printed(t, Object(o), true, 0) == "{" + inside + "\n" + "}"
  {
    hide PrintedMembers;
  }

  lemma {:induction false} PrettyPieces()
    ensures "" + "\n  " + "\"a\"" + ":" + " " + "[\n    [],\n    []\n  ]" + "" == "\n  \"a\": [\n    [],\n    []\n  ]"
  {
  }

  lemma {:induction false} PrettyBraces()
    ensures "{" + "\n  \"a\": [\n    [],\n    []\n  ]" + "\n" + "}" == "{\n  \"a\": [\n    [],\n    []\n  ]\n}"
  {
  }

  lemma {:induction false} PrettySample(t: NumberText)
    ensures Printed(t, Object([Member("a", ITEMS)]), true, 0) == "{\n  \"a\": [\n    [],\n    []\n  ]\n}"
  {
    hide PrintedMembers, Quoted, Printed, NewLine, ITEMS;
    var o := [Member("a", ITEMS)];
    PrettyArray(t);
    SmallTexts(t);
    assert o[1..] == [];
    NoMembers(t, true);
    NextMember(t, o, true, true, "");
    PrettyPieces();
    PrettyBraces();
    PrettyObject(t, o, "\n  \"a\": [\n    [],\n    []\n  ]");
  }

  // --------------------------------------------------------------- parsing

  /** A number is the longest run of these characters. */
  lemma {:induction false} NumberCharacters(t: NumberText, c: char, rest: string)
    ensures InNumber(c) <==> c in "0123456789.eE+-"
    ensures !InNumber(c) ==>
      ParseNumber(t, "-1.5E+3" + [c] + rest) == Parsed(Number(t.scan("-1.5E+3")), [c] + rest)
  {
    var s := "-1.5E+3" + [c] + rest;
    if !InNumber(c) {
      NumberEnds("-1.5E+3", [c] + rest);
      assert s == "-1.5E+3" + ([c] + rest);
      assert s[..7] == "-1.5E+3" && s[7..] == [c] + rest;
    }
  }

  lemma {:induction false} NumberEnds(number: string, rest: string)
    requires forall i :: 0 <= i < |number| ==> InNumber(number[i])
    requires rest == "" || !InNumber(rest[0])
    ensures NumberLength(number + rest) == |number|
  {
    if number != "" {
      assert (number + rest)[1..] == number[1..] + rest;
      NumberEnds(number[1..], rest);
    } else {
      assert number + rest == rest;
    }
  }

  /** The numbers that no text stands for. */
  lemma {:induction false} NonFiniteTexts(t: NumberText)
    ensures Printed(t, Array([Number(Infinite(false)), Number(NotANumber(true))]), false, 0) == "[inf,-nan]"
  {
  }

  /** A literal cut short passes at the end of the text only. */
  lemma {:induction false} CutNull(t: NumberText)
    ensures Parse(t, "nul") == Some(Null) && Parse(t, "nu") == None && Parse(t, "nulx") == None
  {
    assert "nulx"[..4][3] == 'x';
  }

  lemma {:induction false} OneValueOnly(t: NumberText)
    ensures Parse(t, "true") == Some(Bool(true)) && Parse(t, "true,") == None && Parse(t, "-") == None
  {
  }

  lemma {:induction false} Blanks(t: NumberText)
    ensures SkipWs("\t\r\n x") == "x" && SkipWs("\U{0b}") == "\U{0b}" && SkipWs("\U{0c}") == "\U{0c}"
  {
  }

  /** A comma needs a value behind it. */
  lemma {:induction false} NoTrailingComma(t: NumberText)
    ensures Parse(t, "[null,]") == None
  {
  }

  // ----------------------------------------------------------------- order

  /** The first k characters agree, and behind them a ends or has the smaller one. */
  ghost predicate DiffersAt(a: string, b: string, k: nat) {
    && k <= |a| && k < |b| && a[..k] == b[..k]
    && (k == |a| || a[k] < b[k])
  }

  /** Members stand in the order of a dictionary. */
  lemma {:induction false} BeforeIsLexicographic(a: string, b: string)
    ensures Before(a, b) <==> exists k: nat :: DiffersAt(a, b, k)
  {
    if Before(a, b) {
      var k := FirstDifference(a, b);
    }
    forall k: nat | DiffersAt(a, b, k)
      ensures Before(a, b)
    {
      DifferenceDecides(a, b, k);
    }
  }

  lemma {:induction false} FirstDifference(a: string, b: string) returns (k: nat)
    requires Before(a, b)
    ensures DiffersAt(a, b, k)
  {
    if a != "" && a[0] == b[0] {
      var rest := FirstDifference(a[1..], b[1..]);
      k := rest + 1;
      assert a[..k] == [a[0]] + a[1..][..rest] && b[..k] == [b[0]] + b[1..][..rest];
    } else {
      k := 0;
    }
  }

  lemma {:induction false} DifferenceDecides(a: string, b: string, k: nat)
    requires DiffersAt(a, b, k)
    ensures Before(a, b)
    decreases k
  {
    if k > 0 {
      assert a[0] == a[..k][0] == b[..k][0] == b[0];
      assert a[1..][..k - 1] == a[..k][1..] && b[1..][..k - 1] == b[..k][1..];
      DifferenceDecides(a[1..], b[1..], k - 1);
    }
  }
}
