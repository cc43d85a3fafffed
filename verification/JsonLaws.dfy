/** Printing and parsing undo each other. */
module JsonLaws {
  import opened Basics
  import opened Json

  // ------------------------------------------------------------ conditions

  /** Every object at every depth keeps its members in key order. */
  ghost predicate WellFormed(v: JsonValue)
    decreases v
  {
    match v
    case Array(a) => WellFormedItems(a)
    case Object(o) => Sorted(o) && WellFormedMembers(o)
    case _ => true
  }

  ghost predicate WellFormedItems(a: seq<JsonValue>)
    decreases a
  {
    a == [] || (WellFormed(a[0]) && WellFormedItems(a[1..]))
  }

  ghost predicate WellFormedMembers(o: seq<Member>)
    decreases o
  {
    o == [] || (WellFormed(o[0].value) && WellFormedMembers(o[1..]))
  }

  /** Every number at every depth is finite. */
  predicate AllFinite(v: JsonValue)
    decreases v
  {
    match v
    case Number(n) => n.IsFinite()
    case Array(a) => FiniteItems(a)
    case Object(o) => FiniteMembers(o)
    case _ => true
  }

  predicate FiniteItems(a: seq<JsonValue>)
    decreases a
  {
    a == [] || (AllFinite(a[0]) && FiniteItems(a[1..]))
  }

  predicate FiniteMembers(o: seq<Member>)
    decreases o
  {
    o == [] || (AllFinite(o[0].value) && FiniteMembers(o[1..]))
  }

  /** Every number is one a double can hold. */
  ghost predicate Doubles(t: NumberText, v: JsonValue)
    decreases v
  {
    match v
    case Number(n) => t.isDouble(n)
    case Array(a) => DoubleItems(t, a)
    case Object(o) => DoubleMembers(t, o)
    case _ => true
  }

  ghost predicate DoubleItems(t: NumberText, a: seq<JsonValue>)
    decreases a
  {
    a == [] || (Doubles(t, a[0]) && DoubleItems(t, a[1..]))
  }

  ghost predicate DoubleMembers(t: NumberText, o: seq<Member>)
    decreases o
  {
    o == [] || (Doubles(t, o[0].value) && DoubleMembers(t, o[1..]))
  }

  /** Text that cannot be taken for more digits. */
  predicate Ends(rest: string) {
    rest == "" || !InNumber(rest[0])
  }

  // ------------------------------------------------------------ whitespace

  lemma {:induction false} SkipTwice(s: string)
    ensures SkipWs(SkipWs(s)) == SkipWs(s)
  {
    if s != "" && IsSpace(s[0]) {
      SkipTwice(s[1..]);
    }
  }

  lemma {:induction false} SkipSpaces(n: nat, s: string)
    ensures SkipWs(Spaces(n) + s) == SkipWs(s)
  {
    if n == 0 {
      assert "" + s == s;
    } else {
      assert (Spaces(n) + s)[1..] == Spaces(n - 1) + s;
      SkipSpaces(n - 1, s);
    }
  }

  lemma {:induction false} SkipNewLine(pretty: bool, n: nat, s: string)
    ensures SkipWs(NewLine(pretty, n) + s) == SkipWs(s)
  {
    if pretty {
      assert (NewLine(pretty, n) + s)[1..] == Spaces(n) + s;
      SkipSpaces(n, s);
    } else {
      assert "" + s == s;
    }
  }

  // --------------------------------------------------------------- strings

  lemma {:induction false} ControlEscape(c: char, tail: string)
    requires c < ' '
    ensures HexNumber(([HexDigit(0), HexDigit(0), HexDigit(c as nat / 16), HexDigit(c as nat % 16)]), 4)
      == Some(c as nat)
  {
    var s := [HexDigit(0), HexDigit(0), HexDigit(c as nat / 16), HexDigit(c as nat % 16)];
    HexDigitValue(0);
    HexDigitValue(c as nat / 16);
    HexDigitValue(c as nat % 16);
    assert HexNumber(s, 1) == Some(0);
    assert HexNumber(s, 2) == Some(0);
    assert HexNumber(s, 3) == Some(c as nat / 16);
  }

  lemma {:induction false} HexDigitValue(n: nat)
    requires n < 16
    ensures HexValue(HexDigit(n)) == Some(n)
  {
  }

  lemma {:induction false} ControlStep(c: char, tail: string, out: string)
    requires c < ' ' && |Escaped(c)| > 2
    ensures ParseStringBody(Escaped(c) + tail, out) == ParseStringBody(tail, out + [c])
  {
    hide HexDigit, HexNumber;
    var text := Escaped(c) + tail;
    ControlEscape(c, tail);
    assert "\\u00" + [HexDigit(c as nat / 16), HexDigit(c as nat % 16)] == Escaped(c);
    ZeroDigits();
    assert text[2..6] == [HexDigit(0), HexDigit(0), HexDigit(c as nat / 16), HexDigit(c as nat % 16)];
    assert text[6..] == tail;
    assert Utf8(c as nat) == [c];
  }

  lemma {:induction false} ZeroDigits()
    ensures HexDigit(0) == '0'
  {
  }

  /** One escaped character is read back as itself. */
  lemma {:induction false} EscapeStep(c: char, tail: string, out: string)
    ensures ParseStringBody(Escaped(c) + tail, out) == ParseStringBody(tail, out + [c])
  {
    hide HexDigit, HexNumber, Utf8;
    var text := Escaped(c) + tail;
    if |Escaped(c)| == 1 {
      assert text[1..] == tail;
    } else if |Escaped(c)| == 2 {
      assert text[2..] == tail;
    } else {
      ControlStep(c, tail, out);
    }
  }

  lemma {:induction false} StringBodyRoundTrip(s: string, out: string, rest: string)
    ensures ParseStringBody(EscapedAll(s) + "\"" + rest, out) == Parsed(out + s, rest)
  {
    hide Escaped;
    if s == "" {
      assert ("" + "\"" + rest)[1..] == rest && out + s == out;
    } else {
      var tail := EscapedAll(s[1..]) + "\"" + rest;
      assert EscapedAll(s) + "\"" + rest == Escaped(s[0]) + tail;
      EscapeStep(s[0], tail, out);
      StringBodyRoundTrip(s[1..], out + [s[0]], rest);
      assert out + [s[0]] + s[1..] == out + s;
    }
  }

  /** Every byte string survives quoting. */
  lemma {:induction false} StringRoundTrip(s: string, rest: string)
    ensures ParseString(Quoted(s) + rest) == Parsed(s, rest)
  {
    hide ParseStringBody, EscapedAll;
    var body := EscapedAll(s) + "\"" + rest;
    assert Quoted(s) + rest == "\"" + body;
    assert ("\"" + body)[1..] == body;
    StringBodyRoundTrip(s, "", rest);
    assert "" + s == s;
  }

  // --------------------------------------------------------------- numbers

  lemma {:induction false} TokenLength(s: string, rest: string)
    requires (forall i :: 0 <= i < |s| ==> InNumber(s[i])) && Ends(rest)
    ensures NumberLength(s + rest) == |s|
  {
    if s == "" {
      assert s + rest == rest;
    } else {
      assert (s + rest)[1..] == s[1..] + rest;
      TokenLength(s[1..], rest);
    }
  }

  lemma {:induction false} NumberRoundTrip(t: NumberText, d: Double, rest: string)
    requires Faithful(t) && t.isDouble(d) && d.IsFinite() && Ends(rest)
    ensures IsToken(t.spell(d)) && ParseNumber(t, t.spell(d) + rest) == Parsed(Number(d), rest)
  {
    var s := t.spell(d);
    TokenLength(s, rest);
    assert (s + rest)[..|s|] == s && (s + rest)[|s|..] == rest;
  }

  /** The spellings of infinities and NaNs are not JSON values. */
  lemma {:induction false} NonFiniteFails(t: NumberText, d: Double, rest: string)
    requires !d.IsFinite()
    ensures ParseValue(t, NumberSpelling(t, d) + rest) == Failed
  {
    var text := NumberSpelling(t, d) + rest;
    if text[0] == '-' {
      var tail := text[1..];
      assert NumberLength(tail) == 0;
      assert text[..1] == "-";
    } else if text[0] == 'n' {
      assert text[1] == 'a' && (|text| >= 4 ==> text[..4][1] == 'a');
    }
  }

  // ---------------------------------------------------------- whole values

  lemma {:induction false} ParseSkipsSpace(t: NumberText, s: string, s': string)
    requires SkipWs(s) == SkipWs(s')
    ensures ParseValue(t, s) == ParseValue(t, s')
  {
  }

  lemma {:induction false} ConsumeSkipsSpace(s: string, s': string, c: char)
    requires SkipWs(s) == SkipWs(s')
    ensures Consume(s, c) == Consume(s', c)
  {
  }

  /** A printed value starts with a character of its own. */
  lemma {:induction false} FirstCharacter(t: NumberText, v: JsonValue, pretty: bool, depth: nat)
    requires Faithful(t) && Doubles(t, v)
    ensures var s := Printed(t, v, pretty, depth);
      s != "" && !IsSpace(s[0]) && s[0] != ']' && s[0] != '}' && s[0] != ','
  {
    hide PrintedItems, PrintedMembers, NewLine, EscapedAll;
    match v
    case Number(n) => if n.IsFinite() { assert IsToken(t.spell(n)); }
    case _ =>
  }

  /** What a printed value parses to: itself, when all its numbers are finite. */
  ghost predicate Reads(t: NumberText, v: JsonValue, s: string, rest: string) {
    ParseValue(t, s + rest) == if AllFinite(v) then Parsed(v, rest) else Failed
  }

  lemma {:induction false} LeafRoundTrip(t: NumberText, v: JsonValue, pretty: bool, depth: nat, rest: string)
    requires Faithful(t) && Doubles(t, v) && Ends(rest) && !v.Array? && !v.Object?
    ensures Reads(t, v, Printed(t, v, pretty, depth), rest)
  {
    hide ParseNumber, ParseString, ParseObject, ParseArray, Quoted;
    var s := Printed(t, v, pretty, depth) + rest;
    FirstCharacter(t, v, pretty, depth);
    match v
    case Null => assert s[..4] == "null" && s[4..] == rest;
    case Bool(b) =>
      if b {
        assert s[..4] == "true" && s[4..] == rest;
      } else {
        assert s[..5] == "false" && s[5..] == rest;
        assert s[..4][0] == 'f';
      }
    case Number(n) =>
      if n.IsFinite() {
        NumberRoundTrip(t, n, rest);
        assert s[0] == t.spell(n)[0];
      } else {
        NonFiniteFails(t, n, rest);
      }
    case String(u) =>
      StringRoundTrip(u, rest);
      QuoteFirst(u, rest);
  }

  lemma {:induction false} QuoteFirst(u: string, rest: string)
    ensures Quoted(u) + rest != "" && (Quoted(u) + rest)[0] == '"' && Quoted(u)[0] == '"'
  {
  }

  /** The end of a list: a line break and the closing character. */
  function Closing(pretty: bool, depth: nat, close: char, rest: string): string {
    NewLine(pretty, 2 * depth) + [close] + rest
  }

  lemma {:induction false} CloseList(pretty: bool, depth: nat, close: char, rest: string)
    requires close == ']' || close == '}'
    ensures var s := Closing(pretty, depth, close, rest);
      Consume(s, ',') == None && Consume(s, close) == Some(rest) && Ends(s)
  {
    hide Spaces;
    var s := Closing(pretty, depth, close, rest);
    assert s == NewLine(pretty, 2 * depth) + ([close] + rest);
    SkipNewLine(pretty, 2 * depth, [close] + rest);
    assert ([close] + rest)[1..] == rest;
  }

  /** A list's text, split behind its first element. */
  lemma {:induction false} Regroup(comma: string, indent: string, item: string, tail: string, close: string)
    ensures comma + indent + item + tail + close == comma + (indent + (item + (tail + close)))
    ensures |comma| == 1 ==> (comma + (indent + (item + (tail + close))))[1..] == indent + (item + (tail + close))
    ensures comma == "" ==> comma + (indent + (item + (tail + close))) == indent + (item + (tail + close))
  {
  }

  /** Reading on behind an element. */
  lemma {:induction false} ItemStep(t: NumberText, item: JsonValue, body: string, tail: string, items: seq<JsonValue>)
    requires ParseValue(t, body) == if AllFinite(item) then Parsed(item, tail) else Failed
    ensures ParseItems(t, body, items) ==
      if !AllFinite(item) then Failed
      else match Consume(tail, ',')
        case Some(next) => ParseItems(t, next, items + [item])
        case None => match Consume(tail, ']') case Some(rest) => Parsed(Array(items + [item]), rest) case None => Failed
  {
    hide ParseValue, Consume;
  }

  lemma {:induction false} ItemsRoundTrip(t: NumberText, a: seq<JsonValue>, first: bool, pretty: bool, depth: nat,
        rest: string, items: seq<JsonValue>)
    requires Faithful(t) && DoubleItems(t, a) && WellFormedItems(a) && a != []
    ensures var s := PrintedItems(t, a, first, pretty, depth) + Closing(pretty, depth, ']', rest);
      && (!first ==> s != "" && s[0] == ',')
      && ParseItems(t, if first then s else s[1..], items)
        == if FiniteItems(a) then Parsed(Array(items + a), rest) else Failed
    decreases a, 0
  {
    hide Closing, NewLine, Printed, ParseItems, ParseValue, Consume, SkipWs;
    var close := Closing(pretty, depth, ']', rest);
    var item := Printed(t, a[0], pretty, depth + 1);
    var tail := PrintedItems(t, a[1..], false, pretty, depth) + close;
    var comma, indent := if first then "" else ",", NewLine(pretty, 2 + 2 * depth);
    Regroup(comma, indent, item, PrintedItems(t, a[1..], false, pretty, depth), close);
    var body := indent + (item + tail);
    CloseList(pretty, depth, ']', rest);
    if a[1..] == [] {
      assert tail == close;
    } else {
      ItemsRoundTrip(t, a[1..], false, pretty, depth, rest, items + [a[0]]);
      CommaNext(tail);
    }
    assert items + [a[0]] + a[1..] == items + a;
    assert a[1..] == [] ==> items + [a[0]] == items + a;
    var s := PrintedItems(t, a, first, pretty, depth) + close;
    assert (if first then s else s[1..]) == body;
    ValueRoundTrip(t, a[0], pretty, depth + 1, tail);
    SkipNewLine(pretty, 2 + 2 * depth, item + tail);
    ParseSkipsSpace(t, body, item + tail);
    ItemStep(t, a[0], body, tail, items);
  }

  lemma {:induction false} CommaNext(s: string)
    requires s != "" && s[0] == ','
    ensures Consume(s, ',') == Some(s[1..]) && Ends(s)
  {
  }

  // ------------------------------------------------------------- key order

  lemma {:induction false} BeforeIsStrict(a: string, b: string)
    requires Before(a, b)
    ensures a != b && !Before(b, a)
  {
    if a != "" && a[0] == b[0] {
      BeforeIsStrict(a[1..], b[1..]);
    }
  }

  /** A key behind all others is inserted at the end. */
  lemma {:induction false} InsertLast(members: seq<Member>, key: string, value: JsonValue)
    requires forall i | 0 <= i < |members| :: Before(members[i].key, key)
    ensures Insert(members, key, value) == members + [Member(key, value)]
  {
    if members != [] {
      BeforeIsStrict(members[0].key, key);
      InsertLast(members[1..], key, value);
    }
  }

  /** An object's text, split behind its first key. */
  lemma {:induction false} RegroupMember(comma: string, indent: string, key: string, gap: string, value: string,
        tail: string, close: string)
    ensures comma + indent + key + ":" + gap + value + tail + close
         == comma + (indent + (key + (":" + (gap + (value + (tail + close))))))
    ensures var body := indent + (key + (":" + (gap + (value + (tail + close)))));
      (|comma| == 1 ==> (comma + body)[1..] == body) && (comma == "" ==> comma + body == body)
    ensures (":" + (gap + (value + (tail + close))))[1..] == gap + (value + (tail + close))
  {
  }

  /** Reading on behind a member. */
  lemma {:induction false} MemberStep(t: NumberText, member: Member, body: string, afterColon: string, tail: string,
        members: seq<Member>)
    requires ParseString(SkipWs(body)) == Parsed(member.key, ":" + afterColon)
    requires (":" + afterColon)[1..] == afterColon
    requires ParseValue(t, afterColon) == if AllFinite(member.value) then Parsed(member.value, tail) else Failed
    ensures ParseMembers(t, body, members) ==
      if !AllFinite(member.value) then Failed
      else
        var members := Insert(members, member.key, member.value);
        match Consume(tail, ',')
        case Some(next) => ParseMembers(t, next, members)
        case None => match Consume(tail, '}') case Some(rest) => Parsed(Object(members), rest) case None => Failed
  {
    hide ParseValue, ParseString, Insert;
    assert Consume(":" + afterColon, ':') == Some(afterColon);
    hide Consume, SkipWs;
  }

  lemma {:induction false} MembersRoundTrip(t: NumberText, o: seq<Member>, first: bool, pretty: bool, depth: nat,
        rest: string, members: seq<Member>)
    requires Faithful(t) && DoubleMembers(t, o) && WellFormedMembers(o) && Sorted(members + o) && o != []
    ensures var s := PrintedMembers(t, o, first, pretty, depth) + Closing(pretty, depth, '}', rest);
      && (!first ==> s != "" && s[0] == ',')
      && ParseMembers(t, if first then s else s[1..], members)
        == if FiniteMembers(o) then Parsed(Object(members + o), rest) else Failed
    decreases o, 0
  {
    hide Closing, NewLine, Printed, ParseString, ParseValue, ParseMembers, Quoted, Sorted, Insert, Consume, SkipWs;
    var close := Closing(pretty, depth, '}', rest);
    var key, value := Quoted(o[0].key), Printed(t, o[0].value, pretty, depth + 1);
    var tail := PrintedMembers(t, o[1..], false, pretty, depth) + close;
    var comma, indent, gap := if first then "" else ",", NewLine(pretty, 2 * (depth + 1)), if pretty then " " else "";
    RegroupMember(comma, indent, key, gap, value, PrintedMembers(t, o[1..], false, pretty, depth), close);
    var afterColon := gap + (value + tail);
    var body := indent + (key + (":" + afterColon));
    KeyIsRead(o[0].key, body, pretty, 2 * (depth + 1), ":" + afterColon);
    var members' := members + [o[0]];
    NextMember(members, o);
    CloseList(pretty, depth, '}', rest);
    if o[1..] == [] {
      assert tail == close;
    } else {
      MembersRoundTrip(t, o[1..], false, pretty, depth, rest, members');
      CommaNext(tail);
    }
    assert members' + o[1..] == members + o;
    assert o[1..] == [] ==> members' == members + o;
    var s := PrintedMembers(t, o, first, pretty, depth) + close;
    assert (if first then s else s[1..]) == body;
    ValueRoundTrip(t, o[0].value, pretty, depth + 1, tail);
    SkipGap(pretty, value + tail);
    ParseSkipsSpace(t, afterColon, value + tail);
    MemberStep(t, o[0], body, afterColon, tail, members);
  }

  lemma {:induction false} SkipGap(pretty: bool, s: string)
    ensures SkipWs((if pretty then " " else "") + s) == SkipWs(s)
  {
    if pretty {
      assert (" " + s)[1..] == s;
    } else {
      assert "" + s == s;
    }
  }

  lemma {:induction false} KeyIsRead(key: string, body: string, pretty: bool, indent: nat, afterKey: string)
    requires body == NewLine(pretty, indent) + (Quoted(key) + afterKey)
    ensures ParseString(SkipWs(body)) == Parsed(key, afterKey)
  {
    hide NewLine, ParseString, Quoted;
    SkipNewLine(pretty, indent, Quoted(key) + afterKey);
    QuoteFirst(key, afterKey);
    assert SkipWs(Quoted(key) + afterKey) == Quoted(key) + afterKey;
    StringRoundTrip(key, afterKey);
  }

  lemma {:induction false} NextMember(members: seq<Member>, o: seq<Member>)
    requires Sorted(members + o) && o != []
    ensures Insert(members, o[0].key, o[0].value) == members + [o[0]]
    ensures Sorted(members + [o[0]] + o[1..])
  {
    forall i | 0 <= i < |members| ensures Before(members[i].key, o[0].key) {
      assert (members + o)[i] == members[i] && (members + o)[|members|] == o[0];
    }
    InsertLast(members, o[0].key, o[0].value);
    assert members + [o[0]] + o[1..] == members + o;
  }

  /** A printed value reads back as itself in front of any text that ends a number,
      compact or pretty, at every depth; with an infinity or a NaN inside it fails. */
  lemma {:induction false} ValueRoundTrip(t: NumberText, v: JsonValue, pretty: bool, depth: nat, rest: string)
    requires Faithful(t) && Doubles(t, v) && WellFormed(v) && Ends(rest)
    ensures Reads(t, v, Printed(t, v, pretty, depth), rest)
    decreases v, 1
  {
    hide NewLine, PrintedItems, PrintedMembers, ParseItems, ParseMembers, ParseString, ParseNumber, Sorted;
    match v
    case Array(a) => ArrayRoundTrip(t, a, pretty, depth, rest);
    case Object(o) => ObjectRoundTrip(t, o, pretty, depth, rest);
    case _ => LeafRoundTrip(t, v, pretty, depth, rest);
  }

  lemma {:induction false} ArrayRoundTrip(t: NumberText, a: seq<JsonValue>, pretty: bool, depth: nat, rest: string)
    requires Faithful(t) && DoubleItems(t, a) && WellFormedItems(a) && Ends(rest)
    ensures Reads(t, Array(a), Printed(t, Array(a), pretty, depth), rest)
    decreases a, 1
  {
    hide NewLine, PrintedItems, ParseItems, ParseString, ParseNumber, ParseObject, SkipWs, Consume;
    var s := Printed(t, Array(a), pretty, depth) + rest;
    if a == [] {
      EmptyList(t, pretty, depth);
      assert s == "[" + ("]" + rest);
      ListOpens(s, '[', ']', "]" + rest, rest);
      assert ParseArray(t, s) == Parsed(Array([]), rest);
      assert ParseValue(t, s) == ParseArray(t, s);
    } else {
      var inside := PrintedItems(t, a, true, pretty, depth) + Closing(pretty, depth, ']', rest);
      assert s == "[" + inside;
      ItemsRoundTrip(t, a, true, pretty, depth, rest, []);
      FirstItem(t, a, pretty, depth, Closing(pretty, depth, ']', rest));
      ListOpens(s, '[', ']', inside, rest);
      assert ParseArray(t, s) == ParseItems(t, inside, []);
      assert ParseValue(t, s) == ParseArray(t, s);
      assert [] + a == a;
    }
  }

  lemma {:induction false} ObjectRoundTrip(t: NumberText, o: seq<Member>, pretty: bool, depth: nat, rest: string)
    requires Faithful(t) && DoubleMembers(t, o) && Sorted(o) && WellFormedMembers(o) && Ends(rest)
    ensures Reads(t, Object(o), Printed(t, Object(o), pretty, depth), rest)
    decreases o, 1
  {
    hide NewLine, PrintedMembers, ParseMembers, ParseString, ParseNumber, ParseArray, SkipWs, Consume, Sorted;
    var s := Printed(t, Object(o), pretty, depth) + rest;
    if o == [] {
      EmptyList(t, pretty, depth);
      assert s == "{" + ("}" + rest);
      ListOpens(s, '{', '}', "}" + rest, rest);
      assert ParseObject(t, s) == Parsed(Object([]), rest);
      assert ParseValue(t, s) == ParseObject(t, s);
    } else {
      var inside := PrintedMembers(t, o, true, pretty, depth) + Closing(pretty, depth, '}', rest);
      assert s == "{" + inside;
      assert [] + o == o;
      MembersRoundTrip(t, o, true, pretty, depth, rest, []);
      FirstMember(t, o, pretty, depth, Closing(pretty, depth, '}', rest));
      ListOpens(s, '{', '}', inside, rest);
      assert ParseObject(t, s) == ParseMembers(t, inside, []);
      assert ParseValue(t, s) == ParseObject(t, s);
    }
  }

  lemma {:induction false} EmptyList(t: NumberText, pretty: bool, depth: nat)
    ensures PrintedItems(t, [], true, pretty, depth) == "" && PrintedMembers(t, [], true, pretty, depth) == ""
  {
  }

  lemma {:induction false} ListOpens(s: string, open: char, close: char, inside: string, rest: string)
    requires (open == '[' && close == ']') || (open == '{' && close == '}')
    requires s == [open] + inside
    requires inside == [close] + rest || (SkipWs(inside) != "" && SkipWs(inside)[0] != close)
    ensures s != "" && s[0] == open && SkipWs(s) == s && Consume(s, open) == Some(inside)
    ensures inside == [close] + rest ==> Consume(inside, close) == Some(rest)
    ensures SkipWs(inside) != "" && SkipWs(inside)[0] != close ==> Consume(inside, close) == None
  {
    assert s[1..] == inside;
    if inside == [close] + rest {
      assert inside[1..] == rest;
    }
  }

  lemma {:induction false} FirstItem(t: NumberText, a: seq<JsonValue>, pretty: bool, depth: nat, close: string)
    requires Faithful(t) && DoubleItems(t, a) && a != []
    ensures var s := SkipWs(PrintedItems(t, a, true, pretty, depth) + close); s != "" && s[0] != ']'
  {
    hide NewLine, Printed;
    var item := Printed(t, a[0], pretty, depth + 1);
    var tail := item + (PrintedItems(t, a[1..], false, pretty, depth) + close);
    FirstCharacter(t, a[0], pretty, depth + 1);
    assert PrintedItems(t, a, true, pretty, depth) + close == NewLine(pretty, 2 + 2 * depth) + tail;
    SkipNewLine(pretty, 2 + 2 * depth, tail);
    assert tail[0] == item[0];
  }

  lemma {:induction false} FirstMember(t: NumberText, o: seq<Member>, pretty: bool, depth: nat, close: string)
    requires o != []
    ensures var s := SkipWs(PrintedMembers(t, o, true, pretty, depth) + close); s != "" && s[0] != '}'
  {
    hide NewLine, Printed, Quoted;
    var indent, gap := NewLine(pretty, 2 * (depth + 1)), if pretty then " " else "";
    var value, tail := Printed(t, o[0].value, pretty, depth + 1), PrintedMembers(t, o[1..], false, pretty, depth);
    RegroupMember("", indent, Quoted(o[0].key), gap, value, tail, close);
    var afterKey := ":" + (gap + (value + (tail + close)));
    QuoteFirst(o[0].key, afterKey);
    SkipNewLine(pretty, 2 * (depth + 1), Quoted(o[0].key) + afterKey);
  }

  // --------------------------------------------------------- the main law

  /** Parsing the printed text, with blank space around it, gives the value back and
      consumes everything, exactly when every number in it is finite. */
  lemma {:induction false} PrintThenParse(t: NumberText, v: JsonValue, pretty: bool, depth: nat, blank: string)
    requires Faithful(t) && Doubles(t, v) && WellFormed(v) && SkipWs(blank) == ""
    ensures Parse(t, Printed(t, v, pretty, depth) + blank) == if AllFinite(v) then Some(v) else None
  {
    hide Printed, ParseValue;
    var s := Printed(t, v, pretty, depth) + blank;
    FirstCharacter(t, v, pretty, depth);
    assert s[0] == Printed(t, v, pretty, depth)[0];
    assert SkipWs(s) == s;
    ValueRoundTrip(t, v, pretty, depth, blank);
  }

  // ------------------------------------------------- everything parsed prints

  lemma {:induction false} BeforeIsTotal(a: string, b: string)
    requires a != b
    ensures Before(a, b) || Before(b, a)
  {
    if a != "" && b != "" && a[0] == b[0] {
      assert a == [a[0]] + a[1..] && b == [b[0]] + b[1..];
      BeforeIsTotal(a[1..], b[1..]);
    }
  }

  lemma {:induction false} BeforeIsTransitive(a: string, b: string, c: string)
    requires Before(a, b) && Before(b, c)
    ensures Before(a, c)
  {
    if a != "" && a[0] == b[0] == c[0] {
      BeforeIsTransitive(a[1..], b[1..], c[1..]);
    }
  }

  /** o[key] = value sets that key and no other. */
  lemma {:induction false} InsertSets(members: seq<Member>, key: string, value: JsonValue, other: string)
    requires Sorted(members)
    ensures Find(Insert(members, key, value), other) == if other == key then Some(value) else Find(members, other)
  {
    if members == [] || Before(key, members[0].key) {
      assert ([Member(key, value)] + members)[1..] == members;
    } else if members[0].key == key {
      assert ([Member(key, value)] + members[1..])[1..] == members[1..];
    } else {
      assert ([members[0]] + Insert(members[1..], key, value))[1..] == Insert(members[1..], key, value);
      InsertSets(members[1..], key, value, other);
    }
  }

  ghost predicate AllBefore(low: string, members: seq<Member>) {
    forall i | 0 <= i < |members| :: Before(low, members[i].key)
  }

  lemma {:induction false} InsertSorts(members: seq<Member>, key: string, value: JsonValue)
    requires Sorted(members)
    ensures Sorted(Insert(members, key, value))
    ensures forall low :: AllBefore(low, members) && Before(low, key) ==> AllBefore(low, Insert(members, key, value))
  {
    if members == [] || Before(key, members[0].key) {
      forall i | 0 <= i < |members| ensures Before(key, members[i].key) {
        if i > 0 {
          BeforeIsTransitive(key, members[0].key, members[i].key);
        }
      }
    } else if members[0].key != key {
      InsertSorts(members[1..], key, value);
      BeforeIsTotal(members[0].key, key);
      assert AllBefore(members[0].key, members[1..]);
      forall low | AllBefore(low, members) && Before(low, key) ensures AllBefore(low, Insert(members, key, value)) {
        assert AllBefore(low, members[1..]);
        assert Before(low, members[0].key);
      }
    }
  }

  /** What the printer needs of a value. */
  ghost predicate Printable(t: NumberText, v: JsonValue) {
    WellFormed(v) && Doubles(t, v)
  }

  ghost predicate PrintableItems(t: NumberText, a: seq<JsonValue>) {
    WellFormedItems(a) && DoubleItems(t, a)
  }

  ghost predicate PrintableMembers(t: NumberText, o: seq<Member>) {
    Sorted(o) && WellFormedMembers(o) && DoubleMembers(t, o)
  }

  lemma {:induction false} AppendItem(t: NumberText, a: seq<JsonValue>, item: JsonValue)
    requires PrintableItems(t, a) && Printable(t, item)
    ensures PrintableItems(t, a + [item])
  {
    if a == [] {
      assert (a + [item])[0] == item && (a + [item])[1..] == [];
    } else {
      assert (a + [item])[1..] == a[1..] + [item];
      AppendItem(t, a[1..], item);
    }
  }

  lemma {:induction false} InsertMember(t: NumberText, o: seq<Member>, key: string, value: JsonValue)
    requires WellFormedMembers(o) && DoubleMembers(t, o) && Printable(t, value)
    ensures WellFormedMembers(Insert(o, key, value)) && DoubleMembers(t, Insert(o, key, value))
  {
    if o == [] || Before(key, o[0].key) {
      assert ([Member(key, value)] + o)[1..] == o;
    } else if o[0].key == key {
      assert ([Member(key, value)] + o[1..])[1..] == o[1..];
    } else {
      assert ([o[0]] + Insert(o[1..], key, value))[1..] == Insert(o[1..], key, value);
      InsertMember(t, o[1..], key, value);
    }
  }

  /** Whatever the parser accepts is a value the printer can print back. */
  lemma {:induction false} ParsedIsPrintable(t: NumberText, s: string)
    requires Faithful(t)
    ensures var r := ParseValue(t, s); r.Parsed? ==> Printable(t, r.value)
    decreases |s|, 2
  {
    hide ParseString, ParseStringBody, ParseItems, ParseMembers, Consume;
    var s := SkipWs(s);
    if s != "" && s[0] == '{' {
      match Consume(s, '{')
      case None =>
      case Some(inside) => ConsumeShortens(s, '{'); ParsedMembersArePrintable(t, inside, []);
    } else if s != "" && s[0] == '[' {
      match Consume(s, '[')
      case None =>
      case Some(inside) => ConsumeShortens(s, '['); ParsedItemsArePrintable(t, inside, []);
    }
  }

  lemma {:induction false} ConsumeShortens(s: string, c: char)
    ensures Consume(s, c).Some? ==> |Consume(s, c).value| < |s|
  {
  }

  lemma {:induction false} ParsedItemsArePrintable(t: NumberText, s: string, items: seq<JsonValue>)
    requires Faithful(t) && PrintableItems(t, items)
    ensures var r := ParseItems(t, s, items); r.Parsed? ==> Printable(t, r.value)
    decreases |s|, 3
  {
    hide ParseValue, Consume;
    ParsedIsPrintable(t, s);
    match ParseValue(t, s)
    case Failed =>
    case Parsed(item, afterItem) =>
      AppendItem(t, items, item);
      match Consume(afterItem, ',')
      case Some(next) => ParsedItemsArePrintable(t, next, items + [item]);
      case None =>
  }

  lemma {:induction false} ParsedMembersArePrintable(t: NumberText, s: string, members: seq<Member>)
    requires Faithful(t) && PrintableMembers(t, members)
    ensures var r := ParseMembers(t, s, members); r.Parsed? ==> Printable(t, r.value)
    decreases |s|, 0
  {
    hide ParseValue, ParseString, Consume, Insert;
    match ParseString(SkipWs(s))
    case Failed =>
    case Parsed(key, afterKey) =>
      match Consume(afterKey, ':')
      case None =>
      case Some(afterColon) =>
        ParsedIsPrintable(t, afterColon);
        match ParseValue(t, afterColon)
        case Failed =>
        case Parsed(value, afterValue) =>
          InsertSorts(members, key, value);
          InsertMember(t, members, key, value);
          match Consume(afterValue, ',')
          case Some(next) => ParsedMembersArePrintable(t, next, Insert(members, key, value));
          case None =>
  }

  /** Parsing, printing and parsing again changes nothing, as long as no number
      overflowed to an infinity on the way in. */
  lemma {:induction false} ParseThenPrint(t: NumberText, s: string, pretty: bool, depth: nat, blank: string)
    requires Faithful(t) && Parse(t, s).Some? && SkipWs(blank) == ""
    ensures var v := Parse(t, s).value;
      Parse(t, Printed(t, v, pretty, depth) + blank) == if AllFinite(v) then Some(v) else None
  {
    hide Printed, ParseValue, SkipWs;
    ParsedIsPrintable(t, SkipWs(s));
    PrintThenParse(t, Parse(t, s).value, pretty, depth, blank);
  }
}
