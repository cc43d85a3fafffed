/** The recursive-descent parser over a position in its text, and the printer onto a stream. */
module JsonCode {
  import opened Basics
  import opened Json
  import opened JsonLaws

  class JsonParser {
    const src: string
    const text: NumberText
    var pos: nat

    ghost predicate Valid()
      reads this
    {
      pos <= |src|
    }

    /** The text still to be read. */
    ghost function Rest(): string
      reads this
      requires Valid()
    {
      src[pos..]
    }

    /** The parser is where a specification step says. */
    ghost predicate Did<T>(r: Parsed<T>, ok: bool, v: T)
      reads this
    {
      && Valid()
      && (ok <==> r.Parsed?)
      && (ok ==> v == r.value && Rest() == r.rest)
    }

    constructor (src: string, text: NumberText)
      ensures Valid() && this.src == src && this.text == text && Rest() == src
    {
      this.src := src;
      this.text := text;
      pos := 0;
    }

    method SkipWs()
      requires Valid()
      modifies this
      ensures Valid() && Rest() == Json.SkipWs(old(Rest())) && pos >= old(pos)
    {
      while pos < |src| && IsSpace(src[pos])
        invariant old(pos) <= pos <= |src| && Json.SkipWs(Rest()) == Json.SkipWs(old(Rest()))
      {
        assert Rest()[1..] == src[pos + 1..];
        pos := pos + 1;
      }
    }

    method Consume(c: char) returns (ok: bool)
      requires Valid()
      modifies this
      ensures Valid() && pos >= old(pos)
      ensures ok <==> Json.Consume(old(Rest()), c).Some?
      ensures Rest() == if ok then Json.Consume(old(Rest()), c).value else Json.SkipWs(old(Rest()))
      ensures ok ==> pos > old(pos)
    {
      SkipWs();
      if pos < |src| && src[pos] == c {
        assert Rest()[1..] == src[pos + 1..];
        pos := pos + 1;
        return true;
      }
      return false;
    }

    method ParseValue() returns (ok: bool, v: JsonValue)
      requires Valid()
      modifies this
      ensures Did(Json.ParseValue(text, old(Rest())), ok, v)
      ensures ok ==> pos > old(pos)
      decreases |src| - pos, 2
    {
      hide Json.ParseObject, Json.ParseArray, Json.ParseString, Json.ParseNumber;
      v := Null;
      SkipWs();
      if pos >= |src| {
        return false, v;
      }
      var c := src[pos];
      if c == '{' {
        ok, v := ParseObject();
      } else if c == '[' {
        ok, v := ParseArray();
      } else if c == '"' {
        var s: string;
        ok, s := ParseString();
        v := String(s);
      } else if c == 't' || c == 'f' {
        ok, v := ParseBool();
      } else if c == 'n' {
        ok, v := ParseNull();
      } else if c == '-' || IsDigit(c) {
        ok, v := ParseNumber();
      } else {
        ok := false;
      }
    }

    method ParseObject() returns (ok: bool, v: JsonValue)
      requires Valid()
      modifies this
      ensures Did(Json.ParseObject(text, old(Rest())), ok, v)
      ensures ok ==> pos > old(pos)
      decreases |src| - pos, 1
    {
      hide Json.Consume, Json.ParseValue, Json.ParseString, Insert;
      v := Object([]);
      ghost var whole := Rest();
      var open := Consume('{');
      if !open {
        return false, v;
      }
      ghost var inside := Rest();
      SkipWs();
      SkipTwice(inside);
      ConsumeSkipsSpace(inside, Rest(), '}');
      var close := Consume('}');
      if close {
        return true, v;
      }
      SkipTwice(Json.SkipWs(inside));
      MembersSkipSpace(text, inside, Rest());
      var members: seq<Member> := [];
      while true
        invariant Valid() && pos > old(pos)
        invariant Json.ParseMembers(text, Rest(), members) == Json.ParseObject(text, whole)
        decreases |src| - pos
      {
        ghost var before := Rest();
        SkipWs();
        var gotKey, key := ParseString();
        if !gotKey {
          return false, v;
        }
        ghost var afterKey := Rest();
        SkipWs();
        SkipTwice(afterKey);
        ConsumeSkipsSpace(afterKey, Rest(), ':');
        var colon := Consume(':');
        if !colon {
          return false, v;
        }
        var gotValue, value := ParseValue();
        if !gotValue {
          return false, v;
        }
        members := Insert(members, key, value);
        ghost var afterValue := Rest();
        SkipWs();
        SkipTwice(afterValue);
        ConsumeSkipsSpace(afterValue, Rest(), ',');
        var comma := Consume(',');
        if !comma {
          SkipTwice(Json.SkipWs(afterValue));
          ConsumeSkipsSpace(afterValue, Rest(), '}');
          var closed := Consume('}');
          v := Object(members);
          return closed, v;
        }
      }
    }

    method ParseArray() returns (ok: bool, v: JsonValue)
      requires Valid()
      modifies this
      ensures Did(Json.ParseArray(text, old(Rest())), ok, v)
      ensures ok ==> pos > old(pos)
      decreases |src| - pos, 1
    {
      hide Json.Consume, Json.ParseValue;
      v := Array([]);
      ghost var whole := Rest();
      var open := Consume('[');
      if !open {
        return false, v;
      }
      ghost var inside := Rest();
      SkipWs();
      SkipTwice(inside);
      ConsumeSkipsSpace(inside, Rest(), ']');
      var close := Consume(']');
      if close {
        return true, v;
      }
      SkipTwice(Json.SkipWs(inside));
      ItemsSkipSpace(text, inside, Rest());
      var items: seq<JsonValue> := [];
      while true
        invariant Valid() && pos > old(pos)
        invariant Json.ParseItems(text, Rest(), items) == Json.ParseArray(text, whole)
        decreases |src| - pos
      {
        var gotItem, item := ParseValue();
        if !gotItem {
          return false, v;
        }
        ghost var next := items + [item];
        items := items + [item];
        ghost var afterItem := Rest();
        SkipWs();
        SkipTwice(afterItem);
        ConsumeSkipsSpace(afterItem, Rest(), ',');
        var comma := Consume(',');
        if !comma {
          SkipTwice(Json.SkipWs(afterItem));
          ConsumeSkipsSpace(afterItem, Rest(), ']');
          var closed := Consume(']');
          v := Array(items);
          return closed, v;
        }
      }
    }

    method ParseString() returns (ok: bool, s: string)
      requires Valid()
      modifies this
      ensures Did(Json.ParseString(old(Rest())), ok, s)
      ensures ok ==> pos > old(pos)
    {
      hide Json.Consume, SimpleEscape, HexNumber, Utf8;
      s := "";
      var open := Consume('"');
      if !open {
        return false, s;
      }
      ghost var body := Rest();
      var out := "";
      while pos < |src|
        invariant Valid() && pos > old(pos)
        invariant ParseStringBody(Rest(), out) == ParseStringBody(body, "")
      {
        ghost var here := Rest();
        var c := src[pos];
        pos := pos + 1;
        assert here[1..] == Rest();
        if c == '"' {
          return true, out;
        }
        if c == '\\' {
          if pos >= |src| {
            break;
          }
          var e := src[pos];
          pos := pos + 1;
          assert here[2..] == Rest() && here[1] == e;
          if e == 'u' {
            var fine, cp := ParseUnicodeEscape();
            if !fine {
              return false, s;
            }
            assert here[6..] == Rest();
            out := out + Utf8(cp);
          } else {
            match SimpleEscape(e) {
              case Some(plain) => out := out + [plain];
              case None => return false, s;
            }
          }
        } else {
          out := out + [c];
        }
      }
      return false, s;
    }

    /** Four hex digits behind \u. */
    method ParseUnicodeEscape() returns (ok: bool, cp: nat)
      requires Valid() && pos >= 2
      modifies this
      ensures Valid()
      ensures ok <==> old(pos) + 4 <= |src| && HexNumber(src[old(pos)..old(pos) + 4], 4).Some?
      ensures ok ==> pos == old(pos) + 4 && cp < 0x1_0000 && HexNumber(src[old(pos)..old(pos) + 4], 4) == Some(cp)
      ensures old(pos) + 4 <= |src| ==> src[old(pos) - 2..][2..6] == src[old(pos)..old(pos) + 4]
    {
      cp := 0;
      if pos + 4 > |src| {
        return false, cp;
      }
      ghost var digits := src[pos..pos + 4];
      assert src[pos - 2..][2..6] == digits;
      for i := 0 to 4
        invariant Valid() && pos == old(pos) + i
        invariant HexNumber(digits, i) == Some(cp)
      {
        var h := src[pos];
        assert h == digits[i];
        pos := pos + 1;
        match HexValue(h) {
          case Some(digit) => cp := 16 * cp + digit;
          case None =>
            BadDigit(digits, i);
            return false, cp;
        }
      }
      ok := true;
    }

    lemma {:induction false} BadDigit(s: string, i: nat)
      requires i < |s| == 4 && HexValue(s[i]) == None
      ensures HexNumber(s, 4) == None
    {
      assert HexNumber(s, i + 1) == None;
      if i + 1 < 4 {
        assert HexNumber(s, i + 2) == None;
        if i + 2 < 4 {
          assert HexNumber(s, i + 3) == None;
        }
      }
    }

    method ParseBool() returns (ok: bool, v: JsonValue)
      requires Valid()
      modifies this
      ensures Did(Json.ParseBool(old(Rest())), ok, v)
      ensures ok ==> pos > old(pos)
    {
      ghost var here := Rest();
      if pos + 4 <= |src| && src[pos..pos + 4] == "true" {
        assert here[..4] == src[pos..pos + 4] && here[4..] == src[pos + 4..];
        pos := pos + 4;
        return true, Bool(true);
      }
      assert |here| >= 4 ==> here[..4] == src[pos..pos + 4];
      if pos + 5 <= |src| && src[pos..pos + 5] == "false" {
        assert here[..5] == src[pos..pos + 5] && here[5..] == src[pos + 5..];
        pos := pos + 5;
        return true, Bool(false);
      }
      assert |here| >= 5 ==> here[..5] == src[pos..pos + 5];
      return false, Null;
    }

    method ParseNull() returns (ok: bool, v: JsonValue)
      requires Valid()
      modifies this
      ensures Did(Json.ParseNull(old(Rest())), ok, v)
      ensures ok ==> pos > old(pos)
    {
      ghost var here := Rest();
      if pos + 4 <= |src| && src[pos..pos + 4] == "null" {
        assert here[..4] == src[pos..pos + 4] && here[4..] == src[pos + 4..];
        pos := pos + 4;
        return true, Null;
      }
      assert |here| >= 4 ==> here[..4] == src[pos..pos + 4];
      if src[pos..] == "nul" {
        pos := pos + 3;
        return true, Null;
      }
      return false, Null;
    }

    method ParseNumber() returns (ok: bool, v: JsonValue)
      requires Valid() && pos < |src|
      modifies this
      ensures Did(Json.ParseNumber(text, old(Rest())), ok, v)
      ensures ok ==> pos > old(pos)
    {
      hide InNumber, NumberLength;
      ghost var here := Rest();
      NumberStep(here);
      var start := pos;
      if src[pos] == '-' {
        assert here[1..] == src[pos + 1..];
        pos := pos + 1;
      }
      while pos < |src| && InNumber(src[pos])
        invariant start <= pos <= |src|
        invariant NumberLength(here) == pos - start + NumberLength(Rest())
      {
        NumberStep(Rest());
        assert Rest()[1..] == src[pos + 1..];
        pos := pos + 1;
      }
      NumberStep(Rest());
      var num := src[start..pos];
      assert here[..pos - start] == num && here[pos - start..] == Rest();
      if num == "" || num == "-" {
        return false, Null;
      }
      return true, Number(text.scan(num));
    }

    /** The whole text is one value: the parser's verdict on every input. */
    method Parse() returns (ok: bool, v: JsonValue)
      requires Valid() && pos == 0
      modifies this
      ensures ok <==> Json.Parse(text, src).Some?
      ensures ok ==> Json.Parse(text, src) == Some(v)
    {
      hide Json.ParseValue;
      assert Rest() == src;
      SkipWs();
      ok, v := ParseValue();
      if !ok {
        return;
      }
      SkipWs();
      ok := pos == |src|;
    }
  }

  lemma {:induction false} NumberStep(s: string)
    ensures NumberLength(s) == if s != "" && InNumber(s[0]) then 1 + NumberLength(s[1..]) else 0
    ensures s != "" && s[0] == '-' ==> InNumber(s[0])
  {
  }

  lemma {:induction false} MembersSkipSpace(t: NumberText, s: string, s': string)
    requires SkipWs(s) == SkipWs(s')
    ensures ParseMembers(t, s, []) == ParseMembers(t, s', [])
  {
    hide ParseString, ParseValue;
  }

  lemma {:induction false} ItemsSkipSpace(t: NumberText, s: string, s': string)
    requires SkipWs(s) == SkipWs(s')
    ensures ParseItems(t, s, []) == ParseItems(t, s', [])
  {
    ParseSkipsSpace(t, s, s');
    hide ParseValue;
  }

  // ------------------------------------------------------------- printing

  /** An output stream: what was written so far. */
  class Stream {
    var written: string

    constructor ()
      ensures written == ""
    {
      written := "";
    }

    method Put(s: string)
      modifies this
      ensures written == old(written) + s
    {
      written := written + s;
    }
  }

  method WriteString(os: Stream, s: string)
    modifies os
    ensures os.written == old(os.written) + Quoted(s)
  {
    hide Escaped;
    os.Put("\"");
    for i := 0 to |s|
      invariant os.written + EscapedAll(s[i..]) == old(os.written) + "\"" + EscapedAll(s)
    {
      assert s[i..][1..] == s[i + 1..];
      os.Put(Escaped(s[i]));
    }
    assert EscapedAll(s[|s|..]) == "";
    assert os.written == old(os.written) + "\"" + EscapedAll(s);
    os.Put("\"");
    assert old(os.written) + "\"" + EscapedAll(s) + "\"" == old(os.written) + Quoted(s);
  }

  method WriteJson(os: Stream, t: NumberText, v: JsonValue, pretty: bool, depth: nat)
    modifies os
    ensures os.written == old(os.written) + Printed(t, v, pretty, depth)
    decreases v, 1
  {
    hide NumberSpelling, Quoted, NewLine, PrintedItems, PrintedMembers;
    match v
    case Null => os.Put("null");
    case Bool(b) => os.Put(if b then "true" else "false");
    case Number(n) => os.Put(NumberSpelling(t, n));
    case String(s) => WriteString(os, s);
    case Array(a) =>
      Enclose(os.written, "[", PrintedItems(t, a, true, pretty, depth),
              if a == [] then "" else NewLine(pretty, 2 * depth), "]");
      os.Put("[");
      WriteItems(os, t, a, pretty, depth);
      PutClose(os, a != [], pretty, 2 * depth, "]");
    case Object(o) =>
      Enclose(os.written, "{", PrintedMembers(t, o, true, pretty, depth),
              if o == [] then "" else NewLine(pretty, 2 * depth), "}");
      os.Put("{");
      WriteMembers(os, t, o, pretty, depth);
      PutClose(os, o != [], pretty, 2 * depth, "}");
  }

  lemma {:induction false} Enclose(before: string, open: string, body: string, gap: string, close: string)
    ensures before + open + body + gap + close == before + (open + body + gap + close)
  {
  }

  method PutClose(os: Stream, nonEmpty: bool, pretty: bool, indent: nat, close: string)
    modifies os
    ensures os.written == old(os.written) + (if nonEmpty then NewLine(pretty, indent) else "") + close
  {
    if pretty && nonEmpty {
      os.Put("\n" + Spaces(indent));
    }
    os.Put(close);
  }

  method WriteItems(os: Stream, t: NumberText, a: seq<JsonValue>, pretty: bool, depth: nat)
    modifies os
    ensures os.written == old(os.written) + PrintedItems(t, a, true, pretty, depth)
    decreases a, 0
  {
    hide NewLine, Printed, PrintedItems;
    assert a[0..] == a;
    for i := 0 to |a|
      invariant os.written + PrintedItems(t, a[i..], i == 0, pretty, depth)
             == old(os.written) + PrintedItems(t, a, true, pretty, depth)
    {
      assert a[i..][1..] == a[i + 1..] && a[i..][0] == a[i];
      FirstOfItems(t, a[i..], i == 0, pretty, depth, os.written);
      PutBreak(os, i != 0, pretty, 2 + 2 * depth);
      WriteJson(os, t, a[i], pretty, depth + 1);
    }
    NoMembers(t, |a| == 0, pretty, depth);
    assert a[|a|..] == [];
  }

  /** The two writes of one element make its part of the text. */
  lemma {:induction false} FirstOfItems(t: NumberText, a: seq<JsonValue>, first: bool, pretty: bool, depth: nat,
        before: string)
    requires a != []
    ensures before + ((if first then "" else ",") + NewLine(pretty, 2 + 2 * depth))
      + Printed(t, a[0], pretty, depth + 1)
        + PrintedItems(t, a[1..], false, pretty, depth)
      == before + PrintedItems(t, a, first, pretty, depth)
  {
    hide NewLine, Printed;
  }

  /** The comma behind the element before, and a fresh line. */
  method PutBreak(os: Stream, comma: bool, pretty: bool, indent: nat)
    modifies os
    ensures os.written == old(os.written) + ((if comma then "," else "") + NewLine(pretty, indent))
  {
    if comma {
      os.Put(",");
    }
    if pretty {
      os.Put("\n" + Spaces(indent));
    }
  }

  method WriteMembers(os: Stream, t: NumberText, o: seq<Member>, pretty: bool, depth: nat)
    modifies os
    ensures os.written == old(os.written) + PrintedMembers(t, o, true, pretty, depth)
    decreases o, 0
  {
    hide NewLine, Printed, Quoted, PrintedMembers;
    assert o[0..] == o;
    for i := 0 to |o|
      invariant os.written + PrintedMembers(t, o[i..], i == 0, pretty, depth)
             == old(os.written) + PrintedMembers(t, o, true, pretty, depth)
    {
      assert o[i..][1..] == o[i + 1..] && o[i..][0] == o[i];
      ghost var before := os.written;
      FirstOfMembers(t, o[i..], i == 0, pretty, depth, before);
      PutBreak(os, i != 0, pretty, 2 * (depth + 1));
      PutKey(os, o[i].key, pretty);
      WriteJson(os, t, o[i].value, pretty, depth + 1);
    }
    NoMembers(t, |o| == 0, pretty, depth);
    assert o[|o|..] == [];
  }

  lemma {:induction false} NoMembers(t: NumberText, first: bool, pretty: bool, depth: nat)
    ensures PrintedMembers(t, [], first, pretty, depth) == "" && PrintedItems(t, [], first, pretty, depth) == ""
  {
  }

  /** The three writes of one member make its part of the text. */
  lemma {:induction false} FirstOfMembers(t: NumberText, o: seq<Member>, first: bool, pretty: bool, depth: nat,
        before: string)
    requires o != []
    ensures var comma, gap := if first then "" else ",", if pretty then " " else "";
      var indent := NewLine(pretty, 2 * (depth + 1));
      before + (comma + indent) + (Quoted(o[0].key) + ":" + gap) + Printed(t, o[0].value, pretty, depth + 1)
        + PrintedMembers(t, o[1..], false, pretty, depth)
      == before + PrintedMembers(t, o, first, pretty, depth)
  {
    hide NewLine, Printed, Quoted;
  }

  method PutKey(os: Stream, key: string, pretty: bool)
    modifies os
    ensures os.written == old(os.written) + (Quoted(key) + ":" + (if pretty then " " else ""))
  {
    hide Quoted;
    WriteString(os, key);
    os.Put(":");
    if pretty {
      os.Put(" ");
    }
  }
}
