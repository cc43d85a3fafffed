/** JSON values, and what the configuration service's parser and printer make of them.
    Texts are byte strings; a byte is written as the character of the same code. */
module Json {
  import opened Basics

  /** An IEEE double as the printer and strtod see it. */
  datatype Double =
    | Finite(value: real)
    | NegativeZero
    | Infinite(negative: bool)
    | NotANumber(negative: bool)
  {
    predicate IsFinite() {
      Finite? || NegativeZero?
    }

    /** The number itself; only finite doubles have one. */
    function Value(): real
      requires IsFinite()
    {
      if Finite? then value else 0.0
    }
  }

  datatype Member = Member(key: string, value: JsonValue)

  /** An object's members are in key order, as std::map keeps them. */
  datatype JsonValue =
    | Null
    | Bool(b: bool)
    | Number(n: Double)
    | String(s: string)
    | Array(a: seq<JsonValue>)
    | Object(o: seq<Member>)

  // ------------------------------------------------------------- the map

  /** Byte-wise lexicographic order. */
  predicate Before(a: string, b: string) {
    if b == "" then false
    else if a == "" then true
    else a[0] < b[0] || (a[0] == b[0] && Before(a[1..], b[1..]))
  }

  /** o[key] = value */
  function Insert(members: seq<Member>, key: string, value: JsonValue): (result: seq<Member>)
    ensures |result| >= 1
  {
    if members == [] || Before(key, members[0].key) then [Member(key, value)] + members
    else if members[0].key == key then [Member(key, value)] + members[1..]
    else [members[0]] + Insert(members[1..], key, value)
  }

  /** o.find(key) */
  function Find(members: seq<Member>, key: string): Option<JsonValue> {
    if members == [] then None
    else if members[0].key == key then Some(members[0].value)
    else Find(members[1..], key)
  }

  ghost predicate Sorted(members: seq<Member>) {
    forall i, j | 0 <= i < j < |members| :: Before(members[i].key, members[j].key)
  }

  // ------------------------------------------------------- number texts

  /** How finite doubles are spelled: %.17g and strtod. */
  datatype NumberText = NumberText(spell: Double -> string, scan: string -> Double, isDouble: Double -> bool)

  predicate IsDigit(c: char) {
    '0' <= c <= '9'
  }

  predicate InNumber(c: char) {
    IsDigit(c) || c == '.' || c == 'e' || c == 'E' || c == '+' || c == '-'
  }

  /** A spelling ParseNumber takes in one piece. */
  predicate IsToken(s: string) {
    |s| > 0 && s != "-" && (s[0] == '-' || IsDigit(s[0])) && forall i :: 0 <= i < |s| ==> InNumber(s[i])
  }

  /** Seventeen digits determine a double. */
  ghost predicate Faithful(t: NumberText) {
    && (forall d: Double :: d.IsFinite() && t.isDouble(d) ==> IsToken(t.spell(d)) && t.scan(t.spell(d)) == d)
    && (forall s: string :: t.isDouble(t.scan(s)))
  }

  function NumberSpelling(t: NumberText, d: Double): string {
    match d
    case Infinite(negative) => if negative then "-inf" else "inf"
    case NotANumber(negative) => if negative then "-nan" else "nan"
    case _ => t.spell(d)
  }

  // ------------------------------------------------------------- printing

  function HexDigit(n: nat): char
    requires n < 16
  {
    "0123456789abcdef"[n]
  }

  function Escaped(c: char): (text: string)
    ensures |text| >= 1
  {
    if c == '"' then "\\\""
    else if c == '\\' then "\\\\"
    else if c == '\U{8}' then "\\b"
    else if c == '\U{c}' then "\\f"
    else if c == '\n' then "\\n"
    else if c == '\r' then "\\r"
    else if c == '\t' then "\\t"
    else if c < ' ' then "\\u00" + [HexDigit(c as nat / 16), HexDigit(c as nat % 16)]
    else [c]
  }

  function EscapedAll(s: string): string {
    if s == "" then "" else Escaped(s[0]) + EscapedAll(s[1..])
  }

  function Quoted(s: string): string {
    "\"" + EscapedAll(s) + "\""
  }

  function Spaces(n: nat): (text: string)
    ensures |text| == n && forall i :: 0 <= i < n ==> text[i] == ' '
  {
    if n == 0 then "" else " " + Spaces(n - 1)
  }

  function NewLine(pretty: bool, indent: nat): string {
    if pretty then "\n" + Spaces(indent) else ""
  }

  function Printed(t: NumberText, v: JsonValue, pretty: bool, depth: nat): string
    decreases v
  {
    match v
    case Null => "null"
    case Bool(b) => if b then "true" else "false"
    case Number(n) => NumberSpelling(t, n)
    case String(s) => Quoted(s)
    case Array(a) =>
      "[" + PrintedItems(t, a, true, pretty, depth) + (if a == [] then "" else NewLine(pretty, 2 * depth)) + "]"
    case Object(o) =>
      "{" + PrintedMembers(t, o, true, pretty, depth) + (if o == [] then "" else NewLine(pretty, 2 * depth)) + "}"
  }

  function PrintedItems(t: NumberText, a: seq<JsonValue>, first: bool, pretty: bool, depth: nat): string
    decreases a
  {
    if a == [] then ""
    else (if first then "" else ",") + NewLine(pretty, 2 + 2 * depth) + Printed(t, a[0], pretty, depth + 1)
         + PrintedItems(t, a[1..], false, pretty, depth)
  }

  function PrintedMembers(t: NumberText, o: seq<Member>, first: bool, pretty: bool, depth: nat): string
    decreases o
  {
    if o == [] then ""
    else
      (if first then "" else ",") + NewLine(pretty, 2 * (depth + 1))
      + Quoted(o[0].key) + ":" + (if pretty then " " else "") + Printed(t, o[0].value, pretty, depth + 1)
      + PrintedMembers(t, o[1..], false, pretty, depth)
  }

  // -------------------------------------------------------------- parsing

  /** What a parse step found and the text behind it. */
  datatype Parsed<+T> = Failed | Parsed(value: T, rest: string)

  predicate IsSpace(c: char) {
    c == ' ' || c == '\t' || c == '\n' || c == '\r'
  }

  function SkipWs(s: string): (rest: string)
    ensures |rest| <= |s|
  {
    if s != "" && IsSpace(s[0]) then SkipWs(s[1..]) else s
  }

  /** The text behind c, when c is next. */
  function Consume(s: string, c: char): (rest: Option<string>)
    ensures rest.Some? ==> |rest.value| < |s|
  {
    var t := SkipWs(s);
    if t != "" && t[0] == c then Some(t[1..]) else None
  }

  function ParseValue(t: NumberText, s: string): (r: Parsed<JsonValue>)
    ensures r.Parsed? ==> |r.rest| < |s|
    decreases |s|, 2
  {
    var s := SkipWs(s);
    if s == "" then Failed
    else
      var c := s[0];
      if c == '{' then ParseObject(t, s)
      else if c == '[' then ParseArray(t, s)
      else if c == '"' then
        (match ParseString(s) case Failed => Failed case Parsed(value, rest) => Parsed(String(value), rest))
      else if c == 't' || c == 'f' then ParseBool(s)
      else if c == 'n' then ParseNull(s)
      else if c == '-' || IsDigit(c) then ParseNumber(t, s)
      else Failed
  }

  function ParseObject(t: NumberText, s: string): (r: Parsed<JsonValue>)
    ensures r.Parsed? ==> |r.rest| < |s|
    decreases |s|, 1
  {
    match Consume(s, '{')
    case None => Failed
    case Some(inside) =>
      match Consume(inside, '}')
      case Some(rest) => Parsed(Object([]), rest)
      case None => ParseMembers(t, inside, [])
  }

  function ParseMembers(t: NumberText, s: string, members: seq<Member>): (r: Parsed<JsonValue>)
    ensures r.Parsed? ==> |r.rest| < |s|
    decreases |s|, 0
  {
    match ParseString(SkipWs(s))
    case Failed => Failed
    case Parsed(key, afterKey) =>
      match Consume(afterKey, ':')
      case None => Failed
      case Some(afterColon) =>
        match ParseValue(t, afterColon)
        case Failed => Failed
        case Parsed(value, afterValue) =>
          var members := Insert(members, key, value);
          match Consume(afterValue, ',')
          case Some(next) => ParseMembers(t, next, members)
          case None =>
            match Consume(afterValue, '}')
            case Some(rest) => Parsed(Object(members), rest)
            case None => Failed
  }

  function ParseArray(t: NumberText, s: string): (r: Parsed<JsonValue>)
    ensures r.Parsed? ==> |r.rest| < |s|
    decreases |s|, 1
  {
    match Consume(s, '[')
    case None => Failed
    case Some(inside) =>
      match Consume(inside, ']')
      case Some(rest) => Parsed(Array([]), rest)
      case None => ParseItems(t, inside, [])
  }

  function ParseItems(t: NumberText, s: string, items: seq<JsonValue>): (r: Parsed<JsonValue>)
    ensures r.Parsed? ==> |r.rest| < |s|
    decreases |s|, 3
  {
    match ParseValue(t, s)
    case Failed => Failed
    case Parsed(item, afterItem) =>
      match Consume(afterItem, ',')
      case Some(next) => ParseItems(t, next, items + [item])
      case None =>
        match Consume(afterItem, ']')
        case Some(rest) => Parsed(Array(items + [item]), rest)
        case None => Failed
  }

  function ParseString(s: string): (r: Parsed<string>)
    ensures r.Parsed? ==> |r.rest| < |s|
  {
    match Consume(s, '"')
    case None => Failed
    case Some(body) => ParseStringBody(body, "")
  }

  /** The character a one-letter escape stands for. */
  function SimpleEscape(e: char): Option<char> {
    if e == '"' || e == '\\' || e == '/' then Some(e)
    else if e == 'b' then Some('\U{8}')
    else if e == 'f' then Some('\U{c}')
    else if e == 'n' then Some('\n')
    else if e == 'r' then Some('\r')
    else if e == 't' then Some('\t')
    else None
  }

  function HexValue(c: char): (value: Option<nat>)
    ensures value.Some? ==> value.value < 16
  {
    if '0' <= c <= '9' then Some(c as nat - '0' as nat)
    else if 'a' <= c <= 'f' then Some(c as nat - 'a' as nat + 10)
    else if 'A' <= c <= 'F' then Some(c as nat - 'A' as nat + 10)
    else None
  }

  /** The number the first n hex digits of s spell. */
  function HexNumber(s: string, n: nat): (r: Option<nat>)
    requires n <= 4 && n <= |s|
    ensures r.Some? ==> r.value < if n == 0 then 1 else if n == 1 then 16 else if n == 2 then 256
      else if n == 3 then 4096 else 65536
  {
    if n == 0 then Some(0)
    else match HexNumber(s, n - 1)
      case None => None
      case Some(high) => match HexValue(s[n - 1]) case None => None case Some(digit) => Some(16 * high + digit)
  }

  /** The bytes of a code point below 0x10000. */
  function Utf8(cp: nat): string
    requires cp < 0x1_0000
  {
    if cp < 0x80 then [cp as char]
    else if cp < 0x800 then [(0xC0 + cp / 64) as char, (0x80 + cp % 64) as char]
    else [(0xE0 + cp / 4096) as char, (0x80 + cp / 64 % 64) as char, (0x80 + cp % 64) as char]
  }

  /** The string body behind the opening quote; `out` is what was read before. */
  function ParseStringBody(s: string, out: string): (r: Parsed<string>)
    ensures r.Parsed? ==> |r.rest| < |s|
    decreases |s|
  {
    if s == "" then Failed
    else if s[0] == '"' then Parsed(out, s[1..])
    else if s[0] != '\\' then ParseStringBody(s[1..], out + [s[0]])
    else if |s| < 2 then Failed
    else if s[1] != 'u' then
      (match SimpleEscape(s[1]) case None => Failed case Some(c) => ParseStringBody(s[2..], out + [c]))
    else if |s| < 6 then Failed
    else match HexNumber(s[2..6], 4) case None => Failed case Some(cp) => ParseStringBody(s[6..], out + Utf8(cp))
  }

  predicate StartsWith(s: string, prefix: string) {
    |prefix| <= |s| && s[..|prefix|] == prefix
  }

  function ParseBool(s: string): (r: Parsed<JsonValue>)
    ensures r.Parsed? ==> |r.rest| < |s|
  {
    if StartsWith(s, "true") then Parsed(Bool(true), s[4..])
    else if StartsWith(s, "false") then Parsed(Bool(false), s[5..])
    else Failed
  }

  /** A literal cut short to "nul" passes, but only at the very end of the text. */
  function ParseNull(s: string): (r: Parsed<JsonValue>)
    ensures r.Parsed? ==> |r.rest| < |s|
  {
    if StartsWith(s, "null") then Parsed(Null, s[4..])
    else if s == "nul" then Parsed(Null, "")
    else Failed
  }

  /** How many characters a number takes: an optional sign, then number characters. */
  function NumberLength(s: string): (n: nat)
    ensures n <= |s|
  {
    if s != "" && InNumber(s[0]) then 1 + NumberLength(s[1..]) else 0
  }

  function ParseNumber(t: NumberText, s: string): (r: Parsed<JsonValue>)
    requires s != ""
    ensures r.Parsed? ==> |r.rest| < |s|
  {
    var n := NumberLength(s);
    var num := s[..n];
    if num == "" || num == "-" then Failed else Parsed(Number(t.scan(num)), s[n..])
  }

  /** The whole text as one value. */
  function Parse(t: NumberText, s: string): Option<JsonValue> {
    match ParseValue(t, SkipWs(s))
    case Failed => None
    case Parsed(value, rest) => if SkipWs(rest) == "" then Some(value) else None
  }
}
