/** The configuration in literal values: hex keys, level names, version strings, and the
    file that says nothing. */
module ConfigText {
  import opened Basics
  import opened Json
  import opened JsonLaws
  import opened Config
  import opened ConfigLaws
  import opened Dedup
  import opened JsonText

  // ----------------------------------------------------------------- keys

  /** Two hex digits a byte, the high half first. */
  lemma {:induction false} HexDigits(bytes: seq<Byte>, i: nat)
    requires i < |bytes|
    ensures var text := BytesToHex(bytes);
      && |text| == 2 * |bytes|
      && text[2 * i] == "0123456789abcdef"[bytes[i] / 16] && text[2 * i + 1] == "0123456789abcdef"[bytes[i] % 16]
  {
    HexLength(bytes);
    HexLength(bytes[1..]);
    if i > 0 {
      HexDigits(bytes[1..], i - 1);
      assert BytesToHex(bytes)[2 * i] == BytesToHex(bytes[1..])[2 * i - 2];
      assert BytesToHex(bytes)[2 * i + 1] == BytesToHex(bytes[1..])[2 * i - 1];
    }
  }

  lemma {:induction false} SomeKeyTexts()
    ensures BytesToHex([0x1f, 0xa0]) == "1fa0"
    ensures HexByte('1', 'f') == Some(0x1f) && HexByte('A', '0') == Some(0xa0) && HexByte('0', 'g') == None
  {
  }

  // --------------------------------------------------------------- levels

  /** Four levels have names; the other two are written as Info, and an unknown name
      leaves the level as it is. */
  lemma {:induction false} LevelNames(fallback: LogLevel)
    ensures LevelName(Debug) == "Debug" && LevelName(Info) == "Info"
    ensures LevelName(Warn) == "Warn" && LevelName(Error) == "Error"
    ensures LevelName(Trace) == "Info" == LevelName(Critical)
    ensures ParseLevel(String("Debug"), fallback) == Debug && ParseLevel(String("Info"), fallback) == Info
    ensures ParseLevel(String("Warn"), fallback) == Warn && ParseLevel(String("Error"), fallback) == Error
    ensures ParseLevel(String("Trace"), fallback) == fallback == ParseLevel(Null, fallback)
  {
  }

  // ------------------------------------------------------------- versions

  lemma {:induction false} LeadingDecimal(n: nat, tail: string)
    ensures LeadingNumber(Decimal(n) + tail, 0) == LeadingNumber(tail, n)
  {
    if n >= 10 {
      var last := [DigitOf(n % 10)];
      LeadingDecimal(n / 10, last + tail);
      assert Decimal(n) + tail == Decimal(n / 10) + (last + tail);
      DigitTaken(n % 10, tail, n / 10);
    } else {
      DigitTaken(n, tail, 0);
    }
  }

  function DigitOf(d: nat): char
    requires d < 10
  {
    "0123456789"[d]
  }

  lemma {:induction false} DigitTaken(d: nat, tail: string, value: nat)
    requires d < 10
    ensures IsDigit(DigitOf(d)) && LeadingNumber([DigitOf(d)] + tail, value) == LeadingNumber(tail, 10 * value + d)
  {
    assert ([DigitOf(d)] + tail)[1..] == tail;
  }

  lemma {:induction false} StartsWithDigit(n: nat)
    ensures Decimal(n) != "" && IsDigit(Decimal(n)[0])
  {
    if n >= 10 {
      StartsWithDigit(n / 10);
    }
  }

  /** A version may be a string: a number, a minus sign in front of it, anything that is no
      digit behind it. It is read when it fits 32 bits. */
  lemma {:induction false} VersionStrings(n: nat, tail: string)
    requires tail == "" || !IsDigit(tail[0])
    ensures Stoi(Decimal(n) + tail) == if n <= 0x7FFF_FFFF then Some(n as int) else None
    ensures Stoi("-" + Decimal(n) + tail) == if n <= 0x8000_0000 then Some(-(n as int)) else None
  {
    hide Decimal;
    StartsWithDigit(n);
    LeadingDecimal(n, tail);
    assert ("-" + Decimal(n) + tail)[1..] == Decimal(n) + tail;
    assert LeadingNumber(tail, n) == n;
  }

  /** Blanks in front are passed over; a sign alone, a letter and nothing are refused. */
  lemma {:induction false} OtherVersionStrings(s: string)
    ensures Stoi(" " + s) == Stoi(s) == Stoi("\t" + s)
    ensures Stoi("") == None && Stoi("-") == None && Stoi("v1") == None
  {
    assert (" " + s)[1..] == s == ("\t" + s)[1..];
  }

  // --------------------------------------------------------- the empty file

  lemma {:induction false} EmptyObject(t: NumberText)
    ensures Parse(t, "{}") == Some(Object([]))
  {
  }

  /** A file with an empty object loads the compiled-in defaults. */
  lemma {:induction false} EmptyFile(m: Machine) returns (c: Config)
    ensures Load(m, "{}") == Some(c)
    ensures
      && c.logging == LoggingConfig(Info, false, true, 1000, "", false)
      && c.crash == CrashConfig("pcsx5_crash", true)
      && c.hle == HleConfig(false, true, 256)
      && c.graphics == GraphicsConfig(1280, 720, false, 0, Finite(1.0), true, false, 40, -1, false)
      && c.audio == AudioConfig(2, 50, Finite(1.0))
      && c.input == InputConfig(0, m.deadzone, true)
      && c.cpu == CpuConfig(0, 0)
      && c.ui == UiConfig("en-US")
      && c.loader == LoaderConfig("")
      && !c.savedata_crypto.enabled
      && c.savedata_crypto.xts_key1 == [0, 0, 0, 0, 0, 0, 0, 0, 0, 0, 0, 0, 0, 0, 0, 0]
      && c.savedata_crypto.xts_key2 == [0, 0, 0, 0, 0, 0, 0, 0, 0, 0, 0, 0, 0, 0, 0, 0]
      && c.users == UsersConfig([UserProfile(0x1000_0000, "Player", "Player")], 0)
      && c.loaded_from_disk && c.schema_version == 3
  {
    hide Parse;
    EmptyObject(m.text);
    c := Load(m, "{}").value;
  }

  /** A profile id that is negative or no number leaves the first user's. */
  lemma {:induction false} BadIds(m: Machine, x: real)
    ensures x < 0.0 ==> IdField(m, Object([Member("id", Number(Finite(x)))]), 7) == 7
    ensures IdField(m, Object([Member("id", Number(NotANumber(false)))]), 7) == 7
    ensures IdField(m, Object([Member("id", String("1"))]), 7) == 7
    ensures x >= 0.0 ==> IdField(m, Object([Member("id", Number(Finite(x)))]), 7) == m.toU32(Finite(x))
  {
  }

  /** Two profiles and the indices around them. */
  lemma {:induction false} ActiveIndex(p: UserProfile, q: UserProfile)
    ensures Clamped([p, q], 0) == 0 && Clamped([p, q], 1) == 1
    ensures Clamped([p, q], 2) == 0 && Clamped([p, q], -1) == 0 && Clamped([], 0) == -1
  {
  }

  /** A profile that says nothing is the default one; one that says everything is that. */
  lemma {:induction false} ProfileTexts(m: Machine, n: Double)
    ensures ReadProfile(m, Object([])) == UserProfile(0x1000_0000, "Player", "Player")
    ensures AtLeastZero(n) ==>
      ReadProfile(m, Object([Member("id", Number(n)), Member("name", String("a")), Member("online_id", String("b"))]))
        == UserProfile(m.toU32(n), "a", "b")
  {
    var o := [Member("id", Number(n)), Member("name", String("a")), Member("online_id", String("b"))];
    assert Find(o, "name") == Some(String("a")) by {
      assert o[1..][0] == o[1];
    }
    assert Find(o, "online_id") == Some(String("b")) by {
      assert o[1..][0] == o[1];
      assert Find(o[1..], "online_id") == Find(o[1..][1..], "online_id");
      assert o[1..][1..][0] == o[2];
    }
  }

  // ------------------------------------------------------------ saved text

  /** A saved file is an indented object and a line feed. */
  lemma {:induction false} SavedText(m: Machine, c: Config)
    ensures var text := Save(m, c);
      |text| >= 7 && text[..4] == "{\n  " && text[|text| - 3..] == "\n}\n"
  {
    hide Printed, FromPairs, RootPairs, PrintedMembers;
    var o := FromPairs(RootPairs(m, c));
    SomeMembers(m, c);
    PrettyObject(m.text, o, PrintedMembers(m.text, o, true, true, 0));
    JsonText.NextMember(m.text, o, true, true, PrintedMembers(m.text, o[1..], false, true, 0));
    assert NewLine(true, 2) == "\n  " by { SmallTexts(m.text); }
  }

  lemma {:induction false} SomeMembers(m: Machine, c: Config)
    ensures FromPairs(RootPairs(m, c)) != []
  {
    hide Insert, LoggingPairs, CrashPairs, HlePairs, GraphicsPairs, AudioPairs, InputPairs, CpuPairs, UiPairs,
      LoaderPairs, SaveDataPairs, UsersPairs;
  }
}
