/** Saving and loading a configuration: what survives, what is normalised. */
module ConfigLaws {
  import opened Basics
  import opened Json
  import opened JsonLaws
  import opened Config

  // ------------------------------------------------------ assembled objects

  ghost predicate DistinctKeys(pairs: seq<(string, JsonValue)>) {
    forall i, j | 0 <= i < j < |pairs| :: pairs[i].0 != pairs[j].0
  }

  lemma {:induction false} FromPairsSorted(pairs: seq<(string, JsonValue)>)
    ensures Sorted(FromPairs(pairs))
  {
    if pairs != [] {
      var n := |pairs| - 1;
      FromPairsSorted(pairs[..n]);
      InsertSorts(FromPairs(pairs[..n]), pairs[n].0, pairs[n].1);
    }
  }

  /** Every assigned member is found. */
  lemma {:induction false} FindPair(pairs: seq<(string, JsonValue)>, i: nat)
    requires DistinctKeys(pairs) && i < |pairs|
    ensures Field(Obj(pairs), pairs[i].0) == Some(pairs[i].1)
  {
    var n := |pairs| - 1;
    FromPairsSorted(pairs[..n]);
    InsertSets(FromPairs(pairs[..n]), pairs[n].0, pairs[n].1, pairs[i].0);
    if i < n {
      FindPair(pairs[..n], i);
    }
  }

  lemma {:induction false} MissingPair(pairs: seq<(string, JsonValue)>, key: string)
    requires forall i | 0 <= i < |pairs| :: pairs[i].0 != key
    ensures Find(FromPairs(pairs), key) == None
  {
    if pairs != [] {
      var n := |pairs| - 1;
      FromPairsSorted(pairs[..n]);
      InsertSets(FromPairs(pairs[..n]), pairs[n].0, pairs[n].1, key);
      MissingPair(pairs[..n], key);
    }
  }

  /** Up to six members, one by one. */
  lemma {:induction false} FindEach(p: seq<(string, JsonValue)>)
    requires 1 <= |p| <= 6 && DistinctKeys(p)
    ensures Field(Obj(p), p[0].0) == Some(p[0].1)
    ensures |p| > 1 ==> Field(Obj(p), p[1].0) == Some(p[1].1)
    ensures |p| > 2 ==> Field(Obj(p), p[2].0) == Some(p[2].1)
    ensures |p| > 3 ==> Field(Obj(p), p[3].0) == Some(p[3].1)
    ensures |p| > 4 ==> Field(Obj(p), p[4].0) == Some(p[4].1)
    ensures |p| > 5 ==> Field(Obj(p), p[5].0) == Some(p[5].1)
  {
    forall i: nat | i < |p| ensures Field(Obj(p), p[i].0) == Some(p[i].1) {
      FindPair(p, i);
    }
  }

  lemma {:induction false} LoggingKeys(m: Machine, l: LoggingConfig)
    ensures DistinctKeys(LoggingPairs(m, l))
  {
    var p := LoggingPairs(m, l);
    assert p[0].0[0] == 'm' && p[1].0[0] == 'j' && p[2].0[0] == 'd' && p[4].0[0] == 'f' && p[5].0[0] == 'f';
  }

  lemma {:induction false} RootKeys(m: Machine, c: Config)
    ensures DistinctKeys(RootPairs(m, c))
  {
    hide LoggingPairs, GraphicsPairs, SaveDataPairs, UsersPairs, Obj;
    var p := RootPairs(m, c);
    assert p[2].0[0] == 'c' && p[3].0[0] == 'h' && p[5].0[0] == 'a' && p[6].0[0] == 'i' && p[7].0[0] == 'c'
      && p[11].0[0] == 'u';
  }

  // ------------------------------------------------- section by section

  function Shown(level: LogLevel): LogLevel {
    if level == Trace || level == Critical then Info else level
  }

  lemma {:induction false} LoggingRoundTrip(m: Machine, root: JsonValue, l: LoggingConfig, d: LoggingConfig)
    requires Section(root, "logging") == Some(Obj(LoggingPairs(m, l)))
    ensures ReadLogging(m, root, d)
      == l.(min_level := Shown(l.min_level), dedup_window_ms := m.toU64(m.ofU64(l.dedup_window_ms)))
  {
    hide Section, Obj, Field;
    LoggingKeys(m, l);
    FindEach(LoggingPairs(m, l));
    LevelRoundTrip(l.min_level, d.min_level);
  }

  lemma {:induction false} LevelRoundTrip(level: LogLevel, fallback: LogLevel)
    ensures ParseLevel(String(LevelName(level)), fallback) == Shown(level)
  {
    assert "Debug"[0] == 'D' && "Info"[0] == 'I' && "Warn"[0] == 'W' && "Error"[0] == 'E';
  }

  lemma {:induction false} CrashRoundTrip(root: JsonValue, c: CrashConfig, d: CrashConfig)
    requires Section(root, "crash") == Some(Obj(CrashPairs(c)))
    ensures ReadCrash(root, d) == c
  {
    hide Section, Obj, Field;
    assert DistinctKeys(CrashPairs(c));
    FindEach(CrashPairs(c));
  }

  /** An integer of its type is read back as itself. */
  lemma {:induction false} IntRoundTrip(m: Machine, v: JsonValue, key: string, i: int, fallback: int)
    requires Sound(m) && INT_MIN <= i <= INT_MAX && Field(v, key) == Some(IntV(i))
    ensures IntField(m, v, key, fallback) == i
  {
    WholeIsTruncated(i);
  }

  lemma {:induction false} WholeIsTruncated(i: int)
    ensures Truncated(OfInt(i).Value()) == i
  {
    assert (-(i as real)) == (-i) as real;
  }

  lemma {:induction false} HleRoundTrip(m: Machine, root: JsonValue, h: HleConfig, d: HleConfig)
    requires Sound(m) && INT_MIN <= h.trace_capacity <= INT_MAX && Section(root, "hle") == Some(Obj(HlePairs(h)))
    ensures ReadHle(m, root, d) == h
  {
    hide Section, Obj, Field, Sound, IntV, IntField;
    assert HlePairs(h)[0].0[0] == 's' && HlePairs(h)[2].0[0] == 't';
    assert DistinctKeys(HlePairs(h));
    FindEach(HlePairs(h));
    IntRoundTrip(m, Obj(HlePairs(h)), "trace_capacity", h.trace_capacity, d.trace_capacity);
  }

  predicate IsInt(i: int) {
    INT_MIN <= i <= INT_MAX
  }

  /** A value of a float field. */
  ghost predicate IsFloat(m: Machine, d: Double) {
    m.toFloat(d) == d && m.text.isDouble(d)
  }

  lemma {:induction false} GraphicsRoundTrip(m: Machine, root: JsonValue, g: GraphicsConfig, d: GraphicsConfig)
    requires Sound(m) && IsInt(g.width) && IsInt(g.height) && IsInt(g.renderer) && IsFloat(m, g.resolution_scale)
    requires Section(root, "graphics") == Some(Obj(GraphicsPairs(g)))
    ensures ReadGraphics(m, root, d)
      == d.(width := g.width, height := g.height, fullscreen := g.fullscreen, renderer := g.renderer,
                                           resolution_scale := g.resolution_scale)
  {
    hide Section, Obj, Field, Sound, IntV, IntField;
    var v := Obj(GraphicsPairs(g));
    assert DistinctKeys(GraphicsPairs(g));
    FindEach(GraphicsPairs(g));
    IntRoundTrip(m, v, "width", g.width, d.width);
    IntRoundTrip(m, v, "height", g.height, d.height);
    IntRoundTrip(m, v, "renderer", g.renderer, d.renderer);
  }

  lemma {:induction false} AudioRoundTrip(m: Machine, root: JsonValue, a: AudioConfig, d: AudioConfig)
    requires Sound(m) && IsInt(a.backend) && IsInt(a.buffer_ms) && IsFloat(m, a.volume)
    requires Section(root, "audio") == Some(Obj(AudioPairs(a)))
    ensures ReadAudio(m, root, d) == a
  {
    hide Section, Obj, Field, Sound, IntV, IntField;
    var v := Obj(AudioPairs(a));
    assert DistinctKeys(AudioPairs(a));
    FindEach(AudioPairs(a));
    IntRoundTrip(m, v, "backend", a.backend, d.backend);
    IntRoundTrip(m, v, "buffer_ms", a.buffer_ms, d.buffer_ms);
  }

  lemma {:induction false} InputRoundTrip(m: Machine, root: JsonValue, i: InputConfig, d: InputConfig)
    requires Sound(m) && IsInt(i.backend) && IsFloat(m, i.deadzone)
    requires Section(root, "input") == Some(Obj(InputPairs(i)))
    ensures ReadInput(m, root, d) == i
  {
    hide Section, Obj, Field, Sound, IntV, IntField;
    var v := Obj(InputPairs(i));
    assert DistinctKeys(InputPairs(i));
    FindEach(InputPairs(i));
    IntRoundTrip(m, v, "backend", i.backend, d.backend);
  }

  lemma {:induction false} CpuRoundTrip(m: Machine, root: JsonValue, c: CpuConfig, d: CpuConfig)
    requires Sound(m) && IsInt(c.max_guest_threads) && IsInt(c.affinity_mask)
    requires Section(root, "cpu") == Some(Obj(CpuPairs(c)))
    ensures ReadCpu(m, root, d) == c
  {
    hide Section, Obj, Field, Sound, IntV, IntField;
    var v := Obj(CpuPairs(c));
    assert DistinctKeys(CpuPairs(c));
    FindEach(CpuPairs(c));
    IntRoundTrip(m, v, "max_guest_threads", c.max_guest_threads, d.max_guest_threads);
    IntRoundTrip(m, v, "affinity_mask", c.affinity_mask, d.affinity_mask);
  }

  lemma {:induction false} TextSectionsRoundTrip(root: JsonValue, u: UiConfig, d: UiConfig, l: LoaderConfig,
        e: LoaderConfig)
    requires Section(root, "ui") == Some(Obj(UiPairs(u))) && Section(root, "loader") == Some(Obj(LoaderPairs(l)))
    ensures ReadUi(root, d) == u && ReadLoader(root, e) == l
  {
    hide Section, Obj, Field;
    FindEach(UiPairs(u));
    FindEach(LoaderPairs(l));
  }

  // ----------------------------------------------------------------- keys

  lemma {:induction false} HexLength(bytes: seq<Byte>)
    ensures |BytesToHex(bytes)| == 2 * |bytes|
  {
    if bytes != [] {
      HexLength(bytes[1..]);
    }
  }

  lemma {:induction false} HexAt(bytes: seq<Byte>, i: nat)
    requires i < |bytes|
    ensures |BytesToHex(bytes)| == 2 * |bytes|
    ensures HexByte(BytesToHex(bytes)[2 * i], BytesToHex(bytes)[2 * i + 1]) == Some(bytes[i])
  {
    hide HexDigit, HexValue;
    HexLength(bytes);
    HexLength(bytes[1..]);
    if i == 0 {
      HexDigitValue(bytes[0] / 16);
      HexDigitValue(bytes[0] % 16);
    } else {
      HexAt(bytes[1..], i - 1);
      assert BytesToHex(bytes)[2 * i] == BytesToHex(bytes[1..])[2 * i - 2];
      assert BytesToHex(bytes)[2 * i + 1] == BytesToHex(bytes[1..])[2 * i - 1];
    }
  }

  lemma {:induction false} AllBytesGood(bytes: seq<Byte>, i: nat)
    requires i <= |bytes| && |BytesToHex(bytes)| == 2 * |bytes|
    ensures GoodBytes(BytesToHex(bytes), i) == |bytes|
    decreases |bytes| - i
  {
    hide BytesToHex, HexByte;
    if i < |bytes| {
      HexAt(bytes, i);
      AllBytesGood(bytes, i + 1);
    }
  }

  /** Hex text decodes to the bytes it was made from, over any old contents. */
  lemma {:induction false} HexRoundTrip(bytes: seq<Byte>, before: seq<Byte>)
    requires |bytes| == |before|
    ensures HexToBytes(BytesToHex(bytes), before) == (true, bytes)
  {
    hide BytesToHex, HexByte, GoodBytes;
    HexLength(bytes);
    AllBytesGood(bytes, 0);
    var r := HexToBytes(BytesToHex(bytes), before);
    forall i | 0 <= i < |bytes| ensures r.1[i] == bytes[i] {
      HexAt(bytes, i);
    }
    assert r.1 == bytes;
  }

  lemma {:induction false} SaveDataRoundTrip(root: JsonValue, s: SaveDataCrypto, d: SaveDataCrypto)
    requires |s.xts_key1| == |d.xts_key1| && |s.xts_key2| == |d.xts_key2|
    requires Section(root, "savedata_crypto") == Some(Obj(SaveDataPairs(s)))
    ensures ReadSaveDataCrypto(root, d) == s
  {
    hide Section, Obj, Field, HexToBytes, BytesToHex;
    var p := SaveDataPairs(s);
    assert p[1].0[7] == '1' && p[2].0[7] == '2';
    assert DistinctKeys(p);
    FindEach(p);
    HexRoundTrip(s.xts_key1, d.xts_key1);
    HexRoundTrip(s.xts_key2, d.xts_key2);
  }

  // ----------------------------------------------------------------- users

  predicate IsProfile(p: UserProfile) {
    p.id < U32_LIMIT
  }

  lemma {:induction false} ProfileRoundTrip(m: Machine, p: UserProfile)
    requires Sound(m) && IsProfile(p)
    ensures ReadProfile(m, Obj(ProfilePairs(p))) == p
  {
    hide Obj, Field, Faithful;
    var pairs := ProfilePairs(p);
    assert DistinctKeys(pairs);
    FindEach(pairs);
    WholeIsTruncated(p.id);
  }

  lemma {:induction false} ProfilesRoundTrip(m: Machine, profiles: seq<UserProfile>)
    requires Sound(m) && forall i :: 0 <= i < |profiles| ==> IsProfile(profiles[i])
    ensures ReadProfiles(m, ProfileList(profiles)) == profiles
  {
    hide Sound, ReadProfile, FromPairs;
    if profiles != [] {
      ProfileRoundTrip(m, profiles[0]);
      ProfilesRoundTrip(m, profiles[1..]);
      var list := ProfileList(profiles);
      assert list[1..] == ProfileList(profiles[1..]);
      assert [profiles[0]] + profiles[1..] == profiles;
    }
  }

  function NormalUsers(u: UsersConfig, d: UsersConfig): UsersConfig {
    var profiles := if u.profiles != [] then u.profiles else d.profiles;
    UsersConfig(profiles, Clamped(profiles, u.active_user))
  }

  lemma {:induction false} UsersRoundTrip(m: Machine, root: JsonValue, u: UsersConfig, d: UsersConfig)
    requires Sound(m) && IsInt(u.active_user) && (forall i :: 0 <= i < |u.profiles| ==> IsProfile(u.profiles[i]))
    requires Section(root, "users") == Some(Obj(UsersPairs(u)))
    ensures ReadUsers(m, root, d) == NormalUsers(u, d)
  {
    hide Section, Obj, Field, Sound, ReadProfiles, ProfileList, IntV, IntField;
    var v := Obj(UsersPairs(u));
    assert DistinctKeys(UsersPairs(u));
    FindEach(UsersPairs(u));
    ProfilesRoundTrip(m, u.profiles);
    IntRoundTrip(m, v, "active_user", u.active_user, d.active_user);
  }

  // ---------------------------------------------- the saved value is printable

  lemma {:induction false} PairsPrintable(t: NumberText, pairs: seq<(string, JsonValue)>)
    requires forall i :: 0 <= i < |pairs| ==> Printable(t, pairs[i].1)
    ensures Printable(t, Obj(pairs))
  {
    hide Printable, Insert, Sorted;
    FromPairsSorted(pairs);
    MembersPrintable(t, pairs);
    PrintableObject(t, FromPairs(pairs));
  }

  lemma {:induction false} PrintableObject(t: NumberText, o: seq<Member>)
    requires Sorted(o) && WellFormedMembers(o) && DoubleMembers(t, o)
    ensures Printable(t, Object(o))
  {
  }

  lemma {:induction false} MembersPrintable(t: NumberText, pairs: seq<(string, JsonValue)>)
    requires forall i :: 0 <= i < |pairs| ==> Printable(t, pairs[i].1)
    ensures WellFormedMembers(FromPairs(pairs)) && DoubleMembers(t, FromPairs(pairs))
  {
    hide Printable, Insert;
    if pairs != [] {
      var n := |pairs| - 1;
      MembersPrintable(t, pairs[..n]);
      assert Printable(t, pairs[n].1);
      InsertMember(t, FromPairs(pairs[..n]), pairs[n].0, pairs[n].1);
    }
  }

  lemma {:induction false} InsertFinite(o: seq<Member>, key: string, value: JsonValue)
    requires Sorted(o) && Find(o, key) == None
    ensures FiniteMembers(Insert(o, key, value)) <==> FiniteMembers(o) && AllFinite(value)
  {
    if o == [] || Before(key, o[0].key) {
      assert ([Member(key, value)] + o)[1..] == o;
    } else {
      assert ([o[0]] + Insert(o[1..], key, value))[1..] == Insert(o[1..], key, value);
      InsertFinite(o[1..], key, value);
    }
  }

  /** An object is finite when everything assigned to it is. */
  lemma {:induction false} PairsFinite(pairs: seq<(string, JsonValue)>)
    requires DistinctKeys(pairs)
    ensures AllFinite(Obj(pairs)) <==> forall i :: 0 <= i < |pairs| ==> AllFinite(pairs[i].1)
  {
    hide Insert, Find;
    if pairs != [] {
      var n := |pairs| - 1;
      PairsFinite(pairs[..n]);
      FromPairsSorted(pairs[..n]);
      MissingPair(pairs[..n], pairs[n].0);
      InsertFinite(FromPairs(pairs[..n]), pairs[n].0, pairs[n].1);
      assert AllFinite(Obj(pairs)) <==> AllFinite(Obj(pairs[..n])) && AllFinite(pairs[n].1);
    }
  }

  lemma {:induction false} ProfilesPrintable(m: Machine, profiles: seq<UserProfile>)
    requires Sound(m) && forall i :: 0 <= i < |profiles| ==> IsProfile(profiles[i])
    ensures PrintableItems(m.text, ProfileList(profiles)) && FiniteItems(ProfileList(profiles))
  {
    hide FromPairs, Faithful;
    if profiles != [] {
      var pairs := ProfilePairs(profiles[0]);
      PairsPrintable(m.text, pairs);
      PairsFinite(pairs);
      ProfilesPrintable(m, profiles[1..]);
      var list := ProfileList(profiles);
      assert list[1..] == ProfileList(profiles[1..]) && list[0] == Obj(pairs);
    }
  }

  // ------------------------------------------------------ the whole file

  /** A configuration whose fields hold values of their types. */
  ghost predicate TypeValid(m: Machine, c: Config) {
    && c.logging.dedup_window_ms < U64_LIMIT
    && IsInt(c.hle.trace_capacity)
    && IsInt(c.graphics.width) && IsInt(c.graphics.height) && IsInt(c.graphics.renderer)
    && IsFloat(m, c.graphics.resolution_scale)
    && IsInt(c.audio.backend) && IsInt(c.audio.buffer_ms) && IsFloat(m, c.audio.volume)
    && IsInt(c.input.backend) && IsFloat(m, c.input.deadzone)
    && IsInt(c.cpu.max_guest_threads) && IsInt(c.cpu.affinity_mask)
    && |c.savedata_crypto.xts_key1| == 16 && |c.savedata_crypto.xts_key2| == 16
    && IsInt(c.users.active_user) && (forall i :: 0 <= i < |c.users.profiles| ==> IsProfile(c.users.profiles[i]))
  }

  predicate FloatsFinite(c: Config) {
    c.graphics.resolution_scale.IsFinite() && c.audio.volume.IsFinite() && c.input.deadzone.IsFinite()
  }

  /** What saving and loading makes of a configuration. */
  function Normal(m: Machine, c: Config): Config {
    var d := Defaults(m);
    Config(c.logging.(min_level := Shown(c.logging.min_level),
                      dedup_window_ms := m.toU64(m.ofU64(c.logging.dedup_window_ms))),
           c.crash, c.hle,
           d.graphics.(width := c.graphics.width, height := c.graphics.height, fullscreen := c.graphics.fullscreen,
                       renderer := c.graphics.renderer, resolution_scale := c.graphics.resolution_scale),
           c.audio, c.input, c.cpu, c.ui, c.loader, c.savedata_crypto, NormalUsers(c.users, d.users), true,
           CURRENT_SCHEMA_VERSION)
  }

  lemma {:induction false} LoggingPrintable(m: Machine, l: LoggingConfig)
    requires Sound(m) && l.dedup_window_ms < U64_LIMIT
    ensures Printable(m.text, Obj(LoggingPairs(m, l))) && AllFinite(Obj(LoggingPairs(m, l)))
  {
    hide Obj, Faithful;
    LoggingKeys(m, l);
    PairsPrintable(m.text, LoggingPairs(m, l));
    PairsFinite(LoggingPairs(m, l));
  }

  lemma {:induction false} PlainSectionsPrintable(m: Machine, c: Config)
    requires Sound(m) && TypeValid(m, c)
    ensures Printable(m.text, Obj(CrashPairs(c.crash))) && AllFinite(Obj(CrashPairs(c.crash)))
    ensures Printable(m.text, Obj(HlePairs(c.hle))) && AllFinite(Obj(HlePairs(c.hle)))
    ensures Printable(m.text, Obj(CpuPairs(c.cpu))) && AllFinite(Obj(CpuPairs(c.cpu)))
  {
    hide Obj, Faithful;
    assert HlePairs(c.hle)[0].0[0] == 's' && HlePairs(c.hle)[2].0[0] == 't';
    PairsPrintable(m.text, CrashPairs(c.crash));
    PairsFinite(CrashPairs(c.crash));
    PairsPrintable(m.text, HlePairs(c.hle));
    PairsFinite(HlePairs(c.hle));
    PairsPrintable(m.text, CpuPairs(c.cpu));
    PairsFinite(CpuPairs(c.cpu));
  }

  lemma {:induction false} StringSectionsPrintable(m: Machine, c: Config)
    ensures Printable(m.text, Obj(UiPairs(c.ui))) && AllFinite(Obj(UiPairs(c.ui)))
    ensures Printable(m.text, Obj(LoaderPairs(c.loader))) && AllFinite(Obj(LoaderPairs(c.loader)))
    ensures Printable(m.text, Obj(SaveDataPairs(c.savedata_crypto))) && AllFinite(Obj(SaveDataPairs(c.savedata_crypto)))
  {
    hide Obj, BytesToHex;
    assert SaveDataPairs(c.savedata_crypto)[1].0[7] == '1' && SaveDataPairs(c.savedata_crypto)[2].0[7] == '2';
    PairsPrintable(m.text, UiPairs(c.ui));
    PairsFinite(UiPairs(c.ui));
    PairsPrintable(m.text, LoaderPairs(c.loader));
    PairsFinite(LoaderPairs(c.loader));
    PairsPrintable(m.text, SaveDataPairs(c.savedata_crypto));
    PairsFinite(SaveDataPairs(c.savedata_crypto));
  }

  lemma {:induction false} FloatSectionsPrintable(m: Machine, c: Config)
    requires Sound(m) && TypeValid(m, c)
    ensures Printable(m.text, Obj(GraphicsPairs(c.graphics)))
    ensures AllFinite(Obj(GraphicsPairs(c.graphics))) <==> c.graphics.resolution_scale.IsFinite()
    ensures Printable(m.text, Obj(AudioPairs(c.audio)))
      && (AllFinite(Obj(AudioPairs(c.audio))) <==> c.audio.volume.IsFinite())
    ensures Printable(m.text, Obj(InputPairs(c.input)))
      && (AllFinite(Obj(InputPairs(c.input))) <==> c.input.deadzone.IsFinite())
  {
    hide Obj, Faithful;
    var g, a, i := GraphicsPairs(c.graphics), AudioPairs(c.audio), InputPairs(c.input);
    PairsPrintable(m.text, g);
    PairsFinite(g);
    assert g[4].1 == Number(c.graphics.resolution_scale) && a[2].1 == Number(c.audio.volume)
      && i[1].1 == Number(c.input.deadzone);
    PairsPrintable(m.text, a);
    PairsFinite(a);
    PairsPrintable(m.text, i);
    PairsFinite(i);
  }

  lemma {:induction false} UsersPrintable(m: Machine, u: UsersConfig)
    requires Sound(m) && IsInt(u.active_user) && forall i :: 0 <= i < |u.profiles| ==> IsProfile(u.profiles[i])
    ensures Printable(m.text, Obj(UsersPairs(u))) && AllFinite(Obj(UsersPairs(u)))
  {
    hide Obj, Faithful, ProfileList;
    ProfilesPrintable(m, u.profiles);
    PairsPrintable(m.text, UsersPairs(u));
    PairsFinite(UsersPairs(u));
  }

  /** The saved value prints, and is finite exactly when the three floats are. */
  lemma {:induction false} RootPrintable(m: Machine, c: Config)
    requires Sound(m) && TypeValid(m, c)
    ensures Printable(m.text, Root(m, c)) && (AllFinite(Root(m, c)) <==> FloatsFinite(c))
  {
    hide Obj, Faithful, LoggingPairs, CrashPairs, HlePairs, GraphicsPairs, AudioPairs, InputPairs, CpuPairs, UiPairs,
      LoaderPairs, SaveDataPairs, UsersPairs, DistinctKeys;
    LoggingPrintable(m, c.logging);
    PlainSectionsPrintable(m, c);
    StringSectionsPrintable(m, c);
    FloatSectionsPrintable(m, c);
    UsersPrintable(m, c.users);
    RootKeys(m, c);
    var p := RootPairs(m, c);
    assert p[4].1 == Obj(GraphicsPairs(c.graphics)) && p[5].1 == Obj(AudioPairs(c.audio))
      && p[6].1 == Obj(InputPairs(c.input));
    PairsPrintable(m.text, p);
    PairsFinite(p);
  }

  lemma {:induction false} RootSections(m: Machine, c: Config)
    ensures var root := Root(m, c);
      && Field(root, "schema_version") == Some(IntV(CURRENT_SCHEMA_VERSION))
      && Section(root, "logging") == Some(Obj(LoggingPairs(m, c.logging)))
      && Section(root, "crash") == Some(Obj(CrashPairs(c.crash)))
      && Section(root, "hle") == Some(Obj(HlePairs(c.hle)))
      && Section(root, "graphics") == Some(Obj(GraphicsPairs(c.graphics)))
      && Section(root, "audio") == Some(Obj(AudioPairs(c.audio)))
      && Section(root, "input") == Some(Obj(InputPairs(c.input)))
      && Section(root, "cpu") == Some(Obj(CpuPairs(c.cpu))) && Section(root, "ui") == Some(Obj(UiPairs(c.ui)))
      && Section(root, "loader") == Some(Obj(LoaderPairs(c.loader)))
      && Section(root, "savedata_crypto") == Some(Obj(SaveDataPairs(c.savedata_crypto)))
      && Section(root, "users") == Some(Obj(UsersPairs(c.users)))
  {
    hide Field, FromPairs, LoggingPairs, CrashPairs, HlePairs, GraphicsPairs, AudioPairs, InputPairs, CpuPairs,
      UiPairs, LoaderPairs, SaveDataPairs, UsersPairs, DistinctKeys;
    RootKeys(m, c);
    var p := RootPairs(m, c);
    forall i: nat | i < 12 ensures Field(Obj(p), p[i].0) == Some(p[i].1) {
      FindPair(p, i);
    }
    assert p[0].0 == "schema_version" && p[1].0 == "logging" && p[2].0 == "crash" && p[3].0 == "hle"
      && p[4].0 == "graphics";
    assert p[5].0 == "audio" && p[6].0 == "input" && p[7].0 == "cpu" && p[8].0 == "ui" && p[9].0 == "loader";
    assert p[10].0 == "savedata_crypto" && p[11].0 == "users";
  }

  lemma {:induction false} ReadBack(m: Machine, c: Config)
    requires Sound(m) && TypeValid(m, c)
    ensures SchemaVersion(m, Root(m, c)) == CURRENT_SCHEMA_VERSION
    ensures ReadAll(m, Root(m, c), CURRENT_SCHEMA_VERSION) == Normal(m, c)
  {
    hide Section, Field, Faithful, Root, ReadLogging, ReadCrash, ReadHle, ReadGraphics, ReadAudio, ReadInput, ReadCpu,
      ReadUi, ReadLoader, ReadSaveDataCrypto, ReadUsers, LoggingPairs, CrashPairs, HlePairs, GraphicsPairs,
      AudioPairs, InputPairs, CpuPairs, UiPairs, LoaderPairs, SaveDataPairs, UsersPairs;
    var root, d := Root(m, c), Defaults(m);
    RootSections(m, c);
    WholeIsTruncated(CURRENT_SCHEMA_VERSION);
    LoggingRoundTrip(m, root, c.logging, d.logging);
    CrashRoundTrip(root, c.crash, d.crash);
    HleRoundTrip(m, root, c.hle, d.hle);
    GraphicsRoundTrip(m, root, c.graphics, d.graphics);
    AudioRoundTrip(m, root, c.audio, d.audio);
    InputRoundTrip(m, root, c.input, d.input);
    CpuRoundTrip(m, root, c.cpu, d.cpu);
    TextSectionsRoundTrip(root, c.ui, d.ui, c.loader, d.loader);
    SaveDataRoundTrip(root, c.savedata_crypto, d.savedata_crypto);
    UsersRoundTrip(m, root, c.users, d.users);
  }

  /** Loading what was saved gives the normal form, exactly when the floats are finite:
      an infinity or a NaN makes the saved file unreadable. */
  lemma {:induction false} SaveThenLoad(m: Machine, c: Config)
    requires Sound(m) && TypeValid(m, c)
    ensures Load(m, Save(m, c)) == if FloatsFinite(c) then Some(Normal(m, c)) else None
  {
    hide Parse, Printed, Root, SchemaVersion, ReadAll, Faithful;
    RootPrintable(m, c);
    assert SkipWs("\n") == "";
    PrintThenParse(m.text, Root(m, c), true, 0, "\n");
    ReadBack(m, c);
    RootIsObject(m, c);
  }

  lemma {:induction false} RootIsObject(m: Machine, c: Config)
    ensures Root(m, c).Object?
  {
  }

  // ------------------------------------------------ loaded configurations

  lemma {:induction false} FindIsDouble(t: NumberText, o: seq<Member>, key: string)
    requires DoubleMembers(t, o)
    ensures Find(o, key).Some? ==> Doubles(t, Find(o, key).value)
  {
    if o != [] && o[0].key != key {
      FindIsDouble(t, o[1..], key);
    }
  }

  lemma {:induction false} SectionIsDouble(t: NumberText, root: JsonValue, name: string)
    requires Doubles(t, root)
    ensures Section(root, name).Some? ==> Doubles(t, Section(root, name).value)
  {
    if root.Object? {
      FindIsDouble(t, root.o, name);
    }
  }

  /** A float field keeps a float. */
  lemma {:induction false} FloatFieldIsFloat(m: Machine, v: JsonValue, key: string, fallback: Double)
    requires Sound(m) && Doubles(m.text, v) && IsFloat(m, fallback)
    ensures IsFloat(m, FloatField(m, v, key, fallback))
  {
    if v.Object? {
      FindIsDouble(m.text, v.o, key);
    }
  }

  lemma {:induction false} FloatSections(m: Machine, root: JsonValue)
    requires Sound(m) && Doubles(m.text, root)
    ensures var d := Defaults(m);
      && IsFloat(m, ReadGraphics(m, root, d.graphics).resolution_scale)
      && IsFloat(m, ReadAudio(m, root, d.audio).volume) && IsFloat(m, ReadInput(m, root, d.input).deadzone)
  {
    hide Section, FloatField, IntField, BoolField, Doubles, Faithful;
    var d := Defaults(m);
    SectionIsDouble(m.text, root, "graphics");
    SectionIsDouble(m.text, root, "audio");
    SectionIsDouble(m.text, root, "input");
    if Section(root, "graphics").Some? {
      FloatFieldIsFloat(m, Section(root, "graphics").value, "resolution_scale", d.graphics.resolution_scale);
    }
    if Section(root, "audio").Some? {
      FloatFieldIsFloat(m, Section(root, "audio").value, "volume", d.audio.volume);
    }
    if Section(root, "input").Some? {
      FloatFieldIsFloat(m, Section(root, "input").value, "deadzone", d.input.deadzone);
    }
  }

  lemma {:induction false} IntSections(m: Machine, root: JsonValue)
    requires Sound(m)
    ensures var d := Defaults(m);
      && IsInt(ReadHle(m, root, d.hle).trace_capacity)
      && IsInt(ReadGraphics(m, root, d.graphics).width) && IsInt(ReadGraphics(m, root, d.graphics).height)
      && IsInt(ReadGraphics(m, root, d.graphics).renderer)
      && IsInt(ReadAudio(m, root, d.audio).backend) && IsInt(ReadAudio(m, root, d.audio).buffer_ms)
      && IsInt(ReadInput(m, root, d.input).backend)
      && IsInt(ReadCpu(m, root, d.cpu).max_guest_threads) && IsInt(ReadCpu(m, root, d.cpu).affinity_mask)
  {
    hide Section, FloatField, BoolField, Faithful, Field;
  }

  /** A 64-bit number that survives being written as a double. */
  predicate IsKept(m: Machine, n: nat) {
    m.toU64(m.ofU64(n)) == n
  }

  /** The window of a file, when it gives one, is a number of the field's type. */
  ghost predicate WindowFits(root: JsonValue) {
    match Section(root, "logging")
    case None => true
    case Some(v) =>
      match Field(v, "dedup_window_ms")
      case Some(Number(n)) => n.IsFinite() && 0 <= Truncated(n.Value()) < U64_LIMIT
      case _ => true
  }

  lemma {:induction false} LoggingIsNormal(m: Machine, root: JsonValue)
    requires Sound(m) && Doubles(m.text, root)
    ensures var l := ReadLogging(m, root, Defaults(m).logging);
      && l.dedup_window_ms < U64_LIMIT && Shown(l.min_level) == l.min_level
      && (WindowFits(root) ==> IsKept(m, l.dedup_window_ms))
  {
    hide Section, Faithful, BoolField, StringField, Find;
    var l := ReadLogging(m, root, Defaults(m).logging);
    SectionIsDouble(m.text, root, "logging");
    if Section(root, "logging").Some? && WindowFits(root) {
      var v := Section(root, "logging").value;
      if v.Object? {
        FindIsDouble(m.text, v.o, "dedup_window_ms");
      }
      assert m.text.isDouble(OfInt(l.dedup_window_ms));
    }
    WholeIsTruncated(l.dedup_window_ms);
  }

  lemma {:induction false} ReadProfilesAreProfiles(m: Machine, items: seq<JsonValue>)
    requires Sound(m)
    ensures forall i :: 0 <= i < |ReadProfiles(m, items)| ==> IsProfile(ReadProfiles(m, items)[i])
  {
    hide Faithful, Field;
    if items != [] {
      ReadProfilesAreProfiles(m, items[1..]);
      assert IsProfile(ReadProfile(m, items[0]));
    }
  }

  /** Loaded users always have an active profile. */
  lemma {:induction false} UsersAreNormal(m: Machine, root: JsonValue)
    requires Sound(m)
    ensures var u := ReadUsers(m, root, Defaults(m).users);
      && 0 <= u.active_user < |u.profiles| && NormalUsers(u, Defaults(m).users) == u
      && (forall i :: 0 <= i < |u.profiles| ==> IsProfile(u.profiles[i]))
      && (IsInt(u.active_user))
  {
    hide Section, Faithful, ReadProfiles;
    var u := ReadUsers(m, root, Defaults(m).users);
    if Section(root, "users").Some? {
      match Field(Section(root, "users").value, "profiles")
      case Some(Array(a)) => ReadProfilesAreProfiles(m, a);
      case _ =>
    }
  }

  lemma {:induction false} KeysKeepTheirSize(root: JsonValue, s: SaveDataCrypto)
    requires |s.xts_key1| == 16 && |s.xts_key2| == 16
    ensures var r := ReadSaveDataCrypto(root, s); |r.xts_key1| == 16 && |r.xts_key2| == 16
  {
    hide Section, HexToBytes, Field;
  }

  /** What a file loads as is in normal form, exactly when its dedup window survives being
      written as a double, as every window of its type in the file does. */
  lemma {:induction false} LoadedIsNormal(m: Machine, text: string)
    requires Sound(m) && Load(m, text).Some?
    ensures var c := Load(m, text).value;
      && TypeValid(m, c) && 0 <= c.users.active_user < |c.users.profiles|
      && (Normal(m, c) == c <==> IsKept(m, c.logging.dedup_window_ms))
      && (WindowFits(Parse(m.text, text).value) ==> IsKept(m, c.logging.dedup_window_ms))
  {
    hide Parse, Faithful, Section, Field, ReadLogging, ReadHle, ReadGraphics, ReadAudio, ReadInput, ReadCpu,
      ReadSaveDataCrypto, ReadUsers, ReadCrash, ReadUi, ReadLoader, Stoi, NormalUsers, Doubles, WindowFits;
    var root := Parse(m.text, text).value;
    ParsedDoubles(m.text, text);
    FloatSections(m, root);
    IntSections(m, root);
    LoggingIsNormal(m, root);
    UsersAreNormal(m, root);
    KeysKeepTheirSize(root, Defaults(m).savedata_crypto);
    GraphicsKeepDefaults(m, root, Defaults(m).graphics);
  }

  lemma {:induction false} ParsedDoubles(t: NumberText, text: string)
    requires Faithful(t) && Parse(t, text).Some?
    ensures Doubles(t, Parse(t, text).value)
  {
    hide ParseValue, SkipWs;
    ParsedIsPrintable(t, SkipWs(text));
  }

  /** The graphics fields that are not on disk stay what they were. */
  lemma {:induction false} GraphicsKeepDefaults(m: Machine, root: JsonValue, d: GraphicsConfig)
    ensures var g := ReadGraphics(m, root, d);
      g == d.(width := g.width, height := g.height, fullscreen := g.fullscreen, renderer := g.renderer,
        resolution_scale := g.resolution_scale)
  {
    hide Section, Field;
  }

  /** Load, save and load again gives the same configuration, through migration, key
      coercion, level names and the active-user clamp, exactly when its floats are finite
      and its dedup window survives being written as a double. */
  lemma {:induction false} LoadThenSaveThenLoad(m: Machine, text: string)
    requires Sound(m) && Load(m, text).Some?
    ensures var c := Load(m, text).value;
      && (Load(m, Save(m, c)) == Some(c) <==> FloatsFinite(c) && IsKept(m, c.logging.dedup_window_ms))
      && (Load(m, Save(m, c)) == None <==> !FloatsFinite(c))
      && (WindowFits(Parse(m.text, text).value) ==> IsKept(m, c.logging.dedup_window_ms))
  {
    hide Parse, Save, Load, Faithful, WindowFits, Normal;
    LoadedIsNormal(m, text);
    SaveThenLoad(m, Load(m, text).value);
  }

  // ------------------------------------- the assumptions can be met

  function Tally(n: nat): (s: string)
    ensures |s| == n && forall i :: 0 <= i < n ==> s[i] == '1'
  {
    seq(n, _ => '1')
  }

  /** Whole numbers spelled by counting. */
  function CountingText(): NumberText {
    NumberText(
      (d: Double) =>
        if !d.Finite? then "-0"
        else if d.value < 0.0 then "-" + Tally((-d.value).Floor)
        else Tally(d.value.Floor) + "0",
      (s: string) =>
        if s == "-0" then NegativeZero
        else if s == "" then OfInt(0)
        else if s[0] == '-' then OfInt(1 - |s|)
        else OfInt(|s| - 1),
      (d: Double) => d.NegativeZero? || (d.Finite? && d.value == d.value.Floor as real))
  }

  function CastTo(d: Double, low: int, limit: int): (i: int)
    requires low <= 0 < limit
    ensures low <= i < limit
  {
    if d.IsFinite() && low <= Truncated(d.Value()) < limit then Truncated(d.Value()) else 0
  }

  /** A machine whose doubles are the whole numbers. */
  function CountingMachine(): Machine {
    Machine(CountingText(), d => CastTo(d, INT_MIN, INT_MAX + 1), d => CastTo(d, 0, U64_LIMIT),
            d => CastTo(d, 0, U32_LIMIT),
            d => d, n => OfInt(n), OfInt(0))
  }

  /** A number that is not negative is its tally and a closing zero. */
  lemma {:induction false} CountedUp(n: nat)
    ensures var t := CountingText();
      && t.spell(OfInt(n)) == Tally(n) + "0"
      && IsToken(Tally(n) + "0") && t.scan(Tally(n) + "0") == OfInt(n)
  {
    var s := Tally(n) + "0";
    assert (n as real).Floor == n;
    assert |s| == n + 1 && s[0] == (if n > 0 then '1' else '0');
    assert s != "-" && s != "-0";
  }

  /** A negative one is a sign and its tally. */
  lemma {:induction false} CountedDown(n: nat)
    requires n > 0
    ensures var t := CountingText();
      && t.spell(OfInt(-(n as int))) == "-" + Tally(n)
      && IsToken("-" + Tally(n)) && t.scan("-" + Tally(n)) == OfInt(-(n as int))
  {
    var s := "-" + Tally(n);
    assert (-(OfInt(-(n as int)).value)).Floor == n;
    assert |s| == n + 1 && s[0] == '-' && s[1] == '1';
    assert s != "-" && s != "-0";
  }

  lemma {:induction false} CountingSpells(d: Double)
    requires d.IsFinite() && CountingText().isDouble(d)
    ensures var t := CountingText(); IsToken(t.spell(d)) && t.scan(t.spell(d)) == d
  {
    hide IsToken;
    if d.Finite? {
      var n := d.value.Floor;
      assert d == OfInt(n);
      if n < 0 {
        CountedDown(-n);
      } else {
        CountedUp(n);
      }
    } else {
      MinusZero();
    }
  }

  lemma {:induction false} MinusZero()
    ensures var t := CountingText(); t.spell(NegativeZero) == "-0" && IsToken("-0") && t.scan("-0") == NegativeZero
  {
  }

  lemma {:induction false} CountingIsFaithful()
    ensures Faithful(CountingText())
  {
    hide IsToken;
    var t := CountingText();
    forall d: Double | d.IsFinite() && t.isDouble(d) ensures IsToken(t.spell(d)) && t.scan(t.spell(d)) == d {
      CountingSpells(d);
    }
    forall s: string ensures t.isDouble(t.scan(s)) {
    }
  }

  /** Whole numbers stay whole under truncation. */
  lemma {:induction false} WholeNumbers(d: Double)
    ensures d.IsFinite() ==> CountingText().isDouble(OfInt(Truncated(d.Value())))
  {
  }

  /** The assumptions on number texts and casts can be met all at once. */
  lemma {:induction false} SomeMachineIsSound()
    ensures Sound(CountingMachine())
  {
    hide Faithful;
    CountingIsFaithful();
    forall d: Double ensures d.IsFinite() ==> CountingText().isDouble(OfInt(Truncated(d.Value()))) {
      WholeNumbers(d);
    }
  }
}
