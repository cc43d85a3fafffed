/** The versioned configuration: its sections, and their form as JSON values. */
module Config {
  import opened Basics
  import opened Json

  const CURRENT_SCHEMA_VERSION: int := 3
  const FIRST_USER_ID: nat := 0x1000_0000
  const INT_MIN: int := -0x8000_0000
  const INT_MAX: int := 0x7FFF_FFFF

  type Byte = b: nat | b < 256

  datatype LogLevel = Trace | Debug | Info | Warn | Error | Critical

  datatype LoggingConfig = LoggingConfig(min_level: LogLevel, json_output: bool, dedup: bool, dedup_window_ms: nat,
                                         file_path: string, file_append: bool)
  datatype CrashConfig = CrashConfig(bundle_dir: string, write_minidump: bool)
  datatype HleConfig = HleConfig(strict_imports: bool, trace_calls: bool, trace_capacity: int)
  datatype GraphicsConfig = GraphicsConfig(width: int, height: int, fullscreen: bool, renderer: int,
                                             resolution_scale: Double,
                                           vsync: bool, vrr: bool, vrr_min_fps: int, present_mode: int, headless: bool)
  datatype AudioConfig = AudioConfig(backend: int, buffer_ms: int, volume: Double)
  datatype InputConfig = InputConfig(backend: int, deadzone: Double, rumble: bool)
  datatype CpuConfig = CpuConfig(max_guest_threads: int, affinity_mask: int)
  datatype UiConfig = UiConfig(language: string)
  datatype LoaderConfig = LoaderConfig(firmware_modules_dir: string)
  datatype SaveDataCrypto = SaveDataCrypto(enabled: bool, xts_key1: seq<Byte>, xts_key2: seq<Byte>)
  datatype UserProfile = UserProfile(id: nat, name: string, online_id: string)
  datatype UsersConfig = UsersConfig(profiles: seq<UserProfile>, active_user: int)

  datatype Config = Config(logging: LoggingConfig, crash: CrashConfig, hle: HleConfig, graphics: GraphicsConfig,
                           audio: AudioConfig, input: InputConfig, cpu: CpuConfig, ui: UiConfig, loader: LoaderConfig,
                           savedata_crypto: SaveDataCrypto, users: UsersConfig,
                           loaded_from_disk: bool, schema_version: int)

  // ------------------------------------------------------------- the machine

  /** Number spellings and the casts between number types. `deadzone` is the float 0.15f. */
  datatype Machine = Machine(text: NumberText, toInt: Double -> int, toU64: Double -> nat, toU32: Double -> nat,
                             toFloat: Double -> Double, ofU64: nat -> Double, deadzone: Double)

  /** The part of a number in front of its point. */
  function Truncated(x: real): int {
    if x >= 0.0 then x.Floor else -((-x).Floor)
  }

  function OfInt(i: int): Double {
    Finite(i as real)
  }

  /** Casts truncate where the result fits its type; elsewhere they give any value of
      the type. Doubles hold every 32-bit integer and what truncation makes of a double;
      a 64-bit integer keeps its value when a double can hold it. */
  ghost predicate Sound(m: Machine) {
    && Faithful(m.text)
    && (forall d: Double :: INT_MIN <= m.toInt(d) <= INT_MAX)
    && (forall d: Double :: d.IsFinite() && INT_MIN <= Truncated(d.Value()) <= INT_MAX ==>
      m.toInt(d) == Truncated(d.Value()))
    && (forall d: Double :: m.toU32(d) < U32_LIMIT)
    && (forall d: Double :: d.IsFinite() && 0 <= Truncated(d.Value()) < U32_LIMIT ==>
      m.toU32(d) == Truncated(d.Value()))
    && (forall d: Double :: m.toU64(d) < U64_LIMIT)
    && (forall d: Double :: d.IsFinite() && 0 <= Truncated(d.Value()) < U64_LIMIT ==>
      m.toU64(d) == Truncated(d.Value()))
    && (forall i: int :: INT_MIN <= i < U32_LIMIT ==> m.text.isDouble(OfInt(i)))
    && (forall d: Double :: d.IsFinite() && m.text.isDouble(d) ==> m.text.isDouble(OfInt(Truncated(d.Value()))))
    && (forall n: nat :: n < U64_LIMIT ==> m.ofU64(n).IsFinite() && m.text.isDouble(m.ofU64(n)))
    && (forall n: nat :: n < U64_LIMIT && m.text.isDouble(OfInt(n)) ==> m.ofU64(n) == OfInt(n))
    && (forall d: Double :: m.text.isDouble(d) ==> m.text.isDouble(m.toFloat(d)))
    && (forall d: Double :: m.toFloat(m.toFloat(d)) == m.toFloat(d))
    && m.deadzone.IsFinite() && m.text.isDouble(m.deadzone) && m.toFloat(m.deadzone) == m.deadzone
    && m.text.isDouble(Finite(1.0)) && m.toFloat(Finite(1.0)) == Finite(1.0)
  }

  // --------------------------------------------------------------- defaults

  function DefaultGraphics(): GraphicsConfig {
    GraphicsConfig(1280, 720, false, 0, Finite(1.0), true, false, 40, -1, false)
  }

  function DefaultProfile(): UserProfile {
    UserProfile(FIRST_USER_ID, "Player", "Player")
  }

  function ZeroKey(): (key: seq<Byte>)
    ensures |key| == 16
  {
    [0, 0, 0, 0, 0, 0, 0, 0, 0, 0, 0, 0, 0, 0, 0, 0]
  }

  function Defaults(m: Machine): Config {
    Config(LoggingConfig(Info, false, true, 1000, "", false), CrashConfig("pcsx5_crash", true),
           HleConfig(false, true, 256), DefaultGraphics(), AudioConfig(2, 50, Finite(1.0)),
           InputConfig(0, m.deadzone, true), CpuConfig(0, 0), UiConfig("en-US"),
           LoaderConfig(""), SaveDataCrypto(false, ZeroKey(), ZeroKey()), UsersConfig([DefaultProfile()], 0), false, 0)
  }

  // ---------------------------------------------------------- reading fields

  /** Field(obj, key): absent for anything that is not an object. */
  function Field(v: JsonValue, key: string): Option<JsonValue> {
    if v.Object? then Find(v.o, key) else None
  }

  /** A member that is itself an object. */
  function Section(root: JsonValue, name: string): Option<JsonValue> {
    match Field(root, name)
    case Some(Object(o)) => Some(Object(o))
    case _ => None
  }

  function BoolField(v: JsonValue, key: string, fallback: bool): bool {
    match Field(v, key) case Some(Bool(b)) => b case _ => fallback
  }

  function StringField(v: JsonValue, key: string, fallback: string): string {
    match Field(v, key) case Some(String(s)) => s case _ => fallback
  }

  function IntField(m: Machine, v: JsonValue, key: string, fallback: int): int {
    match Field(v, key) case Some(Number(n)) => m.toInt(n) case _ => fallback
  }

  function U64Field(m: Machine, v: JsonValue, key: string, fallback: nat): nat {
    match Field(v, key) case Some(Number(n)) => m.toU64(n) case _ => fallback
  }

  function FloatField(m: Machine, v: JsonValue, key: string, fallback: Double): Double {
    match Field(v, key) case Some(Number(n)) => m.toFloat(n) case _ => fallback
  }

  function ParseLevel(v: JsonValue, fallback: LogLevel): LogLevel {
    if !v.String? then fallback
    else if v.s == "Debug" then Debug
    else if v.s == "Info" then Info
    else if v.s == "Warn" then Warn
    else if v.s == "Error" then Error
    else fallback
  }

  function LevelField(v: JsonValue, key: string, fallback: LogLevel): LogLevel {
    match Field(v, key) case Some(p) => ParseLevel(p, fallback) case None => fallback
  }

  /** Trace and Critical have no name of their own. */
  function LevelName(level: LogLevel): string {
    match level
    case Debug => "Debug"
    case Info => "Info"
    case Warn => "Warn"
    case Error => "Error"
    case _ => "Info"
  }

  function ReadLogging(m: Machine, root: JsonValue, l: LoggingConfig): LoggingConfig {
    match Section(root, "logging")
    case None => l
    case Some(v) =>
      LoggingConfig(LevelField(v, "min_level", l.min_level),
                    BoolField(v, "json_output", l.json_output), BoolField(v, "dedup", l.dedup),
                    U64Field(m, v, "dedup_window_ms", l.dedup_window_ms),
                    StringField(v, "file_path", l.file_path), BoolField(v, "file_append", l.file_append))
  }

  function ReadCrash(root: JsonValue, c: CrashConfig): CrashConfig {
    match Section(root, "crash")
    case None => c
    case Some(v) => CrashConfig(StringField(v, "bundle_dir", c.bundle_dir),
      BoolField(v, "write_minidump", c.write_minidump))
  }

  function ReadHle(m: Machine, root: JsonValue, h: HleConfig): HleConfig {
    match Section(root, "hle")
    case None => h
    case Some(v) =>
      HleConfig(BoolField(v, "strict_imports", h.strict_imports), BoolField(v, "trace_calls", h.trace_calls),
                IntField(m, v, "trace_capacity", h.trace_capacity))
  }

  function ReadGraphics(m: Machine, root: JsonValue, g: GraphicsConfig): GraphicsConfig {
    match Section(root, "graphics")
    case None => g
    case Some(v) =>
      g.(width := IntField(m, v, "width", g.width), height := IntField(m, v, "height", g.height),
         fullscreen := BoolField(v, "fullscreen", g.fullscreen), renderer := IntField(m, v, "renderer", g.renderer),
         resolution_scale := FloatField(m, v, "resolution_scale", g.resolution_scale))
  }

  function ReadAudio(m: Machine, root: JsonValue, a: AudioConfig): AudioConfig {
    match Section(root, "audio")
    case None => a
    case Some(v) =>
      AudioConfig(IntField(m, v, "backend", a.backend), IntField(m, v, "buffer_ms", a.buffer_ms),
        FloatField(m, v, "volume", a.volume))
  }

  function ReadInput(m: Machine, root: JsonValue, i: InputConfig): InputConfig {
    match Section(root, "input")
    case None => i
    case Some(v) =>
      InputConfig(IntField(m, v, "backend", i.backend), FloatField(m, v, "deadzone", i.deadzone),
        BoolField(v, "rumble", i.rumble))
  }

  function ReadCpu(m: Machine, root: JsonValue, c: CpuConfig): CpuConfig {
    match Section(root, "cpu")
    case None => c
    case Some(v) =>
      CpuConfig(IntField(m, v, "max_guest_threads", c.max_guest_threads),
        IntField(m, v, "affinity_mask", c.affinity_mask))
  }

  function ReadUi(root: JsonValue, u: UiConfig): UiConfig {
    match Section(root, "ui")
    case None => u
    case Some(v) => UiConfig(StringField(v, "language", u.language))
  }

  function ReadLoader(root: JsonValue, l: LoaderConfig): LoaderConfig {
    match Section(root, "loader")
    case None => l
    case Some(v) => LoaderConfig(StringField(v, "firmware_modules_dir", l.firmware_modules_dir))
  }

  // ------------------------------------------------------------- the hex keys

  /** The byte two hex digits spell. */
  function HexByte(hi: char, lo: char): Option<Byte> {
    match (HexValue(hi), HexValue(lo))
    case (Some(h), Some(l)) => Some(16 * h + l)
    case _ => None
  }

  /** How many leading bytes of a hex text are well formed. */
  function GoodBytes(hex: string, i: nat): (n: nat)
    requires i <= |hex| / 2
    ensures i <= n <= |hex| / 2
    decreases |hex| / 2 - i
  {
    if i < |hex| / 2 && HexByte(hex[2 * i], hex[2 * i + 1]).Some? then GoodBytes(hex, i + 1) else i
  }

  /** What HexToBytes leaves in the key: the bytes in front of the first bad digit are
      already overwritten when it gives up. */
  function HexToBytes(hex: string, before: seq<Byte>): (r: (bool, seq<Byte>))
    ensures |r.1| == |before|
  {
    if |hex| != 2 * |before| then (false, before)
    else
      var n := GoodBytes(hex, 0);
      (n == |before|, seq(|before|, i requires 0 <= i < |before| => HexOrOld(hex, before, i)))
  }

  function HexOrOld(hex: string, before: seq<Byte>, i: nat): Byte
    requires i < |before| && |hex| == 2 * |before|
  {
    match HexByte(hex[2 * i], hex[2 * i + 1])
    case Some(b) => if i < GoodBytes(hex, 0) then b else before[i]
    case None => before[i]
  }

  function BytesToHex(bytes: seq<Byte>): string {
    if bytes == [] then "" else [HexDigit(bytes[0] / 16), HexDigit(bytes[0] % 16)] + BytesToHex(bytes[1..])
  }

  /** A key field: a string of the right hex digits, or a complaint. */
  function KeyField(v: JsonValue, key: string, before: seq<Byte>): (r: (bool, seq<Byte>))
    ensures |r.1| == |before|
  {
    match Field(v, key)
    case None => (true, before)
    case Some(String(hex)) => HexToBytes(hex, before)
    case Some(_) => (false, before)
  }

  /** Malformed key material never arms the encrypted path. */
  function ReadSaveDataCrypto(root: JsonValue, s: SaveDataCrypto): SaveDataCrypto {
    match Section(root, "savedata_crypto")
    case None => s
    case Some(v) =>
      var (ok1, key1) := KeyField(v, "xts_key1", s.xts_key1);
      var (ok2, key2) := KeyField(v, "xts_key2", s.xts_key2);
      SaveDataCrypto(BoolField(v, "enabled", s.enabled) && ok1 && ok2, key1, key2)
  }

  // ----------------------------------------------------------------- users

  function AtLeastZero(d: Double): bool {
    match d
    case Finite(x) => x >= 0.0
    case NegativeZero => true
    case Infinite(negative) => !negative
    case NotANumber(_) => false
  }

  function IdField(m: Machine, item: JsonValue, fallback: nat): nat {
    match Field(item, "id")
    case Some(Number(n)) => if AtLeastZero(n) then m.toU32(n) else fallback
    case _ => fallback
  }

  function ReadProfile(m: Machine, item: JsonValue): UserProfile {
    var fallback := DefaultProfile();
    UserProfile(IdField(m, item, fallback.id),
                StringField(item, "name", fallback.name), StringField(item, "online_id", fallback.online_id))
  }

  /** The profiles of a list; items that are not objects are passed over. */
  function ReadProfiles(m: Machine, items: seq<JsonValue>): seq<UserProfile> {
    if items == [] then []
    else (if items[0].Object? then [ReadProfile(m, items[0])] else []) + ReadProfiles(m, items[1..])
  }

  /** The active index, brought into the list. */
  function Clamped(profiles: seq<UserProfile>, active: int): int {
    if profiles == [] then -1 else if active < 0 || active >= |profiles| then 0 else active
  }

  function ReadUsers(m: Machine, root: JsonValue, u: UsersConfig): UsersConfig {
    match Section(root, "users")
    case None => u
    case Some(v) =>
      var found := match Field(v, "profiles") case Some(Array(a)) => ReadProfiles(m, a) case _ => [];
      var profiles := if found != [] then found else u.profiles;
      UsersConfig(profiles, Clamped(profiles, IntField(m, v, "active_user", u.active_user)))
  }

  // ------------------------------------------------------------ writing

  /** An object built by assigning its members one after the other. */
  function FromPairs(pairs: seq<(string, JsonValue)>): seq<Member> {
    if pairs == [] then []
    else var last := pairs[|pairs| - 1]; Insert(FromPairs(pairs[..|pairs| - 1]), last.0, last.1)
  }

  function Obj(pairs: seq<(string, JsonValue)>): JsonValue {
    Object(FromPairs(pairs))
  }

  function IntV(i: int): JsonValue {
    Number(OfInt(i))
  }

  function LoggingPairs(m: Machine, l: LoggingConfig): seq<(string, JsonValue)> {
    [("min_level", String(LevelName(l.min_level))), ("json_output", Bool(l.json_output)), ("dedup", Bool(l.dedup)),
     ("dedup_window_ms", Number(m.ofU64(l.dedup_window_ms))), ("file_path", String(l.file_path)),
     ("file_append", Bool(l.file_append))]
  }

  function CrashPairs(c: CrashConfig): seq<(string, JsonValue)> {
    [("bundle_dir", String(c.bundle_dir)), ("write_minidump", Bool(c.write_minidump))]
  }

  function HlePairs(h: HleConfig): seq<(string, JsonValue)> {
    [("strict_imports", Bool(h.strict_imports)), ("trace_calls", Bool(h.trace_calls)),
     ("trace_capacity", IntV(h.trace_capacity))]
  }

  /** Five of the ten graphics fields are kept on disk. */
  function GraphicsPairs(g: GraphicsConfig): seq<(string, JsonValue)> {
    [("width", IntV(g.width)), ("height", IntV(g.height)), ("fullscreen", Bool(g.fullscreen)),
     ("renderer", IntV(g.renderer)),
     ("resolution_scale", Number(g.resolution_scale))]
  }

  function AudioPairs(a: AudioConfig): seq<(string, JsonValue)> {
    [("backend", IntV(a.backend)), ("buffer_ms", IntV(a.buffer_ms)), ("volume", Number(a.volume))]
  }

  function InputPairs(i: InputConfig): seq<(string, JsonValue)> {
    [("backend", IntV(i.backend)), ("deadzone", Number(i.deadzone)), ("rumble", Bool(i.rumble))]
  }

  function CpuPairs(c: CpuConfig): seq<(string, JsonValue)> {
    [("max_guest_threads", IntV(c.max_guest_threads)), ("affinity_mask", IntV(c.affinity_mask))]
  }

  function UiPairs(u: UiConfig): seq<(string, JsonValue)> {
    [("language", String(u.language))]
  }

  function LoaderPairs(l: LoaderConfig): seq<(string, JsonValue)> {
    [("firmware_modules_dir", String(l.firmware_modules_dir))]
  }

  function SaveDataPairs(s: SaveDataCrypto): seq<(string, JsonValue)> {
    [("enabled", Bool(s.enabled)), ("xts_key1", String(BytesToHex(s.xts_key1))),
     ("xts_key2", String(BytesToHex(s.xts_key2)))]
  }

  function ProfilePairs(p: UserProfile): seq<(string, JsonValue)> {
    [("id", IntV(p.id)), ("name", String(p.name)), ("online_id", String(p.online_id))]
  }

  function ProfileList(profiles: seq<UserProfile>): seq<JsonValue> {
    if profiles == [] then [] else [Obj(ProfilePairs(profiles[0]))] + ProfileList(profiles[1..])
  }

  function UsersPairs(u: UsersConfig): seq<(string, JsonValue)> {
    [("profiles", Array(ProfileList(u.profiles))), ("active_user", IntV(u.active_user))]
  }

  function RootPairs(m: Machine, c: Config): seq<(string, JsonValue)> {
    [("schema_version", IntV(CURRENT_SCHEMA_VERSION)), ("logging", Obj(LoggingPairs(m, c.logging))),
     ("crash", Obj(CrashPairs(c.crash))),
     ("hle", Obj(HlePairs(c.hle))), ("graphics", Obj(GraphicsPairs(c.graphics))), ("audio", Obj(AudioPairs(c.audio))),
     ("input", Obj(InputPairs(c.input))), ("cpu", Obj(CpuPairs(c.cpu))), ("ui", Obj(UiPairs(c.ui))),
     ("loader", Obj(LoaderPairs(c.loader))), ("savedata_crypto", Obj(SaveDataPairs(c.savedata_crypto))),
     ("users", Obj(UsersPairs(c.users)))]
  }

  function Root(m: Machine, c: Config): JsonValue {
    Obj(RootPairs(m, c))
  }

  // ------------------------------------------------------- files

  /** std::stoi: optional blanks and sign, at least one digit, the rest ignored. */
  function Stoi(s: string): Option<int> {
    var t := SkipBlanks(s);
    var negative := t != "" && t[0] == '-';
    var digits := if t != "" && (t[0] == '-' || t[0] == '+') then t[1..] else t;
    if digits == "" || !IsDigit(digits[0]) then None
    else
      var value := LeadingNumber(digits, 0);
      var signed := if negative then 0 - value as int else value as int;
      if INT_MIN <= signed <= INT_MAX then Some(signed) else None
  }

  function SkipBlanks(s: string): string {
    if s != "" && (s[0] == ' ' || '\t' <= s[0] <= '\r') then SkipBlanks(s[1..]) else s
  }

  function LeadingNumber(s: string, value: nat): nat {
    if s != "" && IsDigit(s[0]) then LeadingNumber(s[1..], 10 * value + (s[0] as nat - '0' as nat)) else value
  }

  function SchemaVersion(m: Machine, root: JsonValue): int {
    match Field(root, "schema_version")
    case Some(Number(n)) => m.toInt(n)
    case Some(String(s)) => (match Stoi(s) case Some(v) => v case None => CURRENT_SCHEMA_VERSION)
    case _ => CURRENT_SCHEMA_VERSION
  }

  /** Files before version 1 are refused; later ones are taken as the current version. */
  function Migrated(version: int, c: Config): Option<Config> {
    if version == CURRENT_SCHEMA_VERSION then Some(c)
    else if version > CURRENT_SCHEMA_VERSION then Some(c.(schema_version := CURRENT_SCHEMA_VERSION))
    else if version < 1 then None
    else
      var c := if version == 1 then c.(ui := UiConfig("en-US")) else c;
      Some(c.(schema_version := CURRENT_SCHEMA_VERSION))
  }

  /** All sections over the defaults. */
  function ReadAll(m: Machine, root: JsonValue, version: int): Config {
    var d := Defaults(m);
    Config(ReadLogging(m, root, d.logging), ReadCrash(root, d.crash), ReadHle(m, root, d.hle),
           ReadGraphics(m, root, d.graphics),
           ReadAudio(m, root, d.audio), ReadInput(m, root, d.input), ReadCpu(m, root, d.cpu), ReadUi(root, d.ui),
           ReadLoader(root, d.loader), ReadSaveDataCrypto(root, d.savedata_crypto), ReadUsers(m, root, d.users),
           true, version)
  }

  /** LoadFromFile on the text of the file. */
  function Load(m: Machine, text: string): Option<Config> {
    match Parse(m.text, text)
    case None => None
    case Some(root) =>
      if !root.Object? then None
      else var version := SchemaVersion(m, root); Migrated(version, ReadAll(m, root, version))
  }

  /** The text SaveToFile leaves in the file. */
  function Save(m: Machine, c: Config): string {
    Printed(m.text, Root(m, c), true, 0) + "\n"
  }
}
