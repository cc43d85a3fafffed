/** The configuration service: sections read and written field by field, whole files
    loaded and saved. */
module ConfigService {
  import opened Basics
  import opened Json
  import opened JsonLaws
  import opened JsonCode
  import opened Sections = Config
  import opened ConfigLaws
  import opened ConfigCode

  // ------------------------------------------ one field from one member

  /** The member `key` of the section `name`, when there is such a section. */
  function At(root: JsonValue, name: string, key: string): Option<JsonValue> {
    match Section(root, name) case Some(v) => Field(v, key) case None => None
  }

  /** A section that is an object has the members of that object. */
  lemma {:induction false} Written(o: seq<Member>, name: string, members: seq<Member>)
    requires Find(o, name) == Some(Object(members))
    ensures forall key :: At(Object(o), name, key) == Find(members, key)
  {
    hide Find;
  }

  /** A member of the right kind replaces the field; anything else keeps it. */
  predicate TakesBool(member: Option<JsonValue>, before: bool, after: bool) {
    match member case Some(Bool(b)) => after == b case _ => after == before
  }

  predicate TakesString(member: Option<JsonValue>, before: string, after: string) {
    match member case Some(String(s)) => after == s case _ => after == before
  }

  predicate TakesInt(m: Machine, member: Option<JsonValue>, before: int, after: int) {
    match member case Some(Number(n)) => after == m.toInt(n) case _ => after == before
  }

  predicate TakesU64(m: Machine, member: Option<JsonValue>, before: nat, after: nat) {
    match member case Some(Number(n)) => after == m.toU64(n) case _ => after == before
  }

  predicate TakesFloat(m: Machine, member: Option<JsonValue>, before: Double, after: Double) {
    match member case Some(Number(n)) => after == m.toFloat(n) case _ => after == before
  }

  /** Only the four names the writer uses are taken. */
  predicate TakesLevel(member: Option<JsonValue>, before: LogLevel, after: LogLevel) {
    match member
    case Some(String(s)) =>
      if s == "Debug" || s == "Info" || s == "Warn" || s == "Error"
      then LevelName(after) == s && after != Trace && after != Critical
      else after == before
    case _ => after == before
  }

  /** A JSON object under construction; `pairs` is every assignment made to it. */
  class JsonObject {
    var o: seq<Member>
    ghost var pairs: seq<(string, JsonValue)>

    ghost predicate Valid()
      reads this
    {
      o == FromPairs(pairs)
    }

    /** The assignment set that member and no other. */
    static ghost predicate Sets(before: seq<Member>, after: seq<Member>, key: string, value: JsonValue) {
      forall k :: Find(after, k) == if k == key then Some(value) else Find(before, k)
    }

    constructor ()
      ensures Valid() && pairs == []
    {
      o, pairs := [], [];
    }

    /** o[key] = value */
    method Set(key: string, value: JsonValue)
      requires Valid()
      modifies this
      ensures Valid() && pairs == old(pairs) + [(key, value)]
      ensures Sets(old(o), o, key, value)
    {
      FromPairsSorted(pairs);
      forall k ensures Find(Insert(o, key, value), k) == if k == key then Some(value) else Find(o, k) {
        InsertSets(o, key, value, k);
      }
      o := Insert(o, key, value);
      pairs := pairs + [(key, value)];
      assert pairs[..|pairs| - 1] == old(pairs);
    }
  }

  /** What a refused file leaves behind. */
  function AfterRefusal(m: Machine, text: string, before: Sections.Config): Sections.Config {
    match Parse(m.text, text)
    case Some(Object(o)) => ReadAll(m, Object(o), SchemaVersion(m, Object(o)))
    case _ => before
  }

  /** The configuration as the service keeps it, one field a section. */
  class Settings {
    const m: Machine
    var logging: LoggingConfig
    var crash: CrashConfig
    var hle: HleConfig
    var graphics: GraphicsConfig
    var audio: AudioConfig
    var input: InputConfig
    var cpu: CpuConfig
    var ui: UiConfig
    var loader: LoaderConfig
    var savedata_crypto: SaveDataCrypto
    var users: UsersConfig
    var loaded_from_disk: bool
    var schema_version: int

    function Contents(): Sections.Config
      reads this
    {
      Sections.Config.Config(logging, crash, hle, graphics, audio, input, cpu, ui, loader, savedata_crypto, users,
        loaded_from_disk, schema_version)
    }

    constructor (m: Machine, c: Sections.Config)
      ensures this.m == m && Contents() == c
    {
      this.m := m;
      new;
      Assign(c);
    }

    method Assign(c: Sections.Config)
      modifies this
      ensures Contents() == c
    {
      logging, crash, hle, graphics, audio, input := c.logging, c.crash, c.hle, c.graphics, c.audio, c.input;
      cpu, ui, loader, savedata_crypto, users := c.cpu, c.ui, c.loader, c.savedata_crypto, c.users;
      loaded_from_disk, schema_version := c.loaded_from_disk, c.schema_version;
    }

    // ------------------------------------------------------------ reading

    method ReadLogging(root: JsonValue)
      modifies `logging
      ensures TakesLevel(At(root, "logging", "min_level"), old(logging.min_level), logging.min_level)
      ensures TakesBool(At(root, "logging", "json_output"), old(logging.json_output), logging.json_output)
      ensures TakesBool(At(root, "logging", "dedup"), old(logging.dedup), logging.dedup)
      ensures TakesU64(m, At(root, "logging", "dedup_window_ms"), old(logging.dedup_window_ms), logging.dedup_window_ms)
      ensures TakesString(At(root, "logging", "file_path"), old(logging.file_path), logging.file_path)
      ensures TakesBool(At(root, "logging", "file_append"), old(logging.file_append), logging.file_append)
    {
      hide Section, Field;
      match Section(root, "logging") {
        case None =>
        case Some(v) =>
          logging := logging.(min_level := LevelField(v, "min_level", logging.min_level));
          logging := logging.(json_output := BoolField(v, "json_output", logging.json_output));
          logging := logging.(dedup := BoolField(v, "dedup", logging.dedup));
          logging := logging.(dedup_window_ms := U64Field(m, v, "dedup_window_ms", logging.dedup_window_ms));
          logging := logging.(file_path := StringField(v, "file_path", logging.file_path));
          logging := logging.(file_append := BoolField(v, "file_append", logging.file_append));
      }
    }

    method ReadCrash(root: JsonValue)
      modifies `crash
      ensures TakesString(At(root, "crash", "bundle_dir"), old(crash.bundle_dir), crash.bundle_dir)
      ensures TakesBool(At(root, "crash", "write_minidump"), old(crash.write_minidump), crash.write_minidump)
    {
      hide Section, Field;
      match Section(root, "crash") {
        case None =>
        case Some(v) =>
          crash := crash.(bundle_dir := StringField(v, "bundle_dir", crash.bundle_dir));
          crash := crash.(write_minidump := BoolField(v, "write_minidump", crash.write_minidump));
      }
    }

    method ReadHle(root: JsonValue)
      modifies `hle
      ensures TakesBool(At(root, "hle", "strict_imports"), old(hle.strict_imports), hle.strict_imports)
      ensures TakesBool(At(root, "hle", "trace_calls"), old(hle.trace_calls), hle.trace_calls)
      ensures TakesInt(m, At(root, "hle", "trace_capacity"), old(hle.trace_capacity), hle.trace_capacity)
    {
      hide Section, Field;
      match Section(root, "hle") {
        case None =>
        case Some(v) =>
          hle := hle.(strict_imports := BoolField(v, "strict_imports", hle.strict_imports));
          hle := hle.(trace_calls := BoolField(v, "trace_calls", hle.trace_calls));
          hle := hle.(trace_capacity := IntField(m, v, "trace_capacity", hle.trace_capacity));
      }
    }

    method ReadGraphics(root: JsonValue)
      modifies `graphics
      ensures TakesInt(m, At(root, "graphics", "width"), old(graphics.width), graphics.width)
      ensures TakesInt(m, At(root, "graphics", "height"), old(graphics.height), graphics.height)
      ensures TakesBool(At(root, "graphics", "fullscreen"), old(graphics.fullscreen), graphics.fullscreen)
      ensures TakesInt(m, At(root, "graphics", "renderer"), old(graphics.renderer), graphics.renderer)
      ensures TakesFloat(m, At(root, "graphics", "resolution_scale"), old(graphics.resolution_scale),
        graphics.resolution_scale)
      ensures graphics == old(graphics).(width := graphics.width, height := graphics.height,
        fullscreen := graphics.fullscreen,
        renderer := graphics.renderer, resolution_scale := graphics.resolution_scale)
    {
      hide Section, Field;
      match Section(root, "graphics") {
        case None =>
        case Some(v) =>
          graphics := graphics.(width := IntField(m, v, "width", graphics.width));
          graphics := graphics.(height := IntField(m, v, "height", graphics.height));
          graphics := graphics.(fullscreen := BoolField(v, "fullscreen", graphics.fullscreen));
          graphics := graphics.(renderer := IntField(m, v, "renderer", graphics.renderer));
          graphics := graphics.(resolution_scale := FloatField(m, v, "resolution_scale", graphics.resolution_scale));
      }
    }

    method ReadAudio(root: JsonValue)
      modifies `audio
      ensures TakesInt(m, At(root, "audio", "backend"), old(audio.backend), audio.backend)
      ensures TakesInt(m, At(root, "audio", "buffer_ms"), old(audio.buffer_ms), audio.buffer_ms)
      ensures TakesFloat(m, At(root, "audio", "volume"), old(audio.volume), audio.volume)
    {
      hide Section, Field;
      match Section(root, "audio") {
        case None =>
        case Some(v) =>
          audio := audio.(backend := IntField(m, v, "backend", audio.backend));
          audio := audio.(buffer_ms := IntField(m, v, "buffer_ms", audio.buffer_ms));
          audio := audio.(volume := FloatField(m, v, "volume", audio.volume));
      }
    }

    method ReadInput(root: JsonValue)
      modifies `input
      ensures TakesInt(m, At(root, "input", "backend"), old(input.backend), input.backend)
      ensures TakesFloat(m, At(root, "input", "deadzone"), old(input.deadzone), input.deadzone)
      ensures TakesBool(At(root, "input", "rumble"), old(input.rumble), input.rumble)
    {
      hide Section, Field;
      match Section(root, "input") {
        case None =>
        case Some(v) =>
          input := input.(backend := IntField(m, v, "backend", input.backend));
          input := input.(deadzone := FloatField(m, v, "deadzone", input.deadzone));
          input := input.(rumble := BoolField(v, "rumble", input.rumble));
      }
    }

    method ReadCpu(root: JsonValue)
      modifies `cpu
      ensures TakesInt(m, At(root, "cpu", "max_guest_threads"), old(cpu.max_guest_threads), cpu.max_guest_threads)
      ensures TakesInt(m, At(root, "cpu", "affinity_mask"), old(cpu.affinity_mask), cpu.affinity_mask)
    {
      hide Section, Field;
      match Section(root, "cpu") {
        case None =>
        case Some(v) =>
          cpu := cpu.(max_guest_threads := IntField(m, v, "max_guest_threads", cpu.max_guest_threads));
          cpu := cpu.(affinity_mask := IntField(m, v, "affinity_mask", cpu.affinity_mask));
      }
    }

    method ReadUi(root: JsonValue)
      modifies `ui
      ensures TakesString(At(root, "ui", "language"), old(ui.language), ui.language)
    {
      hide Section, Field;
      match Section(root, "ui") {
        case None =>
        case Some(v) => ui := ui.(language := StringField(v, "language", ui.language));
      }
    }

    method ReadLoader(root: JsonValue)
      modifies `loader
      ensures TakesString(At(root, "loader", "firmware_modules_dir"), old(loader.firmware_modules_dir),
        loader.firmware_modules_dir)
    {
      hide Section, Field;
      match Section(root, "loader") {
        case None =>
        case Some(v) =>
          var dir := StringField(v, "firmware_modules_dir", loader.firmware_modules_dir);
          loader := loader.(firmware_modules_dir := dir);
      }
    }

    /** Keys are decoded into copies; bad ones disarm the section. */
    method ReadSaveDataCrypto(root: JsonValue)
      modifies `savedata_crypto
      ensures savedata_crypto == Sections.ReadSaveDataCrypto(root, old(savedata_crypto))
    {
      hide Section, BoolField, KeyField;
      match Section(root, "savedata_crypto") {
        case None =>
        case Some(v) =>
          var enabled := BoolField(v, "enabled", savedata_crypto.enabled);
          var ok1, key1 := ReadKey(v, "xts_key1", savedata_crypto.xts_key1);
          var ok2, key2 := ReadKey(v, "xts_key2", savedata_crypto.xts_key2);
          if enabled && !(ok1 && ok2) {
            enabled := false;
          }
          savedata_crypto := SaveDataCrypto(enabled, key1, key2);
      }
    }

    /** Overwrites what the file gives and clamps the index. */
    method ReadUsers(root: JsonValue)
      modifies `users
      ensures users == Sections.ReadUsers(m, root, old(users))
    {
      hide ReadProfiles, Field;
      match Section(root, "users") {
        case None =>
        case Some(v) =>
          match Field(v, "profiles") {
            case Some(Array(a)) =>
              var found := LoadProfiles(m, a);
              if found != [] {
                users := users.(profiles := found);
              }
            case _ =>
          }
          match Field(v, "active_user") {
            case Some(Number(n)) => users := users.(active_user := m.toInt(n));
            case _ =>
          }
          if users.profiles == [] {
            users := users.(active_user := -1);
          } else if users.active_user < 0 || users.active_user >= |users.profiles| {
            users := users.(active_user := 0);
          }
      }
    }

    /** The active profile, or nothing when the index is outside the list. */
    method ActiveUserProfile() returns (profile: Option<UserProfile>)
      ensures profile == if 0 <= users.active_user < |users.profiles| then Some(users.profiles[users.active_user])
        else None
    {
      if users.active_user < 0 || users.active_user >= |users.profiles| {
        return None;
      }
      return Some(users.profiles[users.active_user]);
    }

    method MigrateToCurrent(from_version: int) returns (ok: bool)
      requires schema_version == from_version
      modifies this
      ensures ok <==> from_version >= 1
      ensures schema_version == if ok then CURRENT_SCHEMA_VERSION else old(schema_version)
      ensures ui.language == if from_version == 1 then "en-US" else old(ui.language)
      ensures Contents() == old(Contents()).(schema_version := schema_version, ui := ui)
    {
      if from_version == CURRENT_SCHEMA_VERSION {
        return true;
      }
      if from_version > CURRENT_SCHEMA_VERSION {
        schema_version := CURRENT_SCHEMA_VERSION;
        return true;
      }
      if from_version < 1 {
        return false;
      }
      if from_version == 1 {
        ui := ui.(language := "en-US");
      }
      schema_version := CURRENT_SCHEMA_VERSION;
      return true;
    }

    /** Loads the text of a file. A text that is no object leaves the settings alone; one
        of an unknown version is refused after its sections were read. */
    method LoadFromFile(text: string) returns (ok: bool)
      modifies this
      ensures ok <==> Load(m, text).Some?
      ensures ok ==> Load(m, text) == Some(Contents())
      ensures !ok ==> Contents() == AfterRefusal(m, text, old(Contents()))
      ensures ok && Sound(m) ==> 0 <= users.active_user < |users.profiles|
    {
      hide Json.Parse, Json.ParseValue, ReadAll, Defaults, SchemaVersion;
      var p := new JsonParser(text, m.text);
      var parsed, root := p.Parse();
      if !parsed || !root.Object? {
        return false;
      }
      var version := SchemaVersion(m, root);
      ReadSections(root, version);
      if Sound(m) {
        ActiveAfterRead(m, root, version);
      }
      ok := MigrateToCurrent(version);
    }

    /** All sections over the defaults. */
    method ReadSections(root: JsonValue, version: int)
      modifies this
      ensures Contents() == ReadAll(m, root, version) && schema_version == version
    {
      hide Sections.ReadLogging, Sections.ReadCrash, Sections.ReadHle, Sections.ReadGraphics, Sections.ReadAudio,
        Sections.ReadInput, Sections.ReadCpu, Sections.ReadUi, Sections.ReadLoader, Sections.ReadSaveDataCrypto,
        Sections.ReadUsers, Defaults, At;
      Assign(Defaults(m));
      ReadFirst(root);
      ReadRest(root);
      ReadSaveDataCrypto(root);
      ReadUsers(root);
      schema_version := version;
      loaded_from_disk := true;
    }

    method ReadFirst(root: JsonValue)
      modifies `logging, `crash, `hle, `graphics, `audio
      ensures logging == Sections.ReadLogging(m, root, old(logging)) && crash == Sections.ReadCrash(root, old(crash))
      ensures hle == Sections.ReadHle(m, root, old(hle)) && graphics == Sections.ReadGraphics(m, root, old(graphics))
      ensures audio == Sections.ReadAudio(m, root, old(audio))
    {
      hide Sections.ReadLogging, Sections.ReadCrash, Sections.ReadHle, Sections.ReadGraphics, Sections.ReadAudio, At;
      hide TakesBool, TakesString, TakesInt, TakesU64, TakesFloat, TakesLevel;
      ReadLogging(root);
      LoggingIsRead(m, root, old(logging), logging);
      ReadCrash(root);
      CrashIsRead(root, old(crash), crash);
      ReadHle(root);
      HleIsRead(m, root, old(hle), hle);
      ReadGraphics(root);
      GraphicsIsRead(m, root, old(graphics), graphics);
      ReadAudio(root);
      AudioIsRead(m, root, old(audio), audio);
    }

    method ReadRest(root: JsonValue)
      modifies `input, `cpu, `ui, `loader
      ensures input == Sections.ReadInput(m, root, old(input)) && cpu == Sections.ReadCpu(m, root, old(cpu))
      ensures ui == Sections.ReadUi(root, old(ui)) && loader == Sections.ReadLoader(root, old(loader))
    {
      hide Sections.ReadInput, Sections.ReadCpu, Sections.ReadUi, Sections.ReadLoader, At;
      hide TakesBool, TakesString, TakesInt, TakesFloat;
      ReadInput(root);
      InputIsRead(m, root, old(input), input);
      ReadCpu(root);
      CpuIsRead(m, root, old(cpu), cpu);
      ReadUi(root);
      UiIsRead(root, old(ui), ui);
      ReadLoader(root);
      LoaderIsRead(root, old(loader), loader);
    }

    // ------------------------------------------------------------ writing

    method WriteLogging(root: JsonObject)
      requires root.Valid()
      modifies root
      ensures root.Valid() && root.pairs == old(root.pairs) + [("logging", Obj(LoggingPairs(m, logging)))]
      ensures At(Object(root.o), "logging", "min_level") == Some(String(LevelName(logging.min_level)))
      ensures At(Object(root.o), "logging", "json_output") == Some(Bool(logging.json_output))
      ensures At(Object(root.o), "logging", "dedup") == Some(Bool(logging.dedup))
      ensures At(Object(root.o), "logging", "dedup_window_ms") == Some(Number(m.ofU64(logging.dedup_window_ms)))
      ensures At(Object(root.o), "logging", "file_path") == Some(String(logging.file_path))
      ensures At(Object(root.o), "logging", "file_append") == Some(Bool(logging.file_append))
      ensures forall k :: k != "logging" ==> Find(root.o, k) == old(Find(root.o, k))
    {
      hide FromPairs, Find, At, JsonObject.Sets, LevelName;
      var v := new JsonObject();
      v.Set("min_level", String(LevelName(logging.min_level)));
      v.Set("json_output", Bool(logging.json_output));
      v.Set("dedup", Bool(logging.dedup));
      v.Set("dedup_window_ms", Number(m.ofU64(logging.dedup_window_ms)));
      v.Set("file_path", String(logging.file_path));
      v.Set("file_append", Bool(logging.file_append));
      assert v.pairs == LoggingPairs(m, logging);
      LoggingKeys(m, logging);
      FindEach(LoggingPairs(m, logging));
      root.Set("logging", Object(v.o));
      Written(root.o, "logging", v.o);
    }

    method WriteCrash(root: JsonObject)
      requires root.Valid()
      modifies root
      ensures root.Valid() && root.pairs == old(root.pairs) + [("crash", Obj(CrashPairs(crash)))]
      ensures At(Object(root.o), "crash", "bundle_dir") == Some(String(crash.bundle_dir))
      ensures At(Object(root.o), "crash", "write_minidump") == Some(Bool(crash.write_minidump))
      ensures forall k :: k != "crash" ==> Find(root.o, k) == old(Find(root.o, k))
    {
      hide FromPairs, Find, At;
      var v := new JsonObject();
      v.Set("bundle_dir", String(crash.bundle_dir));
      v.Set("write_minidump", Bool(crash.write_minidump));
      assert v.pairs == CrashPairs(crash);
      root.Set("crash", Object(v.o));
      Written(root.o, "crash", v.o);
    }

    method WriteHle(root: JsonObject)
      requires root.Valid()
      modifies root
      ensures root.Valid() && root.pairs == old(root.pairs) + [("hle", Obj(HlePairs(hle)))]
      ensures At(Object(root.o), "hle", "strict_imports") == Some(Bool(hle.strict_imports))
      ensures At(Object(root.o), "hle", "trace_calls") == Some(Bool(hle.trace_calls))
      ensures At(Object(root.o), "hle", "trace_capacity") == Some(IntV(hle.trace_capacity))
      ensures forall k :: k != "hle" ==> Find(root.o, k) == old(Find(root.o, k))
    {
      hide FromPairs, Find, At;
      var v := new JsonObject();
      v.Set("strict_imports", Bool(hle.strict_imports));
      v.Set("trace_calls", Bool(hle.trace_calls));
      v.Set("trace_capacity", IntV(hle.trace_capacity));
      assert v.pairs == HlePairs(hle);
      root.Set("hle", Object(v.o));
      Written(root.o, "hle", v.o);
    }

    method WriteGraphics(root: JsonObject)
      requires root.Valid()
      modifies root
      ensures root.Valid() && root.pairs == old(root.pairs) + [("graphics", Obj(GraphicsPairs(graphics)))]
      ensures At(Object(root.o), "graphics", "width") == Some(IntV(graphics.width))
      ensures At(Object(root.o), "graphics", "height") == Some(IntV(graphics.height))
      ensures At(Object(root.o), "graphics", "fullscreen") == Some(Bool(graphics.fullscreen))
      ensures At(Object(root.o), "graphics", "renderer") == Some(IntV(graphics.renderer))
      ensures At(Object(root.o), "graphics", "resolution_scale") == Some(Number(graphics.resolution_scale))
      ensures forall k :: k != "graphics" ==> Find(root.o, k) == old(Find(root.o, k))
    {
      hide FromPairs, Find, At, JsonObject.Sets;
      var v := new JsonObject();
      v.Set("width", IntV(graphics.width));
      v.Set("height", IntV(graphics.height));
      v.Set("fullscreen", Bool(graphics.fullscreen));
      v.Set("renderer", IntV(graphics.renderer));
      v.Set("resolution_scale", Number(graphics.resolution_scale));
      assert v.pairs == GraphicsPairs(graphics);
      FindEach(GraphicsPairs(graphics));
      root.Set("graphics", Object(v.o));
      Written(root.o, "graphics", v.o);
    }

    method WriteAudio(root: JsonObject)
      requires root.Valid()
      modifies root
      ensures root.Valid() && root.pairs == old(root.pairs) + [("audio", Obj(AudioPairs(audio)))]
      ensures At(Object(root.o), "audio", "backend") == Some(IntV(audio.backend))
      ensures At(Object(root.o), "audio", "buffer_ms") == Some(IntV(audio.buffer_ms))
      ensures At(Object(root.o), "audio", "volume") == Some(Number(audio.volume))
      ensures forall k :: k != "audio" ==> Find(root.o, k) == old(Find(root.o, k))
    {
      hide FromPairs, Find, At;
      var v := new JsonObject();
      v.Set("backend", IntV(audio.backend));
      v.Set("buffer_ms", IntV(audio.buffer_ms));
      v.Set("volume", Number(audio.volume));
      assert v.pairs == AudioPairs(audio);
      root.Set("audio", Object(v.o));
      Written(root.o, "audio", v.o);
    }

    method WriteInput(root: JsonObject)
      requires root.Valid()
      modifies root
      ensures root.Valid() && root.pairs == old(root.pairs) + [("input", Obj(InputPairs(input)))]
      ensures At(Object(root.o), "input", "backend") == Some(IntV(input.backend))
      ensures At(Object(root.o), "input", "deadzone") == Some(Number(input.deadzone))
      ensures At(Object(root.o), "input", "rumble") == Some(Bool(input.rumble))
      ensures forall k :: k != "input" ==> Find(root.o, k) == old(Find(root.o, k))
    {
      hide FromPairs, Find, At;
      var v := new JsonObject();
      v.Set("backend", IntV(input.backend));
      v.Set("deadzone", Number(input.deadzone));
      v.Set("rumble", Bool(input.rumble));
      assert v.pairs == InputPairs(input);
      root.Set("input", Object(v.o));
      Written(root.o, "input", v.o);
    }

    method WriteCpu(root: JsonObject)
      requires root.Valid()
      modifies root
      ensures root.Valid() && root.pairs == old(root.pairs) + [("cpu", Obj(CpuPairs(cpu)))]
      ensures At(Object(root.o), "cpu", "max_guest_threads") == Some(IntV(cpu.max_guest_threads))
      ensures At(Object(root.o), "cpu", "affinity_mask") == Some(IntV(cpu.affinity_mask))
      ensures forall k :: k != "cpu" ==> Find(root.o, k) == old(Find(root.o, k))
    {
      hide FromPairs, Find, At;
      var v := new JsonObject();
      v.Set("max_guest_threads", IntV(cpu.max_guest_threads));
      v.Set("affinity_mask", IntV(cpu.affinity_mask));
      assert v.pairs == CpuPairs(cpu);
      root.Set("cpu", Object(v.o));
      Written(root.o, "cpu", v.o);
    }

    method WriteUi(root: JsonObject)
      requires root.Valid()
      modifies root
      ensures root.Valid() && root.pairs == old(root.pairs) + [("ui", Obj(UiPairs(ui)))]
      ensures At(Object(root.o), "ui", "language") == Some(String(ui.language))
      ensures forall k :: k != "ui" ==> Find(root.o, k) == old(Find(root.o, k))
    {
      hide FromPairs, Find, At;
      var v := new JsonObject();
      v.Set("language", String(ui.language));
      assert v.pairs == UiPairs(ui);
      root.Set("ui", Object(v.o));
      Written(root.o, "ui", v.o);
    }

    method WriteLoader(root: JsonObject)
      requires root.Valid()
      modifies root
      ensures root.Valid() && root.pairs == old(root.pairs) + [("loader", Obj(LoaderPairs(loader)))]
      ensures At(Object(root.o), "loader", "firmware_modules_dir") == Some(String(loader.firmware_modules_dir))
      ensures forall k :: k != "loader" ==> Find(root.o, k) == old(Find(root.o, k))
    {
      hide FromPairs, Find, At;
      var v := new JsonObject();
      v.Set("firmware_modules_dir", String(loader.firmware_modules_dir));
      assert v.pairs == LoaderPairs(loader);
      root.Set("loader", Object(v.o));
      Written(root.o, "loader", v.o);
    }

    method WriteSaveDataCrypto(root: JsonObject)
      requires root.Valid()
      modifies root
      ensures root.Valid() && root.pairs == old(root.pairs) + [("savedata_crypto", Obj(SaveDataPairs(savedata_crypto)))]
      ensures At(Object(root.o), "savedata_crypto", "enabled") == Some(Bool(savedata_crypto.enabled))
      ensures At(Object(root.o), "savedata_crypto", "xts_key1") == Some(String(BytesToHex(savedata_crypto.xts_key1)))
      ensures At(Object(root.o), "savedata_crypto", "xts_key2") == Some(String(BytesToHex(savedata_crypto.xts_key2)))
      ensures forall k :: k != "savedata_crypto" ==> Find(root.o, k) == old(Find(root.o, k))
    {
      hide FromPairs, Find, At, BytesToHex;
      var v := new JsonObject();
      v.Set("enabled", Bool(savedata_crypto.enabled));
      var key1 := EncodeHex(savedata_crypto.xts_key1);
      v.Set("xts_key1", String(key1));
      var key2 := EncodeHex(savedata_crypto.xts_key2);
      v.Set("xts_key2", String(key2));
      assert v.pairs == SaveDataPairs(savedata_crypto);
      root.Set("savedata_crypto", Object(v.o));
      Written(root.o, "savedata_crypto", v.o);
    }

    method WriteUsers(root: JsonObject)
      requires root.Valid()
      modifies root
      ensures root.Valid() && root.pairs == old(root.pairs) + [("users", Obj(UsersPairs(users)))]
      ensures At(Object(root.o), "users", "profiles") == Some(Array(ProfileList(users.profiles)))
      ensures At(Object(root.o), "users", "active_user") == Some(IntV(users.active_user))
      ensures forall k :: k != "users" ==> Find(root.o, k) == old(Find(root.o, k))
    {
      hide FromPairs, Find, At, ProfileList;
      var v := new JsonObject();
      var arr := WriteProfiles(users.profiles);
      v.Set("profiles", Array(arr));
      v.Set("active_user", IntV(users.active_user));
      assert v.pairs == UsersPairs(users);
      root.Set("users", Object(v.o));
      Written(root.o, "users", v.o);
    }

    /** All sections into a new root object. */
    method WriteSections() returns (root: JsonObject)
      ensures fresh(root) && root.Valid() && root.pairs == RootPairs(m, Contents())
    {
      hide FromPairs, LoggingPairs, CrashPairs, HlePairs, GraphicsPairs, AudioPairs, InputPairs, CpuPairs, UiPairs,
        LoaderPairs, SaveDataPairs, UsersPairs, Obj, IntV, JsonObject.Valid, JsonObject.Sets, At, Find;
      root := new JsonObject();
      root.Set("schema_version", IntV(CURRENT_SCHEMA_VERSION));
      WriteFirst(root);
      WriteRest(root);
      assert root.pairs == RootPairs(m, Contents());
    }

    method WriteFirst(root: JsonObject)
      requires root.Valid()
      modifies root
      ensures root.Valid() && root.pairs == old(root.pairs) + RootPairs(m, Contents())[1..6]
    {
      hide FromPairs, LoggingPairs, CrashPairs, HlePairs, GraphicsPairs, AudioPairs, Obj, IntV, JsonObject.Valid, At,
        Find;
      WriteLogging(root);
      WriteCrash(root);
      WriteHle(root);
      WriteGraphics(root);
      WriteAudio(root);
    }

    method WriteRest(root: JsonObject)
      requires root.Valid()
      modifies root
      ensures root.Valid() && root.pairs == old(root.pairs) + RootPairs(m, Contents())[6..]
    {
      hide FromPairs, InputPairs, CpuPairs, UiPairs, LoaderPairs, SaveDataPairs, UsersPairs, Obj, IntV,
        JsonObject.Valid, At, Find;
      WriteInput(root);
      WriteCpu(root);
      WriteUi(root);
      WriteLoader(root);
      WriteSaveDataCrypto(root);
      WriteUsers(root);
    }

    /** The text of the file the settings are saved into. */
    method SaveToFile() returns (text: string)
      ensures text == Save(m, Contents())
    {
      hide FromPairs, RootPairs, Printed;
      var root := WriteSections();
      var out := new Stream();
      WriteJson(out, m.text, Object(root.o), true, 0);
      out.Put("\n");
      text := out.written;
      assert "" + Printed(m.text, Object(root.o), true, 0) == Printed(m.text, Object(root.o), true, 0);
    }

    /** Saving and loading into other settings carries the normal form over, exactly when
        the three floats are finite; otherwise the load fails. */
    method Carry(other: Settings) returns (ok: bool)
      requires other != this && other.m == m && Sound(m) && TypeValid(m, Contents())
      modifies other
      ensures ok <==> FloatsFinite(Contents())
      ensures ok ==> other.Contents() == Normal(m, Contents())
    {
      hide Save, Load, Sound, TypeValid, FloatsFinite, Normal, Parse, ReadAll, SchemaVersion;
      var text := SaveToFile();
      SaveThenLoad(m, Contents());
      ok := other.LoadFromFile(text);
    }
  }

  /** One key field, decoded over a copy of the old key. */
  method ReadKey(v: JsonValue, key: string, before: seq<Byte>) returns (ok: bool, bytes: seq<Byte>)
    ensures (ok, bytes) == KeyField(v, key, before)
  {
    hide HexToBytes;
    match Field(v, key) {
      case None => return true, before;
      case Some(String(hex)) =>
        var copy := new Byte[|before|](i requires 0 <= i < |before| => before[i]);
        assert copy[..] == before;
        ok := DecodeHex(hex, copy);
        bytes := copy[..];
      case Some(_) => return false, before;
    }
  }

  method WriteProfiles(profiles: seq<UserProfile>) returns (arr: seq<JsonValue>)
    ensures arr == ProfileList(profiles)
  {
    hide FromPairs;
    arr := [];
    for i := 0 to |profiles|
      invariant arr + ProfileList(profiles[i..]) == ProfileList(profiles)
    {
      var prof := profiles[i];
      var p := new JsonObject();
      p.Set("id", IntV(prof.id));
      p.Set("name", String(prof.name));
      p.Set("online_id", String(prof.online_id));
      assert profiles[i..][1..] == profiles[i + 1..];
      assert p.pairs == ProfilePairs(prof);
      arr := arr + [Object(p.o)];
    }
    assert profiles[|profiles|..] == [];
  }

  // ------------------------------------- the sections as functions of the file

  lemma {:induction false} ActiveAfterRead(m: Machine, root: JsonValue, version: int)
    requires Sound(m)
    ensures var u := ReadAll(m, root, version).users; 0 <= u.active_user < |u.profiles|
  {
    hide Sound, Sections.ReadUsers;
    UsersAreNormal(m, root);
  }

  lemma {:induction false} LoggingIsRead(m: Machine, root: JsonValue, before: LoggingConfig, after: LoggingConfig)
    requires TakesLevel(At(root, "logging", "min_level"), before.min_level, after.min_level)
    requires TakesBool(At(root, "logging", "json_output"), before.json_output, after.json_output)
    requires TakesBool(At(root, "logging", "dedup"), before.dedup, after.dedup)
    requires TakesU64(m, At(root, "logging", "dedup_window_ms"), before.dedup_window_ms, after.dedup_window_ms)
    requires TakesString(At(root, "logging", "file_path"), before.file_path, after.file_path)
    requires TakesBool(At(root, "logging", "file_append"), before.file_append, after.file_append)
    ensures after == Sections.ReadLogging(m, root, before)
  {
    hide Section, Field;
  }

  lemma {:induction false} CrashIsRead(root: JsonValue, before: CrashConfig, after: CrashConfig)
    requires TakesString(At(root, "crash", "bundle_dir"), before.bundle_dir, after.bundle_dir)
    requires TakesBool(At(root, "crash", "write_minidump"), before.write_minidump, after.write_minidump)
    ensures after == Sections.ReadCrash(root, before)
  {
    hide Section, Field;
  }

  lemma {:induction false} HleIsRead(m: Machine, root: JsonValue, before: HleConfig, after: HleConfig)
    requires TakesBool(At(root, "hle", "strict_imports"), before.strict_imports, after.strict_imports)
    requires TakesBool(At(root, "hle", "trace_calls"), before.trace_calls, after.trace_calls)
    requires TakesInt(m, At(root, "hle", "trace_capacity"), before.trace_capacity, after.trace_capacity)
    ensures after == Sections.ReadHle(m, root, before)
  {
    hide Section, Field;
  }

  lemma {:induction false} GraphicsIsRead(m: Machine, root: JsonValue, before: GraphicsConfig, after: GraphicsConfig)
    requires TakesInt(m, At(root, "graphics", "width"), before.width, after.width)
    requires TakesInt(m, At(root, "graphics", "height"), before.height, after.height)
    requires TakesBool(At(root, "graphics", "fullscreen"), before.fullscreen, after.fullscreen)
    requires TakesInt(m, At(root, "graphics", "renderer"), before.renderer, after.renderer)
    requires TakesFloat(m, At(root, "graphics", "resolution_scale"), before.resolution_scale, after.resolution_scale)
    requires after == before.(width := after.width, height := after.height, fullscreen := after.fullscreen,
      renderer := after.renderer,
      resolution_scale := after.resolution_scale)
    ensures after == Sections.ReadGraphics(m, root, before)
  {
    hide Section, Field;
  }

  lemma {:induction false} AudioIsRead(m: Machine, root: JsonValue, before: AudioConfig, after: AudioConfig)
    requires TakesInt(m, At(root, "audio", "backend"), before.backend, after.backend)
    requires TakesInt(m, At(root, "audio", "buffer_ms"), before.buffer_ms, after.buffer_ms)
    requires TakesFloat(m, At(root, "audio", "volume"), before.volume, after.volume)
    ensures after == Sections.ReadAudio(m, root, before)
  {
    hide Section, Field;
  }

  lemma {:induction false} InputIsRead(m: Machine, root: JsonValue, before: InputConfig, after: InputConfig)
    requires TakesInt(m, At(root, "input", "backend"), before.backend, after.backend)
    requires TakesFloat(m, At(root, "input", "deadzone"), before.deadzone, after.deadzone)
    requires TakesBool(At(root, "input", "rumble"), before.rumble, after.rumble)
    ensures after == Sections.ReadInput(m, root, before)
  {
    hide Section, Field;
  }

  lemma {:induction false} CpuIsRead(m: Machine, root: JsonValue, before: CpuConfig, after: CpuConfig)
    requires TakesInt(m, At(root, "cpu", "max_guest_threads"), before.max_guest_threads, after.max_guest_threads)
    requires TakesInt(m, At(root, "cpu", "affinity_mask"), before.affinity_mask, after.affinity_mask)
    ensures after == Sections.ReadCpu(m, root, before)
  {
    hide Section, Field;
  }

  lemma {:induction false} UiIsRead(root: JsonValue, before: UiConfig, after: UiConfig)
    requires TakesString(At(root, "ui", "language"), before.language, after.language)
    ensures after == Sections.ReadUi(root, before)
  {
    hide Section, Field;
  }

  lemma {:induction false} LoaderIsRead(root: JsonValue, before: LoaderConfig, after: LoaderConfig)
    requires TakesString(At(root, "loader", "firmware_modules_dir"), before.firmware_modules_dir,
      after.firmware_modules_dir)
    ensures after == Sections.ReadLoader(root, before)
  {
    hide Section, Field;
  }
}
