/**
 * calgo's configuration: five settings, each taken from the first layer that has it: command-line
 * flags, then environment variables, then the configuration file, then the built-in defaults.
 * The file system, the environment and the home directory are parameters.
 */
module Config {
  import opened Wrappers
  import opened Text

  /** The settings calgo runs with; the default duration is in minutes. */
  datatype Config = Config(
    credentialsPath: string, tokenPath: string, calendarId: string, defaultDuration: int, timezone: string)

  /** DefaultConfig: the primary calendar, half-hour events, no paths, no zone. */
  function DefaultConfig(): (c: Config)
    ensures c.calendarId == "primary" && c.defaultDuration == 30
    ensures c.credentialsPath == [] && c.tokenPath == [] && c.timezone == []
  {
    Config("", "", "primary", 30, "")
  }

  /** A setting's value as a layer holds it: text, a number, or nil. */
  datatype Value = Text(s: string) | Number(n: int) | NilValue

  datatype ConfigError =
    | ConfigUnparsable(cause: string)      // "failed to parse config file: ..."
    | UnmarshalFailed(key: string)         // "failed to unmarshal config: ..."
    | MissingCredentialsPath
    | MissingTokenPath
    | CredentialsNotFound(path: string)    // "credentials file not found: <path>"
    | HomeUnknown(cause: string)           // "failed to get home directory: ..."

  /** The sentinel errors callers test for with errors.Is. */
  datatype ConfigSentinel = NoCredentialsPath | NoTokenPath | NoCredentialsFile

  function Wrapped(e: ConfigError): Option<ConfigSentinel>
  {
    match e
    case MissingCredentialsPath => Some(NoCredentialsPath)
    case MissingTokenPath => Some(NoTokenPath)
    case CredentialsNotFound(_) => Some(NoCredentialsFile)
    case _ => None
  }

  function SentinelText(k: ConfigSentinel): string
  {
    match k
    case NoCredentialsPath =>
      "missing required configuration: credentials path (set GOOGLE_CALENDAR_CREDENTIALS or credentials_path in config)"
    case NoTokenPath =>
      "missing required configuration: token path (set GOOGLE_CALENDAR_TOKEN or token_path in config)"
    case NoCredentialsFile => "credentials file not found"
  }

  /**
   * Error(): a sentinel's text comes first; a missing credentials file is named after it, as
   * "%w: %s" writes it. An unmarshal failure names the key where the decoder's own text would be.
   */
  function Message(e: ConfigError): (m: string)
    ensures Wrapped(e).Some? ==> HasPrefix(m, SentinelText(Wrapped(e).value))
  {
    match Wrapped(e)
    case Some(k) => SentinelText(k) + (if e.CredentialsNotFound? then ": " + e.path else "")
    case None =>
      match e
      case ConfigUnparsable(cause) => "failed to parse config file: " + cause
      case UnmarshalFailed(key) => "failed to unmarshal config: " + key
      case _ => "failed to get home directory: " + e.cause
  }

  /** A missing credentials file's message ends with ": " and the path. */
  lemma NotFoundNamesPath(path: string)
    ensures var m := Message(CredentialsNotFound(path));
      |m| >= |path| + 2 && m[|m| - |path|..] == path && m[|m| - |path| - 2..|m| - |path|] == ": "
  {
    var head := SentinelText(NoCredentialsFile) + ": ";
    assert Message(CredentialsNotFound(path)) == head + path;
  }

  // ---------------------------------------------------------------------------
  // Layers
  // ---------------------------------------------------------------------------

  const CredentialsKey := "credentials_path"
  const TokenKey := "token_path"
  const CalendarKey := "calendar_id"
  const DurationKey := "default_duration"
  const TimezoneKey := "timezone"

  /** The environment variable bound to a key, if any. */
  function EnvName(key: string): Option<string>
  {
    if key == CredentialsKey then Some("GOOGLE_CALENDAR_CREDENTIALS")
    else if key == TokenKey then Some("GOOGLE_CALENDAR_TOKEN")
    else if key == CalendarKey then Some("GOOGLE_CALENDAR_ID")
    else if key == TimezoneKey then Some("TZ")
    else None
  }

  /** The defaults set on the settings store: a calendar ID and a duration. */
  function Default(key: string): Option<Value>
  {
    if key == CalendarKey then Some(Text("primary"))
    else if key == DurationKey then Some(Number(30))
    else None
  }

  /** Whether a flag override is applied: nil and the empty text are skipped. */
  predicate Applied(v: Value)
  {
    v != NilValue && v != Text("")
  }

  /** The overrides that are set, those whose value is neither nil nor empty. */
  function FlagLayer(overrides: map<string, Value>): (flags: map<string, Value>)
    ensures forall k :: k in flags <==> k in overrides && Applied(overrides[k])
    ensures forall k :: k in flags ==> flags[k] == overrides[k]
  {
    map k | k in overrides && Applied(overrides[k]) :: overrides[k]
  }

  /** An ASCII letter in upper case; every other character as it is. */
  function UpperChar(c: char): (r: char)
    ensures !('a' <= r <= 'z')
    ensures c != r ==> 'a' <= c <= 'z'
  {
    if 'a' <= c <= 'z' then (c as int - 32) as char else c
  }

  /**
   * The variable AutomaticEnv reads for a key: with the empty prefix, the key upper-cased
   * ("calendar_id" becomes CALENDAR_ID).
   */
  function AutomaticName(key: string): (name: string)
    ensures |name| == |key|
    ensures forall i :: 0 <= i < |key| ==> name[i] == UpperChar(key[i])
  {
    seq(|key|, i requires 0 <= i < |key| => UpperChar(key[i]))
  }

  /** Whether a variable is set to a non-empty text, the only kind the settings store takes. */
  predicate IsSetIn(env: map<string, string>, name: string)
  {
    name in env && env[name] != []
  }

  /**
   * The environment's value for a key: the upper-cased key first, then the variable bound to it;
   * a variable counts only when it is set to a non-empty text.
   */
  function EnvValue(env: map<string, string>, key: string): (r: Option<string>)
    ensures r.None? <==> !IsSetIn(env, AutomaticName(key)) && (EnvName(key).None? || !IsSetIn(env, EnvName(key).value))
    ensures IsSetIn(env, AutomaticName(key)) ==> r == Some(env[AutomaticName(key)])
    ensures !IsSetIn(env, AutomaticName(key)) && r.Some? ==> r == Some(env[EnvName(key).value])
  {
    var auto := AutomaticName(key);
    if IsSetIn(env, auto) then Some(env[auto])
    else
      match EnvName(key)
      case None => None
      case Some(name) => if IsSetIn(env, name) then Some(env[name]) else None
  }

  /** The upper-cased names of the five keys. */
  lemma AutomaticNames()
    ensures AutomaticName(CredentialsKey) == "CREDENTIALS_PATH"
    ensures AutomaticName(TokenKey) == "TOKEN_PATH"
    ensures AutomaticName(CalendarKey) == "CALENDAR_ID"
    ensures AutomaticName(DurationKey) == "DEFAULT_DURATION"
    ensures AutomaticName(TimezoneKey) == "TIMEZONE"
  {
    UpperedIs("credentials_path", "CREDENTIALS_PATH");
    UpperedIs("token_path", "TOKEN_PATH");
    UpperedIs("calendar_id", "CALENDAR_ID");
    UpperedIs("default_duration", "DEFAULT_DURATION");
    UpperedIs("timezone", "TIMEZONE");
  }

  lemma UpperedIs(key: string, name: string)
    requires |name| == |key| && forall i :: 0 <= i < |key| ==> name[i] == UpperChar(key[i])
    ensures AutomaticName(key) == name
  {
  }

  /** The layers of the settings store, highest first. */
  datatype Layers = Layers(flags: map<string, Value>, env: map<string, string>, file: map<string, Value>)

  /** The value of a key: from the first layer that has it. */
  function Resolve(l: Layers, key: string): (r: Option<Value>)
    ensures r.None? <==> key !in l.flags && EnvValue(l.env, key).None? && key !in l.file && Default(key).None?
  {
    if key in l.flags then Some(l.flags[key])
    else if EnvValue(l.env, key).Some? then Some(Text(EnvValue(l.env, key).value))
    else if key in l.file then Some(l.file[key])
    else Default(key)
  }

  // ---------------------------------------------------------------------------
  // Decoding into the Config
  // ---------------------------------------------------------------------------

  /** A text field: text as it is, a number in decimal, nil or nothing keeps the field. */
  function DecodeText(v: Option<Value>, field: string): string
  {
    match v
    case Some(Text(s)) => s
    case Some(Number(n)) => FormatInt(n)
    case _ => field
  }

  /** The integer field: a number, the empty text as 0, or a decimal text. */
  function DecodeInt(v: Option<Value>, field: int): Option<int>
  {
    match v
    case Some(Number(n)) => Some(n)
    case Some(Text(s)) => if s == [] then Some(0) else Atoi(s)
    case _ => Some(field)
  }

  /** Unmarshal into DefaultConfig(). */
  function Unmarshal(l: Layers): (r: Result<Config, ConfigError>)
    ensures r.Err? ==> r.error == UnmarshalFailed(DurationKey)
    ensures r.Err? <==> var v := Resolve(l, DurationKey);
      v.Some? && v.value.Text? && v.value.s != [] && Atoi(v.value.s).None?
  {
    var d := DefaultConfig();
    match DecodeInt(Resolve(l, DurationKey), d.defaultDuration)
    case None => Err(UnmarshalFailed(DurationKey))
    case Some(minutes) =>
      Ok(Config(
        DecodeText(Resolve(l, CredentialsKey), d.credentialsPath),
        DecodeText(Resolve(l, TokenKey), d.tokenPath),
        DecodeText(Resolve(l, CalendarKey), d.calendarId),
        minutes,
        DecodeText(Resolve(l, TimezoneKey), d.timezone)))
  }

  // ---------------------------------------------------------------------------
  // Load
  // ---------------------------------------------------------------------------

  /** What reading a configuration file gives. */
  datatype ConfigFile =
    | Settings(values: map<string, Value>)
    | Unparsable(cause: string)
    | Unreadable(cause: string)

  /** The file Load reads: the given path, else config.yaml in the default directory. */
  function ConfigLocation(configPath: string, home: Result<string, string>): Option<string>
  {
    if configPath != [] then Some(configPath)
    else if home.Ok? then Some(JoinPath(ConfigDirOf(home.value), "config.yaml"))
    else None
  }

  /**
   * The file layer: the file's settings; a missing file, or one that cannot be read, gives
   * none; a file that does not parse is an error.
   */
  function FileLayer(location: Option<string>, disk: map<string, ConfigFile>): (r: Result<map<string, Value>, ConfigError>)
    ensures r.Err? <==> location.Some? && location.value in disk && disk[location.value].Unparsable?
    ensures r.Err? ==> r.error == ConfigUnparsable(disk[location.value].cause)
    ensures r.Ok? && location.Some? && location.value in disk && disk[location.value].Settings? ==>
      r.value == disk[location.value].values
    ensures r.Ok? && !(location.Some? && location.value in disk && disk[location.value].Settings?) ==>
      r.value == map[]
  {
    if location.None? || location.value !in disk then Ok(map[])
    else
      match disk[location.value]
      case Settings(values) => Ok(values)
      case Unparsable(cause) => Err(ConfigUnparsable(cause))
      case Unreadable(_) => Ok(map[])
  }

  /** Load, as a function of the outside world. */
  function LoadSpec(
    configPath: string, home: Result<string, string>, disk: map<string, ConfigFile>,
    env: map<string, string>, overrides: map<string, Value>): (r: Result<Config, ConfigError>)
    ensures r.Err? ==> r.error.ConfigUnparsable? || r.error == UnmarshalFailed(DurationKey)
    ensures FileLayer(ConfigLocation(configPath, home), disk).Err? ==>
      r == Err(FileLayer(ConfigLocation(configPath, home), disk).error)
  {
    match FileLayer(ConfigLocation(configPath, home), disk)
    case Err(e) => Err(e)
    case Ok(file) => Unmarshal(Layers(FlagLayer(overrides), env, file))
  }

  /** Load: the file layer, then the flag overrides one by one, in whatever order the map gives. */
  method Load(
    configPath: string, home: Result<string, string>, disk: map<string, ConfigFile>,
    env: map<string, string>, overrides: map<string, Value>) returns (r: Result<Config, ConfigError>)
    ensures r == LoadSpec(configPath, home, disk, env, overrides)
  {
    var file := FileLayer(ConfigLocation(configPath, home), disk);
    if file.Err? {
      return Err(file.error);
    }
    var flags: map<string, Value> := map[];
    var pending := overrides.Keys;
    while pending != {}
      invariant pending <= overrides.Keys
      invariant forall k :: k in flags <==> k in overrides && k !in pending && Applied(overrides[k])
      invariant forall k :: k in flags ==> flags[k] == overrides[k]
      decreases |pending|
    {
      var key :| key in pending;
      var value := overrides[key];
      if Applied(value) {
        flags := flags[key := value];
      }
      pending := pending - {key};
    }
    assert flags == FlagLayer(overrides);
    r := Unmarshal(Layers(flags, env, file.value));
  }

  // ---------------------------------------------------------------------------
  // Precedence
  // ---------------------------------------------------------------------------

  /** A flag that is set decides its key, whatever the environment and the file say. */
  lemma FlagWins(l: Layers, key: string)
    requires key in l.flags
    ensures Resolve(l, key) == Some(l.flags[key])
  {
  }

  /** Without a flag, the environment (EnvValue) decides when it has the key, whatever the file says. */
  lemma EnvBeatsFile(l: Layers, key: string)
    requires key !in l.flags && EnvValue(l.env, key).Some?
    ensures Resolve(l, key) == Some(Text(EnvValue(l.env, key).value))
  {
  }

  /**
   * Without a flag, CALENDAR_ID decides the calendar ID when it is set, whatever
   * GOOGLE_CALENDAR_ID and the file say.
   */
  lemma AutomaticNameFirst(l: Layers)
    requires CalendarKey !in l.flags && IsSetIn(l.env, "CALENDAR_ID")
    ensures Resolve(l, CalendarKey) == Some(Text(l.env["CALENDAR_ID"]))
  {
    AutomaticNames();
  }

  /** Without flag or environment, the file decides; without it too, the default does. */
  lemma FileBeatsDefault(l: Layers, key: string)
    requires key !in l.flags && EnvValue(l.env, key).None?
    ensures key in l.file ==> Resolve(l, key) == Some(l.file[key])
    ensures key !in l.file ==> Resolve(l, key) == Default(key)
  {
  }

  /** A flag override of nil or "" is as if it were not given: it masks nothing below it. */
  lemma SkippedFlagMasksNothing(
    configPath: string, home: Result<string, string>, disk: map<string, ConfigFile>,
    env: map<string, string>, overrides: map<string, Value>, key: string)
    requires key in overrides && !Applied(overrides[key])
    ensures LoadSpec(configPath, home, disk, env, overrides) ==
      LoadSpec(configPath, home, disk, env, overrides - {key})
  {
    assert FlagLayer(overrides) == FlagLayer(overrides - {key});
  }

  /** With no file, no environment and no flags, Load gives DefaultConfig(). */
  lemma NothingGivesDefaults(configPath: string, home: Result<string, string>)
    ensures LoadSpec(configPath, home, map[], map[], map[]) == Ok(DefaultConfig())
  {
    assert FlagLayer(map[]) == map[];
    var l := Layers(map[], map[], map[]);
    assert Resolve(l, CalendarKey) == Some(Text("primary"));
    assert Resolve(l, DurationKey) == Some(Number(30));
    assert Resolve(l, CredentialsKey) == None;
    assert Resolve(l, TokenKey) == None;
    assert Resolve(l, TimezoneKey) == None;
  }

  /**
   * The loaded calendar ID comes from the flag, else from the environment (CALENDAR_ID, then
   * GOOGLE_CALENDAR_ID), else from the file, else it is "primary".
   */
  lemma LoadedCalendarId(l: Layers, c: Config)
    requires Unmarshal(l) == Ok(c)
    ensures CalendarKey in l.flags && l.flags[CalendarKey].Text? ==> c.calendarId == l.flags[CalendarKey].s
    ensures CalendarKey !in l.flags && EnvValue(l.env, CalendarKey).Some? ==>
      c.calendarId == EnvValue(l.env, CalendarKey).value
    ensures (CalendarKey !in l.flags && EnvValue(l.env, CalendarKey).None? && CalendarKey in l.file
             && l.file[CalendarKey].Text?) ==> c.calendarId == l.file[CalendarKey].s
    ensures (CalendarKey !in l.flags && EnvValue(l.env, CalendarKey).None? && CalendarKey !in l.file) ==>
      c.calendarId == "primary"
  {
  }

  // ---------------------------------------------------------------------------
  // Validation and the configuration directory
  // ---------------------------------------------------------------------------

  /** Validate: the credentials path is checked first, then the token path. */
  function Validate(c: Config): (r: Option<ConfigError>)
    ensures r.None? <==> c.credentialsPath != [] && c.tokenPath != []
    ensures c.credentialsPath == [] ==> r == Some(MissingCredentialsPath)
  {
    if c.credentialsPath == [] then Some(MissingCredentialsPath)
    else if c.tokenPath == [] then Some(MissingTokenPath)
    else None
  }

  /**
   * A missing credentials path is reported whatever the token path is; a missing token path only
   * once the credentials path is there; both present pass.
   */
  lemma ValidationOrder(c: Config)
    ensures Validate(c) == Some(MissingCredentialsPath) <==> c.credentialsPath == []
    ensures Validate(c) == Some(MissingTokenPath) <==> c.credentialsPath != [] && c.tokenPath == []
    ensures Validate(c).None? <==> c.credentialsPath != [] && c.tokenPath != []
  {
  }

  /** ValidateCredentialsExist: the credentials path must name an existing file. */
  function ValidateCredentialsExist(c: Config, existing: set<string>): (r: Option<ConfigError>)
    ensures r.None? <==> c.credentialsPath in existing
    ensures r.Some? ==> r.value == CredentialsNotFound(c.credentialsPath)
  {
    if c.credentialsPath !in existing then Some(CredentialsNotFound(c.credentialsPath)) else None
  }

  /** filepath.Join of two elements, for a base without a trailing separator or with one. */
  function JoinPath(base: string, name: string): string
  {
    if base == [] then name
    else if base[|base| - 1] == '/' then base + name
    else base + "/" + name
  }

  function ConfigDirOf(home: string): string
  {
    JoinPath(home, ".config/calgo")
  }

  /** GetConfigDir: ~/.config/calgo, or the home directory lookup's failure. */
  function GetConfigDir(home: Result<string, string>): (r: Result<string, ConfigError>)
    ensures home.Err? ==> r == Err(HomeUnknown(home.error))
    ensures home.Ok? ==> r.Ok?
  {
    match home
    case Err(cause) => Err(HomeUnknown(cause))
    case Ok(h) => Ok(ConfigDirOf(h))
  }

  /** The directory lies inside the home directory, as its .config/calgo subdirectory. */
  lemma ConfigDirUnderHome(home: string)
    requires home != []
    ensures var d := GetConfigDir(Ok(home)).value;
      && HasPrefix(d, home)
      && d[|d| - 13..] == ".config/calgo"
      && (home[|home| - 1] != '/' ==> d == home + "/.config/calgo")
  {
    var d := ConfigDirOf(home);
    if home[|home| - 1] == '/' {
      assert d == home + ".config/calgo";
    } else {
      assert d == home + ("/" + ".config/calgo");
    }
  }
}
