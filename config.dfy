/**
 * The persisted configuration record (`server_config.json`): six string keys,
 * each with a fixed default used when the key is missing.
 */
module Config {
  import opened Text

  datatype Settings = Settings(
    serverJar: string,
    serverMemory: string,
    serverDir: string,
    pluginsDir: string,
    serverType: string,
    serverVersion: string)

  const ServerJarKey: string := "server_jar"
  const ServerMemoryKey: string := "server_memory"
  const ServerDirKey: string := "server_dir"
  const PluginsDirKey: string := "plugins_dir"
  const ServerTypeKey: string := "server_type"
  const ServerVersionKey: string := "server_version"

  /** The values used when nothing is configured; `cwd` is the process's working directory. */
  function Defaults(cwd: string): Settings {
    Settings("server.jar", "2048", cwd, Join(cwd, "plugins"), "paper", "1.21.4")
  }

  /** `config.get(key, default)`. */
  function Lookup(record: map<string, string>, key: string, default: string): string {
    if key in record then record[key] else default
  }

  /** What `load_config` sets from a parsed file: each key from the file, else its default. */
  function FromRecord(record: map<string, string>, cwd: string): Settings {
    var d := Defaults(cwd);
    Settings(
      Lookup(record, ServerJarKey, d.serverJar),
      Lookup(record, ServerMemoryKey, d.serverMemory),
      Lookup(record, ServerDirKey, d.serverDir),
      Lookup(record, PluginsDirKey, d.pluginsDir),
      Lookup(record, ServerTypeKey, d.serverType),
      Lookup(record, ServerVersionKey, d.serverVersion))
  }

  /** The dictionary `save_config` writes. */
  function ToRecord(s: Settings): (record: map<string, string>)
    ensures record.Keys == {ServerJarKey, ServerMemoryKey, ServerDirKey, PluginsDirKey, ServerTypeKey, ServerVersionKey}
  {
    map[ServerJarKey := s.serverJar, ServerMemoryKey := s.serverMemory, ServerDirKey := s.serverDir,
        PluginsDirKey := s.pluginsDir, ServerTypeKey := s.serverType, ServerVersionKey := s.serverVersion]
  }

  /** The state of `server_config.json` when `load_config` runs. */
  datatype ConfigFile = Missing | Unreadable | Parsed(record: map<string, string>)

  /** `load_config`: a missing or unreadable file leaves the current settings as they are. */
  function Load(file: ConfigFile, current: Settings, cwd: string): (s: Settings)
    ensures !file.Parsed? ==> s == current
  {
    match file
    case Parsed(record) => FromRecord(record, cwd)
    case _ => current
  }

  /** Saving and then loading gives back the same settings, whatever the working directory. */
  lemma SaveLoadRoundTrip(s: Settings, current: Settings, cwd: string)
    ensures Load(Parsed(ToRecord(s)), current, cwd) == s
  {
    var r := ToRecord(s);
    assert r[ServerJarKey] == s.serverJar;
    assert r[ServerMemoryKey] == s.serverMemory;
    assert r[ServerDirKey] == s.serverDir;
    assert r[PluginsDirKey] == s.pluginsDir;
    assert r[ServerTypeKey] == s.serverType;
    assert r[ServerVersionKey] == s.serverVersion;
  }

  /** Each key is taken from the file when present and is its default exactly when absent. */
  lemma LoadPerKey(record: map<string, string>, cwd: string)
    ensures var s, d := FromRecord(record, cwd), Defaults(cwd);
      && s.serverJar == (if ServerJarKey in record then record[ServerJarKey] else d.serverJar)
      && s.serverMemory == (if ServerMemoryKey in record then record[ServerMemoryKey] else d.serverMemory)
      && s.serverDir == (if ServerDirKey in record then record[ServerDirKey] else d.serverDir)
      && s.pluginsDir == (if PluginsDirKey in record then record[PluginsDirKey] else d.pluginsDir)
      && s.serverType == (if ServerTypeKey in record then record[ServerTypeKey] else d.serverType)
      && s.serverVersion == (if ServerVersionKey in record then record[ServerVersionKey] else d.serverVersion)
    ensures record == map[] ==> FromRecord(record, cwd) == Settings("server.jar", "2048", cwd, Join(cwd, "plugins"), "paper", "1.21.4")
  {
  }

  /** Keys other than the six are ignored. */
  lemma LoadIgnoresUnknownKeys(record: map<string, string>, key: string, value: string, cwd: string)
    requires key !in ToRecord(Defaults(cwd)).Keys
    ensures FromRecord(record[key := value], cwd) == FromRecord(record, cwd)
  {
  }
}
