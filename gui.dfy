/**
 * The state `MinecraftServerGUI` keeps and changes: the configuration, the
 * `server_running` flag, whether a server process handle exists, what has
 * been written to that process's standard input, and the `plugins_data`
 * index of the last search. Results of I/O (which paths exist, whether a pipe
 * write succeeds, whether the process exits within the grace period, HTTP
 * responses, directory listings) are parameters.
 */
module Gui {
  import opened Text
  import opened Config
  import opened Launch
  import opened Catalog
  import opened Versions
  import opened Installed

  /** The text written to standard input for a sequence of lines, each followed by a newline. */
  function Transcript(lines: seq<string>): string
    decreases |lines|
  {
    if lines == [] then [] else Transcript(lines[..|lines| - 1]) + lines[|lines| - 1] + "\n"
  }

  lemma TranscriptAppend(lines: seq<string>, line: string)
    ensures Transcript(lines + [line]) == Transcript(lines) + line + "\n"
  {
    assert (lines + [line])[..|lines|] == lines;
  }

  /** Commands fit to send: each non-empty and without whitespace at either end. */
  ghost predicate CleanLines(lines: seq<string>) {
    forall i :: 0 <= i < |lines| ==> lines[i] != [] && Stripped(lines[i])
  }

  /** Each entry is stored under its own project id. */
  ghost predicate KeyedById(data: map<string, PluginInfo>) {
    forall id :: id in data ==> data[id].projectId == id
  }

  datatype StopResult = StopRejected | StopFailed | StoppedGracefully | Terminated

  datatype SendResult = SendRejected | EmptyCommand | SendFailed(command: string) | Sent(command: string)

  datatype RestartResult = RestartRejected | RestartAfterStop(stop: StopResult)

  datatype SearchOutcome =
    | EmptyQuery
    | SearchFailed
    | NoResults
    | Found(total: nat, compatibleCount: nat, rows: seq<Row>)

  class ServerGui {
    var config: Settings
    /** `server_running`. */
    var serverRunning: bool
    /** `server_process is not None`; the handle is kept after the process ends. */
    var hasProcess: bool
    /** Everything written to the current process's standard input. */
    var stdin: string
    /** The lines that make up `stdin`. */
    ghost var sentLines: seq<string>
    /** `plugins_data`: search results by project id. */
    var pluginsData: map<string, PluginInfo>

    /**
     * The object invariant: each command written is non-empty, has no
     * whitespace at either end and is followed by one newline; nothing is
     * written before a process exists; each search entry is stored under its
     * own project id.
     */
    ghost predicate Valid()
      reads this`stdin, this`sentLines, this`hasProcess, this`pluginsData
    {
      && stdin == Transcript(sentLines)
      && CleanLines(sentLines)
      && (!hasProcess ==> sentLines == [])
      && KeyedById(pluginsData)
    }

    constructor (cwd: string)
      ensures Valid()
      ensures config == Defaults(cwd)
      ensures !serverRunning && !hasProcess && stdin == [] && pluginsData == map[]
    {
      config := Defaults(cwd);
      serverRunning := false;
      hasProcess := false;
      stdin := [];
      sentLines := [];
      pluginsData := map[];
      new;
      assert Transcript(sentLines) == [];
      assert CleanLines(sentLines);
      assert KeyedById(pluginsData);
    }

    // -------------------------------------------------------------------------
    // Configuration

    /** `load_config`; `cwd` is the working directory the defaults refer to. */
    method LoadConfig(file: ConfigFile, cwd: string)
      requires Valid()
      modifies this`config
      ensures Valid()
      ensures config == Load(file, old(config), cwd)
    {
      config := Load(file, config, cwd);
    }

    /** The dictionary `save_config` writes; loading it back gives the current settings. */
    method SaveConfig() returns (record: map<string, string>)
      ensures FromRecord(record, "") == config
      ensures record == ToRecord(config)
    {
      record := ToRecord(config);
      SaveLoadRoundTrip(config, config, "");
    }

    /**
     * `import_server_folder`; the settings change only when the folder is
     * imported, or partly when the plugins directory cannot be created, and
     * only a completed import saves them (the returned dictionary).
     */
    method ImportServerFolder(directory: string, entries: seq<string>, importWithoutJar: bool, pluginsReady: bool)
      returns (r: ImportOutcome, saved: Option<map<string, string>>)
      requires Valid()
      modifies this`config
      ensures Valid()
      ensures r == ImportFolder(old(config), directory, entries, importWithoutJar, pluginsReady)
      ensures config == if r.Imported? || r.ImportAborted? then r.settings else old(config)
      ensures saved.Some? <==> r.Imported?
      ensures saved.Some? ==> saved.value == ToRecord(config) && FromRecord(saved.value, "") == config
    {
      r := ImportFolder(config, directory, entries, importWithoutJar, pluginsReady);
      saved := None;
      if r.Imported? || r.ImportAborted? {
        config := r.settings;
      }
      if r.Imported? {
        var record := SaveConfig();
        saved := Some(record);
      }
    }

    // -------------------------------------------------------------------------
    // The server process

    /** `run_server`: refuse while running or when the jar is absent; otherwise mark the server running. */
    method RunServer(existing: set<string>) returns (r: StartResult)
      requires Valid()
      modifies this`serverRunning
      ensures Valid()
      ensures r == StartDecision(old(serverRunning), config, existing)
      ensures serverRunning == (old(serverRunning) || r.Start?)
    {
      if serverRunning {
        return AlreadyRunning;
      }
      var jarPath := config.serverJar;
      if !IsAbs(jarPath) {
        jarPath := Join(config.serverDir, jarPath);
      }
      if jarPath !in existing {
        return JarNotFound(jarPath);
      }
      var memory := config.serverMemory;
      var javaCmd := JavaCommand(memory, jarPath);
      serverRunning := true;
      r := Start(javaCmd);
    }

    /** The process thread obtained a process: a fresh handle with an empty input pipe. */
    method ProcessStarted()
      requires Valid()
      modifies this`hasProcess, this`stdin, this`sentLines
      ensures Valid()
      ensures hasProcess && stdin == [] && sentLines == []
    {
      hasProcess := true;
      stdin := [];
      sentLines := [];
    }

    /** The `finally` block of the process thread, reached however the process ended or failed to start. */
    method ProcessEnded()
      requires Valid()
      modifies this`serverRunning
      ensures Valid()
      ensures !serverRunning
    {
      serverRunning := false;
    }

    /**
     * `stop_server`: refused without a running server and a handle; otherwise
     * writes `stop` and a newline, then waits (`exitsInTime` tells whether the
     * process exits within 30 seconds; if not it is terminated). A failed write
     * is reported. The running flag is left to the process thread.
     */
    method StopServer(writeOk: bool, exitsInTime: bool) returns (r: StopResult)
      requires Valid()
      modifies this`stdin, this`sentLines
      ensures Valid()
      ensures !old(serverRunning && hasProcess) ==> r == StopRejected
      ensures old(serverRunning && hasProcess) && !writeOk ==> r == StopFailed
      ensures old(serverRunning && hasProcess) && writeOk ==>
        r == (if exitsInTime then StoppedGracefully else Terminated)
      ensures stdin == if r == StopRejected || r == StopFailed then old(stdin) else old(stdin) + "stop\n"
      ensures sentLines == if r == StopRejected || r == StopFailed then old(sentLines) else old(sentLines) + ["stop"]
    {
      if !serverRunning || !hasProcess {
        return StopRejected;
      }
      if !writeOk {
        return StopFailed;
      }
      TranscriptAppend(sentLines, "stop");
      stdin := stdin + "stop\n";
      sentLines := sentLines + ["stop"];
      if exitsInTime {
        r := StoppedGracefully;
      } else {
        r := Terminated;
      }
    }

    /**
     * `send_command`: refused without a running server and a handle; the entry
     * is stripped, an empty command is dropped, and otherwise the command and
     * a newline are written.
     */
    method SendCommand(entry: string, writeOk: bool) returns (r: SendResult)
      requires Valid()
      modifies this`stdin, this`sentLines
      ensures Valid()
      ensures !old(serverRunning && hasProcess) ==> r == SendRejected
      ensures old(serverRunning && hasProcess) && Strip(entry) == [] ==> r == EmptyCommand
      ensures old(serverRunning && hasProcess) && Strip(entry) != [] ==>
        r == (if writeOk then Sent(Strip(entry)) else SendFailed(Strip(entry)))
      ensures stdin == if r.Sent? then old(stdin) + r.command + "\n" else old(stdin)
      ensures sentLines == if r.Sent? then old(sentLines) + [r.command] else old(sentLines)
    {
      if !serverRunning || !hasProcess {
        return SendRejected;
      }
      var command := Strip(entry);
      if command == [] {
        return EmptyCommand;
      }
      if !writeOk {
        return SendFailed(command);
      }
      var _, _ := StripSplits(entry);
      TranscriptAppend(sentLines, command);
      stdin := stdin + command + "\n";
      sentLines := sentLines + [command];
      r := Sent(command);
    }

    /** `restart_server` up to the stop: refused when not running; the later start is scheduled by the caller. */
    method RestartServer(writeOk: bool, exitsInTime: bool) returns (r: RestartResult)
      requires Valid()
      modifies this`stdin, this`sentLines
      ensures Valid()
      ensures !old(serverRunning) ==> r == RestartRejected && stdin == old(stdin)
      ensures old(serverRunning) ==> r.RestartAfterStop?
      ensures old(serverRunning) && !old(hasProcess) ==> r == RestartAfterStop(StopRejected) && stdin == old(stdin)
      ensures old(serverRunning && hasProcess) && writeOk ==>
        r == RestartAfterStop(if exitsInTime then StoppedGracefully else Terminated) && stdin == old(stdin) + "stop\n"
      ensures old(serverRunning && hasProcess) && !writeOk ==> r == RestartAfterStop(StopFailed) && stdin == old(stdin)
    {
      if !serverRunning {
        return RestartRejected;
      }
      var stop := StopServer(writeOk, exitsInTime);
      r := RestartAfterStop(stop);
    }

    // -------------------------------------------------------------------------
    // Plugins

    /**
     * `search_plugins` with its search thread: an empty query is refused
     * before anything changes or is sent; otherwise `plugins_data` is cleared,
     * the request is sent, and every hit of a non-empty response is stored
     * under its project id while the compatible ones are counted.
     */
    method SearchPlugins(entry: string, response: Response<seq<Hit>>)
      returns (sent: Option<SearchParams>, r: SearchOutcome)
      requires Valid()
      modifies this`pluginsData
      ensures Valid()
      ensures Strip(entry) == [] ==> sent == None && r == EmptyQuery && pluginsData == old(pluginsData)
      ensures Strip(entry) != [] ==> sent == Some(SearchRequest(Strip(entry)))
      ensures Strip(entry) != [] && response.Failed? ==> r == SearchFailed && pluginsData == map[]
      ensures Strip(entry) != [] && response == Ok([]) ==> r == NoResults && pluginsData == map[]
      ensures Strip(entry) != [] && response.Ok? && response.body != [] ==>
        && r == Found(|response.body|, CompatibleCount(response.body, config.serverVersion), Rows(response.body, config.serverVersion))
        && pluginsData == Index(response.body, config.serverVersion)
    {
      var query := Strip(entry);
      if query == [] {
        return None, EmptyQuery;
      }
      pluginsData := map[];
      var serverType := Lower(config.serverType);
      var serverVersion := config.serverVersion;
      var loader := LoaderFor(serverType);
      sent := Some(SearchRequest(query));
      if response.Failed? {
        return sent, SearchFailed;
      }
      var hits := response.body;
      if hits == [] {
        return sent, NoResults;
      }
      var compatibleCount := 0;
      var rows: seq<Row> := [];
      var i := 0;
      while i < |hits|
        invariant 0 <= i <= |hits|
        invariant pluginsData == Index(hits[..i], serverVersion)
        invariant compatibleCount == CompatibleCount(hits[..i], serverVersion)
        invariant rows == Rows(hits[..i], serverVersion)
        invariant KeyedById(pluginsData)
      {
        var hit := hits[i];
        var projectId := HitId(hit);
        var title := HitTitle(hit);
        var gameVersions := HitGameVersions(hit);
        var isCompatible := Compatible(serverVersion, gameVersions);
        pluginsData := pluginsData[projectId := InfoOf(hit, serverVersion)];
        var displayTitle := title;
        if !isCompatible && gameVersions != [] {
          displayTitle := WarnPrefix + title;
        } else if isCompatible {
          displayTitle := CheckPrefix + title;
          compatibleCount := compatibleCount + 1;
        }
        rows := rows + [Row(projectId, displayTitle, hit.author.GetOr("Unknown"), hit.downloads.GetOr(0), hit.latestVersion.GetOr("N/A"))];
        assert hits[..i + 1][..i] == hits[..i];
        i := i + 1;
      }
      assert hits[..|hits|] == hits;
      r := Found(|hits|, compatibleCount, rows);
    }

    /**
     * `install_plugin` with its install thread, up to the download: the
     * selected entry of `plugins_data`, the version list (refetched unfiltered
     * when the filtered list is empty), the selection loop and the primary file.
     * `sent` lists the version requests issued, in order, for the project id
     * stored in the entry; `first` and `second` are their responses.
     */
    method InstallPlugin(selection: Option<string>, first: Response<seq<Version>>, second: Response<seq<Version>>)
      returns (sent: seq<VersionQuery>, r: InstallOutcome)
      requires Valid()
      ensures selection.None? ==> r == NoSelection && sent == []
      ensures selection.Some? && selection.value !in pluginsData ==> r == PluginNotFound && sent == []
      ensures selection.Some? && selection.value in pluginsData ==>
        && r == InstallDecision(selection.value, config.serverVersion, first, second)
        && sent == [FilteredQuery(selection.value, config.serverVersion)]
                   + (if NeedsRefetch(config.serverVersion, first) then [UnfilteredQuery(selection.value)] else [])
    {
      if selection.None? {
        return [], NoSelection;
      }
      if selection.value !in pluginsData {
        return [], PluginNotFound;
      }
      var pluginData := pluginsData[selection.value];
      var projectId := pluginData.projectId;
      var serverVersion := config.serverVersion;
      var serverType := Lower(config.serverType);
      sent := [FilteredQuery(projectId, serverVersion)];
      var versions := first;
      if versions == Ok([]) && serverVersion != "" {
        sent := sent + [UnfilteredQuery(projectId)];
        versions := second;
      }
      if versions.Failed? {
        return sent, RequestFailed;
      }
      if versions.body == [] {
        return sent, NoVersionsAvailable;
      }
      var best, exact := SelectVersion(versions.body, serverVersion, serverType);
      var files := FilesOf(best);
      if files == [] {
        return sent, NoDownloadableFiles;
      }
      var fileData := files[0];
      if fileData.url.None? {
        return sent, RequestFailed;
      }
      var filename := fileData.filename.GetOr(projectId + ".jar");
      r := Download(fileData.url.value, filename, exact);
    }
  }
}
