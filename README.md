# ServerGUI core, modelled in Dafny

`main.py` is a tkinter window that supervises one Minecraft server process
and installs plugins from the Modrinth v2 API. Around its widget and I/O code
sit a few decision rules and one small state machine. This project states
them in Dafny and proves what they do:

- **Supervisor state.** The class `Gui.ServerGui` holds the `server_running`
  flag, whether a process handle exists, everything written to the process's
  standard input, the configuration and the `plugins_data` index. Its methods
  model `run_server`, the `finally` block of `_run_server_process`,
  `stop_server`, `send_command`, `restart_server`, `search_plugins` with its
  thread, `install_plugin` with its thread, `load_config`, `save_config` and
  `import_server_folder`. The object invariant says three things. Each
  command written to the process is non-empty, has no whitespace at either
  end, and is followed by one newline. Nothing is written before a process
  exists. Every search entry is stored under its own project id.
- **Start command** (`launch.dfy`). A relative jar path is resolved under the
  server directory. The start decision refuses while running and when the jar
  is missing. Otherwise it builds the exact Java argument vector, and a parser
  proves that vector determines the memory setting and jar path it was built
  from.
- **Plugin search** (`catalog.dfy`)
  - the compatibility rule;
  - the title marks;
  - the count of compatible hits;
  - the `plugins_data` index: keys are exactly the hit ids, and a later
    duplicate wins;
  - the server-type to loader table;
  - the request parameters.
- **Version resolution** (`versions.dfy`)
  - the filtered fetch, with the unfiltered refetch;
  - the selection loop, which ignores loaders as the code does;
  - the choice of primary file, with its default name.
- **Name rules** (`installed.dfy`)
  - the sorted installed-jar listing, with its placeholder;
  - the delete guard;
  - the server-jar choice in import.
- **Configuration** (`config.dfy`). Each of the six keys is taken from the
  file or falls back to its own default, and saving then loading gives the
  settings back.
- **Text** (`text.dfy`)
  - Python's `str.strip`, with the full `str.isspace` set;
  - ASCII `str.lower`;
  - substring and suffix tests;
  - POSIX `os.path.join`;
  - Python's code-point string order.

Results of I/O are parameters of the model:

- which paths exist;
- whether a pipe write succeeds;
- whether a missing plugins directory can be created;
- whether the process exits within the 30-second grace period;
- the parsed HTTP responses, as `Response<T>` (`Failed` for a request error);
- directory listings, as sequences of names;
- the parsed configuration file, as a `ConfigFile`;
- the user's answers to confirmation dialogs, as booleans.

A JSON key missing from a record is `None` in the model's datatypes. The
default that `dict.get` uses is applied where the code applies it.

Some behaviour of the code that a reader might not expect:

- **Loaders.** The loader condition at `main.py:801` is computed and never
  used, so the first game-version match wins. A loader-aware rule would
  pick the second entry of `Versions.LoaderMismatchStillChosen`; the code
  picks the first.
- **Stop.** `stop_server` never clears `server_running`. Only the process
  thread's `finally` block does, which is `Gui.ServerGui.ProcessEnded` here.
- **Installed list.** A missing plugins directory that is created, or one
  without jars, lists the single entry `No plugins installed`, not nothing.
- **Restart.** Restart waits only for a bounded time. It waits for the
  process at most 30 seconds inside `stop_server`, then for the process
  thread at most 35 seconds more. It then schedules `run_server` 2 seconds
  later, whether or not the process has ended. `run_server` refuses if
  `server_running` is still true.
- **Stale handle.** The process handle is never reset after the process
  ends. So `hasProcess` stays true, and the next stop or send is guarded by
  the running flag alone.
- **Embedded line breaks.** `send_command` strips only the ends of the
  entry. A command holding a line break reaches the process as several
  lines, some of which may be empty or padded.

## Model

| member | source | states |
|---|---|---|
| Text.StripSplits | main.py:473 | the stripped command is the entry with only whitespace runs removed from each end, and it neither starts nor ends with whitespace |
| Text.StripEmptyIff | main.py:473-475 | a command strips to nothing exactly when the entry is all whitespace, so only such entries are dropped |
| Text.Join | main.py:366-367 | `os.path.join`: an absolute second part wins; otherwise the result starts with the directory, ends with the name, and is absolute when the directory is |
| Text.LexLeTotal | main.py:656 | any two names are ordered one way or the other by Python's string order |
| Text.LexLeTransitive | main.py:656 | Python's string order is transitive |
| Text.LexLeAntisymmetric | main.py:656 | two names each at most the other are equal |
| Config.ToRecord | main.py:901-908 | the saved dictionary has exactly the six configuration keys |
| Config.Load | main.py:917-931 | a missing or unreadable configuration file leaves the settings unchanged |
| Config.SaveLoadRoundTrip | main.py:899-929 | loading the dictionary that saving writes gives back the same six settings, whatever the previous settings and working directory |
| Config.LoadPerKey | main.py:924-929 | each setting is the file's value when its key is present and its fixed default (`server.jar`, `2048`, cwd, cwd/plugins, `paper`, `1.21.4`) when absent |
| Config.LoadIgnoresUnknownKeys | main.py:924-929 | adding a key other than the six to the file changes nothing that is loaded |
| Launch.ResolveJarPath | main.py:365-367 | an absolute jar path is kept; a relative one is joined under the server directory and ends with the jar name |
| Launch.ParseBuildRoundTrip | main.py:376-383 | the Java command line determines the memory value and jar path it was built from |
| Launch.BuildParseRoundTrip | main.py:376-383 | every six-element vector of that shape is the command built from its memory value and jar path, with the same memory in both heap flags |
| Launch.StartDecisionSpec | main.py:361-383 | start is refused while running, refused with the resolved path when that path does not exist, and otherwise yields the Java command for the configured memory and resolved path |
| Launch.DefaultCommandExample | main.py:376-383 | with the default settings in `/srv/mc` the vector is exactly `java -Xmx2048M -Xms2048M -jar /srv/mc/server.jar nogui` |
| Catalog.SearchRequest | main.py:535-560 | the search request carries the query, only the plugin facet `[["project_type:plugin"]]` and limit 20 |
| Catalog.LoaderForSpec | main.py:542-552 | each known server type maps to its own loader, vanilla maps to bukkit, and any other type gets paper |
| Catalog.CompatibleExamples | main.py:586 | an empty version list is always compatible; `["1.20.1"]` is not compatible with `1.21.4` |
| Catalog.IncompatibleMeansListed | main.py:586 | an incompatible hit has a configured version and a non-empty version list without that version |
| Catalog.DisplayTitleMarked | main.py:598-604 | every title gets the check mark when compatible and the warning mark otherwise; the unmarked branch cannot be taken |
| Catalog.IndexSpec | main.py:589-596 | the keys of `plugins_data` after a search are exactly the hits' project ids, and each key holds the entry of the last hit with that id |
| Catalog.IndexKeyedById | main.py:589-596 | each stored entry's `project_id` is the key it is stored under |
| Catalog.IndexSizeDistinct | main.py:589 | with distinct project ids, `plugins_data` has one entry per hit |
| Catalog.CompatibleCountSpec | main.py:573-604 | the compatible count is at most the number of hits; it equals that number exactly when every hit is compatible, and is zero exactly when none is |
| Catalog.RowsSpec | main.py:606-609 | one row per hit in catalog order, with the hit's id, marked title, author, download count and latest version or their defaults |
| Catalog.CountMatchesMarks | main.py:602-604 | the compatible count is the number of hits whose title got the check mark |
| Versions.FilteredQuery | main.py:770-777 | the first version request goes to the project's version URL, filtered by `["<version>"]` exactly when a server version is configured |
| Versions.UnfilteredQuery | main.py:783-787 | the refetch goes to the same URL without a filter |
| Versions.FetchVersions | main.py:777-787 | the version list used is the refetch result exactly when the filtered list was empty and a version is configured, else the first result |
| Versions.FirstMatch | main.py:794-805 | the position found matches the server version and none before it does; there is none exactly when no entry matches |
| Versions.SelectVersion | main.py:793-809 | the selection loop returns the first entry matching the server version, flagged exact, or `versions[0]` when none matches; either way an element of the list |
| Versions.SelectionIgnoresLoaders | main.py:796-805 | two version lists with the same game versions lead to the same choice, whatever their loaders |
| Versions.LoaderMismatchStillChosen | main.py:801-805 | a first entry that matches the version but not the `paper` loader is chosen over a later one that matches both |
| Versions.RefetchOnlyWhenEmpty | main.py:783-787 | when no refetch is needed the second response has no influence on the outcome |
| Versions.InstallDecisionSpec | main.py:774-825 | a failed request fails the install; an empty final list gives "no versions" and only then; for a non-empty list, the chosen version without files gives "no downloadable files", a first file without URL fails the request, and otherwise that first file is downloaded under its own name or `<project_id>.jar`, flagged exact as the selection says; no outcome is a selection error |
| Versions.SingleVersionExample | main.py:774-825 | one matching version with file `f.jar` is downloaded from its URL as `f.jar`, as an exact match |
| Installed.PlaceholderIsNotJar | main.py:645-652 | the placeholder entry is not a jar name |
| Installed.JarNames | main.py:649 | the listing's jar names are exactly its entries ending in `.jar` |
| Installed.JarNamesCount | main.py:649 | each jar name appears in the filtered list as often as in the listing |
| Installed.SortNamesSpec | main.py:656 | sorting yields the same names, each as often, in Python's string order |
| Installed.InstalledListingSpec | main.py:637-657 | the list is empty exactly when a missing directory cannot be created; it is the placeholder exactly when a missing directory is created or the directory holds no jar; otherwise it is the jar names sorted, without the placeholder |
| Installed.DeleteDecisionSpec | main.py:661-690 | no selection reports nothing selected; the placeholder is ignored; a declined confirmation reports declined; a confirmed delete of a missing file reports the failure; only a confirmed delete of an existing file removes something, and it removes exactly that file |
| Installed.ServerJarChoice | main.py:704-719 | the chosen jar is the first entry that is a jar whose lower-cased name contains a server keyword; there is none exactly when no entry qualifies |
| Installed.ServerJarFirstExample | main.py:704-719 | in `world, Paper-1.21.4.jar, server.jar` the mixed-case `Paper-1.21.4.jar` is chosen |
| Installed.ImportFolder | main.py:694-715 | a cancelled dialog (empty directory) gives `Cancelled` and only then; declining to import a folder without a server jar gives `NotImported` and only then |
| Installed.ImportFolderSpec | main.py:692-733 | the folder's paths are taken exactly when a server jar is found or the user agrees; then the server directory is the folder and the jar path is the found jar (or `server.jar`) joined to it, so that starting from an absolute folder looks for that jar; memory, type and version are kept; the import completes, with the plugins path in the folder, exactly when `plugins` is or becomes a directory, and otherwise stops with the plugins path unchanged |
| Gui.ServerGui.constructor | main.py:28-39 | a new window is stopped, without a process, with nothing sent, no search data and the default settings |
| Gui.ServerGui.LoadConfig | main.py:917-931 | the settings become those loaded from the file, and nothing else changes |
| Gui.ServerGui.SaveConfig | main.py:899-908 | the dictionary written loads back into the current settings |
| Gui.ServerGui.ImportServerFolder | main.py:692-749 | the settings change only when the folder's paths are taken, to those settings; the settings are saved exactly when the import completes, as exactly the dictionary `save_config` builds, which loads back into them |
| Gui.ServerGui.RunServer | main.py:359-395 | the start decision is taken on the current settings and the running flag becomes true exactly when the server starts |
| Gui.ServerGui.ProcessStarted | main.py:400-409 | a fresh process handle with nothing yet written to it |
| Gui.ServerGui.ProcessEnded | main.py:421-425 | however the process ended, the running flag is false |
| Gui.ServerGui.StopServer | main.py:427-448 | refused without a running server and a handle; a failed write is reported; otherwise exactly `stop` and a newline are written, and the result tells whether the process exited in time or was terminated |
| Gui.ServerGui.SendCommand | main.py:467-484 | refused without a running server and a handle; an entry that strips to nothing sends nothing; otherwise exactly the stripped command and a newline are written |
| Gui.ServerGui.RestartServer | main.py:450-457 | refused when not running; otherwise the stop step runs with its outcome passed on: rejected without a handle, failed with nothing written when the write fails, else `stop` and a newline written and the process exited in time or terminated |
| Gui.ServerGui.SearchPlugins | main.py:510-611 | an empty query sends nothing and changes nothing; otherwise the request is sent, `plugins_data` is cleared, and a non-empty response fills it with the index of the hits while counting the compatible ones and producing the rows |
| Gui.ServerGui.InstallPlugin | main.py:620-825 | no request is sent without a selection or for an unknown id; otherwise the filtered request for the stored project id is sent, followed by the unfiltered one exactly when a refetch is needed, and the outcome is the install decision for that project and the configured version |

## Left out

- The tkinter interface is left out: widget layout, styles, dialogs and
  `update_server_status`. Confirmation answers are inputs.
  - Inserting rows into the Treeview is also left out, including Tk
    rejecting a duplicate or empty `iid`. `Rows` keeps every hit's row.
- Process I/O is left out: `Popen`, the output relay loop, `wait` and
  `terminate`, `check_existing_server` and `open_plugins_folder`. The
  outcome of waiting is the `exitsInTime` parameter.
- Network and file I/O are left out: the `requests` calls and their
  timeouts, JSON decoding, the body download and file write, `glob` and
  `unlink`. Their results are parameters. So are the outcomes of the two
  `mkdir` calls that change what is shown or saved (`main.py:644` and
  `main.py:732`). The `mkdir` before a download (`main.py:829`) belongs to the
  download and is left out with it.
- Installed.InstalledListing: the refresh that `import_server_folder` and
  `delete_plugin` run afterwards is not part of their models.
- Threads and `root.after` marshalling are left out, and so is the
  window-close handler.
- Gui.ServerGui.RestartServer: models only the stop step. The
  `join(timeout=35)` and the `run_server` scheduled 2 seconds later are
  timing, not state.
- Gui.ServerGui.RunServer: marks the server running without a handle. The
  handle appears later with `ProcessStarted`, when the process thread runs.
  Interleavings of the two threads are not modelled.
- The `browse_*` dialogs are left out. `browse_jar` and `browse_plugins_dir`
  copy the chosen path into one setting. `browse_server_dir` also resets the
  plugins path to `<dir>/plugins`.
- Text.Lower: lower-cases ASCII letters only. Python's `str.lower` also maps
  non-ASCII letters, and jar names are assumed to be ASCII.
- The whole model follows POSIX rules. That covers `Text.Join`, the
  case-sensitive `*.jar` match of `Installed.JarNames` and
  `Installed.IsServerJar`, and the code-point order of `Installed.SortNames`.
  On Windows, `glob` matches case-insensitively and sorting paths compares
  case-folded parts. Neither is modelled, and neither is `pathlib`
  normalisation (repeated or trailing slashes, `str(Path(...))`).
- Catalog.Index: a map, without dict insertion order. The order of
  `plugins_data` is never read by the code.
- Versions.SelectVersion: treats a matching entry that is an empty dict as
  found. In the code such an entry is falsy and `versions[0]` is used
  instead, and the two differ only in the log message.
- JSON values of the wrong type are taken to be well-typed, for example a
  `game_versions` that is not a list.
- The download count's thousands formatting (`f"{d:,}"`) and all console log
  text are left out. Rows keep the download count as a number.
