/**
 * File-name rules: the installed-plugin list, the delete guard, and the
 * choice of server jar when importing an existing server folder.
 */
module Installed {
  import opened Text
  import opened Config
  import opened Launch

  /** The list entry shown when there is nothing to show; it is not a file. */
  const Placeholder: string := "No plugins installed"

  /** A name the pattern `*.jar` matches. */
  predicate IsJar(name: string) {
    EndsWith(name, ".jar")
  }

  lemma PlaceholderIsNotJar()
    ensures !IsJar(Placeholder)
  {
    assert Placeholder[|Placeholder| - 4..] == "lled";
  }

  /** The jar names of a directory listing, in listing order. */
  function JarNames(entries: seq<string>): (r: seq<string>)
    ensures forall i :: 0 <= i < |r| ==> IsJar(r[i])
    ensures forall x :: x in multiset(r) <==> x in multiset(entries) && IsJar(x)
  {
    if entries == [] then []
    else if IsJar(entries[0]) then [entries[0]] + JarNames(entries[1..])
    else JarNames(entries[1..])
  }

  /** Each name occurs in the jar list as often as among all entries, if it is a jar. */
  lemma {:induction false} JarNamesCount(entries: seq<string>)
    ensures forall x :: IsJar(x) ==> multiset(JarNames(entries))[x] == multiset(entries)[x]
  {
    if entries != [] {
      JarNamesCount(entries[1..]);
      assert entries == [entries[0]] + entries[1..];
    }
  }

  // ---------------------------------------------------------------------------
  // Sorting by name

  predicate Sorted(s: seq<string>) {
    forall i, j :: 0 <= i < j < |s| ==> LexLe(s[i], s[j])
  }

  function Insert(x: string, s: seq<string>): seq<string> {
    if s == [] || LexLe(x, s[0]) then [x] + s
    else [s[0]] + Insert(x, s[1..])
  }

  /** `sorted(...)`: names in Python's string order. */
  function SortNames(s: seq<string>): seq<string> {
    if s == [] then [] else Insert(s[0], SortNames(s[1..]))
  }

  lemma {:induction false} InsertPermutes(x: string, s: seq<string>)
    ensures multiset(Insert(x, s)) == multiset(s) + multiset{x}
  {
    if s != [] && !LexLe(x, s[0]) {
      InsertPermutes(x, s[1..]);
      assert s == [s[0]] + s[1..];
    }
  }

  lemma {:induction false} InsertSorted(x: string, s: seq<string>)
    requires Sorted(s)
    ensures Sorted(Insert(x, s))
  {
    if s == [] || LexLe(x, s[0]) {
      forall j | 0 < j < |s| ensures LexLe(x, s[j]) {
        LexLeTransitive(x, s[0], s[j]);
      }
    } else {
      LexLeTotal(x, s[0]);
      InsertSorted(x, s[1..]);
      InsertPermutes(x, s[1..]);
      var t := Insert(x, s[1..]);
      forall j | 0 <= j < |t| ensures LexLe(s[0], t[j]) {
        assert t[j] in multiset(t);
        assert t[j] == x || t[j] in multiset(s[1..]);
        if t[j] != x {
          var k :| 0 <= k < |s[1..]| && s[1..][k] == t[j];
          assert s[k + 1] == t[j];
        }
      }
    }
  }

  /** Sorting gives the same names, each as often, in Python's order. */
  lemma {:induction false} SortNamesSpec(s: seq<string>)
    ensures Sorted(SortNames(s))
    ensures multiset(SortNames(s)) == multiset(s)
  {
    if s != [] {
      SortNamesSpec(s[1..]);
      InsertSorted(s[0], SortNames(s[1..]));
      InsertPermutes(s[0], SortNames(s[1..]));
      assert s == [s[0]] + s[1..];
    }
  }

  // ---------------------------------------------------------------------------
  // The installed list and deleting from it

  /**
   * The plugins directory as `refresh_installed_plugins` finds it: absent,
   * with whether creating it succeeds, or present with its entries.
   */
  datatype PluginsFolder = Absent(mkdirOk: bool) | Present(entries: seq<string>)

  /**
   * `refresh_installed_plugins`: an absent directory is created and shows the
   * single placeholder, or, when creating it fails, leaves the cleared list
   * empty; a directory without jars shows the placeholder; otherwise the jar
   * names sorted.
   */
  function InstalledListing(folder: PluginsFolder): seq<string> {
    match folder
    case Absent(mkdirOk) => if mkdirOk then [Placeholder] else []
    case Present(entries) =>
      var jars := JarNames(entries);
      if jars == [] then [Placeholder] else SortNames(jars)
  }

  /**
   * The list is empty exactly when the directory could not be created, the
   * placeholder exactly when it was created or holds no jar; otherwise it is
   * the jars of the directory, each once per occurrence, sorted, and the
   * placeholder is not among them.
   */
  lemma InstalledListingSpec(folder: PluginsFolder)
    ensures var r := InstalledListing(folder);
      && (r == [] <==> folder == Absent(false))
      && (r == [Placeholder] <==> folder == Absent(true) || (folder.Present? && forall i :: 0 <= i < |folder.entries| ==> !IsJar(folder.entries[i])))
      && (r != [] && r != [Placeholder] ==> folder.Present? && Sorted(r) && multiset(r) == multiset(JarNames(folder.entries)) && Placeholder !in r)
  {
    PlaceholderIsNotJar();
    if folder.Present? {
      var jars := JarNames(folder.entries);
      if jars != [] {
        SortNamesSpec(jars);
        assert Placeholder !in multiset(jars);
        assert Placeholder !in multiset(SortNames(jars));
        assert Placeholder in multiset([Placeholder]);
        assert jars[0] in multiset(folder.entries);
        assert jars[0] in multiset(SortNames(jars));
      } else {
        forall i | 0 <= i < |folder.entries| ensures !IsJar(folder.entries[i]) {
          assert folder.entries[i] in multiset(folder.entries);
        }
      }
    }
  }

  datatype DeleteOutcome = NothingSelected | Ignored | Declined | Deleted(name: string) | DeleteFailed(name: string)

  /**
   * `delete_plugin` against the set of files in the plugins directory: the
   * placeholder is ignored, a declined confirmation does nothing, and the
   * unlink fails when the file is not there.
   */
  function DeleteDecision(selection: Option<string>, confirmed: bool, files: set<string>): (DeleteOutcome, set<string>) {
    match selection
    case None => (NothingSelected, files)
    case Some(name) =>
      if name == Placeholder then (Ignored, files)
      else if !confirmed then (Declined, files)
      else if name in files then (Deleted(name), files - {name})
      else (DeleteFailed(name), files)
  }

  /** Only a confirmed delete of an existing, non-placeholder name changes the files, and it removes exactly that name. */
  lemma DeleteDecisionSpec(selection: Option<string>, confirmed: bool, files: set<string>)
    ensures var (outcome, after) := DeleteDecision(selection, confirmed, files);
      && (selection.None? ==> outcome == NothingSelected)
      && (selection == Some(Placeholder) ==> outcome == Ignored && after == files)
      && (selection.Some? && selection.value != Placeholder && !confirmed ==> outcome == Declined)
      && (selection.Some? && selection.value != Placeholder && confirmed && selection.value !in files ==>
            outcome == DeleteFailed(selection.value))
      && (outcome.Deleted? <==> selection.Some? && selection.value != Placeholder && confirmed && selection.value in files)
      && (outcome.Deleted? ==> outcome.name == selection.value && after == files - {outcome.name} && |after| == |files| - 1)
      && (!outcome.Deleted? ==> after == files)
  {
  }

  // ---------------------------------------------------------------------------
  // Importing a server folder

  /** A jar whose lower-cased name mentions one of the server keywords. */
  predicate IsServerJar(name: string) {
    var lower := Lower(name);
    IsJar(name) && (Contains(lower, "server") || Contains(lower, "paper") || Contains(lower, "spigot")
                    || Contains(lower, "bukkit") || Contains(lower, "purpur"))
  }

  /** The first server jar of the listing, if any. */
  function ServerJarChoice(entries: seq<string>): (r: Option<string>)
    ensures r.None? <==> forall i :: 0 <= i < |entries| ==> !IsServerJar(entries[i])
    ensures r.Some? ==> exists k :: (0 <= k < |entries| && entries[k] == r.value && IsServerJar(entries[k])
      && forall i :: 0 <= i < k ==> !IsServerJar(entries[i]))
  {
    if entries == [] then None
    else if IsServerJar(entries[0]) then Some(entries[0])
    else
      var rest := ServerJarChoice(entries[1..]);
      assert rest.Some? ==> exists k :: (0 <= k < |entries[1..]| && entries[1..][k] == rest.value && IsServerJar(entries[1..][k])
        && forall i :: 0 <= i < k ==> !IsServerJar(entries[1..][i]));
      assert rest.Some? ==> exists k :: (0 <= k < |entries| && entries[k] == rest.value && IsServerJar(entries[k])
        && forall i :: 0 <= i < k ==> !IsServerJar(entries[i])) by {
        if rest.Some? {
          var k :| 0 <= k < |entries[1..]| && entries[1..][k] == rest.value && IsServerJar(entries[1..][k])
            && forall i :: 0 <= i < k ==> !IsServerJar(entries[1..][i]);
          assert entries[k + 1] == rest.value;
          forall i | 0 <= i < k + 1 ensures !IsServerJar(entries[i]) {
            if i > 0 { assert entries[i] == entries[1..][i - 1]; }
          }
        }
      }
      rest
  }

  /** The first jar whose lower-cased name mentions a keyword wins over later ones. */
  lemma ServerJarFirstExample()
    ensures ServerJarChoice(["world", "Paper-1.21.4.jar", "server.jar"]) == Some("Paper-1.21.4.jar")
  {
    assert "world"[1..] == "orld";
    assert !IsJar("world");
    var lower := Lower("Paper-1.21.4.jar");
    assert lower == "paper-1.21.4.jar";
    assert "paper" <= lower;
    assert IsJar("Paper-1.21.4.jar");
    assert IsServerJar("Paper-1.21.4.jar");
    assert ["world", "Paper-1.21.4.jar", "server.jar"][1..] == ["Paper-1.21.4.jar", "server.jar"];
  }

  /**
   * `NotImported` changes nothing; `ImportAborted` is the state left when the
   * plugins directory cannot be created after the server paths were set.
   */
  datatype ImportOutcome =
    | Cancelled
    | NotImported
    | ImportAborted(jarName: string, settings: Settings)
    | Imported(jarName: string, settings: Settings)

  /**
   * `import_server_folder`: an empty directory choice cancels; with no server
   * jar the import goes on as `server.jar` only if the user agrees; the server
   * directory and jar path are set under the folder, then the plugins path,
   * which needs `folder/plugins` to be a directory already or to be created
   * (`pluginsReady`); when it is neither, the import stops there.
   */
  function ImportFolder(current: Settings, directory: string, entries: seq<string>,
                        importWithoutJar: bool, pluginsReady: bool): (r: ImportOutcome)
    ensures r == Cancelled <==> directory == ""
    ensures r.NotImported? <==> directory != "" && ServerJarChoice(entries).None? && !importWithoutJar
  {
    if directory == "" then Cancelled
    else
      var choice := ServerJarChoice(entries);
      if choice.None? && !importWithoutJar then NotImported
      else
        var name := choice.GetOr("server.jar");
        var located := current.(serverDir := directory, serverJar := Join(directory, name));
        if !pluginsReady then ImportAborted(name, located)
        else Imported(name, located.(pluginsDir := Join(directory, "plugins")))
  }

  /**
   * Once the folder is taken, the server directory is the folder and the jar
   * path the chosen jar inside it, so that (for an absolute folder) starting
   * the server looks for that jar; memory, type and version stay as they
   * were; the plugins path moves into the folder only when the import
   * completes.
   */
  lemma ImportFolderSpec(current: Settings, directory: string, entries: seq<string>,
                         importWithoutJar: bool, pluginsReady: bool)
    ensures var r := ImportFolder(current, directory, entries, importWithoutJar, pluginsReady);
      && (directory == "" ==> r == Cancelled)
      && (r.Imported? || r.ImportAborted? <==> directory != "" && (ServerJarChoice(entries).Some? || importWithoutJar))
      && (r.Imported? <==> directory != "" && (ServerJarChoice(entries).Some? || importWithoutJar) && pluginsReady)
      && (r.Imported? || r.ImportAborted? ==>
            && r.jarName == (if ServerJarChoice(entries).Some? then ServerJarChoice(entries).value else "server.jar")
            && r.settings.serverDir == directory
            && r.settings.serverJar == Join(directory, r.jarName)
            && (IsAbs(directory) ==> ResolveJarPath(r.settings.serverDir, r.settings.serverJar) == Join(directory, r.jarName))
            && r.settings.serverMemory == current.serverMemory
            && r.settings.serverType == current.serverType
            && r.settings.serverVersion == current.serverVersion)
      && (r.Imported? ==> r.settings.pluginsDir == Join(directory, "plugins"))
      && (r.ImportAborted? ==> r.settings.pluginsDir == current.pluginsDir)
  {
  }
}
