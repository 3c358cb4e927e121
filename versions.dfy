/**
 * Installing a plugin: fetching its version list (filtered by game version,
 * then unfiltered when that comes back empty), choosing a version, and
 * choosing the file to download.
 */
module Versions {
  import opened Text

  /** One file of a version; a missing JSON key is None. */
  datatype FileEntry = FileEntry(url: Option<string>, filename: Option<string>)

  /** One entry of the version list; a missing JSON key is None. */
  datatype Version = Version(
    gameVersions: Option<seq<string>>,
    loaders: Option<seq<string>>,
    files: Option<seq<FileEntry>>)

  function GameVersionsOf(v: Version): seq<string> { v.gameVersions.GetOr([]) }
  function LoadersOf(v: Version): seq<string> { v.loaders.GetOr([]) }
  function FilesOf(v: Version): seq<FileEntry> { v.files.GetOr([]) }

  // ---------------------------------------------------------------------------
  // Requests

  const ProjectUrl: string := "https://api.modrinth.com/v2/project/"

  datatype VersionQuery = VersionQuery(url: string, gameVersionsParam: Option<string>)

  function VersionsUrl(projectId: string): string {
    ProjectUrl + projectId + "/version"
  }

  /** The first request: filtered by `["<version>"]` when a server version is configured. */
  function FilteredQuery(projectId: string, serverVersion: string): (q: VersionQuery)
    ensures q.url == VersionsUrl(projectId)
    ensures q.gameVersionsParam.Some? <==> serverVersion != ""
    ensures serverVersion != "" ==> q.gameVersionsParam.value == "[\"" + serverVersion + "\"]"
  {
    VersionQuery(VersionsUrl(projectId), if serverVersion == "" then None else Some("[\"" + serverVersion + "\"]"))
  }

  /** The second request, with no filter. */
  function UnfilteredQuery(projectId: string): (q: VersionQuery)
    ensures q.url == VersionsUrl(projectId) && q.gameVersionsParam.None?
  {
    VersionQuery(VersionsUrl(projectId), None)
  }

  /** The unfiltered request is sent only when the filtered one succeeded with an empty list and a version was configured. */
  predicate NeedsRefetch(serverVersion: string, first: Response<seq<Version>>) {
    first == Ok([]) && serverVersion != ""
  }

  /** The version list the selection works on: the first response, or the second when a refetch was needed. */
  function FetchVersions(serverVersion: string, first: Response<seq<Version>>, second: Response<seq<Version>>): (r: Response<seq<Version>>)
    ensures NeedsRefetch(serverVersion, first) ==> r == second
    ensures !NeedsRefetch(serverVersion, first) ==> r == first
  {
    if NeedsRefetch(serverVersion, first) then second else first
  }

  // ---------------------------------------------------------------------------
  // Selection

  /** `not server_version or server_version in version_game_versions`. */
  predicate VersionMatches(v: Version, serverVersion: string) {
    serverVersion == "" || serverVersion in GameVersionsOf(v)
  }

  /** The loader condition the source computes and then never uses in the choice. */
  predicate LoaderMatches(v: Version, serverType: string) {
    serverType == "" || serverType in LoadersOf(v) || LoadersOf(v) == []
  }

  /** The position of the first version matching the server version, if any. */
  function FirstMatch(versions: seq<Version>, serverVersion: string): (r: Option<nat>)
    ensures r.Some? ==> r.value < |versions| && VersionMatches(versions[r.value], serverVersion)
    ensures r.Some? ==> forall i :: 0 <= i < r.value ==> !VersionMatches(versions[i], serverVersion)
    ensures r.None? <==> forall i :: 0 <= i < |versions| ==> !VersionMatches(versions[i], serverVersion)
  {
    if versions == [] then None
    else if VersionMatches(versions[0], serverVersion) then Some(0)
    else match FirstMatch(versions[1..], serverVersion)
      case None => None
      case Some(k) => Some(k + 1)
  }

  /** The chosen version and whether it matched, or `versions[0]` with `false` as the fallback. */
  function Selected(versions: seq<Version>, serverVersion: string): (Version, bool)
    requires versions != []
  {
    match FirstMatch(versions, serverVersion)
    case Some(k) => (versions[k], true)
    case None => (versions[0], false)
  }

  /**
   * The selection loop of the installer: the first version, in list order,
   * whose game versions contain the server version; the loader condition is
   * computed and ignored, as in the source.
   */
  method SelectVersion(versions: seq<Version>, serverVersion: string, serverType: string)
    returns (best: Version, exact: bool)
    requires versions != []
    ensures exact <==> exists k :: 0 <= k < |versions| && VersionMatches(versions[k], serverVersion)
    ensures exact ==> exists k :: (0 <= k < |versions| && best == versions[k]
      && VersionMatches(versions[k], serverVersion)
      && forall i :: 0 <= i < k ==> !VersionMatches(versions[i], serverVersion))
    ensures !exact ==> best == versions[0]
    ensures (best, exact) == Selected(versions, serverVersion)
  {
    var found: Option<Version> := None;
    var i := 0;
    while i < |versions|
      invariant 0 <= i <= |versions|
      invariant found == None
      invariant forall j :: 0 <= j < i ==> !VersionMatches(versions[j], serverVersion)
    {
      var versionMatches := VersionMatches(versions[i], serverVersion);
      var loaderMatches := LoaderMatches(versions[i], serverType);
      if versionMatches {
        found := Some(versions[i]);
        break;
      }
      i := i + 1;
    }
    if found.None? {
      best, exact := versions[0], false;
    } else {
      best, exact := found.value, true;
    }
  }

  /** Two lists that differ only in their loaders lead to the same position. */
  lemma {:induction false} SelectionIgnoresLoaders(vs: seq<Version>, ws: seq<Version>, serverVersion: string)
    requires |vs| == |ws|
    requires forall i :: 0 <= i < |vs| ==> GameVersionsOf(vs[i]) == GameVersionsOf(ws[i])
    ensures FirstMatch(vs, serverVersion) == FirstMatch(ws, serverVersion)
  {
    if vs != [] {
      SelectionIgnoresLoaders(vs[1..], ws[1..], serverVersion);
    }
  }

  /**
   * Where the source departs from the loader-aware rule: the first entry
   * matches the version but not the `paper` loader, the second matches both,
   * and the first is chosen.
   */
  lemma LoaderMismatchStillChosen()
    ensures var fabricOnly := Version(Some(["1.21.4"]), Some(["fabric"]), Some([]));
      var paper := Version(Some(["1.21.4"]), Some(["paper"]), Some([]));
      && !LoaderMatches(fabricOnly, "paper") && LoaderMatches(paper, "paper")
      && Selected([fabricOnly, paper], "1.21.4") == (fabricOnly, true)
  {
    var fabricOnly := Version(Some(["1.21.4"]), Some(["fabric"]), Some([]));
    assert "paper" != "fabric";
    assert VersionMatches(fabricOnly, "1.21.4");
  }

  // ---------------------------------------------------------------------------
  // The whole install decision

  datatype InstallOutcome =
    | NoSelection
    | PluginNotFound
    | RequestFailed
    | NoVersionsAvailable
    | NoDownloadableFiles
    | Download(url: string, filename: string, exact: bool)

  /** The file name used when the primary file carries none. */
  function DefaultFilename(projectId: string): string { projectId + ".jar" }

  /**
   * What the primary file of the chosen version leads to: its URL and file
   * name; a missing URL makes the download request itself fail.
   */
  function FileChoice(projectId: string, files: seq<FileEntry>, exact: bool): InstallOutcome {
    if files == [] then NoDownloadableFiles
    else match files[0].url
      case None => RequestFailed
      case Some(u) => Download(u, files[0].filename.GetOr(DefaultFilename(projectId)), exact)
  }

  /** `_install_plugin_thread` up to the download: fetch, fall back, select, pick the file. */
  function InstallDecision(projectId: string, serverVersion: string,
                           first: Response<seq<Version>>, second: Response<seq<Version>>): InstallOutcome
  {
    match FetchVersions(serverVersion, first, second)
    case Failed => RequestFailed
    case Ok(vs) =>
      if vs == [] then NoVersionsAvailable
      else
        var (best, exact) := Selected(vs, serverVersion);
        FileChoice(projectId, FilesOf(best), exact)
  }

  /** The second response is read only when a refetch was needed. */
  lemma RefetchOnlyWhenEmpty(projectId: string, serverVersion: string, first: Response<seq<Version>>,
                             second1: Response<seq<Version>>, second2: Response<seq<Version>>)
    requires !NeedsRefetch(serverVersion, first)
    ensures InstallDecision(projectId, serverVersion, first, second1) == InstallDecision(projectId, serverVersion, first, second2)
  {
  }

  /**
   * The outcomes of an install, stated against the final version list: no
   * download without versions or files; otherwise the primary file of the
   * chosen version, named by its filename or `<project>.jar`.
   */
  lemma InstallDecisionSpec(projectId: string, serverVersion: string,
                            first: Response<seq<Version>>, second: Response<seq<Version>>)
    ensures var r := InstallDecision(projectId, serverVersion, first, second);
      var fetched := FetchVersions(serverVersion, first, second);
      && (fetched.Failed? ==> r == RequestFailed)
      && (fetched == Ok([]) <==> r == NoVersionsAvailable)
      && (r == RequestFailed && fetched.Ok? ==>
            (fetched.body != []
             && FilesOf(Selected(fetched.body, serverVersion).0) != []
             && FilesOf(Selected(fetched.body, serverVersion).0)[0].url.None?))
      && (r == NoDownloadableFiles ==>
            (fetched.Ok? && fetched.body != [] && FilesOf(Selected(fetched.body, serverVersion).0) == []))
      && (r.Download? ==> fetched.Ok? && exists k :: (0 <= k < |fetched.body|
            && FilesOf(fetched.body[k]) != []
            && FilesOf(fetched.body[k])[0].url == Some(r.url)
            && r.filename == FilesOf(fetched.body[k])[0].filename.GetOr(projectId + ".jar")
            && (r.exact ==>
                  (VersionMatches(fetched.body[k], serverVersion)
                   && forall i :: 0 <= i < k ==> !VersionMatches(fetched.body[i], serverVersion)))
            && (!r.exact ==>
                  (k == 0 && forall i :: 0 <= i < |fetched.body| ==> !VersionMatches(fetched.body[i], serverVersion)))))
      && (fetched.Ok? && fetched.body != [] ==>
            var (best, exact) := Selected(fetched.body, serverVersion);
            && (FilesOf(best) == [] ==> r == NoDownloadableFiles)
            && (FilesOf(best) != [] && FilesOf(best)[0].url.None? ==> r == RequestFailed)
            && (FilesOf(best) != [] && FilesOf(best)[0].url.Some? ==>
                  r == Download(FilesOf(best)[0].url.value, FilesOf(best)[0].filename.GetOr(projectId + ".jar"), exact)))
      && !r.NoSelection? && !r.PluginNotFound?
  {
    var fetched := FetchVersions(serverVersion, first, second);
    if fetched.Ok? && fetched.body != [] {
      var vs := fetched.body;
      match FirstMatch(vs, serverVersion)
      case Some(k) =>
      case None =>
    }
  }

  /**
   * One matching entry with one file `f.jar`: that file is downloaded from
   * its URL under its own name, as an exact match.
   */
  lemma SingleVersionExample()
    ensures var v := Version(Some(["1.21.4"]), Some(["paper"]), Some([FileEntry(Some("http://x/f.jar"), Some("f.jar"))]));
      InstallDecision("abc", "1.21.4", Ok([v]), Failed) == Download("http://x/f.jar", "f.jar", true)
  {
    var v := Version(Some(["1.21.4"]), Some(["paper"]), Some([FileEntry(Some("http://x/f.jar"), Some("f.jar"))]));
    assert VersionMatches(v, "1.21.4");
  }
}
