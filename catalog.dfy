/**
 * Searching the Modrinth catalog: the request sent, the per-hit compatibility
 * rule, the decorated titles, and the `plugins_data` index built from the hits.
 */
module Catalog {
  import opened Text

  /** One entry of the search response's `hits` array; a missing JSON key is None. */
  datatype Hit = Hit(
    projectId: Option<string>,
    title: Option<string>,
    author: Option<string>,
    downloads: Option<int>,
    latestVersion: Option<string>,
    gameVersions: Option<seq<string>>,
    slug: Option<string>,
    description: Option<string>)

  function HitId(h: Hit): string { h.projectId.GetOr("") }
  function HitTitle(h: Hit): string { h.title.GetOr("Unknown") }
  function HitGameVersions(h: Hit): seq<string> { h.gameVersions.GetOr([]) }

  /** What `plugins_data[project_id]` holds for a hit. */
  datatype PluginInfo = PluginInfo(
    title: string,
    projectId: string,
    slug: string,
    description: string,
    compatible: bool,
    gameVersions: seq<string>)

  /** One row scheduled for the results tree: item id, decorated title, author, downloads, latest version. */
  datatype Row = Row(iid: string, title: string, author: string, downloads: int, latestVersion: string)

  // ---------------------------------------------------------------------------
  // The request

  const SearchUrl: string := "https://api.modrinth.com/v2/search"
  /** `json.dumps([["project_type:plugin"]])`. */
  const PluginFacets: string := "[[\"project_type:plugin\"]]"
  const SearchLimit: nat := 20

  datatype SearchParams = SearchParams(url: string, query: string, facets: string, limit: nat)

  /**
   * The search request: the query, the plugin facet alone (no loader facet)
   * and at most 20 hits.
   */
  function SearchRequest(query: string): (p: SearchParams)
    ensures p.query == query && p.facets == PluginFacets && p.limit == 20
  {
    SearchParams(SearchUrl, query, PluginFacets, SearchLimit)
  }

  // ---------------------------------------------------------------------------
  // Loaders

  const KnownTypes: set<string> := {"paper", "spigot", "bukkit", "purpur", "fabric", "forge", "vanilla"}

  const LoaderMap: map<string, string> :=
    map["paper" := "paper", "spigot" := "spigot", "bukkit" := "bukkit", "purpur" := "purpur",
        "fabric" := "fabric", "forge" := "forge", "vanilla" := "bukkit"]

  /** `loader_map.get(server_type, "paper")`. Computed by the search and never sent. */
  function LoaderFor(serverType: string): string {
    if serverType in LoaderMap then LoaderMap[serverType] else "paper"
  }

  /** A known type names its own loader, except vanilla, which uses bukkit; anything else falls back to paper. */
  lemma LoaderForSpec(serverType: string)
    ensures serverType in KnownTypes && serverType != "vanilla" ==> LoaderFor(serverType) == serverType
    ensures LoaderFor("vanilla") == "bukkit"
    ensures serverType !in KnownTypes ==> LoaderFor(serverType) == "paper"
    ensures LoaderFor(serverType) in KnownTypes - {"vanilla"}
  {
  }

  // ---------------------------------------------------------------------------
  // Compatibility and titles

  /** A hit suits the configured version when no version is configured, it lists that version, or it lists none. */
  predicate Compatible(serverVersion: string, gameVersions: seq<string>) {
    serverVersion == "" || serverVersion in gameVersions || gameVersions == []
  }

  /** An empty version list always suits; `["1.20.1"]` does not suit `1.21.4`; a list naming the version does. */
  lemma CompatibleExamples(serverVersion: string)
    ensures Compatible(serverVersion, [])
    ensures !Compatible("1.21.4", ["1.20.1"])
    ensures Compatible("1.21.4", ["1.20.1", "1.21.4"])
  {
  }

  /** An incompatible hit always lists some versions, none of them the configured one. */
  lemma IncompatibleMeansListed(serverVersion: string, gameVersions: seq<string>)
    requires !Compatible(serverVersion, gameVersions)
    ensures serverVersion != "" && gameVersions != [] && serverVersion !in gameVersions
  {
  }

  const WarnPrefix: string := "\U{26A0}\U{FE0F} "
  const CheckPrefix: string := "\U{2713} "

  /** The title shown in the results tree, written with the source's three branches. */
  function DisplayTitle(title: string, compatible: bool, gameVersions: seq<string>): string {
    if !compatible && gameVersions != [] then WarnPrefix + title
    else if compatible then CheckPrefix + title
    else title
  }

  /** Every title gets a mark: the undecorated branch cannot be taken. */
  lemma DisplayTitleMarked(serverVersion: string, title: string, gameVersions: seq<string>)
    ensures DisplayTitle(title, Compatible(serverVersion, gameVersions), gameVersions)
      == (if Compatible(serverVersion, gameVersions) then CheckPrefix else WarnPrefix) + title
  {
  }

  function InfoOf(h: Hit, serverVersion: string): PluginInfo {
    var gv := HitGameVersions(h);
    PluginInfo(HitTitle(h), HitId(h), h.slug.GetOr(""), h.description.GetOr(""), Compatible(serverVersion, gv), gv)
  }

  function RowOf(h: Hit, serverVersion: string): Row {
    var gv := HitGameVersions(h);
    Row(HitId(h), DisplayTitle(HitTitle(h), Compatible(serverVersion, gv), gv),
        h.author.GetOr("Unknown"), h.downloads.GetOr(0), h.latestVersion.GetOr("N/A"))
  }

  predicate HitCompatible(h: Hit, serverVersion: string) {
    Compatible(serverVersion, HitGameVersions(h))
  }

  // ---------------------------------------------------------------------------
  // The results loop, as functions of the hits processed so far

  /** `plugins_data` after the loop has stored each of `hits`, in order, into an empty dict. */
  function Index(hits: seq<Hit>, serverVersion: string): map<string, PluginInfo>
    decreases |hits|
  {
    if hits == [] then map[]
    else Index(hits[..|hits| - 1], serverVersion)[HitId(hits[|hits| - 1]) := InfoOf(hits[|hits| - 1], serverVersion)]
  }

  /** `compatible_count` after the loop over `hits`. */
  function CompatibleCount(hits: seq<Hit>, serverVersion: string): nat
    decreases |hits|
  {
    if hits == [] then 0
    else CompatibleCount(hits[..|hits| - 1], serverVersion)
         + (if HitCompatible(hits[|hits| - 1], serverVersion) then 1 else 0)
  }

  /** The rows scheduled for the results tree after the loop over `hits`. */
  function Rows(hits: seq<Hit>, serverVersion: string): seq<Row>
    decreases |hits|
  {
    if hits == [] then []
    else Rows(hits[..|hits| - 1], serverVersion) + [RowOf(hits[|hits| - 1], serverVersion)]
  }

  /** The project ids among the hits. */
  ghost function Ids(hits: seq<Hit>): set<string>
    decreases |hits|
  {
    if hits == [] then {} else Ids(hits[..|hits| - 1]) + {HitId(hits[|hits| - 1])}
  }

  lemma {:induction false} IdsMembers(hits: seq<Hit>)
    ensures forall i :: 0 <= i < |hits| ==> HitId(hits[i]) in Ids(hits)
    ensures forall id :: id in Ids(hits) ==> exists i :: 0 <= i < |hits| && HitId(hits[i]) == id
  {
    if hits != [] {
      var n := |hits| - 1;
      var front := hits[..n];
      IdsMembers(front);
      forall id | id in Ids(hits) ensures exists i :: 0 <= i < |hits| && HitId(hits[i]) == id {
        if id != HitId(hits[n]) {
          var i :| 0 <= i < n && HitId(front[i]) == id;
          assert hits[i] == front[i];
        }
      }
      forall i | 0 <= i < n ensures HitId(hits[i]) in Ids(hits) {
        assert hits[i] == front[i];
      }
    }
  }

  /** `hits[i]` is the last hit carrying its project id. */
  ghost predicate LastWithId(hits: seq<Hit>, i: int) {
    0 <= i < |hits| && forall j :: i < j < |hits| ==> HitId(hits[j]) != HitId(hits[i])
  }

  lemma {:induction false} IndexKeys(hits: seq<Hit>, serverVersion: string)
    ensures Index(hits, serverVersion).Keys == Ids(hits)
  {
    if hits != [] {
      IndexKeys(hits[..|hits| - 1], serverVersion);
    }
  }

  lemma {:induction false} IndexLast(hits: seq<Hit>, serverVersion: string, i: int)
    requires LastWithId(hits, i)
    ensures HitId(hits[i]) in Index(hits, serverVersion)
    ensures Index(hits, serverVersion)[HitId(hits[i])] == InfoOf(hits[i], serverVersion)
  {
    var n := |hits| - 1;
    if i < n {
      var front := hits[..n];
      assert hits[i] == front[i];
      assert LastWithId(front, i) by {
        forall j | i < j < |front| ensures HitId(front[j]) != HitId(front[i]) {
          assert front[j] == hits[j];
        }
      }
      IndexLast(front, serverVersion, i);
      assert HitId(hits[n]) != HitId(hits[i]);
    }
  }

  /**
   * The index has one key per distinct project id among the hits, and each
   * key holds the data of the last hit with that id.
   */
  lemma IndexSpec(hits: seq<Hit>, serverVersion: string)
    ensures Index(hits, serverVersion).Keys == Ids(hits)
    ensures forall id :: id in Index(hits, serverVersion) <==> exists i :: 0 <= i < |hits| && HitId(hits[i]) == id
    ensures forall i :: LastWithId(hits, i) ==> Index(hits, serverVersion)[HitId(hits[i])] == InfoOf(hits[i], serverVersion)
  {
    IndexKeys(hits, serverVersion);
    IdsMembers(hits);
    forall i | LastWithId(hits, i)
      ensures Index(hits, serverVersion)[HitId(hits[i])] == InfoOf(hits[i], serverVersion)
    {
      IndexLast(hits, serverVersion, i);
    }
  }

  /** Every entry is stored under its own project id. */
  lemma {:induction false} IndexKeyedById(hits: seq<Hit>, serverVersion: string)
    ensures forall id :: id in Index(hits, serverVersion) ==> Index(hits, serverVersion)[id].projectId == id
  {
    if hits != [] {
      IndexKeyedById(hits[..|hits| - 1], serverVersion);
    }
  }

  /** Hits with distinct ids give an index as large as the hit list. */
  lemma {:induction false} IndexSizeDistinct(hits: seq<Hit>, serverVersion: string)
    requires forall i, j :: 0 <= i < j < |hits| ==> HitId(hits[i]) != HitId(hits[j])
    ensures |Index(hits, serverVersion)| == |hits|
  {
    if hits != [] {
      var n := |hits| - 1;
      var front := hits[..n];
      IndexSizeDistinct(front, serverVersion);
      IndexKeys(front, serverVersion);
      IdsMembers(front);
      assert HitId(hits[n]) !in Ids(front) by {
        forall i | 0 <= i < n ensures HitId(front[i]) != HitId(hits[n]) {
          assert front[i] == hits[i];
        }
      }
    }
  }

  /** The count never exceeds the number of hits and reaches it exactly when every hit is compatible. */
  lemma {:induction false} CompatibleCountSpec(hits: seq<Hit>, serverVersion: string)
    ensures CompatibleCount(hits, serverVersion) <= |hits|
    ensures CompatibleCount(hits, serverVersion) == |hits|
      <==> forall i :: 0 <= i < |hits| ==> HitCompatible(hits[i], serverVersion)
    ensures CompatibleCount(hits, serverVersion) == 0
      <==> forall i :: 0 <= i < |hits| ==> !HitCompatible(hits[i], serverVersion)
  {
    if hits != [] {
      var n := |hits| - 1;
      var front := hits[..n];
      CompatibleCountSpec(front, serverVersion);
      assert forall i :: 0 <= i < n ==> front[i] == hits[i];
    }
  }

  /** There is one row per hit, in catalog order, each marked as the compatibility rule says. */
  lemma {:induction false} RowsSpec(hits: seq<Hit>, serverVersion: string)
    ensures |Rows(hits, serverVersion)| == |hits|
    ensures forall i :: 0 <= i < |hits| ==> Rows(hits, serverVersion)[i] == RowOf(hits[i], serverVersion)
    ensures forall i :: 0 <= i < |hits| ==>
      Rows(hits, serverVersion)[i].title
        == (if HitCompatible(hits[i], serverVersion) then CheckPrefix else WarnPrefix) + HitTitle(hits[i])
  {
    if hits != [] {
      var n := |hits| - 1;
      RowsSpec(hits[..n], serverVersion);
      assert forall i :: 0 <= i < n ==> hits[..n][i] == hits[i];
    }
  }

  /** The count is the number of compatible hits, so of rows marked with the check sign. */
  lemma {:induction false} CountMatchesMarks(hits: seq<Hit>, serverVersion: string)
    ensures CompatibleCount(hits, serverVersion) == |set i | 0 <= i < |hits| && HitCompatible(hits[i], serverVersion)|
  {
    if hits != [] {
      var n := |hits| - 1;
      var front := hits[..n];
      CountMatchesMarks(front, serverVersion);
      var a := set i | 0 <= i < n && HitCompatible(front[i], serverVersion);
      var b := set i | 0 <= i < |hits| && HitCompatible(hits[i], serverVersion);
      assert forall i :: 0 <= i < n ==> front[i] == hits[i];
      if HitCompatible(hits[n], serverVersion) {
        assert b == a + {n};
      } else {
        assert b == a;
      }
    }
  }
}
