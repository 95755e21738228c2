/**
 * The front-end map script: the cluster icon buckets, the OpenStreetMap tile
 * style table, the cluster radius setting, and the script's module-level
 * state (the current filter, the projects last loaded and whether the first
 * load has happened) together with the handlers that change it.
 */
module Frontend {
  import opened Wrappers
  import opened Text
  import opened Records
  import opened TypeTables
  import opened MapData

  // ---------------------------------------------------------------- cluster icons

  datatype ClusterSize = Small | Medium | Large

  /** `count < 10 ? 'small' : count < 100 ? 'medium' : 'large'`. */
  function SizeOf(count: int): ClusterSize {
    if count < 10 then Small else if count < 100 then Medium else Large
  }

  /** The icon's width and height in px. */
  function Dimension(size: ClusterSize): nat {
    match size
    case Small => 36
    case Medium => 44
    case Large => 52
  }

  /** The icon's font size in px. */
  function FontSize(size: ClusterSize): nat {
    match size
    case Small => 12
    case Medium => 14
    case Large => 16
  }

  /** The Mapbox cluster circle: `['step', ['get', 'point_count'], 25, 10, 30, 100, 40]`. */
  function CircleRadius(count: int): nat {
    if count < 10 then 25 else if count < 100 then 30 else 40
  }

  /** A larger cluster never gets a smaller icon or font, on either backend. */
  lemma ClusterIconMonotone(a: int, b: int)
    requires a <= b
    ensures Dimension(SizeOf(a)) <= Dimension(SizeOf(b))
    ensures FontSize(SizeOf(a)) <= FontSize(SizeOf(b))
    ensures CircleRadius(a) <= CircleRadius(b)
  {
  }

  /** Both backends use the same two thresholds: the circle radius is decided by the Leaflet bucket. */
  lemma CircleRadiusByBucket(a: int, b: int)
    ensures SizeOf(a) == SizeOf(b) <==> CircleRadius(a) == CircleRadius(b)
  {
  }

  /** The three buckets are the counts below 10, from 10 below 100, and from 100 on. */
  lemma SizeBuckets(count: int)
    ensures SizeOf(count) == Small <==> count < 10
    ensures SizeOf(count) == Medium <==> 10 <= count < 100
    ensures SizeOf(count) == Large <==> 100 <= count
  {
  }

  // ---------------------------------------------------------------- tile layers

  datatype TileConfig = TileConfig(url: string, attribution: string)

  datatype TileLayer = TileLayer(url: string, attribution: string, maxZoom: nat, subdomains: string)

  const OsmLayers: map<string, TileConfig> := map[
    "standard" := TileConfig("https://{s}.tile.openstreetmap.org/{z}/{x}/{y}.png",
                             "© OpenStreetMap contributors"),
    "humanitarian" := TileConfig("https://{s}.tile.openstreetmap.fr/hot/{z}/{x}/{y}.png",
                                 "© OpenStreetMap contributors, Tiles: Humanitarian OSM Team"),
    "topo" := TileConfig("https://{s}.tile.opentopomap.org/{z}/{x}/{y}.png",
                         "© OpenStreetMap contributors, SRTM | © OpenTopoMap"),
    "dark" := TileConfig("https://{s}.basemaps.cartocdn.com/dark_all/{z}/{x}/{y}{r}.png",
                         "© OpenStreetMap contributors, © CARTO"),
    "light" := TileConfig("https://{s}.basemaps.cartocdn.com/light_all/{z}/{x}/{y}{r}.png",
                          "© OpenStreetMap contributors, © CARTO")]

  /** `pmp_ajax.osm_style || 'standard'`. */
  function OsmStyle(setting: string): string {
    if setting != "" then setting else "standard"
  }

  /** getOsmTileLayer: the style's tiles, the standard ones for an unknown style. */
  function GetOsmTileLayer(style: string): (r: TileLayer)
    ensures r.maxZoom == 19 && r.subdomains == "abc"
  {
    var config := if style in OsmLayers then OsmLayers[style] else OsmLayers["standard"];
    TileLayer(config.url, config.attribution, 19, "abc")
  }

  /** A known style gets its own tiles; any other name gets the standard tiles. */
  lemma TileLayerFallback(style: string)
    ensures style in OsmLayers ==> GetOsmTileLayer(style).url == OsmLayers[style].url
    ensures style !in OsmLayers ==> GetOsmTileLayer(style) == GetOsmTileLayer("standard")
    ensures GetOsmTileLayer(OsmStyle("")) == GetOsmTileLayer("standard")
  {
  }

  /** The five styles have five different tile servers, so no style is silently replaced by another. */
  lemma TileUrlsDistinct(a: string, b: string)
    requires a in OsmLayers && b in OsmLayers && a != b
    ensures GetOsmTileLayer(a).url != GetOsmTileLayer(b).url
  {
  }

  // ---------------------------------------------------------------- cluster radius

  /** `parseInt(pmp_ajax.cluster_radius) || 50`. */
  function ClusterRadius(setting: string): (r: int)
    ensures r != 0
  {
    ParseIntOr(setting, 50)
  }

  /** A saved radius other than 0 is used as it is; 0 and a non-number give 50. */
  lemma ClusterRadiusSetting(n: int, s: string)
    requires LeadingInt(s).None? || LeadingInt(s) == Some(0)
    ensures n != 0 ==> ClusterRadius(IntToString(n)) == n
    ensures ClusterRadius(s) == 50
  {
    LeadingIntOfString(n);
  }

  // ---------------------------------------------------------------- the script's state

  /** What the map view does after a load. */
  datatype ViewChange = KeepView | FitBounds | ResetView

  /** `if (!isInitialLoad) { projectsData.length > 0 ? fitMapToBounds() : resetMapView() }`. */
  function ViewAfter(initialLoad: bool, count: nat): (r: ViewChange)
    ensures initialLoad <==> r == KeepView
  {
    if initialLoad then KeepView else if count > 0 then FitBounds else ResetView
  }

  /** The outcome of one request: whether `data.success` held, and the number of projects returned. */
  datatype LoadResult = Failed | Loaded(count: nat)

  /** The view changes of successive loads, starting from the state `initialLoad`. */
  function Views(initialLoad: bool, results: seq<LoadResult>): (r: seq<ViewChange>)
    ensures |r| == |results|
    decreases |results|
  {
    if |results| == 0 then []
    else
      match results[0]
      case Failed => [KeepView] + Views(initialLoad, results[1..])
      case Loaded(n) => [ViewAfter(initialLoad, n)] + Views(false, results[1..])
  }

  /** Some load before position k succeeded. */
  predicate LoadedBefore(results: seq<LoadResult>, k: int) {
    exists j :: 0 <= j < k && j < |results| && results[j].Loaded?
  }

  /**
   * From page load on, the first successful load keeps the world view; every
   * later successful load fits the bounds when it returned projects and
   * resets the view when it returned none; a failed load changes nothing.
   */
  lemma {:induction false} ViewsOfLoads(results: seq<LoadResult>, initialLoad: bool, k: int)
    requires 0 <= k < |results|
    ensures results[k].Failed? ==> Views(initialLoad, results)[k] == KeepView
    ensures results[k].Loaded? ==>
      Views(initialLoad, results)[k] == ViewAfter(initialLoad && !LoadedBefore(results, k), results[k].count)
    decreases k
  {
    if k > 0 {
      var next := if results[0].Loaded? then false else initialLoad;
      ViewsOfLoads(results[1..], next, k - 1);
      assert Views(initialLoad, results)[k] == Views(next, results[1..])[k - 1];
      if results[k].Loaded? {
        if LoadedBefore(results[1..], k - 1) {
          var j :| 0 <= j < k - 1 && j < |results[1..]| && results[1..][j].Loaded?;
          assert results[j + 1].Loaded?;
        }
        if LoadedBefore(results, k) && !results[0].Loaded? {
          var j :| 0 <= j < k && j < |results| && results[j].Loaded?;
          assert j != 0;
          assert results[1..][j - 1].Loaded?;
        }
      }
    }
  }

  /** The POST fields loadProjects sends for a filter. */
  function PostOf(f: MapFilter): map<string, string> {
    map["country" := f.country, "project_type" := IntToString(f.projectType),
        "solution_type" := IntToString(f.solutionType), "search" := f.search]
  }

  /** The server reads back the filter the script sends (when the sanitiser leaves the texts as they are). */
  lemma PostReadBack(f: MapFilter, host: Host)
    requires host.sanitizeText(f.country) == f.country && host.sanitizeText(f.search) == f.search
    ensures MapFilterOf(PostOf(f), host) == f
  {
    IntvalOfString(f.projectType);
    IntvalOfString(f.solutionType);
  }

  /** The Leaflet position of a marker: the `[lng, lat]` pair read as `[lat, lng]`. */
  function LeafletLatLng(coordinates: (real, real)): (real, real) {
    (coordinates.1, coordinates.0)
  }

  /** A Leaflet marker sits at the project's own latitude and longitude. */
  lemma LeafletPosition(p: Project, ptypes: seq<TypeRow>, stypes: seq<TypeRow>, countries: seq<Country>,
                        host: Host, placeholder: string)
    ensures LeafletLatLng(FormatForMap(p, ptypes, stypes, countries, host, placeholder).coordinates)
      == (p.latitude, p.longitude)
  {
  }

  /** The module-level variables `currentFilter`, `projectsData` and `isInitialLoad`. */
  class MapScript {
    var filter: MapFilter
    var projects: seq<MapItem>
    var initialLoad: bool

    /** DOMContentLoaded: the filters the shortcode wrote into the wrapper's data attributes. */
    constructor (country: string, projectType: string, solutionType: string)
      ensures filter == MapFilter(country, ParseIntOr(projectType, 0), ParseIntOr(solutionType, 0), "")
      ensures projects == [] && initialLoad
    {
      filter := MapFilter(country, ParseIntOr(projectType, 0), ParseIntOr(solutionType, 0), "");
      projects := [];
      initialLoad := true;
    }

    /** The country dropdown's change handler (the reload it triggers is a separate step). */
    method ChangeCountry(value: string)
      modifies this
      ensures filter == old(filter).(country := value)
      ensures projects == old(projects) && initialLoad == old(initialLoad)
    {
      filter := filter.(country := value);
    }

    method ChangeProjectType(value: string)
      modifies this
      ensures filter == old(filter).(projectType := ParseIntOr(value, 0))
      ensures projects == old(projects) && initialLoad == old(initialLoad)
    {
      filter := filter.(projectType := ParseIntOr(value, 0));
    }

    method ChangeSolutionType(value: string)
      modifies this
      ensures filter == old(filter).(solutionType := ParseIntOr(value, 0))
      ensures projects == old(projects) && initialLoad == old(initialLoad)
    {
      filter := filter.(solutionType := ParseIntOr(value, 0));
    }

    /** The search input's handler, once the debounce has fired. */
    method Search(value: string)
      modifies this
      ensures filter == old(filter).(search := value)
      ensures projects == old(projects) && initialLoad == old(initialLoad)
    {
      filter := filter.(search := value);
    }

    /** The search bar's close button. */
    method CloseSearch()
      modifies this
      ensures filter == old(filter).(search := "")
      ensures projects == old(projects) && initialLoad == old(initialLoad)
    {
      filter := filter.(search := "");
    }

    /** The response of loadProjects' request. */
    method LoadResponse(success: bool, items: seq<MapItem>) returns (view: ViewChange)
      modifies this
      ensures filter == old(filter)
      ensures success ==> projects == items && !initialLoad && view == ViewAfter(old(initialLoad), |items|)
      ensures !success ==> projects == old(projects) && initialLoad == old(initialLoad) && view == KeepView
    {
      view := KeepView;
      if success {
        projects := items;
        if !initialLoad {
          if |projects| > 0 {
            view := FitBounds;
          } else {
            view := ResetView;
          }
        }
        initialLoad := false;
      }
    }
  }
}
