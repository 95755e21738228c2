/**
 * The Settings screen (admin/settings.php): saving the form into the
 * WordPress options, reading the options back with their defaults, and the
 * rules that decide which of the Mapbox and OpenStreetMap fields, style
 * lists and warnings the screen shows.
 */
module Settings {
  import opened Text
  import opened Records
  import opened MapData
  import Frontend

  /** The options table: `update_option` writes a value, `get_option` reads it or the given default. */
  class OptionStore {
    var options: map<string, string>

    constructor ()
      ensures options == map[]
    {
      options := map[];
    }

    function Get(name: string, default: string): (r: string)
      reads this
      ensures name !in options ==> r == default
      ensures name in options ==> r == options[name]
    {
      if name in options then options[name] else default
    }

    method Update(name: string, value: string)
      modifies this
      ensures options == old(options)[name := value]
    {
      options := options[name := value];
    }
  }

  /** `$_POST[$key]`, with a missing key read as ''. */
  function Posted(post: map<string, string>, key: string): string {
    if key in post then post[key] else ""
  }

  /** The option names the save writes. */
  const SavedNames: set<string> := {
    "pmp_mapbox_token", "pmp_map_style", "pmp_osm_style", "pmp_enable_mapbox",
    "pmp_map_label", "pmp_logo_image",
    "pmp_header_bg_color", "pmp_header_text_color", "pmp_accent_color", "pmp_button_text_color"}

  /** The options after a save: each field through its sanitiser, the checkbox as '1' or '0'. */
  function Saved(options: map<string, string>, post: map<string, string>, host: Host): map<string, string> {
    options
      ["pmp_mapbox_token" := host.sanitizeText(Posted(post, "mapbox_token"))]
      ["pmp_map_style" := host.sanitizeText(Posted(post, "map_style"))]
      ["pmp_osm_style" := host.sanitizeText(Posted(post, "osm_style"))]
      ["pmp_enable_mapbox" := if "enable_mapbox" in post then "1" else "0"]
      ["pmp_map_label" := host.sanitizeText(Posted(post, "map_label"))]
      ["pmp_logo_image" := host.escUrlRaw(Posted(post, "logo_image"))]
      ["pmp_header_bg_color" := host.sanitizeHexColor(Posted(post, "header_bg_color"))]
      ["pmp_header_text_color" := host.sanitizeHexColor(Posted(post, "header_text_color"))]
      ["pmp_accent_color" := host.sanitizeHexColor(Posted(post, "accent_color"))]
      ["pmp_button_text_color" := host.sanitizeHexColor(Posted(post, "button_text_color"))]
  }

  /** The checkbox is saved as '1' exactly when it was posted, and as '0' otherwise; no other option is touched. */
  lemma EnableFlagSaved(options: map<string, string>, post: map<string, string>, host: Host)
    ensures Saved(options, post, host)["pmp_enable_mapbox"] == (if "enable_mapbox" in post then "1" else "0")
    ensures Saved(options, post, host).Keys == options.Keys + SavedNames
    ensures forall name :: name in options && name !in SavedNames ==> Saved(options, post, host)[name] == options[name]
  {
    SavedKeys(options, post, host);
    SavedKeepsOthers(options, post, host);
  }

  /** A save writes exactly the saved names, on top of the options already there. */
  lemma SavedKeys(options: map<string, string>, post: map<string, string>, host: Host)
    ensures Saved(options, post, host).Keys == options.Keys + SavedNames
  {
  }

  /** A save leaves every other option as it was. */
  lemma SavedKeepsOthers(options: map<string, string>, post: map<string, string>, host: Host)
    ensures forall name :: name in options && name !in SavedNames ==> Saved(options, post, host)[name] == options[name]
  {
  }

  /** What the screen does with the request: `wp_die`, or the page with its notice ('' for none). */
  datatype Outcome = Died(text: string) | Shown(message: string, kind: string)

  /** The save handler: a POST with the nonce field must verify (`nonceOk`); then every option is written. */
  method HandleSave(store: OptionStore, isPost: bool, post: map<string, string>, nonceOk: bool, host: Host)
    returns (outcome: Outcome)
    modifies store
    ensures outcome.Died? ==> store.options == old(store.options)
    ensures !(isPost && "pmp_settings_nonce" in post) ==> store.options == old(store.options) && outcome == Shown("", "")
    ensures isPost && "pmp_settings_nonce" in post && !nonceOk ==> outcome == Died("Security check failed.")
    ensures isPost && "pmp_settings_nonce" in post && nonceOk ==>
      store.options == Saved(old(store.options), post, host) && outcome == Shown("Settings saved successfully.", "success")
  {
    outcome := Shown("", "");
    if isPost && "pmp_settings_nonce" in post {
      if !nonceOk {
        return Died("Security check failed.");
      }
      store.Update("pmp_mapbox_token", host.sanitizeText(Posted(post, "mapbox_token")));
      store.Update("pmp_map_style", host.sanitizeText(Posted(post, "map_style")));
      store.Update("pmp_osm_style", host.sanitizeText(Posted(post, "osm_style")));
      store.Update("pmp_enable_mapbox", if "enable_mapbox" in post then "1" else "0");
      store.Update("pmp_map_label", host.sanitizeText(Posted(post, "map_label")));
      store.Update("pmp_logo_image", host.escUrlRaw(Posted(post, "logo_image")));
      store.Update("pmp_header_bg_color", host.sanitizeHexColor(Posted(post, "header_bg_color")));
      store.Update("pmp_header_text_color", host.sanitizeHexColor(Posted(post, "header_text_color")));
      store.Update("pmp_accent_color", host.sanitizeHexColor(Posted(post, "accent_color")));
      store.Update("pmp_button_text_color", host.sanitizeHexColor(Posted(post, "button_text_color")));
      outcome := Shown("Settings saved successfully.", "success");
    }
  }

  // ---------------------------------------------------------------- reading the settings back

  /** The settings the screen shows. */
  datatype Current = Current(
    mapboxToken: string,
    mapStyle: string,
    enableMapbox: string,
    mapLabel: string,
    logoImage: string,
    headerBgColor: string,
    headerTextColor: string,
    accentColor: string,
    buttonTextColor: string,
    osmStyle: string)

  /** `get_option(name, default)` over an options map. */
  function Option(options: map<string, string>, name: string, default: string): string {
    if name in options then options[name] else default
  }

  /** The `get_option` calls of the screen, with their defaults. */
  function CurrentOf(options: map<string, string>): Current {
    Current(
      Option(options, "pmp_mapbox_token", ""),
      Option(options, "pmp_map_style", "dark-v11"),
      Option(options, "pmp_enable_mapbox", "0"),
      Option(options, "pmp_map_label", "Project Map"),
      Option(options, "pmp_logo_image", ""),
      Option(options, "pmp_header_bg_color", "#1d1d1d"),
      Option(options, "pmp_header_text_color", "#ffffff"),
      Option(options, "pmp_accent_color", "#ffc220"),
      Option(options, "pmp_button_text_color", "#2d2d2d"),
      Option(options, "pmp_osm_style", "standard"))
  }

  /** The screen reads the store through `get_option`. */
  method ReadCurrent(store: OptionStore) returns (c: Current)
    ensures c == CurrentOf(store.options)
  {
    c := Current(
      store.Get("pmp_mapbox_token", ""),
      store.Get("pmp_map_style", "dark-v11"),
      store.Get("pmp_enable_mapbox", "0"),
      store.Get("pmp_map_label", "Project Map"),
      store.Get("pmp_logo_image", ""),
      store.Get("pmp_header_bg_color", "#1d1d1d"),
      store.Get("pmp_header_text_color", "#ffffff"),
      store.Get("pmp_accent_color", "#ffc220"),
      store.Get("pmp_button_text_color", "#2d2d2d"),
      store.Get("pmp_osm_style", "standard"));
  }

  /** A site that never saved the settings sees the defaults: OpenStreetMap, standard tiles, the stock label and colours. */
  lemma FreshSiteDefaults()
    ensures CurrentOf(map[]) == Current("", "dark-v11", "0", "Project Map", "", "#1d1d1d", "#ffffff", "#ffc220", "#2d2d2d", "standard")
    ensures !UseMapbox(CurrentOf(map[]).enableMapbox, CurrentOf(map[]).mapboxToken)
  {
  }

  /** After a save the screen shows what was saved: the sanitised token and the checkbox state. */
  lemma SaveReadBack(options: map<string, string>, post: map<string, string>, host: Host)
    ensures var c := CurrentOf(Saved(options, post, host));
      && c.mapboxToken == host.sanitizeText(Posted(post, "mapbox_token"))
      && (c.enableMapbox == "1" <==> "enable_mapbox" in post)
      && (c.enableMapbox == "1" || c.enableMapbox == "0")
      && c.osmStyle == host.sanitizeText(Posted(post, "osm_style"))
  {
  }

  // ---------------------------------------------------------------- what the screen shows

  const MapboxStyles: seq<(string, string)> := [
    ("dark-v11", "Dark"), ("light-v11", "Light"), ("streets-v12", "Streets"),
    ("outdoors-v12", "Outdoors"), ("satellite-v9", "Satellite"), ("satellite-streets-v12", "Satellite Streets")]

  const OsmStyles: seq<(string, string)> := [
    ("standard", "Standard"), ("humanitarian", "Humanitarian"), ("topo", "Topographic"),
    ("dark", "Dark"), ("light", "Light")]

  /** `$map_styles`: the Mapbox styles when Mapbox is enabled, the OpenStreetMap ones otherwise. */
  function StyleList(enableMapbox: string): (r: seq<(string, string)>)
    ensures enableMapbox == "1" <==> r == MapboxStyles
    ensures enableMapbox != "1" <==> r == OsmStyles
  {
    if enableMapbox == "1" then MapboxStyles else OsmStyles
  }

  /** The visibility decisions of the screen. */
  datatype View = View(
    tokenFieldHidden: bool,
    tokenWarning: bool,
    mapboxStylesHidden: bool,
    osmStylesHidden: bool)

  function ViewOf(c: Current): (r: View)
    ensures r.tokenWarning <==> c.enableMapbox == "1" && !Truthy(c.mapboxToken)
    ensures r.tokenFieldHidden <==> c.enableMapbox != "1"
    ensures r.mapboxStylesHidden != r.osmStylesHidden
  {
    View(c.enableMapbox != "1", c.enableMapbox == "1" && !Truthy(c.mapboxToken),
         c.enableMapbox != "1", c.enableMapbox == "1")
  }

  /**
   * The style select left visible offers exactly `$map_styles`; the warning
   * appears exactly when Mapbox is enabled but the map will not use it.
   */
  lemma VisibleStylesAreStyleList(c: Current)
    ensures var v := ViewOf(c);
      (if v.osmStylesHidden then MapboxStyles else OsmStyles) == StyleList(c.enableMapbox)
    ensures ViewOf(c).tokenWarning <==> c.enableMapbox == "1" && !UseMapbox(c.enableMapbox, c.mapboxToken)
    ensures ViewOf(c).tokenFieldHidden ==> !ViewOf(c).tokenWarning
  {
  }

  /** Every OpenStreetMap style offered has its own tiles on the map; none of them falls back. */
  lemma OsmStylesHaveTiles(k: int)
    requires 0 <= k < |OsmStyles|
    ensures OsmStyles[k].0 in Frontend.OsmLayers
    ensures Frontend.GetOsmTileLayer(OsmStyles[k].0).url == Frontend.OsmLayers[OsmStyles[k].0].url
  {
    Frontend.TileLayerFallback(OsmStyles[k].0);
  }

  /** Saving with the checkbox cleared hides the token field and the warning, whatever the token. */
  lemma DisabledHidesToken(options: map<string, string>, post: map<string, string>, host: Host)
    requires "enable_mapbox" !in post
    ensures var v := ViewOf(CurrentOf(Saved(options, post, host)));
      v.tokenFieldHidden && !v.tokenWarning && v.mapboxStylesHidden && !v.osmStylesHidden
  {
  }
}
