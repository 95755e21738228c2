/**
 * The [project_map] shortcode (templates/map-shortcode.php and the attribute
 * defaults of project_map_shortcode): how the attributes are read, which
 * blocks and filter dropdowns the template renders, and the initial filter
 * the template hands to the front-end script through data attributes.
 */
module MapShortcode {
  import opened Wrappers
  import opened Text
  import opened Records
  import opened MapData

  datatype Attributes = Attributes(
    country: string,
    projectType: string,
    solutionType: string,
    showFilters: string,
    showStats: string,
    showSearch: string,
    height: string)

  /** `shortcode_atts`: each known attribute as given, or its default; unknown ones are dropped. */
  function WithDefaults(given: map<string, string>): (r: Attributes)
    ensures "country" !in given ==> r.country == ""
    ensures "show_filters" !in given ==> r.showFilters == "true"
    ensures "height" !in given ==> r.height == "800px"
  {
    Attributes(
      if "country" in given then given["country"] else "",
      if "project_type" in given then given["project_type"] else "",
      if "solution_type" in given then given["solution_type"] else "",
      if "show_filters" in given then given["show_filters"] else "true",
      if "show_stats" in given then given["show_stats"] else "true",
      if "show_search" in given then given["show_search"] else "true",
      if "height" in given then given["height"] else "800px")
  }

  /** The words FILTER_VALIDATE_BOOLEAN reads as true, once lower-cased. */
  predicate TrueWord(t: string) {
    t == "1" || t == "true" || t == "on" || t == "yes"
  }

  /** `filter_var($s, FILTER_VALIDATE_BOOLEAN)`: a true word in any case, around blanks. */
  predicate FilterBool(s: string) {
    TrueWord(Lower(Trim(s)))
  }

  /** An attribute without surrounding blanks is judged by its lower-case form. */
  lemma FilterBoolOf(s: string, t: string)
    requires Trimmed(s) && Lower(s) == t
    ensures FilterBool(s) <==> TrueWord(t)
  {
    TrimTrimmed(s);
  }

  /** The default attribute value "true" reads as true. */
  lemma FilterBoolDefault()
    ensures FilterBool("true")
  {
    FilterBoolOf("true", "true");
  }

  /** Case does not matter: "TRUE" is true. */
  lemma FilterBoolUpper()
    ensures FilterBool("TRUE")
  {
    FilterBoolOf("TRUE", "true");
  }

  /** The word "false" is false, like any word that is not a true word. */
  lemma FilterBoolFalse()
    ensures !FilterBool("false")
  {
    FilterBoolOf("false", "false");
  }

  /** What the shortcode renders, as far as the behaviour goes. */
  datatype MapView = MapView(
    statsBlock: bool,
    filtersBlock: bool,
    countryDropdown: bool,
    projectTypeDropdown: bool,
    solutionTypeDropdown: bool,
    searchButton: bool,
    searchBar: bool,
    dataCountry: string,
    dataProjectType: string,
    dataSolutionType: string,
    height: string)

  /** The template, given the attributes and whether any project type exists. */
  function Render(atts: Attributes, hasProjectTypes: bool, host: Host): (r: MapView)
    ensures r.statsBlock <==> FilterBool(atts.showStats)
    ensures r.filtersBlock <==> FilterBool(atts.showFilters)
    ensures r.countryDropdown <==> r.filtersBlock && !Truthy(host.escAttr(atts.country))
    ensures r.projectTypeDropdown <==> r.filtersBlock && hasProjectTypes && Intval(atts.projectType) == 0
    ensures r.solutionTypeDropdown <==> r.filtersBlock && Intval(atts.solutionType) == 0
    ensures r.searchBar <==> FilterBool(atts.showSearch)
    ensures r.searchButton <==> r.filtersBlock && r.searchBar
  {
    var showFilters := FilterBool(atts.showFilters);
    var showSearch := FilterBool(atts.showSearch);
    var country := host.escAttr(atts.country);
    var projectType := Intval(atts.projectType);
    var solutionType := Intval(atts.solutionType);
    MapView(
      FilterBool(atts.showStats),
      showFilters,
      showFilters && !Truthy(country),
      showFilters && hasProjectTypes && projectType == 0,
      showFilters && solutionType == 0,
      showFilters && showSearch,
      showSearch,
      country,
      IntToString(projectType),
      IntToString(solutionType),
      host.escAttr(atts.height))
  }

  /** `[project_map]` without attributes shows every block and every dropdown. */
  lemma DefaultsShowAll(hasProjectTypes: bool, host: Host)
    requires host.escAttr("") == ""
    ensures var v := Render(WithDefaults(map[]), hasProjectTypes, host);
      v.statsBlock && v.filtersBlock && v.countryDropdown && v.solutionTypeDropdown && v.searchBar && v.searchButton
      && (v.projectTypeDropdown <==> hasProjectTypes)
  {
    FilterBoolDefault();
    assert LeadingInt("") == None by {
      assert SkipSpace("") == "";
      assert LeadingDigits("") == "";
    }
  }

  /** The script starts from exactly the filter the shortcode fixed: the country attribute and the intval of each type. */
  lemma InitialFilterReadBack(atts: Attributes, hasProjectTypes: bool, host: Host)
    ensures var v := Render(atts, hasProjectTypes, host);
      MapFilter(v.dataCountry, ParseIntOr(v.dataProjectType, 0), ParseIntOr(v.dataSolutionType, 0), "")
        == MapFilter(host.escAttr(atts.country), Intval(atts.projectType), Intval(atts.solutionType), "")
  {
    LeadingIntOfString(Intval(atts.projectType));
    LeadingIntOfString(Intval(atts.solutionType));
  }

  /** A fixed filter is never offered as a dropdown: the visitor cannot widen the shortcode's selection. */
  lemma FixedFilterHidden(atts: Attributes, hasProjectTypes: bool, host: Host)
    ensures var v := Render(atts, hasProjectTypes, host);
      && (Intval(atts.projectType) != 0 ==> !v.projectTypeDropdown)
      && (Intval(atts.solutionType) != 0 ==> !v.solutionTypeDropdown)
      && (Truthy(v.dataCountry) ==> !v.countryDropdown)
  {
  }
}
