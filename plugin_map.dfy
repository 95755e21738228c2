/**
 * The map side of project-map-plugin.php: the map-library choice made from
 * the settings, format_completion_date, the filter clauses ajax_get_projects
 * and get_statistics build, the statistics they return and the per-project
 * record the map receives.
 */
module MapData {
  import opened Wrappers
  import opened Text
  import opened Records
  import opened Query
  import opened TypeTables

  /** `$use_mapbox`: Mapbox is used only when it is enabled and a token is set. */
  predicate UseMapbox(enableMapbox: string, token: string) {
    enableMapbox == "1" && Truthy(token)
  }

  // ---------------------------------------------------------------- completion date

  const LongMonths: seq<string> := ["January", "February", "March", "April", "May", "June",
    "July", "August", "September", "October", "November", "December"]

  /** format_completion_date: 'N/A' without a year, "Month year" for a month in 1..12, else the year. */
  function FormatCompletionDate(month: int, year: int): string {
    if year == 0 then "N/A"
    else if 1 <= month <= 12 then LongMonths[month - 1] + " " + IntToString(year)
    else IntToString(year)
  }

  /** The position + 1 of `name` in `names`, or 0. */
  function Position(names: seq<string>, name: string): (r: nat)
    ensures r <= |names|
    ensures r > 0 ==> names[r - 1] == name
    ensures r == 0 <==> name !in names
  {
    if |names| == 0 then 0
    else if names[0] == name then 1
    else var q := Position(names[1..], name); if q == 0 then 0 else q + 1
  }

  /** Reads a rendered date back as (month, year), month 0 when none is named. */
  function ParseCompletionDate(s: string, names: seq<string>): (int, int) {
    var parts := Split(s, ' ');
    if |parts| == 2 then (Position(names, parts[0]) as int, Intval(parts[1])) else (0, Intval(s))
  }

  /** Month names are distinct and contain no space. */
  predicate GoodMonthNames(names: seq<string>) {
    && |names| == 12
    && (forall k :: 0 <= k < 12 ==> ' ' !in names[k])
    && (forall j, k :: 0 <= j < k < 12 ==> names[j] != names[k])
  }

  lemma LongMonthsGood()
    ensures GoodMonthNames(LongMonths)
  {
  }

  /** "Month year", or the year alone, reads back as what was rendered. */
  lemma MonthYearReadBack(names: seq<string>, month: int, year: int)
    requires GoodMonthNames(names)
    ensures 1 <= month <= 12 ==> ParseCompletionDate(names[month - 1] + " " + IntToString(year), names) == (month, year)
    ensures ParseCompletionDate(IntToString(year), names) == (0, year)
  {
    YearReadBack(names, year);
    if 1 <= month <= 12 {
      NamedMonthReadBack(names, month, year);
    }
  }

  lemma YearReadBack(names: seq<string>, year: int)
    ensures ParseCompletionDate(IntToString(year), names) == (0, year)
  {
    var ys := IntToString(year);
    IntToStringFree(year, ' ');
    SplitFree(ys, ' ');
    IntvalOfString(year);
  }

  lemma NamedMonthReadBack(names: seq<string>, month: int, year: int)
    requires GoodMonthNames(names) && 1 <= month <= 12
    ensures ParseCompletionDate(names[month - 1] + " " + IntToString(year), names) == (month, year)
  {
    var ys := IntToString(year);
    var name := names[month - 1];
    IntToStringFree(year, ' ');
    assert ' ' !in name;
    assert FreeOf([name, ys], ' ');
    assert Join([name, ys], ' ') == name + " " + ys;
    SplitJoin([name, ys], ' ');
    var parts := Split(name + " " + ys, ' ');
    assert parts == [name, ys];
    IntvalOfString(year);
    var q := Position(names, name);
    assert q == month by {
      assert q > 0 && names[q - 1] == name;
    }
  }

  /** The long date shows the year, and the month exactly when it is 1..12; 'N/A' reads back as nothing. */
  lemma CompletionDateReadBack(month: int, year: int)
    ensures ParseCompletionDate(FormatCompletionDate(month, year), LongMonths)
      == (if year != 0 && 1 <= month <= 12 then month else 0, year)
  {
    if year == 0 {
      NotApplicableReadBack();
    } else {
      LongMonthsGood();
      MonthYearReadBack(LongMonths, month, year);
      if 1 <= month <= 12 {
        assert FormatCompletionDate(month, year) == LongMonths[month - 1] + " " + IntToString(year);
      } else {
        assert FormatCompletionDate(month, year) == IntToString(year);
      }
    }
  }

  /** 'N/A' names no month and no year. */
  lemma NotApplicableReadBack()
    ensures ParseCompletionDate("N/A", LongMonths) == (0, 0)
  {
    var na := "N/A";
    assert na[0] == 'N' && na[1] == '/' && na[2] == 'A' && |na| == 3;
    assert ' ' !in na;
    SplitFree(na, ' ');
    IntvalNoNumber(na);
  }

  /** Without a year the month is ignored. */
  lemma CompletionDateNeedsYear(month: int, other: int)
    ensures FormatCompletionDate(month, 0) == FormatCompletionDate(other, 0) == "N/A"
  {
  }

  // ---------------------------------------------------------------- filters

  /** The POST fields of a map request. */
  datatype MapFilter = MapFilter(country: string, projectType: int, solutionType: int, search: string)

  /** `isset($_POST[..]) ? sanitize_text_field / intval : '' / 0`. */
  function MapFilterOf(post: map<string, string>, host: Host): MapFilter {
    MapFilter(
      if "country" in post then host.sanitizeText(post["country"]) else "",
      if "project_type" in post then Intval(post["project_type"]) else 0,
      if "solution_type" in post then Intval(post["solution_type"]) else 0,
      if "search" in post then host.sanitizeText(post["search"]) else "")
  }

  /** A published project that passes every filter that is set; the search looks at name, country and description. */
  predicate MapMatches(p: Project, f: MapFilter) {
    && p.status == "publish"
    && (Truthy(f.country) ==> p.country == f.country)
    && (f.projectType != 0 ==> p.projectTypeId == f.projectType)
    && (f.solutionType != 0 ==> p.solutionTypeId == f.solutionType)
    && (Truthy(f.search) ==>
          LikeAnywhere(p.villageName, f.search) || LikeAnywhere(p.country, f.search) || LikeAnywhere(p.description, f.search))
  }

  function Flag(b: bool): nat {
    if b then 1 else 0
  }

  /** The `$where` of ajax_get_projects: the status test, then one clause per filter that is set. */
  method MapWhere(f: MapFilter) returns (clauses: seq<Clause>)
    ensures |clauses| == 1 + Flag(Truthy(f.country)) + Flag(f.projectType != 0) + Flag(f.solutionType != 0) + Flag(Truthy(f.search))
    ensures clauses[0] == StatusIs("publish")
    ensures forall p :: AllHold(clauses, p) <==> MapMatches(p, f)
  {
    clauses := StatsWhere(f.country, f.projectType, f.solutionType);
    if Truthy(f.search) {
      var c := SearchAny([VillageName, CountryName, Description], f.search);
      AllHoldAppend(clauses, c);
      clauses := clauses + [c];
      forall p
        ensures Holds(c, p) <==> LikeAnywhere(p.villageName, f.search) || LikeAnywhere(p.country, f.search) || LikeAnywhere(p.description, f.search)
      {
        var cs := [VillageName, CountryName, Description];
        assert ColumnText(p, cs[0]) == p.villageName;
        assert ColumnText(p, cs[1]) == p.country;
        assert ColumnText(p, cs[2]) == p.description;
      }
    }
  }

  /** The `$where` of get_statistics: the status test and the country and type filters, never a search. */
  method StatsWhere(country: string, projectType: int, solutionType: int) returns (clauses: seq<Clause>)
    ensures |clauses| == 1 + Flag(Truthy(country)) + Flag(projectType != 0) + Flag(solutionType != 0)
    ensures clauses[0] == StatusIs("publish")
    ensures forall p :: AllHold(clauses, p) <==> MapMatches(p, MapFilter(country, projectType, solutionType, ""))
  {
    clauses := [StatusIs("publish")];
    if Truthy(country) {
      AllHoldAppend(clauses, CountryIs(country));
      clauses := clauses + [CountryIs(country)];
    }
    if projectType != 0 {
      AllHoldAppend(clauses, ProjectTypeIs(projectType));
      clauses := clauses + [ProjectTypeIs(projectType)];
    }
    if solutionType != 0 {
      AllHoldAppend(clauses, SolutionTypeIs(solutionType));
      clauses := clauses + [SolutionTypeIs(solutionType)];
    }
  }

  /** The rows the map receives, newest first (ORDER BY created_at DESC, insertion order read backwards). */
  function MapQuery(rows: seq<Project>, f: MapFilter): seq<Project> {
    Filter(Reverse(rows), p => MapMatches(p, f))
  }

  /** A row is on the map iff it is in the table and matches the filter. */
  lemma MapQueryMembers(rows: seq<Project>, f: MapFilter, p: Project)
    ensures p in MapQuery(rows, f) <==> p in rows && MapMatches(p, f)
  {
    var rev := Reverse(rows);
    if p in rows {
      var k :| 0 <= k < |rows| && rows[k] == p;
      assert rev[|rows| - 1 - k] == p;
    }
    if p in rev {
      var k :| 0 <= k < |rev| && rev[k] == p;
      assert rows[|rows| - 1 - k] == p;
    }
  }

  /** With no filter set the map shows every published project. */
  lemma MapQueryUnfiltered(rows: seq<Project>, p: Project)
    ensures p in MapQuery(rows, MapFilter("", 0, 0, "")) <==> p in rows && p.status == "publish"
  {
    MapQueryMembers(rows, MapFilter("", 0, 0, ""), p);
  }

  // ---------------------------------------------------------------- statistics

  datatype Stats = Stats(totalProjects: int, totalBeneficiaries: int, totalCountries: int)

  /** `COALESCE(SUM(beneficiaries), 0)`. */
  function SumBeneficiaries(rows: seq<Project>): int {
    if |rows| == 0 then 0 else SumBeneficiaries(rows[..|rows| - 1]) + rows[|rows| - 1].beneficiaries
  }

  /** The distinct country values (`COUNT(DISTINCT country)` counts them). */
  function Countries(rows: seq<Project>): (r: set<string>)
    ensures forall c :: c in r <==> exists k :: 0 <= k < |rows| && rows[k].country == c
  {
    if |rows| == 0 then {}
    else
      var r := Countries(rows[..|rows| - 1]);
      assert forall k :: 0 <= k < |rows| - 1 ==> rows[..|rows| - 1][k] == rows[k];
      r + {rows[|rows| - 1].country}
  }

  /** The figures get_statistics returns for the status, country and type filters. */
  function Statistics(rows: seq<Project>, country: string, projectType: int, solutionType: int): Stats {
    var sel := Filter(rows, p => MapMatches(p, MapFilter(country, projectType, solutionType, "")));
    Stats(|sel|, SumBeneficiaries(sel), |Countries(sel)|)
  }

  /** get_statistics: build the clauses, then count, sum and count distinct over the selected rows. */
  method GetStatistics(rows: seq<Project>, country: string, projectType: int, solutionType: int) returns (stats: Stats)
    ensures stats == Statistics(rows, country, projectType, solutionType)
  {
    var clauses := StatsWhere(country, projectType, solutionType);
    var sel := Select(rows, clauses);
    FilterSame(rows, p => AllHold(clauses, p), p => MapMatches(p, MapFilter(country, projectType, solutionType, "")));
    stats := Stats(|sel|, SumBeneficiaries(sel), |Countries(sel)|);
  }

  lemma {:induction false} CountriesBound(rows: seq<Project>)
    ensures |Countries(rows)| <= |rows|
    ensures |rows| > 0 ==> |Countries(rows)| >= 1
  {
    if |rows| > 0 {
      CountriesBound(rows[..|rows| - 1]);
      assert rows[|rows| - 1].country in Countries(rows);
    }
  }

  lemma {:induction false} SumNonNegative(rows: seq<Project>)
    requires forall k :: 0 <= k < |rows| ==> rows[k].beneficiaries >= 0
    ensures SumBeneficiaries(rows) >= 0
  {
    if |rows| > 0 {
      SumNonNegative(rows[..|rows| - 1]);
    }
  }

  /**
   * Bounds of the statistics: no more countries than projects and no more
   * projects than rows; no projects means no countries and no beneficiaries;
   * non-negative beneficiary figures add up to a non-negative total.
   */
  lemma StatisticsBounds(rows: seq<Project>, country: string, projectType: int, solutionType: int)
    ensures var s := Statistics(rows, country, projectType, solutionType);
      && 0 <= s.totalCountries <= s.totalProjects <= |rows|
      && (s.totalProjects == 0 <==> s.totalCountries == 0)
      && (s.totalProjects == 0 ==> s.totalBeneficiaries == 0)
      && ((forall k :: 0 <= k < |rows| ==> rows[k].beneficiaries >= 0) ==> s.totalBeneficiaries >= 0)
  {
    var sel := Filter(rows, p => MapMatches(p, MapFilter(country, projectType, solutionType, "")));
    CountriesBound(sel);
    if forall k :: 0 <= k < |rows| ==> rows[k].beneficiaries >= 0 {
      forall k | 0 <= k < |sel|
        ensures sel[k].beneficiaries >= 0
      {
        assert sel[k] in rows;
      }
      SumNonNegative(sel);
    }
  }

  /**
   * The statistics ignore the search term: they count exactly the rows the map
   * shows for the same filters without a search, and a search can only show fewer.
   */
  lemma StatisticsIgnoreSearch(rows: seq<Project>, f: MapFilter)
    ensures Statistics(rows, f.country, f.projectType, f.solutionType).totalProjects == |MapQuery(rows, f.(search := ""))|
    ensures |MapQuery(rows, f)| <= Statistics(rows, f.country, f.projectType, f.solutionType).totalProjects
  {
    var g := MapFilter(f.country, f.projectType, f.solutionType, "");
    assert f.(search := "") == g;
    FilterReverseLength(rows, p => MapMatches(p, g));
    FilterWeaker(Reverse(rows), p => MapMatches(p, f), p => MapMatches(p, g));
  }

  // ---------------------------------------------------------------- the map endpoint

  /** One entry of the `projects` array ajax_get_projects returns. */
  datatype MapItem = MapItem(
    id: nat,
    name: string,
    projectNumber: string,
    country: string,
    countryFlag: string,
    coordinates: (real, real),   // [longitude, latitude]
    peopleServed: int,
    date: string,
    image: string,
    projectType: string,
    projectTypeIcon: string,
    solutionType: string,
    fundedBy: string,
    description: string)

  const DefaultIcon := "\U{1F4CD}"

  function TypeIcon(rows: seq<TypeRow>, id: int): string {
    var i := IdIndex(rows, id);
    if i >= 0 && Truthy(rows[i].icon) then rows[i].icon else DefaultIcon
  }

  /** The LEFT JOIN on countries by name: the first matching flag, '' for none. */
  function CountryFlag(countries: seq<Country>, name: string): string {
    if |countries| == 0 then ""
    else if countries[0].name == name then (if Truthy(countries[0].flag) then countries[0].flag else "")
    else CountryFlag(countries[1..], name)
  }

  /** The fields of one map entry, with the defaults for a missing image, icon and donor. */
  function FormatForMap(p: Project, ptypes: seq<TypeRow>, stypes: seq<TypeRow>, countries: seq<Country>,
                        host: Host, placeholder: string): (r: MapItem)
    ensures r.id == p.id && r.coordinates == (p.longitude, p.latitude)
    ensures Truthy(r.projectTypeIcon) && Truthy(r.fundedBy) && r.date != ""
    ensures Truthy(placeholder) ==> Truthy(r.image)
    ensures Truthy(p.inHonourOf) <==> r.fundedBy == p.inHonourOf
  {
    var featured := if p.featuredImageId != 0 then host.attachmentUrl(p.featuredImageId).GetOr("") else "";
    MapItem(
      p.id, p.villageName, p.projectNumber, p.country, CountryFlag(countries, p.country),
      (p.longitude, p.latitude), p.beneficiaries,
      FormatCompletionDate(p.completionMonth, p.completionYear),
      if Truthy(featured) then featured else placeholder,
      TypeName(ptypes, p.projectTypeId), TypeIcon(ptypes, p.projectTypeId), TypeName(stypes, p.solutionTypeId),
      if Truthy(p.inHonourOf) then p.inHonourOf else "Anonymous Donors",
      host.trimWords(p.description, 30))
  }

  /** The `foreach ($projects as $project) $formatted[] = ...` loop. */
  method FormatAll(found: seq<Project>, ptypes: seq<TypeRow>, stypes: seq<TypeRow>, countries: seq<Country>,
                   host: Host, placeholder: string) returns (items: seq<MapItem>)
    ensures |items| == |found|
    ensures forall k :: 0 <= k < |found| ==> items[k] == FormatForMap(found[k], ptypes, stypes, countries, host, placeholder)
  {
    items := [];
    var i := 0;
    while i < |found|
      invariant 0 <= i <= |found|
      invariant |items| == i
      invariant forall k {:trigger items[k]} :: 0 <= k < i ==> items[k] == FormatForMap(found[k], ptypes, stypes, countries, host, placeholder)
    {
      var item := FormatForMap(found[i], ptypes, stypes, countries, host, placeholder);
      items, i := items + [item], i + 1;
    }
  }

  datatype MapResponse = Rejected | MapResult(projects: seq<MapItem>, stats: Stats)

  /**
   * ajax_get_projects: read the filters, select the matching rows newest
   * first, format each one and add the statistics for the same filters.
   */
  method GetProjects(nonceOk: bool, post: map<string, string>, rows: seq<Project>, ptypes: seq<TypeRow>,
                     stypes: seq<TypeRow>, countries: seq<Country>, host: Host, placeholder: string)
    returns (resp: MapResponse)
    ensures !nonceOk <==> resp == Rejected
    ensures resp.MapResult? ==>
      var f := MapFilterOf(post, host);
      var found := MapQuery(rows, f);
      && |resp.projects| == |found|
      && (forall k :: 0 <= k < |found| ==> resp.projects[k] == FormatForMap(found[k], ptypes, stypes, countries, host, placeholder))
      && resp.stats == Statistics(rows, f.country, f.projectType, f.solutionType)
  {
    if !nonceOk {
      return Rejected;
    }
    var f := MapFilterOf(post, host);
    var clauses := MapWhere(f);
    var found := Select(Reverse(rows), clauses);
    FilterSame(Reverse(rows), p => AllHold(clauses, p), p => MapMatches(p, f));
    var items := FormatAll(found, ptypes, stypes, countries, host, placeholder);
    var stats := GetStatistics(rows, f.country, f.projectType, f.solutionType);
    resp := MapResult(items, stats);
  }
}
