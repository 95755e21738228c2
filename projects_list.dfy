/**
 * The admin projects list (admin/projects-list.php): the query-string
 * filters, the WHERE clause built from them one conjunct at a time, the
 * page of rows shown (20 per page, newest first), the pagination block,
 * the Reset link and the per-row status label and short date.
 */
module ProjectsList {
  import opened Text
  import opened Records
  import opened Query
  import opened MapData
  import opened Dates

  const PerPage: nat := 20

  /** The list's GET filters. */
  datatype ListFilter = ListFilter(search: string, country: string, projectType: int, solutionType: int, status: string)

  /** `isset($_GET[..]) ? sanitize_text_field / intval : '' / 0`. */
  function ListFilterOf(get: map<string, string>, host: Host): ListFilter {
    ListFilter(
      if "s" in get then host.sanitizeText(get["s"]) else "",
      if "country" in get then host.sanitizeText(get["country"]) else "",
      if "project_type" in get then Intval(get["project_type"]) else 0,
      if "solution_type" in get then Intval(get["solution_type"]) else 0,
      if "status" in get then host.sanitizeText(get["status"]) else "")
  }

  /** A row passes every filter that is set; the search looks at name, project number and country. */
  predicate ListMatches(p: Project, f: ListFilter) {
    && (Truthy(f.search) ==>
          LikeAnywhere(p.villageName, f.search) || LikeAnywhere(p.projectNumber, f.search) || LikeAnywhere(p.country, f.search))
    && (Truthy(f.country) ==> p.country == f.country)
    && (f.projectType != 0 ==> p.projectTypeId == f.projectType)
    && (f.solutionType != 0 ==> p.solutionTypeId == f.solutionType)
    && (Truthy(f.status) ==> p.status == f.status)
  }

  /** `$where`: `WHERE 1=1`, then one conjunct per filter that is set, in the page's order. */
  method ListWhere(f: ListFilter) returns (clauses: seq<Clause>)
    ensures |clauses| == Flag(Truthy(f.search)) + Flag(Truthy(f.country)) + Flag(f.projectType != 0)
      + Flag(f.solutionType != 0) + Flag(Truthy(f.status))
    ensures forall p :: AllHold(clauses, p) <==> ListMatches(p, f)
  {
    clauses := [];
    if Truthy(f.search) {
      var c := SearchAny([VillageName, ProjectNumber, CountryName], f.search);
      SearchClauseMeaning(f.search);
      AllHoldAppend(clauses, c);
      clauses := clauses + [c];
    }
    if Truthy(f.country) {
      AllHoldAppend(clauses, CountryIs(f.country));
      clauses := clauses + [CountryIs(f.country)];
    }
    if f.projectType != 0 {
      AllHoldAppend(clauses, ProjectTypeIs(f.projectType));
      clauses := clauses + [ProjectTypeIs(f.projectType)];
    }
    if f.solutionType != 0 {
      AllHoldAppend(clauses, SolutionTypeIs(f.solutionType));
      clauses := clauses + [SolutionTypeIs(f.solutionType)];
    }
    if Truthy(f.status) {
      AllHoldAppend(clauses, StatusIs(f.status));
      clauses := clauses + [StatusIs(f.status)];
    }
  }

  /** The search conjunct holds when the term occurs in the name, the project number or the country. */
  lemma SearchClauseMeaning(search: string)
    ensures forall p :: Holds(SearchAny([VillageName, ProjectNumber, CountryName], search), p) <==>
      LikeAnywhere(p.villageName, search) || LikeAnywhere(p.projectNumber, search) || LikeAnywhere(p.country, search)
  {
    var columns := [VillageName, ProjectNumber, CountryName];
    forall p
      ensures Holds(SearchAny(columns, search), p) <==>
        LikeAnywhere(p.villageName, search) || LikeAnywhere(p.projectNumber, search) || LikeAnywhere(p.country, search)
    {
      assert ColumnText(p, columns[0]) == p.villageName;
      assert ColumnText(p, columns[1]) == p.projectNumber;
      assert ColumnText(p, columns[2]) == p.country;
    }
  }

  // ---------------------------------------------------------------- Reset link

  /** `$search || $country_filter || $project_type_filter || $type_filter || $status_filter`. */
  predicate ShowReset(f: ListFilter) {
    Truthy(f.search) || Truthy(f.country) || f.projectType != 0 || f.solutionType != 0 || Truthy(f.status)
  }

  /** A row with empty texts, no types and no status. */
  const BlankProject := Project(0, "", "", "", 0.0, 0.0, 0, 0, 0, 0, 0, "", "", 0, "", "", "")

  /** A non-empty search term matches nothing in an empty text. */
  lemma EmptyTextUnmatched(term: string)
    requires term != ""
    ensures !LikeAnywhere("", term)
  {
    assert Lower("") == "";
    assert |Lower(term)| > 0;
  }

  /**
   * The Reset link appears exactly when the filters narrow the list: without
   * it every row is listed, and with it some row would be left out.
   */
  lemma ResetIffFiltered(f: ListFilter)
    ensures !ShowReset(f) ==> forall p :: ListMatches(p, f)
    ensures ShowReset(f) ==> !ListMatches(BlankProject, f)
  {
    if Truthy(f.search) {
      EmptyTextUnmatched(f.search);
    }
  }

  // ---------------------------------------------------------------- pagination

  /** `isset($_GET['paged']) ? max(1, intval($_GET['paged'])) : 1`. */
  function CurrentPage(get: map<string, string>): (r: int)
    ensures r >= 1
    ensures "paged" in get && Intval(get["paged"]) >= 1 ==> r == Intval(get["paged"])
    ensures "paged" !in get || Intval(get["paged"]) < 1 ==> r == 1
  {
    if "paged" in get then (var n := Intval(get["paged"]); if n > 1 then n else 1) else 1
  }

  /** `($current_page - 1) * $per_page`. */
  function Offset(page: int): (r: int)
    requires page >= 1
    ensures r >= 0 && r % PerPage == 0
    ensures r < page * PerPage
  {
    (page - 1) * PerPage
  }

  /** `ceil($total_items / $per_page)`. */
  function PageCount(total: nat): (r: nat)
    ensures (r - 1) * PerPage < total <= r * PerPage || (total == 0 && r == 0)
  {
    (total + PerPage - 1) / PerPage
  }

  /** `$total_items > $per_page`. */
  predicate ShowPagination(total: nat) {
    total > PerPage
  }

  /** The pagination block is shown exactly when there is more than one page. */
  lemma PaginationIffSeveralPages(total: nat)
    ensures ShowPagination(total) <==> PageCount(total) >= 2
  {
  }

  /** The rows that match, newest first: `ORDER BY created_at DESC` over insertion order. */
  function Listed(rows: seq<Project>, f: ListFilter): seq<Project> {
    Filter(Reverse(rows), p => ListMatches(p, f))
  }

  /** `LIMIT 20 OFFSET $offset` of the listed rows. */
  function PageRows(listed: seq<Project>, page: int): (r: seq<Project>)
    requires page >= 1
    ensures |r| <= PerPage
  {
    var lo := Offset(page);
    if lo >= |listed| then []
    else if lo + PerPage <= |listed| then listed[lo..lo + PerPage]
    else listed[lo..]
  }

  /** Every listed row is on exactly one page, at its place on that page; earlier pages show newer rows. */
  lemma PagesPartition(listed: seq<Project>, k: int)
    requires 0 <= k < |listed|
    ensures var page := k / PerPage + 1;
      page <= PageCount(|listed|)
      && k % PerPage < |PageRows(listed, page)|
      && PageRows(listed, page)[k % PerPage] == listed[k]
  {
    var page := k / PerPage + 1;
    assert Offset(page) == k - k % PerPage;
  }

  /** With no filters the list counts every row of the table. */
  lemma UnfilteredListsAll(rows: seq<Project>)
    ensures |Listed(rows, ListFilter("", "", 0, 0, ""))| == |rows|
  {
    var f := ListFilter("", "", 0, 0, "");
    ResetIffFiltered(f);
    FilterSame(Reverse(rows), p => ListMatches(p, f), p => true);
    FilterReverseLength(rows, p => true);
    FilterAllKept(rows);
  }

  /** Keeping every row keeps the count. */
  lemma {:induction false} FilterAllKept(rows: seq<Project>)
    ensures |Filter(rows, p => true)| == |rows|
  {
    if |rows| > 0 {
      FilterAllKept(rows[..|rows| - 1]);
    }
  }

  // ---------------------------------------------------------------- rows

  /** The status badge: 'publish' is Published, anything else Draft. */
  function StatusLabel(status: string): (r: string)
    ensures r == "Published" <==> status == "publish"
    ensures r == "Published" || r == "Draft"
  {
    if status == "publish" then "Published" else "Draft"
  }

  /** What the page computes from the request and the table. */
  datatype ListPage = ListPage(
    currentPage: int,
    offset: int,
    totalItems: nat,
    items: seq<Project>,
    showPagination: bool,
    pageCount: nat,
    showReset: bool)

  /** The top of the template: read the request, count and fetch the rows. */
  method BuildListPage(get: map<string, string>, rows: seq<Project>, host: Host) returns (page: ListPage)
    ensures page.currentPage == CurrentPage(get) && page.offset == Offset(page.currentPage)
    ensures page.totalItems == |Listed(rows, ListFilterOf(get, host))|
    ensures page.items == PageRows(Listed(rows, ListFilterOf(get, host)), page.currentPage)
    ensures page.showPagination <==> page.totalItems > PerPage
    ensures page.pageCount == PageCount(page.totalItems)
    ensures page.showReset <==> ShowReset(ListFilterOf(get, host))
  {
    var currentPage := 1;
    if "paged" in get {
      var n := Intval(get["paged"]);
      currentPage := if n > 1 then n else 1;
    }
    var offset := (currentPage - 1) * PerPage;
    var f := ListFilterOf(get, host);
    var clauses := ListWhere(f);
    var listed := Filter(Reverse(rows), p => AllHold(clauses, p));
    FilterSame(Reverse(rows), p => AllHold(clauses, p), p => ListMatches(p, f));
    var total := |listed|;
    page := ListPage(currentPage, offset, total, PageRows(listed, currentPage), total > PerPage,
                     PageCount(total), ShowReset(f));
  }
}
