/**
 * The Add/Edit Project screen (admin/add-project.php): the form fields as
 * the handler reads them into a row, the edit-versus-create branch with its
 * redirect, and the month and year choices the form offers.
 */
module AddProject {
  import opened Wrappers
  import opened Text
  import opened Records
  import opened MapData
  import opened Dates
  import SingleProject

  /** `$_POST[$key]`, with a missing key read as ''. */
  function Posted(post: map<string, string>, key: string): string {
    if key in post then post[key] else ""
  }

  /** `!empty($_POST[$key]) ? intval($_POST[$key]) : null`. */
  function Nullable(posted: string): (r: Option<int>)
    ensures r.None? <==> !Truthy(posted)
    ensures r.Some? ==> r.value == Intval(posted)
  {
    if Truthy(posted) then Some(Intval(posted)) else None
  }

  /**
   * The video field: its lines, each through esc_url_raw, the empty results
   * dropped, joined again with "\n"; an empty field stays ''.
   */
  function FormVideos(posted: string, escUrl: string -> string): string {
    if Truthy(posted) then Join(KeepTruthy(MapAll(escUrl, Split(posted, '\n'))), '\n') else ""
  }

  /** The `$data` array, with NULL as None. */
  datatype FormData = FormData(
    villageName: string,
    projectNumber: string,
    country: string,
    latitude: real,
    longitude: real,
    completionMonth: Option<int>,
    completionYear: Option<int>,
    beneficiaries: int,
    inHonourOf: string,
    projectTypeId: Option<int>,
    solutionTypeId: Option<int>,
    featuredImageId: Option<int>,
    galleryImages: string,
    videoUrls: string,
    description: string,
    status: string)

  function FormDataOf(post: map<string, string>, host: Host): FormData {
    var gallery := Posted(post, "gallery_images");
    FormData(
      host.sanitizeText(Posted(post, "village_name")),
      host.sanitizeText(Posted(post, "project_number")),
      host.sanitizeText(Posted(post, "country")),
      host.floatval(Posted(post, "gps_latitude")),
      host.floatval(Posted(post, "gps_longitude")),
      Nullable(Posted(post, "completion_month")),
      Nullable(Posted(post, "completion_year")),
      Intval(Posted(post, "beneficiaries")),
      host.sanitizeText(Posted(post, "in_honour_of")),
      Nullable(Posted(post, "project_type_id")),
      Nullable(Posted(post, "solution_type_id")),
      Nullable(Posted(post, "featured_image_id")),
      if Truthy(gallery) then host.sanitizeText(gallery) else "",
      FormVideos(Posted(post, "video_urls"), host.escUrlRaw),
      host.ksesPost(Posted(post, "description")),
      host.sanitizeText(Posted(post, "status")))
  }

  /** The row the database stores for the data; NULL integer columns read as 0, the id is the table's to give. */
  function RowOf(d: FormData): Project {
    Project(0, d.villageName, d.projectNumber, d.country, d.latitude, d.longitude,
            d.projectTypeId.GetOr(0), d.solutionTypeId.GetOr(0), d.completionMonth.GetOr(0), d.completionYear.GetOr(0),
            d.beneficiaries, d.inHonourOf, d.description, d.featuredImageId.GetOr(0),
            d.galleryImages, d.videoUrls, d.status)
  }

  // ---------------------------------------------------------------- the form fields

  /** Each optional integer field is NULL exactly when it was left empty, and its intval otherwise. */
  lemma OptionalFieldsNullWhenEmpty(post: map<string, string>, host: Host)
    ensures var d := FormDataOf(post, host);
      && (d.completionMonth.None? <==> !Truthy(Posted(post, "completion_month")))
      && (d.completionYear.None? <==> !Truthy(Posted(post, "completion_year")))
      && (d.projectTypeId.None? <==> !Truthy(Posted(post, "project_type_id")))
      && (d.solutionTypeId.None? <==> !Truthy(Posted(post, "solution_type_id")))
      && (d.featuredImageId.None? <==> !Truthy(Posted(post, "featured_image_id")))
      && (Truthy(Posted(post, "completion_year")) ==> d.completionYear == Some(Intval(Posted(post, "completion_year"))))
  {
  }

  /**
   * When esc_url_raw never yields a line break, the project page lists
   * exactly the escaped non-empty lines of the video field, in order.
   */
  lemma FormVideosReadBack(posted: string, escUrl: string -> string)
    requires forall u :: '\n' !in escUrl(u)
    ensures SingleProject.VideoUrls(FormVideos(posted, escUrl))
      == if Truthy(posted) then KeepTruthy(MapAll(escUrl, Split(posted, '\n'))) else []
  {
    if Truthy(posted) {
      var urls := KeepTruthy(MapAll(escUrl, Split(posted, '\n')));
      forall u <- urls
        ensures Truthy(u) && '\n' !in u
      {
        var k :| 0 <= k < |urls| && urls[k] == u;
        var j :| 0 <= j < |MapAll(escUrl, Split(posted, '\n'))| && MapAll(escUrl, Split(posted, '\n'))[j] == u;
      }
      SingleProject.VideoUrlsReadBack(urls);
    }
  }

  // ---------------------------------------------------------------- save

  /** What the screen ends in: `wp_die`, a redirect, or the form with a notice and the loaded project. */
  datatype Outcome =
    | Died(text: string)
    | Redirect(url: string)
    | Form(message: string, kind: string, project: Option<Project>)

  const NotFound := "Project not found."
  const SecurityError := "Security check failed."
  const CreatedMessage := "Project created successfully."

  /** `admin_url('admin.php?page=pmp-add-project&id=' . $new_id . '&created=1')`. */
  function CreatedUrl(adminBase: string, id: int): string {
    adminBase + "admin.php?page=pmp-add-project&id=" + IntToString(id) + "&created=1"
  }

  /** `isset($_GET['created']) && $_GET['created'] == 1`, for the spelling "1". */
  predicate CreatedFlag(get: map<string, string>) {
    "created" in get && get["created"] == "1"
  }

  /** The notice line after the handler: the `created` flag replaces whatever notice was set. */
  function WithCreated(o: Outcome, get: map<string, string>): (r: Outcome)
    ensures o.Form? ==> r.Form? && r.project == o.project
    ensures !o.Form? ==> r == o
    ensures r.Form? && CreatedFlag(get) ==> r.message == CreatedMessage && r.kind == "success"
  {
    if o.Form? && CreatedFlag(get) then o.(message := CreatedMessage, kind := "success") else o
  }

  /**
   * The whole request on table `s`: the edited project must exist; a POST
   * with the nonce field must verify (`nonceOk`); then the row is updated in
   * place or inserted, the insert redirecting to the new project's edit page.
   */
  function SaveOutcome(s: ProjectState, get: map<string, string>, isPost: bool, post: map<string, string>,
                       nonceOk: bool, host: Host, adminBase: string): (r: (ProjectState, Outcome))
    ensures r.0 != s ==> isPost && "pmp_project_nonce" in post && nonceOk
    ensures r.1.Died? ==> r.0 == s
  {
    var editing := "id" in get;
    var id := if editing then Intval(get["id"]) else 0;
    var project := if editing then FindProject(s.rows, id) else None;
    if editing && project.None? then (s, Died(NotFound))
    else if !(isPost && "pmp_project_nonce" in post) then (s, WithCreated(Form("", "", project), get))
    else if !nonceOk then (s, Died(SecurityError))
    else SubmitOutcome(s, get, RowOf(FormDataOf(post, host)), host, adminBase)
  }

  /** The verified submission of `row`: an update in place when editing, an insert otherwise. */
  function SubmitOutcome(s: ProjectState, get: map<string, string>, row: Project, host: Host, adminBase: string)
    : (r: (ProjectState, Outcome))
    ensures r.0 != s ==> host.dbAccepts(row)
    ensures r.1.Form? && r.1.kind == "error" && !CreatedFlag(get) ==> r.0 == s
  {
    if "id" in get then
      var id := Intval(get["id"]);
      if host.dbAccepts(row) then
        var t := ProjectState(ReplaceProject(s.rows, id, row), s.nextId);
        (t, WithCreated(Form("Project updated successfully.", "success", FindProject(t.rows, id)), get))
      else (s, WithCreated(Form("Error updating project.", "error", FindProject(s.rows, id)), get))
    else
      var ins := InsertProject(s, row, host);
      if ins.1 != 0 then (ins.0, Redirect(CreatedUrl(adminBase, ins.1)))
      else (s, WithCreated(Form("Error creating project.", "error", None), get))
  }

  /** Asking to edit an id the table does not hold dies before anything else is done. */
  lemma MissingProjectDies(s: ProjectState, get: map<string, string>, isPost: bool, post: map<string, string>,
                           nonceOk: bool, host: Host, adminBase: string)
    requires "id" in get && FindProject(s.rows, Intval(get["id"])).None?
    ensures SaveOutcome(s, get, isPost, post, nonceOk, host, adminBase) == (s, Died(NotFound))
  {
  }

  /** A submission whose nonce does not verify dies and changes nothing. */
  lemma BadNonceDies(s: ProjectState, get: map<string, string>, post: map<string, string>, host: Host, adminBase: string)
    requires "pmp_project_nonce" in post
    requires "id" in get ==> FindProject(s.rows, Intval(get["id"])).Some?
    ensures SaveOutcome(s, get, true, post, false, host, adminBase) == (s, Died(SecurityError))
  {
  }

  /** In a valid table the row with a given id is the only one with it. */
  lemma FindProjectAt(rows: seq<Project>, nextId: nat, k: int)
    requires ProjectIdsOrdered(rows, nextId) && 0 <= k < |rows|
    ensures FindProject(rows, rows[k].id) == Some(rows[k])
  {
    var found := FindProject(rows, rows[k].id);
    assert found.Some? by {
      assert rows[k].id == rows[k].id;
    }
    var i :| 0 <= i < |rows| && rows[i] == found.value;
  }

  /**
   * An accepted edit replaces the columns of that project, keeps its id and
   * every other row and the table's size, and shows the saved row.
   */
  lemma EditUpdatesSameId(s: ProjectState, get: map<string, string>, post: map<string, string>, host: Host, adminBase: string)
    requires s.Valid() && "id" in get && "pmp_project_nonce" in post
    requires FindProject(s.rows, Intval(get["id"])).Some? && host.dbAccepts(RowOf(FormDataOf(post, host)))
    requires !CreatedFlag(get)
    ensures var id := Intval(get["id"]);
      var row := RowOf(FormDataOf(post, host));
      var o := SaveOutcome(s, get, true, post, true, host, adminBase);
      && o.0.Valid() && o.0.nextId == s.nextId && |o.0.rows| == |s.rows|
      && (forall k :: 0 <= k < |s.rows| && s.rows[k].id != id ==> o.0.rows[k] == s.rows[k])
      && o.1 == Form("Project updated successfully.", "success", Some(row.(id := id)))
  {
    var row := RowOf(FormDataOf(post, host));
    assert SaveOutcome(s, get, true, post, true, host, adminBase) == SubmitOutcome(s, get, row, host, adminBase);
    EditSubmitted(s, get, row, host, adminBase);
  }

  /** The update branch of the submission, for any row the database accepts. */
  lemma EditSubmitted(s: ProjectState, get: map<string, string>, row: Project, host: Host, adminBase: string)
    requires s.Valid() && "id" in get && FindProject(s.rows, Intval(get["id"])).Some? && host.dbAccepts(row)
    requires !CreatedFlag(get)
    ensures var id := Intval(get["id"]);
      var o := SubmitOutcome(s, get, row, host, adminBase);
      && o.0.Valid() && o.0.nextId == s.nextId && |o.0.rows| == |s.rows|
      && (forall k :: 0 <= k < |s.rows| && s.rows[k].id != id ==> o.0.rows[k] == s.rows[k])
      && o.1 == Form("Project updated successfully.", "success", Some(row.(id := id)))
  {
    var id := Intval(get["id"]);
    var t := ProjectState(ReplaceProject(s.rows, id, row), s.nextId);
    ReplaceKeepsIds(s, id, row);
    var shown := Form("Project updated successfully.", "success", Some(row.(id := id)));
    assert SubmitOutcome(s, get, row, host, adminBase) == (t, WithCreated(shown, get));
    assert WithCreated(shown, get) == shown;
  }

  /** Replacing the row with a present id keeps the table valid, and the id then finds the new columns. */
  lemma ReplaceKeepsIds(s: ProjectState, id: int, row: Project)
    requires s.Valid() && FindProject(s.rows, id).Some?
    ensures var t := ProjectState(ReplaceProject(s.rows, id, row), s.nextId);
      t.Valid() && FindProject(t.rows, id) == Some(row.(id := id))
  {
    var t := ReplaceProject(s.rows, id, row);
    assert forall k :: 0 <= k < |t| ==> t[k].id == s.rows[k].id;
    assert ProjectIdsOrdered(t, s.nextId);
    var found := FindProject(s.rows, id);
    var k :| 0 <= k < |s.rows| && s.rows[k] == found.value;
    FindProjectAt(t, s.nextId, k);
  }

  /** A row whose id no earlier row has is found after being appended. */
  lemma {:induction false} FindAppended(rows: seq<Project>, p: Project)
    requires forall k :: 0 <= k < |rows| ==> rows[k].id != p.id
    ensures FindProject(rows + [p], p.id) == Some(p)
  {
    if |rows| > 0 {
      assert (rows + [p])[1..] == rows[1..] + [p];
      FindAppended(rows[1..], p);
    }
  }

  /**
   * An accepted create inserts exactly one row, under the next id, and
   * redirects to that id's edit page; following the redirect shows the new
   * project with the created notice.
   */
  lemma CreateRedirectsToNewRow(s: ProjectState, post: map<string, string>, host: Host, adminBase: string)
    requires s.Valid() && "pmp_project_nonce" in post && host.dbAccepts(RowOf(FormDataOf(post, host)))
    ensures var row := RowOf(FormDataOf(post, host)).(id := s.nextId);
      var o := SaveOutcome(s, map[], true, post, true, host, adminBase);
      && o.0 == ProjectState(s.rows + [row], s.nextId + 1) && o.0.Valid()
      && o.1 == Redirect(CreatedUrl(adminBase, s.nextId))
      && SaveOutcome(o.0, CreatedQuery(s.nextId), false, map[], false, host, adminBase)
           == (o.0, Form(CreatedMessage, "success", Some(row)))
  {
    var row := RowOf(FormDataOf(post, host)).(id := s.nextId);
    var t := ProjectState(s.rows + [row], s.nextId + 1);
    assert SaveOutcome(s, map[], true, post, true, host, adminBase) == (t, Redirect(CreatedUrl(adminBase, s.nextId)));
    FindAppended(s.rows, row);
    CreatedPageShows(t, s.nextId, row, host, adminBase);
  }

  /** The query string of the redirect: `id` the new id, `created` 1. */
  function CreatedQuery(id: int): map<string, string> {
    map["id" := IntToString(id), "created" := "1"]
  }

  /** The page the redirect leads to shows the project with that id and the created notice. */
  lemma CreatedPageShows(t: ProjectState, id: int, row: Project, host: Host, adminBase: string)
    requires FindProject(t.rows, id) == Some(row)
    ensures SaveOutcome(t, CreatedQuery(id), false, map[], false, host, adminBase) == (t, Form(CreatedMessage, "success", Some(row)))
  {
    var get := CreatedQuery(id);
    assert "id" in get && get["id"] == IntToString(id) && CreatedFlag(get);
    IntvalOfString(id);
    assert FindProject(t.rows, Intval(get["id"])) == Some(row);
  }

  /** A create the database refuses changes nothing and reports the error. */
  lemma CreateRefused(s: ProjectState, post: map<string, string>, host: Host, adminBase: string)
    requires "pmp_project_nonce" in post && !host.dbAccepts(RowOf(FormDataOf(post, host)))
    ensures SaveOutcome(s, map[], true, post, true, host, adminBase) == (s, Form("Error creating project.", "error", None))
  {
  }

  /** The top of the screen, changing the projects table in place. */
  method Save(table: ProjectTable, get: map<string, string>, isPost: bool, post: map<string, string>,
              nonceOk: bool, host: Host, adminBase: string)
    returns (outcome: Outcome)
    requires table.Valid()
    modifies table
    ensures table.Valid()
    ensures (table.State(), outcome) == SaveOutcome(old(table.State()), get, isPost, post, nonceOk, host, adminBase)
  {
    var editing := "id" in get;
    var id := 0;
    var project: Option<Project> := None;
    if editing {
      id := Intval(get["id"]);
      project := FindProject(table.rows, id);
      if project.None? {
        return Died(NotFound);
      }
    }
    outcome := Form("", "", project);
    if isPost && "pmp_project_nonce" in post {
      if !nonceOk {
        return Died(SecurityError);
      }
      var row := RowOf(FormDataOf(post, host));
      assert SaveOutcome(table.State(), get, isPost, post, nonceOk, host, adminBase)
        == SubmitOutcome(table.State(), get, row, host, adminBase);
      if editing {
        var ok := table.Update(id, row, host);
        if ok {
          outcome := Form("Project updated successfully.", "success", FindProject(table.rows, id));
        } else {
          outcome := Form("Error updating project.", "error", project);
        }
      } else {
        var newId := table.Insert(row, host);
        if newId != 0 {
          return Redirect(CreatedUrl(adminBase, newId));
        }
        outcome := Form("Error creating project.", "error", None);
      }
    }
    if CreatedFlag(get) {
      outcome := outcome.(message := CreatedMessage, kind := "success");
    }
  }

  // ---------------------------------------------------------------- the month and year choices

  /** `$months`: keys 1..12 with the long month names. */
  function MonthOptions(): (r: map<int, string>)
    ensures forall m :: m in r <==> 1 <= m <= 12
    ensures forall m :: m in r ==> r[m] == LongMonths[m - 1]
  {
    map[1 := LongMonths[0], 2 := LongMonths[1], 3 := LongMonths[2], 4 := LongMonths[3],
        5 := LongMonths[4], 6 := LongMonths[5], 7 := LongMonths[6], 8 := LongMonths[7],
        9 := LongMonths[8], 10 := LongMonths[9], 11 := LongMonths[10], 12 := LongMonths[11]]
  }

  /** Every month the form offers is stored as that month and renders as its own name. */
  lemma OfferedMonthsRender(m: int, year: int)
    requires m in MonthOptions() && year != 0
    ensures Nullable(IntToString(m)) == Some(m)
    ensures LongDate(m, year) == MonthOptions()[m] + " " + IntToString(year)
    ensures TemplateDateAsWritten(LongMonths, m, year, "") == LongDate(m, year)
  {
    IntvalOfString(m);
    NonzeroTruthy(m);
  }

  /**
   * `range($current_year + 5, 2000)`: every year between the two ends once,
   * from the first to the second; the usual case counts down to 2000.
   */
  function YearOptions(currentYear: int): (r: seq<int>)
    ensures |r| >= 1 && r[0] == currentYear + 5 && r[|r| - 1] == 2000
    ensures currentYear + 5 >= 2000 ==> forall k :: 0 < k < |r| ==> r[k] == r[k - 1] - 1
    ensures currentYear + 5 < 2000 ==> forall k :: 0 < k < |r| ==> r[k] == r[k - 1] + 1
    ensures forall y :: y in r <==> (2000 <= y <= currentYear + 5 || currentYear + 5 <= y <= 2000)
  {
    var top := currentYear + 5;
    if top >= 2000 then
      var r := seq(top - 2000 + 1, k => top - k);
      forall y | 2000 <= y <= top
        ensures y in r
      {
        assert r[top - y] == y;
      }
      r
    else
      var r := seq(2000 - top + 1, k => top + k);
      forall y | top <= y <= 2000
        ensures y in r
      {
        assert r[y - top] == y;
      }
      r
  }

  /** Every year the form offers is stored as that year. */
  lemma OfferedYearsStored(currentYear: int, y: int)
    requires currentYear >= 1995 && y in YearOptions(currentYear)
    ensures Nullable(IntToString(y)) == Some(y)
  {
    IntvalOfString(y);
    NonzeroTruthy(y);
  }
}
