/**
 * The CSV imports of project-map-plugin.php: the project import
 * (ajax_import_csv) with its find-or-create of type names, and the
 * upsert-by-name import shared by ajax_import_project_types and
 * ajax_import_solution_types. Each import is a function over the table
 * states (the specification) and a method whose loop follows the PHP loop
 * and is proved to compute that function.
 */
module CsvImport {
  import opened Wrappers
  import opened Text
  import opened Records
  import opened TypeTables
  import opened Media

  /** `sprintf('Row %d: ...', $row_num)`. */
  function RowMessage(rowNum: nat, what: string): string {
    "Row " + NatToString(rowNum) + ": " + what
  }

  /** The rows after the header: `fgetcsv` reads the header first; an empty file has none. */
  function DataRows(lines: seq<seq<string>>): seq<seq<string>> {
    if |lines| == 0 then [] else lines[1..]
  }

  /** `isset($data[k]) ? $data[k] : ''`. */
  function CellAt(data: seq<string>, k: nat): string {
    if k < |data| then data[k] else ""
  }

  /** `isset($data[k]) && !empty($data[k])`. */
  predicate Given(data: seq<string>, k: nat) {
    k < |data| && Truthy(data[k])
  }

  // ---------------------------------------------------------------- find or create a type name

  /**
   * get_or_create_project_type / get_or_create_solution_type: the id of the
   * row with the sanitised name, inserting it (with the given project type for
   * a solution type) when absent; 0 (null) for an empty name.
   */
  function GetOrCreate(s: TableState, raw: string, parent: int, host: Host): (TableState, int) {
    var name := host.sanitizeText(raw);
    if !Truthy(name) then (s, 0)
    else match IdOfName(s.rows, name)
      case Some(id) => (s, id)
      case None => var r := InsertWith(s, name, "", parent); (r.0, r.1)
  }

  /**
   * An empty name changes nothing and gives null; an existing name gives its
   * id and inserts nothing; a new name inserts exactly one row and gives its
   * id. In every case a non-empty name ends up resolving to the id returned.
   */
  lemma GetOrCreateResult(s: TableState, raw: string, parent: int, host: Host)
    requires s.Valid()
    ensures var name := host.sanitizeText(raw);
      var r := GetOrCreate(s, raw, parent, host);
      && r.0.Valid()
      && s.rows <= r.0.rows
      && (!Truthy(name) ==> r == (s, 0))
      && (Truthy(name) ==> r.1 > 0 && IdOfName(r.0.rows, name) == Some(r.1 as nat))
      && (Truthy(name) && IdOfName(s.rows, name).Some? ==> r.0 == s)
      && (Truthy(name) && IdOfName(s.rows, name).None? ==>
            r.0.rows == s.rows + [TypeRow(s.nextId, name, "", parent, "")] && r.1 == s.nextId)
  {
    var name := host.sanitizeText(raw);
    InsertValid(s, name, "", parent);
    if Truthy(name) {
      match IdOfName(s.rows, name)
      case Some(id) =>
        var i := NameIndex(s.rows, name);
        assert s.rows[i].id == id;
      case None =>
        InsertLookup(s, name, "", parent, name);
    }
  }

  /** A second call with the same name returns the same id and changes nothing. */
  lemma GetOrCreateIdempotent(s: TableState, raw: string, parent: int, parent2: int, host: Host)
    requires s.Valid()
    ensures var r := GetOrCreate(s, raw, parent, host);
      GetOrCreate(r.0, raw, parent2, host) == r
  {
    GetOrCreateResult(s, raw, parent, host);
  }

  /** The find-or-create calls on a type table. */
  method GetOrCreateType(t: TypeTable, raw: string, parent: int, host: Host) returns (id: int)
    requires t.Valid()
    modifies t
    ensures t.Valid()
    ensures (t.State(), id) == GetOrCreate(old(t.State()), raw, parent, host)
  {
    GetOrCreateResult(t.State(), raw, parent, host);
    var name := host.sanitizeText(raw);
    if !Truthy(name) {
      return 0;
    }
    var existing := t.Lookup(name);
    if existing.Some? {
      return existing.value;
    }
    var newId := t.Insert(name, "", parent);
    id := newId;
  }

  // ---------------------------------------------------------------- cells of a project row

  /** The status column: kept when it sanitises to 'publish' or 'draft', otherwise 'publish'. */
  function ImportStatus(data: seq<string>, host: Host): (r: string)
    ensures r == "publish" || r == "draft"
    ensures r == "draft" <==> Given(data, 15) && host.sanitizeText(data[15]) == "draft"
    ensures Given(data, 15) && host.sanitizeText(data[15]) in ["publish", "draft"] ==> r == host.sanitizeText(data[15])
  {
    var s := if Given(data, 15) then host.sanitizeText(data[15]) else "publish";
    if s == "publish" || s == "draft" then s else "publish"
  }

  /** The video column: split on ',', trimmed, empties dropped, each URL escaped, joined by newlines. */
  function ImportVideos(cell: string, escUrl: string -> string): string {
    if Truthy(cell) then Join(VideoList(cell, escUrl), '\n') else ""
  }

  /** The escaped URLs of a video cell: its comma pieces, trimmed, with the empty ones dropped. */
  function VideoList(cell: string, escUrl: string -> string): seq<string> {
    MapAll(escUrl, KeepTruthy(MapAll(Trim, Split(cell, ','))))
  }

  /** The attachment ids of the URLs whose side-load succeeded, in order (`if ($img_id)`). */
  function ImportedIds(urls: seq<string>, host: Host): (r: seq<int>)
    ensures |r| <= |urls|
    ensures forall k :: 0 <= k < |r| ==> r[k] != 0
  {
    if |urls| == 0 then []
    else
      var id := host.importImage(urls[|urls| - 1]);
      ImportedIds(urls[..|urls| - 1], host) + (if id != 0 then [id] else [])
  }

  lemma ImportedIdsStep(urls: seq<string>, i: int, host: Host)
    requires 0 <= i < |urls|
    ensures ImportedIds(urls[..i + 1], host)
      == ImportedIds(urls[..i], host) + (if host.importImage(urls[i]) != 0 then [host.importImage(urls[i])] else [])
  {
    assert urls[..i + 1][..i] == urls[..i];
  }

  /** The URLs of the gallery column: split on ',', trimmed, empties dropped. */
  function GalleryCellUrls(cell: string): seq<string> {
    KeepTruthy(MapAll(Trim, Split(cell, ',')))
  }

  /** The gallery column as stored: the imported ids joined by ','. */
  function ImportGalleryCell(cell: string, host: Host): string {
    if Truthy(cell) then GalleryField(ImportedIds(GalleryCellUrls(cell), host)) else ""
  }

  /** The `foreach ($gallery_urls as $url)` loop. */
  method ImportGallery(cell: string, host: Host) returns (gallery: string)
    ensures gallery == ImportGalleryCell(cell, host)
  {
    gallery := "";
    if Truthy(cell) {
      var urls := GalleryCellUrls(cell);
      var ids: seq<int> := [];
      var i := 0;
      while i < |urls|
        invariant 0 <= i <= |urls|
        invariant ids == ImportedIds(urls[..i], host)
      {
        ImportedIdsStep(urls, i, host);
        var id := host.importImage(urls[i]);
        if id != 0 {
          ids := ids + [id];
        }
        i := i + 1;
      }
      assert urls[..|urls|] == urls;
      gallery := GalleryField(ids);
    }
  }

  /** What the single project page reads back from an imported gallery is the list of imported ids. */
  lemma GalleryImportReadBack(cell: string, host: Host)
    requires Truthy(cell) && |ImportedIds(GalleryCellUrls(cell), host)| >= 1
    ensures PieceIds(Split(ImportGalleryCell(cell, host), ',')) == ImportedIds(GalleryCellUrls(cell), host)
  {
    GalleryFieldIds(ImportedIds(GalleryCellUrls(cell), host));
  }

  /** The optional integer columns: `!empty ? intval : null`. */
  function OptionalIntCell(data: seq<string>, k: nat): int {
    if Given(data, k) then Intval(data[k]) else 0
  }

  /** The gallery_images value of a data row. */
  function RowGallery(data: seq<string>, host: Host): string {
    if Given(data, 13) then ImportGalleryCell(data[13], host) else ""
  }

  /** The row `$wpdb->insert` receives for a data row of at least six cells (its id is assigned on insert). */
  function ProjectOfRow(data: seq<string>, projectTypeId: int, solutionTypeId: int, gallery: string, host: Host): Project
    requires |data| >= 6
  {
    Project(
      0,
      host.sanitizeText(data[0]),
      host.sanitizeText(data[1]),
      host.sanitizeText(data[2]),
      host.floatval(data[3]),
      host.floatval(data[4]),
      projectTypeId,
      solutionTypeId,
      OptionalIntCell(data, 7),
      OptionalIntCell(data, 8),
      if 9 < |data| then Intval(data[9]) else 0,
      if 10 < |data| then host.sanitizeText(data[10]) else "",
      if 11 < |data| then host.ksesPost(data[11]) else "",
      if Given(data, 12) then host.importImage(data[12]) else 0,
      gallery,
      if Given(data, 14) then ImportVideos(data[14], host.escUrlRaw) else "",
      ImportStatus(data, host))
  }

  // ---------------------------------------------------------------- the project import

  /** The three tables the project import writes. */
  datatype ImportState = ImportState(projects: ProjectState, ptypes: TableState, stypes: TableState) {
    predicate Valid() {
      projects.Valid() && ptypes.Valid() && stypes.Valid()
    }
  }

  /** The loop's variables: the tables, `$imported` and `$errors`. */
  datatype Tally<S> = Tally(state: S, imported: nat, errors: seq<string>)

  /** The type ids a data row resolves its type names to, and the type tables afterwards. */
  function RowTypes(ptypes: TableState, stypes: TableState, data: seq<string>, host: Host)
    : (r: (TableState, int, TableState, int))
    requires ptypes.Valid() && stypes.Valid()
    ensures r.0.Valid() && r.2.Valid()
    ensures ptypes.rows <= r.0.rows && stypes.rows <= r.2.rows
  {
    GetOrCreateResult(ptypes, CellAt(data, 5), 0, host);
    var pt := if Given(data, 5) then GetOrCreate(ptypes, data[5], 0, host) else (ptypes, 0);
    GetOrCreateResult(stypes, CellAt(data, 6), pt.1, host);
    var st := if Given(data, 6) then GetOrCreate(stypes, data[6], pt.1, host) else (stypes, 0);
    (pt.0, pt.1, st.0, st.1)
  }

  /** The body of the `while (($data = fgetcsv($handle)) !== FALSE)` loop of ajax_import_csv. */
  function ImportRow(t: Tally<ImportState>, data: seq<string>, rowNum: nat, host: Host): (r: Tally<ImportState>)
    requires t.state.Valid()
    ensures r.state.Valid()
  {
    if |data| < 6 then t.(errors := t.errors + [RowMessage(rowNum, "Insufficient data")])
    else
      var types := RowTypes(t.state.ptypes, t.state.stypes, data, host);
      RecordRow(t.(state := t.state.(ptypes := types.0, stypes := types.2)),
                ProjectOfRow(data, types.1, types.3, RowGallery(data, host), host), rowNum, host)
  }

  /** The `$wpdb->insert` of a built project row and its count or "Database error" message. */
  function RecordRow(t: Tally<ImportState>, p: Project, rowNum: nat, host: Host): (r: Tally<ImportState>)
    requires t.state.Valid()
    ensures r.state.Valid() && r.state.ptypes == t.state.ptypes && r.state.stypes == t.state.stypes
  {
    var ins := InsertProject(t.state.projects, p, host);
    var state := t.state.(projects := ins.0);
    if ins.1 != 0 then Tally(state, t.imported + 1, t.errors)
    else Tally(state, t.imported, t.errors + [RowMessage(rowNum, "Database error")])
  }

  /**
   * One data row adds exactly one count or one error; a short row adds the
   * "Insufficient data" message; the projects table gains the one row counted,
   * with status 'publish' or 'draft'; the type tables only gain rows.
   */
  lemma ImportRowEffect(t: Tally<ImportState>, data: seq<string>, rowNum: nat, host: Host)
    requires t.state.Valid()
    ensures var r := ImportRow(t, data, rowNum, host);
      && r.imported + |r.errors| == t.imported + |t.errors| + 1
      && t.errors <= r.errors
      && (|data| < 6 ==> r.errors == t.errors + [RowMessage(rowNum, "Insufficient data")])
      && t.state.projects.rows <= r.state.projects.rows
      && |r.state.projects.rows| == |t.state.projects.rows| + (r.imported - t.imported)
      && (forall k :: |t.state.projects.rows| <= k < |r.state.projects.rows| ==>
            r.state.projects.rows[k].status in ["publish", "draft"])
      && t.state.ptypes.rows <= r.state.ptypes.rows && t.state.stypes.rows <= r.state.stypes.rows
  {
    RowKeepsErrors(t, data, rowNum, host);
    if |data| >= 6 {
      var types := RowTypes(t.state.ptypes, t.state.stypes, data, host);
      var p := ProjectOfRow(data, types.1, types.3, RowGallery(data, host), host);
      RecordRowEffect(t.(state := t.state.(ptypes := types.0, stypes := types.2)), p, rowNum, host);
    }
  }

  /** A row's messages are added after the earlier ones; a short row adds "Insufficient data". */
  lemma RowKeepsErrors(t: Tally<ImportState>, data: seq<string>, rowNum: nat, host: Host)
    requires t.state.Valid()
    ensures var r := ImportRow(t, data, rowNum, host);
      && t.errors <= r.errors
      && (|data| < 6 ==> r.errors == t.errors + [RowMessage(rowNum, "Insufficient data")])
  {
    if |data| >= 6 {
      var types := RowTypes(t.state.ptypes, t.state.stypes, data, host);
      var t' := t.(state := t.state.(ptypes := types.0, stypes := types.2));
      var p := ProjectOfRow(data, types.1, types.3, RowGallery(data, host), host);
      assert ImportRow(t, data, rowNum, host) == RecordRow(t', p, rowNum, host);
    }
  }

  /** Recording a row with a publish or draft status adds one count and that row, or one error and no row. */
  lemma RecordRowEffect(t: Tally<ImportState>, p: Project, rowNum: nat, host: Host)
    requires t.state.Valid() && p.status in ["publish", "draft"]
    ensures var r := RecordRow(t, p, rowNum, host);
      && r.imported + |r.errors| == t.imported + |t.errors| + 1
      && t.state.projects.rows <= r.state.projects.rows
      && |r.state.projects.rows| == |t.state.projects.rows| + (r.imported - t.imported)
      && (forall k :: |t.state.projects.rows| <= k < |r.state.projects.rows| ==>
            r.state.projects.rows[k].status in ["publish", "draft"])
  {
    var ins := InsertProject(t.state.projects, p, host);
    if host.dbAccepts(p) {
      assert ins.0.rows == t.state.projects.rows + [p.(id := t.state.projects.nextId)];
    }
  }

  /** The import of the data rows, the first of which is row 2 of the file. */
  function ImportRows(s: ImportState, rows: seq<seq<string>>, host: Host): (r: Tally<ImportState>)
    requires s.Valid()
    ensures r.state.Valid()
  {
    if |rows| == 0 then Tally(s, 0, [])
    else ImportRow(ImportRows(s, rows[..|rows| - 1], host), rows[|rows| - 1], |rows| + 1, host)
  }

  /**
   * Every data row adds exactly one to `imported` or one message to `errors`;
   * the projects table gains exactly the imported rows, each with status
   * 'publish' or 'draft'; the type tables only gain rows.
   */
  lemma {:induction false} ImportAccounting(s: ImportState, rows: seq<seq<string>>, host: Host)
    requires s.Valid()
    ensures var r := ImportRows(s, rows, host);
      && r.imported + |r.errors| == |rows|
      && s.projects.rows <= r.state.projects.rows
      && |r.state.projects.rows| == |s.projects.rows| + r.imported
      && (forall k :: |s.projects.rows| <= k < |r.state.projects.rows| ==> r.state.projects.rows[k].status in ["publish", "draft"])
      && s.ptypes.rows <= r.state.ptypes.rows && s.stypes.rows <= r.state.stypes.rows
  {
    if |rows| > 0 {
      ImportAccounting(s, rows[..|rows| - 1], host);
      var prev := ImportRows(s, rows[..|rows| - 1], host);
      var r := ImportRows(s, rows, host);
      ImportRowEffect(prev, rows[|rows| - 1], |rows| + 1, host);
      forall k | |s.projects.rows| <= k < |r.state.projects.rows|
        ensures r.state.projects.rows[k].status in ["publish", "draft"]
      {
        if k < |prev.state.projects.rows| {
          assert r.state.projects.rows[k] == prev.state.projects.rows[k];
        }
      }
    }
  }

  /** A data row with fewer than six cells is reported under its row number (the first data row is row 2). */
  lemma ImportReportsShortRows(s: ImportState, rows: seq<seq<string>>, host: Host, k: int)
    requires s.Valid() && 0 <= k < |rows| && |rows[k]| < 6
    ensures RowMessage(k + 2, "Insufficient data") in ImportRows(s, rows, host).errors
  {
    var upto := rows[..k + 1];
    assert upto[..k] == rows[..k] && upto[k] == rows[k];
    RowKeepsErrors(ImportRows(s, rows[..k], host), rows[k], k + 2, host);
    assert RowMessage(k + 2, "Insufficient data") in ImportRows(s, upto, host).errors;
    ErrorsOfPrefix(s, rows, k + 1, host);
  }

  /** The messages of a prefix of the rows come first among the messages of all of them. */
  lemma {:induction false} ErrorsOfPrefix(s: ImportState, rows: seq<seq<string>>, j: nat, host: Host)
    requires s.Valid() && j <= |rows|
    ensures ImportRows(s, rows[..j], host).errors <= ImportRows(s, rows, host).errors
    decreases |rows|
  {
    if j < |rows| {
      var init := rows[..|rows| - 1];
      assert init[..j] == rows[..j];
      ErrorsOfPrefix(s, init, j, host);
      ErrorsStep(s, rows, host);
    } else {
      assert rows[..j] == rows;
    }
  }

  /** The messages before the last row come first among all of them. */
  lemma ErrorsStep(s: ImportState, rows: seq<seq<string>>, host: Host)
    requires s.Valid() && |rows| > 0
    ensures ImportRows(s, rows[..|rows| - 1], host).errors <= ImportRows(s, rows, host).errors
  {
    RowKeepsErrors(ImportRows(s, rows[..|rows| - 1], host), rows[|rows| - 1], |rows| + 1, host);
  }

  /** The get-or-create calls for the type cells of a data row. */
  method ResolveTypes(data: seq<string>, ptypes: TypeTable, stypes: TypeTable, host: Host)
    returns (projectTypeId: int, solutionTypeId: int)
    requires ptypes.Valid() && stypes.Valid() && ptypes != stypes
    modifies ptypes, stypes
    ensures ptypes.Valid() && stypes.Valid()
    ensures (ptypes.State(), projectTypeId, stypes.State(), solutionTypeId)
      == RowTypes(old(ptypes.State()), old(stypes.State()), data, host)
  {
    projectTypeId := 0;
    if Given(data, 5) {
      projectTypeId := GetOrCreateType(ptypes, data[5], 0, host);
    }
    solutionTypeId := 0;
    if Given(data, 6) {
      solutionTypeId := GetOrCreateType(stypes, data[6], projectTypeId, host);
    }
  }

  /** One pass of ajax_import_csv's loop: the row with number `rowNum`. */
  method ImportOne(data: seq<string>, rowNum: nat, projects: ProjectTable, ptypes: TypeTable, stypes: TypeTable,
                   host: Host, imported: nat, errors: seq<string>)
    returns (imported': nat, errors': seq<string>)
    requires projects.Valid() && ptypes.Valid() && stypes.Valid() && ptypes != stypes
    modifies projects, ptypes, stypes
    ensures projects.Valid() && ptypes.Valid() && stypes.Valid()
    ensures Tally(ImportState(projects.State(), ptypes.State(), stypes.State()), imported', errors')
      == ImportRow(Tally(ImportState(old(projects.State()), old(ptypes.State()), old(stypes.State())), imported, errors),
                   data, rowNum, host)
  {
    imported', errors' := imported, errors;
    if |data| < 6 {
      errors' := errors + [RowMessage(rowNum, "Insufficient data")];
      return;
    }
    var projectTypeId, solutionTypeId := ResolveTypes(data, ptypes, stypes, host);
    var gallery := "";
    if Given(data, 13) {
      gallery := ImportGallery(data[13], host);
    }
    var p := ProjectOfRow(data, projectTypeId, solutionTypeId, gallery, host);
    imported', errors' := RecordOne(p, rowNum, projects, host, imported, errors);
  }

  /** The insert at the end of a pass of ajax_import_csv's loop. */
  method RecordOne(p: Project, rowNum: nat, projects: ProjectTable, host: Host, imported: nat, errors: seq<string>)
    returns (imported': nat, errors': seq<string>)
    requires projects.Valid()
    modifies projects
    ensures projects.Valid()
    ensures forall pt: TableState, st: TableState | pt.Valid() && st.Valid() ::
      Tally(ImportState(projects.State(), pt, st), imported', errors')
        == RecordRow(Tally(ImportState(old(projects.State()), pt, st), imported, errors), p, rowNum, host)
  {
    imported', errors' := imported, errors;
    var id := projects.Insert(p, host);
    if id != 0 {
      imported' := imported + 1;
    } else {
      errors' := errors + [RowMessage(rowNum, "Database error")];
    }
  }

  /** ajax_import_csv's loop over the open file. */
  method ImportProjects(lines: seq<seq<string>>, projects: ProjectTable, ptypes: TypeTable, stypes: TypeTable, host: Host)
    returns (imported: nat, errors: seq<string>)
    requires projects.Valid() && ptypes.Valid() && stypes.Valid() && ptypes != stypes
    modifies projects, ptypes, stypes
    ensures projects.Valid() && ptypes.Valid() && stypes.Valid()
    ensures Tally(ImportState(projects.State(), ptypes.State(), stypes.State()), imported, errors)
      == ImportRows(ImportState(old(projects.State()), old(ptypes.State()), old(stypes.State())), DataRows(lines), host)
  {
    ghost var s0 := ImportState(projects.State(), ptypes.State(), stypes.State());
    var rows := DataRows(lines);
    imported, errors := 0, [];
    var rowNum := 1;
    var i := 0;
    while i < |rows|
      invariant 0 <= i <= |rows| && rowNum == i + 1
      invariant projects.Valid() && ptypes.Valid() && stypes.Valid()
      invariant Tally(ImportState(projects.State(), ptypes.State(), stypes.State()), imported, errors)
        == ImportRows(s0, rows[..i], host)
    {
      assert rows[..i + 1][..i] == rows[..i];
      rowNum := rowNum + 1;
      imported, errors := ImportOne(rows[i], rowNum, projects, ptypes, stypes, host, imported, errors);
      i := i + 1;
    }
    assert rows[..|rows|] == rows;
  }

  // ---------------------------------------------------------------- the type imports

  /** The name and description cells of a type row. */
  function RowName(data: seq<string>, host: Host): string {
    if |data| >= 1 then host.sanitizeText(data[0]) else ""
  }

  function RowDescription(data: seq<string>, host: Host): string {
    if |data| > 1 then host.sanitizeText(data[1]) else ""
  }

  /** The loop body of ajax_import_project_types and ajax_import_solution_types. */
  function UpsertRow(t: Tally<TableState>, data: seq<string>, rowNum: nat, host: Host): (r: Tally<TableState>)
    requires t.state.Valid()
    ensures r.state.Valid()
    ensures r.imported + |r.errors| == t.imported + |t.errors| + 1
    ensures t.errors <= r.errors
  {
    if |data| < 1 then t.(errors := t.errors + [RowMessage(rowNum, "Insufficient data")])
    else
      var name := RowName(data, host);
      var description := RowDescription(data, host);
      if !Truthy(name) then t.(errors := t.errors + [RowMessage(rowNum, "Name is required")])
      else match IdOfName(t.state.rows, name)
        case Some(id) =>
          SetDescriptionValid(t.state, id, description);
          Tally(SetDescriptionWith(t.state, id, description), t.imported + 1, t.errors)
        case None =>
          InsertValid(t.state, name, description, 0);
          var ins := InsertWith(t.state, name, description, 0);
          if ins.1 != 0 then Tally(ins.0, t.imported + 1, t.errors)
          else Tally(ins.0, t.imported, t.errors + [RowMessage(rowNum, "Database error")])
  }

  function UpsertRows(s: TableState, rows: seq<seq<string>>, host: Host): (r: Tally<TableState>)
    requires s.Valid()
    ensures r.state.Valid()
  {
    if |rows| == 0 then Tally(s, 0, [])
    else UpsertRow(UpsertRows(s, rows[..|rows| - 1], host), rows[|rows| - 1], |rows| + 1, host)
  }

  /** The description the last row naming `name` carries, if any row names it. */
  function LastDescription(rows: seq<seq<string>>, name: string, host: Host): Option<string> {
    if |rows| == 0 then None
    else
      var data := rows[|rows| - 1];
      if |data| >= 1 && Truthy(RowName(data, host)) && RowName(data, host) == name then Some(RowDescription(data, host))
      else LastDescription(rows[..|rows| - 1], name, host)
  }

  /** Every row of a type CSV adds exactly one to `imported` or one message to `errors`. */
  lemma {:induction false} UpsertAccounting(s: TableState, rows: seq<seq<string>>, host: Host)
    requires s.Valid()
    ensures UpsertRows(s, rows, host).imported + |UpsertRows(s, rows, host).errors| == |rows|
  {
    if |rows| > 0 {
      UpsertAccounting(s, rows[..|rows| - 1], host);
    }
  }

  /** A row whose name sanitises to empty is reported under its row number. */
  lemma {:induction false} UpsertReportsMissingNames(s: TableState, rows: seq<seq<string>>, host: Host, k: int)
    requires s.Valid() && 0 <= k < |rows| && |rows[k]| >= 1 && !Truthy(RowName(rows[k], host))
    ensures RowMessage(k + 2, "Name is required") in UpsertRows(s, rows, host).errors
  {
    var prev := UpsertRows(s, rows[..|rows| - 1], host);
    if k == |rows| - 1 {
      assert UpsertRows(s, rows, host).errors == prev.errors + [RowMessage(k + 2, "Name is required")];
    } else {
      assert rows[..|rows| - 1][k] == rows[k];
      UpsertReportsMissingNames(s, rows[..|rows| - 1], host, k);
    }
  }

  /** One row of the upsert, seen from a single name. */
  lemma UpsertRowByName(t: Tally<TableState>, data: seq<string>, rowNum: nat, host: Host, name: string)
    requires t.state.Valid()
    ensures var after := UpsertRow(t, data, rowNum, host).state;
      if |data| >= 1 && Truthy(RowName(data, host)) && RowName(data, host) == name then
        RowOf(after.rows, name) == Some(match RowOf(t.state.rows, name)
          case Some(r) => r.(description := RowDescription(data, host))
          case None => TypeRow(t.state.nextId, name, RowDescription(data, host), 0, ""))
      else RowOf(after.rows, name) == RowOf(t.state.rows, name)
  {
    if |data| >= 1 && Truthy(RowName(data, host)) {
      var n := RowName(data, host);
      var d := RowDescription(data, host);
      match IdOfName(t.state.rows, n)
      case Some(id) =>
        RowOfSetDescription(t.state, id, d, name);
        var rn := RowOf(t.state.rows, n);
        assert rn.Some? && rn.value.id == id;
        if name != n {
          match RowOf(t.state.rows, name)
          case Some(r) =>
            var i := NameIndex(t.state.rows, name);
            var j := NameIndex(t.state.rows, n);
            assert i != j;
          case None =>
        }
      case None =>
        RowOfInsert(t.state, n, d, 0, name);
    }
  }

  /**
   * Upsert by name: a name no row mentions keeps its row exactly; a name some
   * row mentions ends with the description of the last such row, an existing
   * row keeping its id, name and project type and a new one being inserted.
   */
  lemma {:induction false} UpsertByName(s: TableState, rows: seq<seq<string>>, host: Host, name: string)
    requires s.Valid()
    ensures var after := UpsertRows(s, rows, host).state;
      match LastDescription(rows, name, host)
      case None => RowOf(after.rows, name) == RowOf(s.rows, name)
      case Some(d) =>
        && RowOf(after.rows, name).Some?
        && RowOf(after.rows, name).value.description == d
        && (RowOf(s.rows, name).Some? ==> RowOf(after.rows, name).value == RowOf(s.rows, name).value.(description := d))
  {
    if |rows| > 0 {
      var prefix := rows[..|rows| - 1];
      UpsertByName(s, prefix, host, name);
      UpsertRowByName(UpsertRows(s, prefix, host), rows[|rows| - 1], |rows| + 1, host, name);
    }
  }

  /** One pass of the type imports' loop. */
  method UpsertOne(data: seq<string>, rowNum: nat, table: TypeTable, host: Host, imported: nat, errors: seq<string>)
    returns (imported': nat, errors': seq<string>)
    requires table.Valid()
    modifies table
    ensures table.Valid()
    ensures Tally(table.State(), imported', errors') == UpsertRow(Tally(old(table.State()), imported, errors), data, rowNum, host)
  {
    ghost var t0 := Tally(table.State(), imported, errors);
    imported', errors' := imported, errors;
    if |data| < 1 {
      errors' := errors + [RowMessage(rowNum, "Insufficient data")];
      return;
    }
    var name := host.sanitizeText(data[0]);
    var description := if |data| > 1 then host.sanitizeText(data[1]) else "";
    assert name == RowName(data, host) && description == RowDescription(data, host);
    if !Truthy(name) {
      errors' := errors + [RowMessage(rowNum, "Name is required")];
      return;
    }
    var existing := table.Lookup(name);
    if existing.Some? {
      assert UpsertRow(t0, data, rowNum, host)
        == Tally(SetDescriptionWith(t0.state, existing.value, description), imported + 1, errors);
      table.SetDescription(existing.value, description);
      imported' := imported + 1;
    } else {
      ghost var ins := InsertWith(t0.state, name, description, 0);
      assert UpsertRow(t0, data, rowNum, host)
        == if ins.1 != 0 then Tally(ins.0, imported + 1, errors)
           else Tally(ins.0, imported, errors + [RowMessage(rowNum, "Database error")]);
      var id := table.Insert(name, description, 0);
      if id != 0 {
        imported' := imported + 1;
      } else {
        errors' := errors + [RowMessage(rowNum, "Database error")];
      }
    }
  }

  /** The loop of the type imports over the open file. */
  method ImportTypes(lines: seq<seq<string>>, table: TypeTable, host: Host) returns (imported: nat, errors: seq<string>)
    requires table.Valid()
    modifies table
    ensures table.Valid()
    ensures Tally(table.State(), imported, errors) == UpsertRows(old(table.State()), DataRows(lines), host)
  {
    ghost var s0 := table.State();
    var rows := DataRows(lines);
    imported, errors := 0, [];
    var rowNum := 1;
    var i := 0;
    while i < |rows|
      invariant 0 <= i <= |rows| && rowNum == i + 1
      invariant table.Valid()
      invariant Tally(table.State(), imported, errors) == UpsertRows(s0, rows[..i], host)
    {
      assert rows[..i + 1][..i] == rows[..i];
      rowNum := rowNum + 1;
      imported, errors := UpsertOne(rows[i], rowNum, table, host, imported, errors);
      i := i + 1;
    }
    assert rows[..|rows|] == rows;
  }

  // ---------------------------------------------------------------- the AJAX handlers

  /** What `$_FILES['csv_file']` and `fopen` give the handler. */
  datatype Upload = NoFile | UploadFailed | Unopenable | Opened(lines: seq<seq<string>>)

  /** check_ajax_referer ends the request (Rejected); the other failures send an error message. */
  datatype ImportResponse = Rejected | Failure(message: string) | Imported(imported: nat, errors: seq<string>)

  /** The capability and upload checks, in the order the handlers make them. */
  function UploadProblem(canManage: bool, upload: Upload): Option<string> {
    if !canManage then Some("Permission denied")
    else match upload
      case NoFile => Some("No file uploaded")
      case UploadFailed => Some("File upload error")
      case Unopenable => Some("Could not open file")
      case Opened(_) => None
  }

  /** ajax_import_csv. */
  method HandleImportCsv(nonceOk: bool, canManage: bool, upload: Upload, projects: ProjectTable,
                         ptypes: TypeTable, stypes: TypeTable, host: Host) returns (resp: ImportResponse)
    requires projects.Valid() && ptypes.Valid() && stypes.Valid() && ptypes != stypes
    modifies projects, ptypes, stypes
    ensures projects.Valid() && ptypes.Valid() && stypes.Valid()
    ensures !nonceOk ==> resp == Rejected
    ensures nonceOk && UploadProblem(canManage, upload).Some? ==> resp == Failure(UploadProblem(canManage, upload).value)
    ensures nonceOk && UploadProblem(canManage, upload).None? ==> resp.Imported?
    ensures resp.Imported? ==>
      && nonceOk && UploadProblem(canManage, upload).None? && upload.Opened?
      && ImportRows(ImportState(old(projects.State()), old(ptypes.State()), old(stypes.State())), DataRows(upload.lines), host)
         == Tally(ImportState(projects.State(), ptypes.State(), stypes.State()), resp.imported, resp.errors)
    ensures !resp.Imported? ==> projects.State() == old(projects.State()) && ptypes.State() == old(ptypes.State()) && stypes.State() == old(stypes.State())
  {
    if !nonceOk {
      return Rejected;
    }
    var problem := UploadProblem(canManage, upload);
    if problem.Some? {
      return Failure(problem.value);
    }
    var imported, errors := ImportProjects(upload.lines, projects, ptypes, stypes, host);
    resp := Imported(imported, errors);
  }

  /** ajax_import_project_types and ajax_import_solution_types, on their own table. */
  method HandleImportTypes(nonceOk: bool, canManage: bool, upload: Upload, table: TypeTable, host: Host)
    returns (resp: ImportResponse)
    requires table.Valid()
    modifies table
    ensures table.Valid()
    ensures !nonceOk ==> resp == Rejected
    ensures nonceOk && UploadProblem(canManage, upload).Some? ==> resp == Failure(UploadProblem(canManage, upload).value)
    ensures nonceOk && UploadProblem(canManage, upload).None? ==> resp.Imported?
    ensures resp.Imported? ==>
      && nonceOk && UploadProblem(canManage, upload).None? && upload.Opened?
      && UpsertRows(old(table.State()), DataRows(upload.lines), host) == Tally(table.State(), resp.imported, resp.errors)
    ensures !resp.Imported? ==> table.State() == old(table.State())
  {
    if !nonceOk {
      return Rejected;
    }
    var problem := UploadProblem(canManage, upload);
    if problem.Some? {
      return Failure(problem.value);
    }
    var imported, errors := ImportTypes(upload.lines, table, host);
    resp := Imported(imported, errors);
  }
}
