/**
 * The data model: a project row of wp_pmp_projects, a country row of
 * wp_pmp_countries, the foreign helpers the PHP code calls (sanitisers,
 * media library, the database's acceptance of a row) and the projects table
 * itself, which the admin screens and the CSV import change in place.
 *
 * A NULL integer column (type ids, completion month and year, featured image)
 * is represented by 0: PHP reads both as falsy, and real ids are positive.
 */
module Records {
  import opened Wrappers
  import opened Text

  datatype Project = Project(
    id: nat,
    villageName: string,
    projectNumber: string,
    country: string,
    latitude: real,
    longitude: real,
    projectTypeId: int,
    solutionTypeId: int,
    completionMonth: int,
    completionYear: int,
    beneficiaries: int,
    inHonourOf: string,
    description: string,
    featuredImageId: int,
    galleryImages: string,
    videoUrls: string,
    status: string)

  datatype Country = Country(name: string, code: string, flag: string)

  /** A scalar of a JSON response as the browser receives it: null, false or a string. */
  datatype Cell = Null | False | Text(text: string)

  /**
   * The WordPress and PHP library functions the plugin calls but does not
   * define. Each is an arbitrary total function; nothing is assumed of it
   * unless a lemma says so in its requires.
   */
  datatype Host = Host(
    sanitizeText: string -> string,       // sanitize_text_field
    sanitizeTextarea: string -> string,   // sanitize_textarea_field
    escUrlRaw: string -> string,          // esc_url_raw
    escAttr: string -> string,            // esc_attr
    ksesPost: string -> string,           // wp_kses_post
    sanitizeHexColor: string -> string,   // sanitize_hex_color
    floatval: string -> real,             // floatval
    decimalText: real -> string,          // the text MySQL returns for a DECIMAL column
    trimWords: (string, nat) -> string,   // wp_trim_words
    importImage: string -> int,           // import_image_from_url: attachment id, 0 for null
    attachmentUrl: int -> Option<string>, // wp_get_attachment_url: None for false
    dbAccepts: Project -> bool)           // whether MySQL accepts an insert or update of the row

  /** The row the projects table holds under `id`, if any (get_project / SELECT ... WHERE id). */
  function FindProject(rows: seq<Project>, id: int): (r: Option<Project>)
    ensures r.Some? ==> r.value in rows && r.value.id == id
    ensures r.None? ==> forall k :: 0 <= k < |rows| ==> rows[k].id != id
  {
    if |rows| == 0 then None
    else if rows[0].id == id then Some(rows[0])
    else FindProject(rows[1..], id)
  }

  /** AUTO_INCREMENT keeps ids positive, below the next id, and increasing in insertion order. */
  predicate ProjectIdsOrdered(rows: seq<Project>, nextId: nat) {
    && (forall k :: 0 <= k < |rows| ==> 0 < rows[k].id < nextId)
    && (forall j, k :: 0 <= j < k < |rows| ==> rows[j].id < rows[k].id)
  }

  /** The projects table: its rows in insertion order and the next AUTO_INCREMENT id. */
  datatype ProjectState = ProjectState(rows: seq<Project>, nextId: nat) {
    predicate Valid() {
      nextId >= 1 && ProjectIdsOrdered(rows, nextId)
    }
  }

  /** `$wpdb->insert` on the projects table: the row gets the next id, if the database accepts it. */
  function InsertProject(s: ProjectState, p: Project, host: Host): (r: (ProjectState, int))
    ensures s.Valid() ==> r.0.Valid()
    ensures host.dbAccepts(p) ==> r == (ProjectState(s.rows + [p.(id := s.nextId)], s.nextId + 1), s.nextId as int)
    ensures !host.dbAccepts(p) ==> r == (s, 0)
  {
    if host.dbAccepts(p) then (ProjectState(s.rows + [p.(id := s.nextId)], s.nextId + 1), s.nextId as int)
    else (s, 0)
  }

  /** Replaces row `id` by `p` (same id) everywhere it occurs. */
  function ReplaceProject(rows: seq<Project>, id: int, p: Project): (r: seq<Project>)
    ensures |r| == |rows|
    ensures forall k :: 0 <= k < |rows| ==> r[k] == if rows[k].id == id then p.(id := rows[k].id) else rows[k]
  {
    if |rows| == 0 then []
    else [if rows[0].id == id then p.(id := rows[0].id) else rows[0]] + ReplaceProject(rows[1..], id, p)
  }

  /** The projects table, which the admin screens and the import change in place. */
  class ProjectTable {
    var rows: seq<Project>
    var nextId: nat

    function State(): ProjectState
      reads this
    {
      ProjectState(rows, nextId)
    }

    predicate Valid()
      reads this
    {
      State().Valid()
    }

    constructor ()
      ensures Valid() && rows == [] && nextId == 1
    {
      rows, nextId := [], 1;
    }

    /** `$wpdb->insert`: returns the new id (`$wpdb->insert_id`), or 0 when the insert fails. */
    method Insert(p: Project, host: Host) returns (id: int)
      requires Valid()
      modifies this
      ensures Valid()
      ensures (State(), id) == InsertProject(old(State()), p, host)
    {
      var r := InsertProject(State(), p, host);
      rows, nextId := r.0.rows, r.0.nextId;
      id := r.1;
    }

    /**
     * `$wpdb->update(..., array('id' => $id))`: replaces the columns of row `id`,
     * keeping its id; `ok` is false when the database rejects the row.
     */
    method Update(id: int, p: Project, host: Host) returns (ok: bool)
      requires Valid()
      modifies this
      ensures Valid() && nextId == old(nextId)
      ensures ok == host.dbAccepts(p)
      ensures rows == if ok then ReplaceProject(old(rows), id, p) else old(rows)
    {
      ok := host.dbAccepts(p);
      if ok {
        rows := ReplaceProject(rows, id, p);
      }
    }
  }

  /** Number of projects whose column equals `id` (the usage-count queries of the type screens). */
  function CountWhere(rows: seq<Project>, id: int, solution: bool): (n: nat)
    ensures n <= |rows|
    ensures n == 0 <==> forall k :: 0 <= k < |rows| ==> (if solution then rows[k].solutionTypeId else rows[k].projectTypeId) != id
  {
    if |rows| == 0 then 0
    else
      var col := if solution then rows[0].solutionTypeId else rows[0].projectTypeId;
      (if col == id then 1 else 0) + CountWhere(rows[1..], id, solution)
  }
}
