/**
 * The Project Types screen (admin/project-types.php): the add/edit form, the
 * delete link and their effect on wp_pmp_project_types. The form handler and
 * then the delete handler run, in that order, at the top of every request.
 * The outcome of each is a function of the table before it; the methods
 * change the table in place and are proved to reach that outcome.
 */
module ProjectTypesAdmin {
  import opened Wrappers
  import opened Text
  import opened Records
  import opened TypeTables

  /** The success and error notices the page prints ('' for none). */
  datatype Notice = Notice(message: string, error: string)

  const NoNotice := Notice("", "")
  const SecurityError := "Security check failed."
  const NameRequired := "Project type name is required."
  const Updated := "Project type updated successfully."
  const Added := "Project type added successfully."
  const Deleted := "Project type deleted successfully."

  /** `$_POST[$key]`, with a missing key read as ''. */
  function Posted(post: map<string, string>, key: string): string {
    if key in post then post[key] else ""
  }

  /** `sanitize_text_field($_POST['type_name'])`. */
  function FormName(post: map<string, string>, host: Host): string {
    host.sanitizeText(Posted(post, "type_name"))
  }

  /** `sanitize_textarea_field($_POST['type_description'])`. */
  function FormDescription(post: map<string, string>, host: Host): string {
    host.sanitizeTextarea(Posted(post, "type_description"))
  }

  /** `isset($_POST['action_type']) ? sanitize_text_field(...) : ''`. */
  function FormAction(post: map<string, string>, host: Host): string {
    if "action_type" in post then host.sanitizeText(post["action_type"]) else ""
  }

  /** `isset($_POST['type_id']) ? intval(...) : 0`. */
  function FormTypeId(post: map<string, string>): int {
    if "type_id" in post then Intval(post["type_id"]) else 0
  }

  /**
   * The form handler's outcome on table `s`. It runs only for a POST that
   * carries the nonce field; `nonceOk` is wp_verify_nonce's verdict. The
   * success notices are printed whatever the database answered.
   */
  function FormOutcome(s: TableState, isPost: bool, post: map<string, string>, nonceOk: bool, host: Host): (r: (TableState, Notice))
    ensures r.0 != s ==> isPost && nonceOk && Truthy(FormName(post, host))
    ensures r.1.error != "" ==> r.0 == s
  {
    if !(isPost && "pmp_project_type_nonce" in post) then (s, NoNotice)
    else if !nonceOk then (s, Notice("", SecurityError))
    else
      var action := FormAction(post, host);
      if action != "add" && action != "edit" then (s, NoNotice)
      else
        var name := FormName(post, host);
        var description := FormDescription(post, host);
        if !Truthy(name) then (s, Notice("", NameRequired))
        else if action == "edit" && FormTypeId(post) > 0 then
          (UpdateWith(s, FormTypeId(post), name, description).0, Notice(Updated, ""))
        else
          (InsertWith(s, name, description, 0).0, Notice(Added, ""))
  }

  /** `sprintf('Cannot delete: %d project(s) are using this project type.', $project_count)`. */
  function InUseError(count: nat): string {
    "Cannot delete: " + IntToString(count) + " project(s) are using this project type."
  }

  /**
   * The delete handler's outcome: it runs for a GET carrying `delete` and
   * `_wpnonce` whose nonce verifies, and refuses while projects use the type.
   */
  function DeleteOutcome(s: TableState, get: map<string, string>, nonceOk: bool, projects: seq<Project>): (r: (TableState, Notice))
    ensures r.0 != s ==> "delete" in get && CountWhere(projects, Intval(get["delete"]), false) == 0
    ensures r.1.error != "" ==> r.0 == s
  {
    if !("delete" in get && "_wpnonce" in get) || !nonceOk then (s, NoNotice)
    else
      var id := Intval(get["delete"]);
      var count := CountWhere(projects, id, false);
      if count > 0 then (s, Notice("", InUseError(count)))
      else (DeleteWith(s, id).0, Notice(Deleted, ""))
  }

  // ---------------------------------------------------------------- what each branch does to the table

  /** A nonce that does not verify gives the security error and changes nothing. */
  lemma BadNonceUnchanged(s: TableState, post: map<string, string>, host: Host)
    requires "pmp_project_type_nonce" in post
    ensures FormOutcome(s, true, post, false, host) == (s, Notice("", SecurityError))
  {
  }

  /** An add or edit with an empty name (or "0") gives the name error and changes nothing. */
  lemma EmptyNameUnchanged(s: TableState, post: map<string, string>, host: Host)
    requires "pmp_project_type_nonce" in post
    requires FormAction(post, host) in {"add", "edit"} && !Truthy(FormName(post, host))
    ensures FormOutcome(s, true, post, true, host) == (s, Notice("", NameRequired))
  {
  }

  /**
   * An edit of a positive id changes that row's name and description, when
   * no other row holds the name, and no other row; the table stays valid.
   */
  lemma EditChangesOnlyThatRow(s: TableState, post: map<string, string>, host: Host)
    requires s.Valid() && "pmp_project_type_nonce" in post
    requires FormAction(post, host) == "edit" && FormTypeId(post) > 0 && Truthy(FormName(post, host))
    ensures var t := FormOutcome(s, true, post, true, host);
      && t.1 == Notice(Updated, "")
      && t.0.Valid() && t.0.nextId == s.nextId && |t.0.rows| == |s.rows|
      && forall k :: 0 <= k < |s.rows| ==>
           t.0.rows[k] == if s.rows[k].id == FormTypeId(post) && (IdOfName(s.rows, FormName(post, host)).None? || IdOfName(s.rows, FormName(post, host)) == Some(s.rows[k].id))
                          then s.rows[k].(name := FormName(post, host), description := FormDescription(post, host))
                          else s.rows[k]
  {
    var id, name := FormTypeId(post), FormName(post, host);
    UpdateValid(s, id, name, FormDescription(post, host));
    var i := NameIndex(s.rows, name);
    if i >= 0 {
      forall k | 0 <= k < |s.rows| && s.rows[k].id == id
        ensures IdOfName(s.rows, name) == Some(s.rows[k].id) <==> s.rows[i].id == id
      {
      }
    }
  }

  /**
   * An add, or an edit without a positive id, inserts one row with the next
   * id when the name is new, and changes nothing when it is taken.
   */
  lemma AddInsertsOneRow(s: TableState, post: map<string, string>, host: Host)
    requires s.Valid() && "pmp_project_type_nonce" in post
    requires FormAction(post, host) == "add" || (FormAction(post, host) == "edit" && FormTypeId(post) <= 0)
    requires Truthy(FormName(post, host))
    ensures var t := FormOutcome(s, true, post, true, host);
      && t.1 == Notice(Added, "")
      && t.0.Valid()
      && (IdOfName(s.rows, FormName(post, host)).None? ==>
            t.0.rows == s.rows + [TypeRow(s.nextId, FormName(post, host), FormDescription(post, host), 0, "")]
            && IdOfName(t.0.rows, FormName(post, host)) == Some(s.nextId))
      && (IdOfName(s.rows, FormName(post, host)).Some? ==> t.0 == s)
  {
    var name, description := FormName(post, host), FormDescription(post, host);
    InsertValid(s, name, description, 0);
    if IdOfName(s.rows, name).None? {
      InsertLookup(s, name, description, 0, name);
    }
  }

  /** The delete is refused, with the count, while any project uses the type. */
  lemma DeleteRefusedInUse(s: TableState, get: map<string, string>, projects: seq<Project>, k: int)
    requires "delete" in get && "_wpnonce" in get
    requires 0 <= k < |projects| && projects[k].projectTypeId == Intval(get["delete"])
    ensures var t := DeleteOutcome(s, get, true, projects);
      t.0 == s && t.1.error == InUseError(CountWhere(projects, Intval(get["delete"]), false))
      && CountWhere(projects, Intval(get["delete"]), false) >= 1
  {
  }

  /** An unused type is deleted: no row carries its id afterwards and every other row is kept. */
  lemma DeleteUnusedRemoves(s: TableState, get: map<string, string>, projects: seq<Project>)
    requires s.Valid() && "delete" in get && "_wpnonce" in get
    requires forall k :: 0 <= k < |projects| ==> projects[k].projectTypeId != Intval(get["delete"])
    ensures var t := DeleteOutcome(s, get, true, projects);
      && t.1 == Notice(Deleted, "") && t.0.Valid()
      && IdIndex(t.0.rows, Intval(get["delete"])) == -1
      && forall k :: 0 <= k < |s.rows| && s.rows[k].id != Intval(get["delete"]) ==> s.rows[k] in t.0.rows
  {
    DeleteValid(s, Intval(get["delete"]));
    DeleteRemoves(s, Intval(get["delete"]));
  }

  // ---------------------------------------------------------------- the handlers

  /** The form handler at the top of the page, changing the table in place. */
  method HandleForm(table: TypeTable, isPost: bool, post: map<string, string>, nonceOk: bool, host: Host)
    returns (notice: Notice)
    requires table.Valid()
    modifies table
    ensures table.Valid()
    ensures (table.State(), notice) == FormOutcome(old(table.State()), isPost, post, nonceOk, host)
  {
    notice := NoNotice;
    if isPost && "pmp_project_type_nonce" in post {
      if !nonceOk {
        notice := Notice("", SecurityError);
      } else {
        var action := FormAction(post, host);
        if action == "add" || action == "edit" {
          var typeId := FormTypeId(post);
          var name := FormName(post, host);
          var description := FormDescription(post, host);
          if !Truthy(name) {
            notice := Notice("", NameRequired);
          } else if action == "edit" && typeId > 0 {
            var _ := table.Update(typeId, name, description);
            notice := Notice(Updated, "");
          } else {
            var _ := table.Insert(name, description, 0);
            notice := Notice(Added, "");
          }
        }
      }
    }
  }

  /** The delete handler that follows it; its notice, when it has one, replaces the form's. */
  method HandleDelete(table: TypeTable, get: map<string, string>, nonceOk: bool, projects: seq<Project>)
    returns (notice: Notice)
    requires table.Valid()
    modifies table
    ensures table.Valid()
    ensures (table.State(), notice) == DeleteOutcome(old(table.State()), get, nonceOk, projects)
  {
    notice := NoNotice;
    if "delete" in get && "_wpnonce" in get && nonceOk {
      var deleteId := Intval(get["delete"]);
      var projectCount := CountWhere(projects, deleteId, false);
      if projectCount > 0 {
        notice := Notice("", InUseError(projectCount));
      } else {
        var _ := table.Delete(deleteId);
        notice := Notice(Deleted, "");
      }
    }
  }
  /**
   * One request: the form handler, then the delete handler on the table it
   * left. Each sets `$message` or `$error` only, so a notice field the
   * delete handler leaves empty shows the form handler's.
   */
  method HandleRequest(table: TypeTable, isPost: bool, post: map<string, string>, formNonceOk: bool,
                       get: map<string, string>, deleteNonceOk: bool, projects: seq<Project>, host: Host)
    returns (notice: Notice)
    requires table.Valid()
    modifies table
    ensures table.Valid()
    ensures var form := FormOutcome(old(table.State()), isPost, post, formNonceOk, host);
      var del := DeleteOutcome(form.0, get, deleteNonceOk, projects);
      && table.State() == del.0
      && notice.message == (if del.1.message != "" then del.1.message else form.1.message)
      && notice.error == (if del.1.error != "" then del.1.error else form.1.error)
  {
    var form := HandleForm(table, isPost, post, formNonceOk, host);
    var del := HandleDelete(table, get, deleteNonceOk, projects);
    notice := Notice(if del.message != "" then del.message else form.message,
                     if del.error != "" then del.error else form.error);
  }
}
