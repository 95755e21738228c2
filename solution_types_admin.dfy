/**
 * The Solution Types screen (admin/solution-types.php): the add, edit and
 * delete forms and their effect on wp_pmp_solution_types, and the rule that
 * offers the delete button only for unused types. Every POST must carry a
 * verifying nonce or the request dies before anything changes.
 */
module SolutionTypesAdmin {
  import opened Wrappers
  import opened Text
  import opened Records
  import opened TypeTables

  /** What the page prints: `wp_die`, or the `$message` of kind `$message_type` ('' and '' for none). */
  datatype Outcome = Died(text: string) | Notice(message: string, kind: string)

  const SecurityError := "Security check failed."
  const NameRequired := "Name is required."
  const AddFailed := "Error adding solution type. Name may already exist."
  const UpdateFailed := "Error updating solution type."
  const DeleteFailed := "Error deleting solution type."

  /** `$_POST[$key]`, with a missing key read as ''. */
  function Posted(post: map<string, string>, key: string): string {
    if key in post then post[key] else ""
  }

  /** `sprintf('Cannot delete: %d project(s) are using this solution type.', $usage_count)`. */
  function InUseError(count: nat): string {
    "Cannot delete: " + IntToString(count) + " project(s) are using this solution type."
  }

  /**
   * The handler's outcome on table `s` for a request; `nonceOk` is
   * wp_verify_nonce's verdict on the posted nonce. The action is
   * `$_POST['action']` as posted.
   */
  function PostOutcome(s: TableState, isPost: bool, post: map<string, string>, nonceOk: bool,
                       projects: seq<Project>, host: Host): (r: (TableState, Outcome))
    ensures r.0 != s ==> isPost && "pmp_solution_type_nonce" in post && nonceOk
    ensures r.1.Died? ==> r.0 == s
    ensures r.1.Notice? && r.1.kind == "error" ==> r.0 == s
  {
    if !isPost then (s, Notice("", ""))
    else if !("pmp_solution_type_nonce" in post) || !nonceOk then (s, Died(SecurityError))
    else
      var action := Posted(post, "action");
      var name := host.sanitizeText(Posted(post, "name"));
      var description := host.sanitizeTextarea(Posted(post, "description"));
      var id := Intval(Posted(post, "id"));
      if action == "add" then
        if !Truthy(name) then (s, Notice(NameRequired, "error"))
        else
          var ins := InsertWith(s, name, description, 0);
          if ins.1 != 0 then (ins.0, Notice("Solution type added successfully.", "success"))
          else (s, Notice(AddFailed, "error"))
      else if action == "edit" then
        if !Truthy(name) then (s, Notice(NameRequired, "error"))
        else
          var upd := UpdateWith(s, id, name, description);
          if upd.1 then (upd.0, Notice("Solution type updated successfully.", "success"))
          else (s, Notice(UpdateFailed, "error"))
      else if action == "delete" then
        var usage := CountWhere(projects, id, true);
        if usage > 0 then (s, Notice(InUseError(usage), "error"))
        else
          var del := DeleteWith(s, id);
          if del.1 != 0 then (del.0, Notice("Solution type deleted successfully.", "success"))
          else (s, Notice(DeleteFailed, "error"))
      else (s, Notice("", ""))
  }

  /** `$type->usage_count == 0`: the delete button shows for unused types only. */
  predicate ShowDeleteButton(projects: seq<Project>, id: int) {
    CountWhere(projects, id, true) == 0
  }

  // ---------------------------------------------------------------- what each action does to the table

  /** A POST with a missing or failing nonce dies and changes nothing. */
  lemma BadNonceDies(s: TableState, post: map<string, string>, nonceOk: bool, projects: seq<Project>, host: Host)
    requires "pmp_solution_type_nonce" !in post || !nonceOk
    ensures PostOutcome(s, true, post, nonceOk, projects, host) == (s, Died(SecurityError))
  {
  }

  /** An add or edit with an empty name (or "0") reports the name error and changes nothing. */
  lemma EmptyNameUnchanged(s: TableState, post: map<string, string>, projects: seq<Project>, host: Host)
    requires "pmp_solution_type_nonce" in post
    requires Posted(post, "action") in {"add", "edit"} && !Truthy(host.sanitizeText(Posted(post, "name")))
    ensures PostOutcome(s, true, post, true, projects, host) == (s, Notice(NameRequired, "error"))
  {
  }

  /** An add inserts one row with the next id exactly when the name is new, and otherwise reports the failure. */
  lemma AddNewName(s: TableState, post: map<string, string>, projects: seq<Project>, host: Host)
    requires s.Valid() && "pmp_solution_type_nonce" in post && Posted(post, "action") == "add"
    requires Truthy(host.sanitizeText(Posted(post, "name")))
    ensures var name := host.sanitizeText(Posted(post, "name"));
      var t := PostOutcome(s, true, post, true, projects, host);
      && t.0.Valid()
      && (IdOfName(s.rows, name).None? ==>
            t.0.rows == s.rows + [TypeRow(s.nextId, name, host.sanitizeTextarea(Posted(post, "description")), 0, "")]
            && IdOfName(t.0.rows, name) == Some(s.nextId)
            && t.1.kind == "success")
      && (IdOfName(s.rows, name).Some? ==> t == (s, Notice(AddFailed, "error")))
  {
    var name, description := host.sanitizeText(Posted(post, "name")), host.sanitizeTextarea(Posted(post, "description"));
    InsertValid(s, name, description, 0);
    if IdOfName(s.rows, name).None? {
      InsertLookup(s, name, description, 0, name);
    }
  }

  /**
   * An edit renames only the row with the posted id. It fails, changing
   * nothing, only when that row exists and another row holds the name; an id
   * no row has matches nothing and is reported as a success.
   */
  lemma EditOnlyThatRow(s: TableState, post: map<string, string>, projects: seq<Project>, host: Host)
    requires s.Valid() && "pmp_solution_type_nonce" in post && Posted(post, "action") == "edit"
    requires Truthy(host.sanitizeText(Posted(post, "name")))
    ensures var name := host.sanitizeText(Posted(post, "name"));
      var id := Intval(Posted(post, "id"));
      var t := PostOutcome(s, true, post, true, projects, host);
      && t.0.Valid() && |t.0.rows| == |s.rows|
      && (t.1.kind == "success" <==>
            ((exists k :: 0 <= k < |s.rows| && s.rows[k].id == id) ==>
               forall k :: 0 <= k < |s.rows| && s.rows[k].name == name ==> s.rows[k].id == id))
      && forall k :: 0 <= k < |s.rows| && s.rows[k].id != id ==> t.0.rows[k] == s.rows[k]
  {
    var name, id := host.sanitizeText(Posted(post, "name")), Intval(Posted(post, "id"));
    var description := host.sanitizeTextarea(Posted(post, "description"));
    UpdateValid(s, id, name, description);
    EditOutcome(s, post, projects, host);
  }

  /** The edit branch of the handler, for a truthy name: the update's table, and its verdict as the notice. */
  lemma EditOutcome(s: TableState, post: map<string, string>, projects: seq<Project>, host: Host)
    requires "pmp_solution_type_nonce" in post && Posted(post, "action") == "edit"
    requires Truthy(host.sanitizeText(Posted(post, "name")))
    ensures var upd := UpdateWith(s, Intval(Posted(post, "id")), host.sanitizeText(Posted(post, "name")), host.sanitizeTextarea(Posted(post, "description")));
      PostOutcome(s, true, post, true, projects, host)
        == (upd.0, if upd.1 then Notice("Solution type updated successfully.", "success") else Notice(UpdateFailed, "error"))
  {
  }

  /** An edit of an id no row has updates nothing and still reports success, even with a taken name. */
  lemma EditAbsentIdSucceeds(s: TableState, post: map<string, string>, projects: seq<Project>, host: Host)
    requires "pmp_solution_type_nonce" in post && Posted(post, "action") == "edit"
    requires Truthy(host.sanitizeText(Posted(post, "name")))
    requires forall k :: 0 <= k < |s.rows| ==> s.rows[k].id != Intval(Posted(post, "id"))
    ensures PostOutcome(s, true, post, true, projects, host) == (s, Notice("Solution type updated successfully.", "success"))
  {
    UpdateAbsentId(s, Intval(Posted(post, "id")), host.sanitizeText(Posted(post, "name")), host.sanitizeTextarea(Posted(post, "description")));
  }

  /** A delete is refused, with the usage count, while any project uses the type. */
  lemma DeleteRefusedInUse(s: TableState, post: map<string, string>, projects: seq<Project>, host: Host, k: int)
    requires "pmp_solution_type_nonce" in post && Posted(post, "action") == "delete"
    requires 0 <= k < |projects| && projects[k].solutionTypeId == Intval(Posted(post, "id"))
    ensures var usage := CountWhere(projects, Intval(Posted(post, "id")), true);
      usage >= 1 && PostOutcome(s, true, post, true, projects, host) == (s, Notice(InUseError(usage), "error"))
  {
    var id := Intval(Posted(post, "id"));
    assert projects[k].solutionTypeId == id;
    var usage := CountWhere(projects, id, true);
    assert usage != 0;
    assert Posted(post, "action") != "add" && Posted(post, "action") != "edit";
  }

  /**
   * The delete button and the delete guard agree: a listed type offered for
   * deletion is removed by the delete, keeping every other row, and a type
   * not offered would be refused.
   */
  lemma DeleteButtonIffDeletable(s: TableState, post: map<string, string>, projects: seq<Project>, host: Host)
    requires s.Valid() && "pmp_solution_type_nonce" in post && Posted(post, "action") == "delete"
    requires IdIndex(s.rows, Intval(Posted(post, "id"))) >= 0
    ensures var id := Intval(Posted(post, "id"));
      var t := PostOutcome(s, true, post, true, projects, host);
      && (ShowDeleteButton(projects, id) ==>
            t.1 == Notice("Solution type deleted successfully.", "success")
            && t.0.Valid() && IdIndex(t.0.rows, id) == -1 && |t.0.rows| + 1 == |s.rows|
            && forall k :: 0 <= k < |s.rows| && s.rows[k].id != id ==> s.rows[k] in t.0.rows)
      && (!ShowDeleteButton(projects, id) ==> t.0 == s && t.1.kind == "error")
  {
    var id := Intval(Posted(post, "id"));
    DeleteValid(s, id);
    DeleteRemoves(s, id);
  }

  // ---------------------------------------------------------------- the handler

  /** The POST handler at the top of the page, changing the table in place. */
  method HandlePost(table: TypeTable, isPost: bool, post: map<string, string>, nonceOk: bool,
                    projects: seq<Project>, host: Host)
    returns (outcome: Outcome)
    requires table.Valid()
    modifies table
    ensures table.Valid()
    ensures (table.State(), outcome) == PostOutcome(old(table.State()), isPost, post, nonceOk, projects, host)
  {
    outcome := Notice("", "");
    if !isPost {
      return;
    }
    if !("pmp_solution_type_nonce" in post) || !nonceOk {
      outcome := Died(SecurityError);
      return;
    }
    var action := Posted(post, "action");
    if action == "add" {
      outcome := Add(table, post, host);
    } else if action == "edit" {
      outcome := Edit(table, post, host);
    } else if action == "delete" {
      outcome := Delete(table, post, projects, host);
    }
  }

  method Add(table: TypeTable, post: map<string, string>, host: Host) returns (outcome: Outcome)
    requires table.Valid() && Posted(post, "action") == "add" && "pmp_solution_type_nonce" in post
    modifies table
    ensures table.Valid()
    ensures (table.State(), outcome) == PostOutcome(old(table.State()), true, post, true, [], host)
  {
    var name := host.sanitizeText(Posted(post, "name"));
    var description := host.sanitizeTextarea(Posted(post, "description"));
    if !Truthy(name) {
      outcome := Notice(NameRequired, "error");
    } else {
      var result := table.Insert(name, description, 0);
      if result != 0 {
        outcome := Notice("Solution type added successfully.", "success");
      } else {
        outcome := Notice(AddFailed, "error");
      }
    }
  }

  method Edit(table: TypeTable, post: map<string, string>, host: Host) returns (outcome: Outcome)
    requires table.Valid() && Posted(post, "action") == "edit" && "pmp_solution_type_nonce" in post
    modifies table
    ensures table.Valid()
    ensures (table.State(), outcome) == PostOutcome(old(table.State()), true, post, true, [], host)
  {
    var id := Intval(Posted(post, "id"));
    var name := host.sanitizeText(Posted(post, "name"));
    var description := host.sanitizeTextarea(Posted(post, "description"));
    if !Truthy(name) {
      outcome := Notice(NameRequired, "error");
    } else {
      var result := table.Update(id, name, description);
      if result {
        outcome := Notice("Solution type updated successfully.", "success");
      } else {
        outcome := Notice(UpdateFailed, "error");
      }
    }
  }

  method Delete(table: TypeTable, post: map<string, string>, projects: seq<Project>, host: Host) returns (outcome: Outcome)
    requires table.Valid() && Posted(post, "action") == "delete" && "pmp_solution_type_nonce" in post
    modifies table
    ensures table.Valid()
    ensures (table.State(), outcome) == PostOutcome(old(table.State()), true, post, true, projects, host)
  {
    var id := Intval(Posted(post, "id"));
    var usageCount := CountWhere(projects, id, true);
    if usageCount > 0 {
      outcome := Notice(InUseError(usageCount), "error");
    } else {
      var result := table.Delete(id);
      if result != 0 {
        outcome := Notice("Solution type deleted successfully.", "success");
      } else {
        outcome := Notice(DeleteFailed, "error");
      }
    }
  }
}
