/**
 * The two lookup tables wp_pmp_project_types and wp_pmp_solution_types
 * (project-map-plugin.php:104-124). Both have an AUTO_INCREMENT id and a
 * UNIQUE KEY on name; a solution type also records its project_type_id.
 * The functions below are what MySQL does to such a table for the SQL the
 * plugin issues; the class is the table the handlers change in place.
 */
module TypeTables {
  import opened Wrappers
  import opened Text

  /**
   * One row; `parent` is a solution type's project_type_id (0 for NULL and for
   * project types) and `icon` a project type's icon ('' for NULL).
   */
  datatype TypeRow = TypeRow(id: nat, name: string, description: string, parent: int, icon: string)

  /** The rows in insertion order and the next AUTO_INCREMENT id. */
  datatype TableState = TableState(rows: seq<TypeRow>, nextId: nat) {
    /** Ids positive, increasing and below nextId; names unique (UNIQUE KEY name). */
    predicate Valid() {
      && nextId >= 1
      && (forall k :: 0 <= k < |rows| ==> 0 < rows[k].id < nextId)
      && (forall j, k :: 0 <= j < k < |rows| ==> rows[j].id < rows[k].id)
      && (forall j, k :: 0 <= j < k < |rows| ==> rows[j].name != rows[k].name)
    }
  }

  /** The position of the row named `name`, or -1. */
  function NameIndex(rows: seq<TypeRow>, name: string): (r: int)
    ensures -1 <= r < |rows|
    ensures r >= 0 ==> rows[r].name == name
    ensures r == -1 <==> forall k :: 0 <= k < |rows| ==> rows[k].name != name
  {
    if |rows| == 0 then -1
    else if rows[|rows| - 1].name == name then
      var q := NameIndex(rows[..|rows| - 1], name);
      if q >= 0 then q else |rows| - 1
    else NameIndex(rows[..|rows| - 1], name)
  }

  /** The position of the row with id `id`, or -1. */
  function IdIndex(rows: seq<TypeRow>, id: int): (r: int)
    ensures -1 <= r < |rows|
    ensures r >= 0 ==> rows[r].id == id
    ensures r == -1 <==> forall k :: 0 <= k < |rows| ==> rows[k].id != id
  {
    if |rows| == 0 then -1
    else if rows[0].id == id then 0
    else
      var q := IdIndex(rows[1..], id);
      if q >= 0 then q + 1 else -1
  }

  /** `SELECT id FROM table WHERE name = %s`: the id, or None when no row has the name. */
  function IdOfName(rows: seq<TypeRow>, name: string): (r: Option<nat>)
    ensures r.None? <==> forall k :: 0 <= k < |rows| ==> rows[k].name != name
  {
    var i := NameIndex(rows, name);
    if i < 0 then None else Some(rows[i].id)
  }

  /** The LEFT JOIN on a type table read with `?: ''`: the name of the row with that id, '' when there is none. */
  function TypeName(rows: seq<TypeRow>, id: int): (r: string)
    ensures r == "" || exists k :: 0 <= k < |rows| && rows[k].id == id && rows[k].name == r
  {
    var i := IdIndex(rows, id);
    if i >= 0 && Truthy(rows[i].name) then rows[i].name else ""
  }

  /** In a valid table the row named `name` is the only one with that name. */
  lemma NameIndexUnique(s: TableState, name: string, k: int)
    requires s.Valid() && 0 <= k < |s.rows| && s.rows[k].name == name
    ensures NameIndex(s.rows, name) == k
  {
  }

  /**
   * INSERT: the new row gets the next id; the insert fails (returns false,
   * changing nothing, with insert_id 0) when the name is already taken.
   */
  function InsertWith(s: TableState, name: string, description: string, parent: int): (r: (TableState, nat))
    ensures IdOfName(s.rows, name).Some? ==> r == (s, 0)
    ensures IdOfName(s.rows, name).None? ==> r == (TableState(s.rows + [TypeRow(s.nextId, name, description, parent, "")], s.nextId + 1), s.nextId)
  {
    if NameIndex(s.rows, name) >= 0 then (s, 0)
    else (TableState(s.rows + [TypeRow(s.nextId, name, description, parent, "")], s.nextId + 1), s.nextId)
  }

  /** The rows with id `id` given `name` and `description`; every other row as it was. */
  function Rename(rows: seq<TypeRow>, id: int, name: string, description: string): (r: seq<TypeRow>)
    ensures |r| == |rows|
    ensures forall k :: 0 <= k < |rows| ==> r[k] == if rows[k].id == id then rows[k].(name := name, description := description) else rows[k]
  {
    seq(|rows|, k requires 0 <= k < |rows| => if rows[k].id == id then rows[k].(name := name, description := description) else rows[k])
  }

  /**
   * `UPDATE table SET name, description WHERE id`: fails (false) when the row
   * with that id exists and another row holds the name (UNIQUE KEY name);
   * succeeds otherwise, matching no row when no row has the id.
   */
  function UpdateWith(s: TableState, id: int, name: string, description: string): (r: (TableState, bool))
    ensures s.Valid() ==>
      (r.1 <==> ((exists k :: 0 <= k < |s.rows| && s.rows[k].id == id) ==>
                   forall k :: 0 <= k < |s.rows| && s.rows[k].name == name ==> s.rows[k].id == id))
    ensures r.0 == if r.1 then TableState(Rename(s.rows, id, name, description), s.nextId) else s
  {
    var i := NameIndex(s.rows, name);
    if IdIndex(s.rows, id) >= 0 && i >= 0 && s.rows[i].id != id then (s, false)
    else (TableState(Rename(s.rows, id, name, description), s.nextId), true)
  }

  /** An UPDATE whose WHERE id matches no row changes nothing and is no error, whatever the name. */
  lemma UpdateAbsentId(s: TableState, id: int, name: string, description: string)
    requires forall k :: 0 <= k < |s.rows| ==> s.rows[k].id != id
    ensures UpdateWith(s, id, name, description) == (s, true)
  {
    assert Rename(s.rows, id, name, description) == s.rows;
  }

  /** `UPDATE table SET description WHERE id`. */
  function SetDescriptionWith(s: TableState, id: int, description: string): (r: TableState)
    ensures r.nextId == s.nextId && |r.rows| == |s.rows|
    ensures s.Valid() ==> forall k :: 0 <= k < |s.rows| ==> r.rows[k] == if s.rows[k].id == id then s.rows[k].(description := description) else s.rows[k]
  {
    var i := IdIndex(s.rows, id);
    if i < 0 then s
    else TableState(s.rows[i := s.rows[i].(description := description)], s.nextId)
  }

  /** `DELETE FROM table WHERE id`: the new table and the number of rows deleted. */
  function DeleteWith(s: TableState, id: int): (r: (TableState, nat))
    ensures r.1 <= 1 && r.0.nextId == s.nextId
  {
    var i := IdIndex(s.rows, id);
    if i < 0 then (s, 0)
    else (TableState(s.rows[..i] + s.rows[i + 1..], s.nextId), 1)
  }

  // ---------------------------------------------------------------- the operations keep a table valid

  lemma InsertValid(s: TableState, name: string, description: string, parent: int)
    requires s.Valid()
    ensures InsertWith(s, name, description, parent).0.Valid()
  {
  }

  lemma UpdateValid(s: TableState, id: int, name: string, description: string)
    requires s.Valid()
    ensures UpdateWith(s, id, name, description).0.Valid()
  {
    var r := UpdateWith(s, id, name, description);
    if r.1 {
      var rows := r.0.rows;
      forall j, k | 0 <= j < k < |rows|
        ensures rows[j].name != rows[k].name
      {
        if s.rows[j].id == id {
          assert s.rows[k].id != id;
        } else if s.rows[k].id == id {
          assert s.rows[j].id != id;
        }
      }
    }
  }

  lemma SetDescriptionValid(s: TableState, id: int, description: string)
    requires s.Valid()
    ensures SetDescriptionWith(s, id, description).Valid()
  {
  }

  lemma DeleteValid(s: TableState, id: int)
    requires s.Valid()
    ensures DeleteWith(s, id).0.Valid()
  {
    var i := IdIndex(s.rows, id);
    if i >= 0 {
      var rows := s.rows[..i] + s.rows[i + 1..];
      assert DeleteWith(s, id).0 == TableState(rows, s.nextId);
      RemoveAt(s.rows, i);
      forall j, k | 0 <= j < k < |rows|
        ensures rows[j].id < rows[k].id && rows[j].name != rows[k].name
      {
        var j', k' := if j < i then j else j + 1, if k < i then k else k + 1;
        assert rows[j] == s.rows[j'] && rows[k] == s.rows[k'] && j' < k';
      }
    }
  }

  /** Removing the row at `i` shifts every later row down by one place. */
  lemma RemoveAt(rows: seq<TypeRow>, i: int)
    requires 0 <= i < |rows|
    ensures var r := rows[..i] + rows[i + 1..];
      |r| + 1 == |rows| && forall k :: 0 <= k < |r| ==> r[k] == if k < i then rows[k] else rows[k + 1]
  {
  }

  // ---------------------------------------------------------------- what a lookup sees after each operation

  /** After a successful insert the name resolves to the new id, and every other name as before. */
  lemma {:induction false} InsertLookup(s: TableState, name: string, description: string, parent: int, other: string)
    requires s.Valid() && IdOfName(s.rows, name).None?
    ensures IdOfName(InsertWith(s, name, description, parent).0.rows, name) == Some(s.nextId)
    ensures other != name ==> IdOfName(InsertWith(s, name, description, parent).0.rows, other) == IdOfName(s.rows, other)
  {
    var rows := s.rows + [TypeRow(s.nextId, name, description, parent, "")];
    assert rows[..|rows| - 1] == s.rows;
  }

  /** A description update leaves every name resolving to the same id, and sets the matched row's description. */
  lemma SetDescriptionLookup(s: TableState, id: int, description: string, name: string)
    requires s.Valid()
    ensures IdOfName(SetDescriptionWith(s, id, description).rows, name) == IdOfName(s.rows, name)
    ensures forall k :: 0 <= k < |s.rows| && s.rows[k].id == id ==> SetDescriptionWith(s, id, description).rows[k].description == description
  {
    var t := SetDescriptionWith(s, id, description);
    SetDescriptionValid(s, id, description);
    var i := NameIndex(s.rows, name);
    if i >= 0 {
      NameIndexUnique(t, name, i);
    }
  }

  /** After a delete no row carries the id, and every other row is kept in order. */
  lemma DeleteRemoves(s: TableState, id: int)
    requires s.Valid()
    ensures IdIndex(DeleteWith(s, id).0.rows, id) == -1
    ensures forall k :: 0 <= k < |s.rows| && s.rows[k].id != id ==> s.rows[k] in DeleteWith(s, id).0.rows
    ensures |DeleteWith(s, id).0.rows| + DeleteWith(s, id).1 == |s.rows|
  {
    var i := IdIndex(s.rows, id);
    if i >= 0 {
      var rows := s.rows[..i] + s.rows[i + 1..];
      assert DeleteWith(s, id).0.rows == rows;
      RemoveAt(s.rows, i);
      forall k | 0 <= k < |rows|
        ensures rows[k].id != id
      {
        if k < i { assert s.rows[k].id < s.rows[i].id; } else { assert s.rows[i].id < s.rows[k + 1].id; }
      }
      forall k | 0 <= k < |s.rows| && s.rows[k].id != id
        ensures s.rows[k] in rows
      {
        if k < i { assert rows[k] == s.rows[k]; } else { assert rows[k - 1] == s.rows[k]; }
      }
    }
  }

  /** The row named `name`, if any. */
  function RowOf(rows: seq<TypeRow>, name: string): (r: Option<TypeRow>)
    ensures r.Some? ==> r.value.name == name && r.value in rows
    ensures r.None? <==> IdOfName(rows, name).None?
    ensures r.Some? ==> IdOfName(rows, name) == Some(r.value.id)
  {
    var i := NameIndex(rows, name);
    if i < 0 then None else Some(rows[i])
  }

  /** Where two tables hold the same names in the same places, a name is found in the same place. */
  lemma {:induction false} NameIndexSameNames(a: seq<TypeRow>, b: seq<TypeRow>, name: string)
    requires |a| == |b| && forall k :: 0 <= k < |a| ==> a[k].name == b[k].name
    ensures NameIndex(a, name) == NameIndex(b, name)
  {
    if |a| > 0 {
      NameIndexSameNames(a[..|a| - 1], b[..|b| - 1], name);
    }
  }

  /** After inserting a new name, that name finds the new row and every other name finds what it found before. */
  lemma {:induction false} RowOfInsert(s: TableState, name: string, description: string, parent: int, other: string)
    requires s.Valid() && IdOfName(s.rows, name).None?
    ensures RowOf(InsertWith(s, name, description, parent).0.rows, other)
      == if other == name then Some(TypeRow(s.nextId, name, description, parent, "")) else RowOf(s.rows, other)
  {
    var rows := s.rows + [TypeRow(s.nextId, name, description, parent, "")];
    assert rows[..|rows| - 1] == s.rows;
  }

  /** A description update changes the description of the row with that id and nothing else. */
  lemma RowOfSetDescription(s: TableState, id: int, description: string, name: string)
    requires s.Valid()
    ensures RowOf(SetDescriptionWith(s, id, description).rows, name)
      == match RowOf(s.rows, name)
         case Some(r) => Some(if r.id == id then r.(description := description) else r)
         case None => None
  {
    var t := SetDescriptionWith(s, id, description);
    NameIndexSameNames(s.rows, t.rows, name);
  }

  // ---------------------------------------------------------------- the table the handlers change

  class TypeTable {
    var rows: seq<TypeRow>
    var nextId: nat

    function State(): TableState
      reads this
    {
      TableState(rows, nextId)
    }

    predicate Valid()
      reads this
    {
      State().Valid()
    }

    constructor ()
      ensures Valid() && rows == [] && nextId == 1
    {
      rows, nextId := [], 1;
    }

    /** `$wpdb->get_var("SELECT id ... WHERE name = %s")`. */
    function Lookup(name: string): (r: Option<nat>)
      reads this
      ensures r.None? <==> forall k :: 0 <= k < |rows| ==> rows[k].name != name
    {
      IdOfName(rows, name)
    }

    /** `$wpdb->insert`; `id` is `$wpdb->insert_id`, 0 when the insert failed. */
    method Insert(name: string, description: string, parent: int) returns (id: nat)
      requires Valid()
      modifies this
      ensures Valid()
      ensures (State(), id) == InsertWith(old(State()), name, description, parent)
    {
      InsertValid(State(), name, description, parent);
      var r := InsertWith(State(), name, description, parent);
      rows, nextId := r.0.rows, r.0.nextId;
      id := r.1;
    }

    /** `$wpdb->update` of name and description; `ok` is `$result !== false`. */
    method Update(id: int, name: string, description: string) returns (ok: bool)
      requires Valid()
      modifies this
      ensures Valid()
      ensures (State(), ok) == UpdateWith(old(State()), id, name, description)
    {
      UpdateValid(State(), id, name, description);
      var r := UpdateWith(State(), id, name, description);
      rows, nextId := r.0.rows, r.0.nextId;
      ok := r.1;
    }

    /** `$wpdb->update` of the description alone. */
    method SetDescription(id: int, description: string)
      requires Valid()
      modifies this
      ensures Valid()
      ensures State() == SetDescriptionWith(old(State()), id, description)
    {
      SetDescriptionValid(State(), id, description);
      var r := SetDescriptionWith(State(), id, description);
      rows, nextId := r.rows, r.nextId;
    }

    /** `$wpdb->delete`; `count` is the number of rows deleted. */
    method Delete(id: int) returns (count: nat)
      requires Valid()
      modifies this
      ensures Valid()
      ensures (State(), count) == DeleteWith(old(State()), id)
    {
      DeleteValid(State(), id);
      var r := DeleteWith(State(), id);
      rows, nextId := r.0.rows, r.0.nextId;
      count := r.1;
    }
  }
}
