/**
 * The two pieces of logic in the admin script: turning the rows of an export
 * response into CSV text in the browser, and editing the hidden
 * gallery_images field of the project form when attachments are added or
 * removed.
 *
 * The CSV text is read back by a decoder for the record format of section 2
 * of RFC 4180 (fields separated by ',', records ended by a line break, a field
 * with ',', '"' or a line break quoted and its quotes doubled), which is the
 * format the import reads with fgetcsv.
 */
module AdminJs {
  import opened Text
  import opened Records

  // ---------------------------------------------------------------- CSV download

  /** `if (cell === null || cell === undefined) cell = ''; cell = cell.toString();` */
  function CellText(c: Cell): string {
    match c
    case Null => ""
    case False => "false"
    case Text(t) => t
  }

  function CellTexts(row: seq<Cell>): (r: seq<string>)
    ensures |r| == |row|
    ensures forall k :: 0 <= k < |row| ==> r[k] == CellText(row[k])
  {
    seq(|row|, k requires 0 <= k < |row| => CellText(row[k]))
  }

  /** The cell holds a ',', a '"' or a newline. */
  predicate NeedsQuotes(s: string) {
    ',' in s || '"' in s || '\n' in s
  }

  /** `cell.replace(/"/g, '""')`. */
  function DoubleQuotes(s: string): string {
    if |s| == 0 then "" else (if s[0] == '"' then "\"\"" else [s[0]]) + DoubleQuotes(s[1..])
  }

  /** The escaping of one cell: quoted with its quotes doubled when it needs quotes, unchanged otherwise. */
  function Escape(s: string): (r: string)
    ensures !NeedsQuotes(s) ==> r == s
    ensures NeedsQuotes(s) ==> |r| >= 2 && r[0] == '"' && r[|r| - 1] == '"'
  {
    if NeedsQuotes(s) then "\"" + DoubleQuotes(s) + "\"" else s
  }

  function EscapeAll(ts: seq<string>): (r: seq<string>)
    ensures |r| == |ts|
    ensures forall k :: 0 <= k < |ts| ==> r[k] == Escape(ts[k])
  {
    seq(|ts|, k requires 0 <= k < |ts| => Escape(ts[k]))
  }

  /** One line of the file: the escaped cells joined by ',' and a trailing newline. */
  function CsvLine(row: seq<Cell>): string {
    Join(EscapeAll(CellTexts(row)), ',') + "\n"
  }

  /** The whole file: one line per row, in the order of the rows. */
  function CsvText(rows: seq<seq<Cell>>): string {
    if |rows| == 0 then "" else CsvLine(rows[0]) + CsvText(rows[1..])
  }

  /** Appending a row appends its line. */
  lemma {:induction false} CsvTextSnoc(rows: seq<seq<Cell>>, row: seq<Cell>)
    ensures CsvText(rows + [row]) == CsvText(rows) + CsvLine(row)
  {
    if |rows| == 0 {
      assert [row][1..] == [];
    } else {
      assert (rows + [row])[1..] == rows[1..] + [row];
      CsvTextSnoc(rows[1..], row);
    }
  }

  /** `response.data.data.forEach(function (row) { csvContent += ... })`. */
  method BuildCsv(rows: seq<seq<Cell>>) returns (content: string)
    ensures content == CsvText(rows)
  {
    content := "";
    var i := 0;
    while i < |rows|
      invariant 0 <= i <= |rows|
      invariant content == CsvText(rows[..i])
    {
      CsvTextSnoc(rows[..i], rows[i]);
      assert rows[..i + 1] == rows[..i] + [rows[i]];
      content := content + Join(EscapeAll(CellTexts(rows[i])), ',') + "\n";
      i := i + 1;
    }
    assert rows[..|rows|] == rows;
  }

  // ---------------------------------------------------------------- reading the CSV back

  /** An unquoted field: everything up to the next ',' or line break. */
  function Unquoted(s: string): (r: (string, string))
    ensures r.0 + r.1 == s
  {
    if |s| == 0 || s[0] == ',' || s[0] == '\n' then ("", s)
    else
      var (f, rest) := Unquoted(s[1..]);
      assert s == [s[0]] + s[1..];
      ([s[0]] + f, rest)
  }

  /** The inside of a quoted field, after its opening quote: `""` stands for `"`, a lone `"` closes it. */
  function Quoted(s: string): (r: (string, string))
    ensures |r.1| <= |s|
    ensures |s| > 0 ==> |r.1| < |s|
  {
    if |s| == 0 then ("", "")
    else if s[0] == '"' then
      if |s| >= 2 && s[1] == '"' then
        var (f, rest) := Quoted(s[2..]);
        ("\"" + f, rest)
      else ("", s[1..])
    else
      var (f, rest) := Quoted(s[1..]);
      ([s[0]] + f, rest)
  }

  /** One field and what follows it. */
  function Field(s: string): (r: (string, string))
    ensures |r.1| <= |s|
    ensures r.1 == s ==> r.0 == "" && (s == "" || s[0] == ',' || s[0] == '\n')
  {
    if |s| > 0 && s[0] == '"' then Quoted(s[1..]) else Unquoted(s)
  }

  /** The fields of one record, and the text from the line break that ends it. */
  function Fields(s: string): (r: (seq<string>, string))
    ensures |r.0| >= 1
    ensures |r.1| <= |s|
    ensures r.1 == s ==> s == "" || s[0] == '\n'
    decreases |s|
  {
    var (f, rest) := Field(s);
    if |rest| > 0 && rest[0] == ',' then
      var (fs, tail) := Fields(rest[1..]);
      ([f] + fs, tail)
    else ([f], rest)
  }

  /** One record, and the text after its line break. */
  function ReadRecord(s: string): (r: (seq<string>, string))
    ensures |s| > 0 ==> |r.1| < |s|
  {
    var (fs, rest) := Fields(s);
    (fs, if |rest| > 0 && rest[0] == '\n' then rest[1..] else rest)
  }

  /** All records of a CSV text. */
  function ReadAll(s: string): seq<seq<string>>
    decreases |s|
  {
    if |s| == 0 then [] else
      var (r, rest) := ReadRecord(s);
      [r] + ReadAll(rest)
  }

  /** A quoted field reads back as the text whose quotes were doubled. */
  lemma {:induction false} QuotedDoubled(t: string, rest: string)
    requires rest == "" || rest[0] != '"'
    ensures Quoted(DoubleQuotes(t) + "\"" + rest) == (t, rest)
    decreases |t|
  {
    var s := DoubleQuotes(t) + "\"" + rest;
    if |t| == 0 {
      assert s == "\"" + rest;
      assert s[1..] == rest;
    } else if t[0] == '"' {
      assert s == "\"\"" + (DoubleQuotes(t[1..]) + "\"" + rest);
      assert s[2..] == DoubleQuotes(t[1..]) + "\"" + rest;
      QuotedDoubled(t[1..], rest);
      assert "\"" + t[1..] == t;
    } else {
      assert s == [t[0]] + (DoubleQuotes(t[1..]) + "\"" + rest);
      assert s[1..] == DoubleQuotes(t[1..]) + "\"" + rest;
      QuotedDoubled(t[1..], rest);
      assert [t[0]] + t[1..] == t;
    }
  }

  /** A field without ',' and line breaks reads back as itself. */
  lemma {:induction false} UnquotedPlain(t: string, rest: string)
    requires ',' !in t && '\n' !in t
    requires rest == "" || rest[0] == ',' || rest[0] == '\n'
    ensures Unquoted(t + rest) == (t, rest)
    decreases |t|
  {
    if |t| > 0 {
      assert (t + rest)[1..] == t[1..] + rest;
      UnquotedPlain(t[1..], rest);
      assert [t[0]] + t[1..] == t;
    } else {
      assert t + rest == rest;
    }
  }

  /** An escaped cell followed by a separator reads back as the cell. */
  lemma FieldEscape(t: string, rest: string)
    requires rest == "" || rest[0] == ',' || rest[0] == '\n'
    ensures Field(Escape(t) + rest) == (t, rest)
  {
    if NeedsQuotes(t) {
      QuotedFieldRead(t, rest);
    } else {
      PlainFieldRead(t, rest);
    }
  }

  /** A cell that needs quotes is read back from inside its quotes. */
  lemma QuotedFieldRead(t: string, rest: string)
    requires NeedsQuotes(t) && (rest == "" || rest[0] == ',' || rest[0] == '\n')
    ensures Field(Escape(t) + rest) == (t, rest)
  {
    var d := DoubleQuotes(t);
    var inside := d + "\"" + rest;
    var s := "\"" + inside;
    assert Escape(t) == "\"" + d + "\"";
    assert Escape(t) + rest == s;
    assert s[0] == '"' && s[1..] == inside;
    assert Field(s) == Quoted(inside);
    QuotedDoubled(t, rest);
  }

  /** A cell that needs no quotes is read back as it stands. */
  lemma PlainFieldRead(t: string, rest: string)
    requires !NeedsQuotes(t) && (rest == "" || rest[0] == ',' || rest[0] == '\n')
    ensures Field(Escape(t) + rest) == (t, rest)
  {
    var s := t + rest;
    assert Escape(t) == t;
    if |t| > 0 {
      assert s[0] == t[0];
    }
    UnquotedPlain(t, rest);
  }

  /** The escaped cells of a record, joined by ',', read back as the cells. */
  lemma {:induction false} FieldsJoin(ts: seq<string>, rest: string)
    requires |ts| >= 1
    requires rest == "" || rest[0] == '\n'
    ensures Fields(Join(EscapeAll(ts), ',') + rest) == (ts, rest)
    decreases |ts|
  {
    var es := EscapeAll(ts);
    if |ts| == 1 {
      assert Join(es, ',') == Escape(ts[0]);
      FieldEscape(ts[0], rest);
      assert ts == [ts[0]];
    } else {
      assert es[1..] == EscapeAll(ts[1..]);
      var tail := Join(EscapeAll(ts[1..]), ',') + rest;
      assert Join(es, ',') + rest == Escape(ts[0]) + ("," + tail);
      FieldEscape(ts[0], "," + tail);
      assert ("," + tail)[1..] == tail;
      FieldsJoin(ts[1..], rest);
      assert [ts[0]] + ts[1..] == ts;
    }
  }

  /** A line of the download reads back as the texts of its cells. */
  lemma ReadLine(row: seq<Cell>, more: string)
    requires |row| >= 1
    ensures ReadRecord(CsvLine(row) + more) == (CellTexts(row), more)
  {
    var j := Join(EscapeAll(CellTexts(row)), ',');
    assert CsvLine(row) + more == j + ("\n" + more);
    FieldsJoin(CellTexts(row), "\n" + more);
    assert ("\n" + more)[1..] == more;
  }

  /** The texts of the cells of every row. */
  function RowsTexts(rows: seq<seq<Cell>>): (r: seq<seq<string>>)
    ensures |r| == |rows|
    ensures forall k :: 0 <= k < |rows| ==> r[k] == CellTexts(rows[k])
  {
    seq(|rows|, k requires 0 <= k < |rows| => CellTexts(rows[k]))
  }

  /**
   * Decoding the download gives back, row by row and in order, the text of
   * every cell: the escaping is the quoting of RFC 4180 and loses nothing.
   */
  lemma {:induction false} CsvRoundTrip(rows: seq<seq<Cell>>)
    requires forall k :: 0 <= k < |rows| ==> |rows[k]| >= 1
    ensures ReadAll(CsvText(rows)) == RowsTexts(rows)
    decreases |rows|
  {
    if |rows| > 0 {
      ReadLine(rows[0], CsvText(rows[1..]));
      CsvRoundTrip(rows[1..]);
      assert RowsTexts(rows) == [CellTexts(rows[0])] + RowsTexts(rows[1..]);
    }
  }

  // ---------------------------------------------------------------- gallery field

  /** `val() ? val().split(',') : []`: the entries of the hidden gallery field. */
  function FieldIds(value: string): (r: seq<string>)
    ensures value == "" <==> r == []
  {
    if value != "" then Split(value, ',') else []
  }

  /** The texts of the selected ids not already listed in `current`, in selection order. */
  function NewIds(current: seq<string>, selection: seq<nat>): (r: seq<string>)
    ensures |r| <= |selection|
    ensures forall k :: 0 <= k < |r| ==> r[k] !in current
    ensures forall k :: 0 <= k < |selection| ==> IntToString(selection[k]) in current + r
  {
    if |selection| == 0 then []
    else
      var id := IntToString(selection[|selection| - 1]);
      var prev := NewIds(current, selection[..|selection| - 1]);
      assert forall k :: 0 <= k < |selection| - 1 ==> selection[k] == selection[..|selection| - 1][k];
      prev + (if id !in current then [id] else [])
  }

  lemma NewIdsStep(current: seq<string>, selection: seq<nat>, i: int)
    requires 0 <= i < |selection|
    ensures NewIds(current, selection[..i + 1])
      == NewIds(current, selection[..i]) + (if IntToString(selection[i]) !in current then [IntToString(selection[i])] else [])
  {
    assert selection[..i + 1][..i] == selection[..i];
  }

  /** One pass of the 'select' loop extends the field's list by the next new id, if it is one. */
  lemma AddStep(before: seq<string>, currentIds: seq<string>, selection: seq<nat>, i: int)
    requires 0 <= i < |selection| && currentIds == before + NewIds(before, selection[..i])
    ensures var id := IntToString(selection[i]);
      (if id !in before then currentIds + [id] else currentIds) == before + NewIds(before, selection[..i + 1])
  {
    NewIdsStep(before, selection, i);
    var id := IntToString(selection[i]);
    var added := NewIds(before, selection[..i]);
    if id !in before {
      assert (before + added) + [id] == before + (added + [id]);
    } else {
      assert added + [] == added;
    }
  }

  /** `currentIds.filter(function (item) { return item !== id; })`. */
  function Without(xs: seq<string>, x: string): (r: seq<string>)
    ensures |r| <= |xs|
    ensures forall y :: y in r <==> y in xs && y != x
  {
    if |xs| == 0 then []
    else Without(xs[..|xs| - 1], x) + (if xs[|xs| - 1] != x then [xs[|xs| - 1]] else [])
  }

  predicate Distinct(xs: seq<string>) {
    forall j, k :: 0 <= j < k < |xs| ==> xs[j] != xs[k]
  }

  predicate DistinctIds(xs: seq<nat>) {
    forall j, k :: 0 <= j < k < |xs| ==> xs[j] != xs[k]
  }

  /** Entries as the gallery field holds them: non-empty and free of ','. */
  predicate WellFormed(xs: seq<string>) {
    forall k :: 0 <= k < |xs| ==> xs[k] != "" && ',' !in xs[k]
  }

  /** The hidden gallery form field, which the media frame and the remove buttons rewrite. */
  class GalleryEditor {
    var value: string

    constructor (value: string)
      ensures this.value == value
    {
      this.value := value;
    }

    function Ids(): seq<string>
      reads this
    {
      FieldIds(value)
    }

    /**
     * The 'select' handler of the gallery frame. The ids it pushes are
     * numbers, which `indexOf` of a string never finds, so only the entries
     * the field held before are compared with the selection.
     */
    method Add(selection: seq<nat>)
      modifies this
      ensures value == Join(old(Ids()) + NewIds(old(Ids()), selection), ',')
    {
      var currentIds := FieldIds(value);
      var before := currentIds;
      var i := 0;
      while i < |selection|
        invariant 0 <= i <= |selection|
        invariant currentIds == before + NewIds(before, selection[..i])
      {
        var id := IntToString(selection[i]);
        AddStep(before, currentIds, selection, i);
        if id !in before {
          currentIds := currentIds + [id];
        }
        i := i + 1;
      }
      assert selection[..|selection|] == selection;
      value := Join(currentIds, ',');
    }

    /** The click handler of a gallery item's remove button. */
    method Remove(id: nat)
      modifies this
      ensures value == Join(Without(Split(old(value), ','), IntToString(id)), ',')
    {
      var currentIds := Split(value, ',');
      value := Join(Without(currentIds, IntToString(id)), ',');
    }
  }

  lemma IntToStringWellFormed(i: int)
    ensures IntToString(i) != "" && ',' !in IntToString(i)
  {
    IntToStringFree(i, ',');
  }

  /** New ids are decimal renderings, so they are well formed. */
  lemma {:induction false} NewIdsWellFormed(current: seq<string>, selection: seq<nat>)
    ensures WellFormed(NewIds(current, selection))
    decreases |selection|
  {
    if |selection| > 0 {
      NewIdsWellFormed(current, selection[..|selection| - 1]);
      IntToStringWellFormed(selection[|selection| - 1]);
    }
  }

  /** Writing a list of well-formed entries into the field and reading it back gives the list. */
  lemma FieldIdsJoin(xs: seq<string>)
    requires WellFormed(xs)
    ensures FieldIds(Join(xs, ',')) == xs
  {
    if |xs| > 0 {
      assert Join(xs, ',') != "" by {
        if |xs| > 1 {
          assert |Join(xs, ',')| >= |xs[0]| + 1;
        }
      }
      SplitJoin(xs, ',');
    }
  }

  /**
   * After adding, the field lists the ids it held, in their order, followed
   * by the selected ids it did not hold, in selection order; every selected
   * id is listed.
   */
  lemma AddReadBack(current: seq<string>, selection: seq<nat>)
    requires WellFormed(current)
    ensures FieldIds(Join(current + NewIds(current, selection), ',')) == current + NewIds(current, selection)
    ensures forall k :: 0 <= k < |selection| ==> IntToString(selection[k]) in FieldIds(Join(current + NewIds(current, selection), ','))
  {
    NewIdsWellFormed(current, selection);
    FieldIdsJoin(current + NewIds(current, selection));
  }

  /** A selection of distinct attachments adds each new id once. */
  lemma {:induction false} NewIdsDistinct(current: seq<string>, selection: seq<nat>)
    requires DistinctIds(selection)
    ensures Distinct(NewIds(current, selection))
    ensures forall k :: 0 <= k < |NewIds(current, selection)| ==>
      exists j :: 0 <= j < |selection| && NewIds(current, selection)[k] == IntToString(selection[j])
    decreases |selection|
  {
    NewIdsFromSelection(current, selection);
    if |selection| > 0 {
      var init := selection[..|selection| - 1];
      var last := selection[|selection| - 1];
      DistinctIdsPrefix(selection);
      NewIdsDistinct(current, init);
      var prev := NewIds(current, init);
      LastIdNew(current, selection, init, last);
      var r := NewIds(current, selection);
      if IntToString(last) !in current {
        assert r == prev + [IntToString(last)];
        DistinctSnoc(prev, IntToString(last));
      } else {
        assert r == prev;
      }
    }
  }

  lemma DistinctIdsPrefix(selection: seq<nat>)
    requires DistinctIds(selection) && |selection| > 0
    ensures DistinctIds(selection[..|selection| - 1])
  {
  }

  /** Appending an entry the list does not hold keeps it duplicate-free. */
  lemma DistinctSnoc(xs: seq<string>, x: string)
    requires Distinct(xs) && forall k :: 0 <= k < |xs| ==> xs[k] != x
    ensures Distinct(xs + [x])
  {
    var r := xs + [x];
    forall j, k | 0 <= j < k < |r|
      ensures r[j] != r[k]
    {
      assert r[j] == xs[j];
      if k < |xs| {
        assert r[k] == xs[k];
      }
    }
  }

  /** The last selected id is not among the new ids of the selections before it. */
  lemma LastIdNew(current: seq<string>, selection: seq<nat>, init: seq<nat>, last: nat)
    requires DistinctIds(selection) && |selection| > 0
    requires init == selection[..|selection| - 1] && last == selection[|selection| - 1]
    ensures forall k :: 0 <= k < |NewIds(current, init)| ==> NewIds(current, init)[k] != IntToString(last)
  {
    NewIdsFromSelection(current, init);
    var prev := NewIds(current, init);
    forall k | 0 <= k < |prev|
      ensures prev[k] != IntToString(last)
    {
      var j :| 0 <= j < |init| && prev[k] == IntToString(init[j]);
      assert init[j] == selection[j];
      IntvalOfString(init[j]);
      IntvalOfString(last);
    }
  }

  /** Every new id is the rendering of some selected id. */
  lemma {:induction false} NewIdsFromSelection(current: seq<string>, selection: seq<nat>)
    ensures forall k :: 0 <= k < |NewIds(current, selection)| ==>
      exists j :: 0 <= j < |selection| && NewIds(current, selection)[k] == IntToString(selection[j])
    decreases |selection|
  {
    if |selection| > 0 {
      var init := selection[..|selection| - 1];
      NewIdsFromSelection(current, init);
      var prev := NewIds(current, init);
      var r := NewIds(current, selection);
      var last := IntToString(selection[|selection| - 1]);
      assert r == prev + (if last !in current then [last] else []);
      forall k | 0 <= k < |r|
        ensures exists j :: 0 <= j < |selection| && r[k] == IntToString(selection[j])
      {
        if k < |prev| {
          var j :| 0 <= j < |init| && prev[k] == IntToString(init[j]);
          assert selection[j] == init[j];
          assert r[k] == prev[k];
        } else {
          assert r[k] == IntToString(selection[|selection| - 1]);
        }
      }
    } else {
      assert NewIds(current, selection) == [];
    }
  }

  /** A duplicate-free field stays duplicate-free when distinct attachments are added. */
  lemma AddKeepsDistinct(current: seq<string>, selection: seq<nat>)
    requires Distinct(current) && DistinctIds(selection)
    ensures Distinct(current + NewIds(current, selection))
  {
    NewIdsDistinct(current, selection);
    var r := current + NewIds(current, selection);
    forall j, k | 0 <= j < k < |r|
      ensures r[j] != r[k]
    {
      if k >= |current| && j < |current| {
        assert r[k] in NewIds(current, selection);
      }
    }
  }

  /** Removing keeps the other entries in their order: the result of removing an absent entry is the list itself. */
  lemma {:induction false} WithoutAbsent(xs: seq<string>, x: string)
    requires x !in xs
    ensures Without(xs, x) == xs
    decreases |xs|
  {
    if |xs| > 0 {
      WithoutAbsent(xs[..|xs| - 1], x);
    }
  }

  /** Removing distributes over concatenation, so every other entry stays where it was relative to the rest. */
  lemma {:induction false} WithoutAppend(xs: seq<string>, ys: seq<string>, x: string)
    ensures Without(xs + ys, x) == Without(xs, x) + Without(ys, x)
    decreases |ys|
  {
    if |ys| == 0 {
      assert xs + ys == xs;
    } else {
      assert (xs + ys)[..|xs + ys| - 1] == xs + ys[..|ys| - 1];
      WithoutAppend(xs, ys[..|ys| - 1], x);
    }
  }

  /** Removing an id just added by the media frame restores the field's entries. */
  lemma RemoveUndoesAdd(current: seq<string>, id: nat)
    requires WellFormed(current) && IntToString(id) !in current
    ensures Without(FieldIds(Join(current + NewIds(current, [id]), ',')), IntToString(id)) == current
  {
    AddReadBack(current, [id]);
    assert [id][..0] == [];
    assert NewIds(current, [id]) == [IntToString(id)];
    WithoutAppend(current, [IntToString(id)], IntToString(id));
    WithoutAbsent(current, IntToString(id));
    assert [IntToString(id)][..0] == [];
  }

  /** Removing from a field of well-formed entries leaves exactly the other entries, in order. */
  lemma RemoveReadBack(value: string, id: nat)
    requires WellFormed(FieldIds(value))
    ensures FieldIds(Join(Without(Split(value, ','), IntToString(id)), ',')) == Without(FieldIds(value), IntToString(id))
  {
    IntToStringWellFormed(id);
    if value == "" {
      assert Split(value, ',') == [""];
      assert [""][..0] == [];
      assert Without([""], IntToString(id)) == [""];
    } else {
      var w := Without(Split(value, ','), IntToString(id));
      assert WellFormed(w) by {
        forall k | 0 <= k < |w|
          ensures w[k] != "" && ',' !in w[k]
        {
          assert w[k] in Split(value, ',');
        }
      }
      FieldIdsJoin(w);
    }
  }
}
