/**
 * The WHERE clauses the map endpoint, the statistics query and the admin
 * list build, read as predicates over a project row, and the selection of
 * the rows of a table that satisfy all of them.
 */
module Query {
  import opened Text
  import opened Records

  /** The text columns a LIKE search looks at. */
  datatype TextColumn = VillageName | ProjectNumber | CountryName | Description

  function ColumnText(p: Project, c: TextColumn): string {
    match c
    case VillageName => p.villageName
    case ProjectNumber => p.projectNumber
    case CountryName => p.country
    case Description => p.description
  }

  /** One conjunct of a WHERE clause. */
  datatype Clause =
    | StatusIs(status: string)
    | CountryIs(country: string)
    | ProjectTypeIs(projectType: int)
    | SolutionTypeIs(solutionType: int)
    | SearchAny(columns: seq<TextColumn>, term: string)   // (c1 LIKE '%term%' OR c2 LIKE ...)

  predicate Holds(c: Clause, p: Project) {
    match c
    case StatusIs(s) => p.status == s
    case CountryIs(s) => p.country == s
    case ProjectTypeIs(t) => p.projectTypeId == t
    case SolutionTypeIs(t) => p.solutionTypeId == t
    case SearchAny(cs, term) => exists k :: 0 <= k < |cs| && LikeAnywhere(ColumnText(p, cs[k]), term)
  }

  /** The row satisfies the whole WHERE clause (an empty list is `WHERE 1=1`). */
  predicate AllHold(clauses: seq<Clause>, p: Project) {
    forall k :: 0 <= k < |clauses| ==> Holds(clauses[k], p)
  }

  /** Appending a clause adds one conjunct. */
  lemma AllHoldAppend(clauses: seq<Clause>, c: Clause)
    ensures forall p :: AllHold(clauses + [c], p) <==> AllHold(clauses, p) && Holds(c, p)
  {
    forall p
      ensures AllHold(clauses + [c], p) <==> AllHold(clauses, p) && Holds(c, p)
    {
      if AllHold(clauses, p) && Holds(c, p) {
        forall k | 0 <= k < |clauses| + 1
          ensures Holds((clauses + [c])[k], p)
        {
          if k < |clauses| { assert (clauses + [c])[k] == clauses[k]; }
        }
      }
      if AllHold(clauses + [c], p) {
        forall k | 0 <= k < |clauses|
          ensures Holds(clauses[k], p)
        {
          assert (clauses + [c])[k] == clauses[k];
        }
        assert (clauses + [c])[|clauses|] == c;
      }
    }
  }

  /** The rows of `rows` that `keep` accepts, in their original order. */
  function Filter(rows: seq<Project>, keep: Project -> bool): (r: seq<Project>)
    ensures |r| <= |rows|
    ensures forall p :: p in r <==> p in rows && keep(p)
  {
    if |rows| == 0 then []
    else Filter(rows[..|rows| - 1], keep) + (if keep(rows[|rows| - 1]) then [rows[|rows| - 1]] else [])
  }

  /** The rows a query with these clauses returns, in table order. */
  function Select(rows: seq<Project>, clauses: seq<Clause>): (r: seq<Project>)
    ensures forall p :: p in r <==> p in rows && AllHold(clauses, p)
  {
    Filter(rows, p => AllHold(clauses, p))
  }

  function Reverse(rows: seq<Project>): (r: seq<Project>)
    ensures |r| == |rows|
    ensures forall k :: 0 <= k < |rows| ==> r[k] == rows[|rows| - 1 - k]
  {
    if |rows| == 0 then [] else [rows[|rows| - 1]] + Reverse(rows[..|rows| - 1])
  }

  /** Two filters that agree on every row select the same rows. */
  lemma {:induction false} FilterSame(rows: seq<Project>, a: Project -> bool, b: Project -> bool)
    requires forall p :: a(p) == b(p)
    ensures Filter(rows, a) == Filter(rows, b)
  {
    if |rows| > 0 {
      FilterSame(rows[..|rows| - 1], a, b);
    }
  }

  /** A filter that accepts more rows selects at least as many. */
  lemma {:induction false} FilterWeaker(rows: seq<Project>, a: Project -> bool, b: Project -> bool)
    requires forall p :: a(p) ==> b(p)
    ensures |Filter(rows, a)| <= |Filter(rows, b)|
  {
    if |rows| > 0 {
      FilterWeaker(rows[..|rows| - 1], a, b);
    }
  }

  /** Filtering appended rows filters each part. */
  lemma {:induction false} FilterAppend(xs: seq<Project>, ys: seq<Project>, keep: Project -> bool)
    ensures Filter(xs + ys, keep) == Filter(xs, keep) + Filter(ys, keep)
  {
    if |ys| == 0 {
      assert xs + ys == xs;
    } else {
      var zs, init, last := xs + ys, ys[..|ys| - 1], ys[|ys| - 1];
      assert zs[..|zs| - 1] == xs + init && zs[|zs| - 1] == last;
      FilterAppend(xs, init, keep);
      var tail := if keep(last) then [last] else [];
      FilterLast(zs, keep);
      FilterLast(ys, keep);
    }
  }

  /** Filtering keeps the last row, after the earlier ones, when it matches. */
  lemma FilterLast(rows: seq<Project>, keep: Project -> bool)
    requires |rows| > 0
    ensures Filter(rows, keep) == Filter(rows[..|rows| - 1], keep) + (if keep(rows[|rows| - 1]) then [rows[|rows| - 1]] else [])
  {
  }

  /** The order in which rows are returned does not change how many match. */
  lemma {:induction false} FilterReverseLength(rows: seq<Project>, keep: Project -> bool)
    ensures |Filter(Reverse(rows), keep)| == |Filter(rows, keep)|
  {
    if |rows| > 0 {
      var last := rows[|rows| - 1];
      assert Reverse(rows) == [last] + Reverse(rows[..|rows| - 1]);
      FilterAppend([last], Reverse(rows[..|rows| - 1]), keep);
      assert [last][..0] == [];
      FilterReverseLength(rows[..|rows| - 1], keep);
    }
  }
}
