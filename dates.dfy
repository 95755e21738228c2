/**
 * The completion date as the page templates render it. The single project
 * page (templates/single-project.php) and the project card shortcode
 * (templates/project-detail-shortcode.php) print "<Month> <year>" from a
 * table of long month names, the admin list (admin/projects-list.php) the
 * same with short names and '-' for no year.
 *
 * The templates index the month table with the stored month without
 * checking its range, unlike format_completion_date. A month outside 1..12
 * can be stored (the CSV import keeps any integer), and then the table
 * lookup yields null and the text starts with a lone space. The model keeps
 * that rendering as `TemplateDateAsWritten` and uses the range-checked
 * `TemplateDate` everywhere else.
 */
module Dates {
  import opened Text
  import opened MapData

  const ShortMonths: seq<string> := ["Jan", "Feb", "Mar", "Apr", "May", "Jun",
    "Jul", "Aug", "Sep", "Oct", "Nov", "Dec"]

  /** `$months[$month]` on a table keyed 1..12: a missing key reads as null, printed as ''. */
  function MonthEntry(names: seq<string>, month: int): string
    requires |names| == 12
  {
    if 1 <= month <= 12 then names[month - 1] else ""
  }

  /**
   * The templates as written: `$year ? ($month ? $months[$month] . ' ' . $year : $year) : $none`,
   * with 0 standing for a NULL column.
   */
  function TemplateDateAsWritten(names: seq<string>, month: int, year: int, none: string): string
    requires |names| == 12
  {
    if year == 0 then none
    else if month != 0 then MonthEntry(names, month) + " " + IntToString(year)
    else IntToString(year)
  }

  /** The templates' date with the month range checked, as format_completion_date does. */
  function TemplateDate(names: seq<string>, month: int, year: int, none: string): string
    requires |names| == 12
  {
    if year == 0 then none
    else if 1 <= month <= 12 then names[month - 1] + " " + IntToString(year)
    else IntToString(year)
  }

  /** A stored month of 13 renders as " 2012": a leading blank where the month should be. */
  lemma OutOfRangeMonth()
    ensures TemplateDateAsWritten(LongMonths, 13, 2012, "") == " 2012"
    ensures TemplateDate(LongMonths, 13, 2012, "") == "2012"
    ensures FormatCompletionDate(13, 2012) == "2012"
  {
    assert IntToString(2012) == "2012" by {
      assert NatToString(2012) == NatToString(201) + [DigitChar(2)];
      assert NatToString(201) == NatToString(20) + [DigitChar(1)];
      assert NatToString(20) == NatToString(2) + [DigitChar(0)];
    }
  }

  /** For every month the add-project form can store (none, or 1..12) the two renderings agree. */
  lemma AsWrittenAgrees(names: seq<string>, month: int, year: int, none: string)
    requires |names| == 12 && 0 <= month <= 12
    ensures TemplateDateAsWritten(names, month, year, none) == TemplateDate(names, month, year, none)
  {
  }

  /** With the long names and 'N/A' for no year, the template date is format_completion_date. */
  lemma TemplateDateIsFormat(month: int, year: int)
    ensures TemplateDate(LongMonths, month, year, "N/A") == FormatCompletionDate(month, year)
  {
  }

  lemma ShortMonthsGood()
    ensures GoodMonthNames(ShortMonths)
  {
  }

  /** A rendered date with a year reads back as its month (0 when none is shown) and its year. */
  lemma TemplateDateReadBack(names: seq<string>, month: int, year: int, none: string)
    requires GoodMonthNames(names) && year != 0
    ensures ParseCompletionDate(TemplateDate(names, month, year, none), names)
      == (if 1 <= month <= 12 then month else 0, year)
  {
    MonthYearReadBack(names, month, year);
  }

  /** The admin list's short date: '-' without a year. */
  function ShortDate(month: int, year: int): (r: string)
    ensures year == 0 <==> r == "-"
  {
    assert year < 0 ==> |IntToString(year)| >= 2;
    assert year >= 0 ==> IsDigit(IntToString(year)[0]);
    TemplateDate(ShortMonths, month, year, "-")
  }

  /** The date of the single project page and of the project card: '' without a year. */
  function LongDate(month: int, year: int): (r: string)
    ensures year == 0 <==> r == ""
  {
    assert year != 0 ==> |IntToString(year)| >= 1;
    TemplateDate(LongMonths, month, year, "")
  }
}
