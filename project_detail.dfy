/**
 * The [project_detail id="…"] shortcode (templates/project-detail-shortcode.php):
 * the id and publish guards, the card it renders for a published project
 * and the link to the full report page.
 */
module ProjectDetail {
  import opened Wrappers
  import opened Text
  import opened Records
  import opened Dates

  const NoIdMessage := "Please specify a project ID."
  const NotFoundMessage := "Project not found."

  /** `home_url('/project-report/' . $id)`. */
  function ReportLink(home: string, id: int): string {
    home + "/project-report/" + IntToString(id)
  }

  /** The card of a published project. */
  datatype Card = Card(
    featuredImage: string,
    title: string,
    country: string,
    beneficiaries: int,
    completionDate: string,
    description: string,
    reportLink: string)

  datatype DetailOutput = Message(text: string) | ProjectCard(card: Card)

  /** The shortcode's output for its `id` attribute over the projects table. */
  function DetailOf(idAttr: string, rows: seq<Project>, home: string, host: Host): (r: DetailOutput)
    ensures Intval(idAttr) == 0 <==> r == Message(NoIdMessage)
    ensures r == Message(NotFoundMessage) <==>
      Intval(idAttr) != 0 && (FindProject(rows, Intval(idAttr)).None? || FindProject(rows, Intval(idAttr)).value.status != "publish")
    ensures r.ProjectCard? ==>
      && FindProject(rows, Intval(idAttr)).Some?
      && var p := FindProject(rows, Intval(idAttr)).value;
      && p.status == "publish"
      && r.card.reportLink == ReportLink(home, p.id)
      && r.card.completionDate == LongDate(p.completionMonth, p.completionYear)
  {
    var id := Intval(idAttr);
    if id == 0 then Message(NoIdMessage)
    else
      match FindProject(rows, id)
      case None => Message(NotFoundMessage)
      case Some(p) =>
        if p.status != "publish" then Message(NotFoundMessage)
        else
          var featured := if p.featuredImageId != 0 then host.attachmentUrl(p.featuredImageId).GetOr("") else "";
          var description := if Truthy(p.description) then host.trimWords(p.description, 50) else "";
          ProjectCard(Card(featured, p.villageName, p.country, p.beneficiaries,
                           LongDate(p.completionMonth, p.completionYear), description, ReportLink(home, p.id)))
  }

  /** The default `id` attribute '' asks for an id. */
  lemma EmptyIdAsksForId(rows: seq<Project>, home: string, host: Host)
    ensures DetailOf("", rows, home, host) == Message(NoIdMessage)
  {
    assert LeadingInt("") == None by {
      assert SkipSpace("") == "";
      assert LeadingDigits("") == "";
    }
  }

  /** The card of a published project links to that project's own report page. */
  lemma ReportLinkReadBack(home: string, id: int)
    ensures var link := ReportLink(home, id);
      |link| >= |home| + 16 && link[..|home| + 16] == home + "/project-report/"
      && Intval(link[|home| + 16..]) == id
  {
    var link := ReportLink(home, id);
    assert link[|home| + 16..] == IntToString(id);
    IntvalOfString(id);
  }

  /** Asking for a published project by its own id shows that project's card. */
  lemma PublishedProjectShown(rows: seq<Project>, k: int, home: string, host: Host)
    requires 0 <= k < |rows| && rows[k].status == "publish" && rows[k].id != 0
    requires forall j :: 0 <= j < |rows| && j != k ==> rows[j].id != rows[k].id
    ensures DetailOf(IntToString(rows[k].id), rows, home, host).ProjectCard?
    ensures DetailOf(IntToString(rows[k].id), rows, home, host).card.title == rows[k].villageName
  {
    IntvalOfString(rows[k].id);
    var found := FindProject(rows, rows[k].id);
    assert found == Some(rows[k]) by {
      assert found.Some? by {
        assert rows[k].id == rows[k].id;
      }
      var i :| 0 <= i < |rows| && rows[i] == found.value;
    }
  }
}
