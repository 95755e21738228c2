/**
 * ajax_export_csv of project-map-plugin.php: the rows of the projects table,
 * in id order, turned into the sixteen cells of the import's column layout.
 * The lemmas show that what the browser downloads reads back, through the
 * CSV decoder and the import's own cell mapping, to the values it came from.
 */
module CsvExport {
  import opened Wrappers
  import opened Text
  import opened Records
  import opened TypeTables
  import opened Media
  import opened CsvImport
  import opened AdminJs

  /** The header row, which is also the column layout the import reads. */
  const Header: seq<string> := [
    "Village Name", "Project Number", "Country", "GPS Latitude", "GPS Longitude",
    "Project Type", "Solution Type", "Completion Month", "Completion Year", "Beneficiaries",
    "In Honour Of", "Description", "Featured Image URL", "Gallery Images", "Video URLs", "Status"]

  function TextCells(ts: seq<string>): (r: seq<Cell>)
    ensures |r| == |ts|
    ensures forall k :: 0 <= k < |ts| ==> r[k] == Text(ts[k])
  {
    seq(|ts|, k requires 0 <= k < |ts| => Text(ts[k]))
  }

  /** `$project->completion_month ?: ''` for a column read back as text; NULL is 0 here. */
  function OptionalIntText(v: int): string {
    if v != 0 then IntToString(v) else ""
  }

  /** The video column of the export: the stored list split on "\n", empties dropped, joined by ','. */
  function ExportVideos(stored: string): string {
    if Truthy(stored) then Join(KeepTruthy(Split(stored, '\n')), ',') else ""
  }

  /** The featured image cell: '' without an image, otherwise its URL, or false when it has none. */
  function FeaturedCell(p: Project, host: Host): Cell {
    if p.featuredImageId != 0 then
      match host.attachmentUrl(p.featuredImageId)
      case Some(url) => Text(url)
      case None => False
    else Text("")
  }

  /** The cells of one project, given the URLs its gallery resolved to. */
  function ExportCells(p: Project, ptypes: seq<TypeRow>, stypes: seq<TypeRow>, galleryUrls: seq<string>, host: Host)
    : (r: seq<Cell>)
    ensures |r| == |Header|
  {
    [ Text(p.villageName),
      Text(p.projectNumber),
      Text(p.country),
      Text(host.decimalText(p.latitude)),
      Text(host.decimalText(p.longitude)),
      Text(TypeName(ptypes, p.projectTypeId)),
      Text(TypeName(stypes, p.solutionTypeId)),
      Text(OptionalIntText(p.completionMonth)),
      Text(OptionalIntText(p.completionYear)),
      Text(IntToString(p.beneficiaries)),
      Text(p.inHonourOf),
      Text(p.description),
      FeaturedCell(p, host),
      Text(Join(galleryUrls, ',')),
      Text(ExportVideos(p.videoUrls)),
      Text(p.status) ]
  }

  /** The cells of one project as the export computes them. */
  function ExportRow(p: Project, ptypes: seq<TypeRow>, stypes: seq<TypeRow>, host: Host): (r: seq<Cell>)
    ensures |r| == |Header|
  {
    ExportCells(p, ptypes, stypes, GalleryUrls(p.galleryImages, host), host)
  }

  function ExportRows(rows: seq<Project>, ptypes: seq<TypeRow>, stypes: seq<TypeRow>, host: Host): (r: seq<seq<Cell>>)
    ensures |r| == |rows|
    ensures forall k :: 0 <= k < |rows| ==> r[k] == ExportRow(rows[k], ptypes, stypes, host)
  {
    seq(|rows|, k requires 0 <= k < |rows| => ExportRow(rows[k], ptypes, stypes, host))
  }

  /** `$csv_data`: the header, then one row per project in table order (which is id order). */
  function ExportData(rows: seq<Project>, ptypes: seq<TypeRow>, stypes: seq<TypeRow>, host: Host): seq<seq<Cell>> {
    [TextCells(Header)] + ExportRows(rows, ptypes, stypes, host)
  }

  datatype ExportResponse = NonceFailed | ExportError(message: string) | ExportOk(data: seq<seq<Cell>>)

  /** ajax_export_csv: the nonce and capability checks, then the loop over the projects. */
  method ExportCsv(nonceOk: bool, canManage: bool, rows: seq<Project>, ptypes: seq<TypeRow>, stypes: seq<TypeRow>,
                   host: Host) returns (resp: ExportResponse)
    ensures !nonceOk ==> resp == NonceFailed
    ensures nonceOk && !canManage ==> resp == ExportError("Permission denied")
    ensures nonceOk && canManage ==> resp == ExportOk(ExportData(rows, ptypes, stypes, host))
  {
    if !nonceOk {
      return NonceFailed;
    }
    if !canManage {
      return ExportError("Permission denied");
    }
    var data := [TextCells(Header)];
    var i := 0;
    while i < |rows|
      invariant 0 <= i <= |rows|
      invariant data == [TextCells(Header)] + ExportRows(rows[..i], ptypes, stypes, host)
    {
      var p := rows[i];
      var galleryUrls := ResolveGallery(p.galleryImages, host);
      assert ExportRows(rows[..i + 1], ptypes, stypes, host)
        == ExportRows(rows[..i], ptypes, stypes, host) + [ExportRow(p, ptypes, stypes, host)];
      data := data + [ExportCells(p, ptypes, stypes, galleryUrls, host)];
      i := i + 1;
    }
    assert rows[..|rows|] == rows;
    resp := ExportOk(data);
  }

  /** The k-th data row of the export is the k-th project's row, after the header. */
  lemma ExportLayout(rows: seq<Project>, ptypes: seq<TypeRow>, stypes: seq<TypeRow>, host: Host)
    ensures var data := ExportData(rows, ptypes, stypes, host);
      && |data| == |rows| + 1
      && CellTexts(data[0]) == Header
      && (forall k :: 0 <= k < |rows| ==> |data[k + 1]| == |Header| && data[k + 1] == ExportRow(rows[k], ptypes, stypes, host))
  {
    var data := ExportData(rows, ptypes, stypes, host);
    assert CellTexts(data[0]) == Header;
  }

  // ---------------------------------------------------------------- video lists

  /** A list of video URLs in the form both mappings keep: truthy, trimmed, without ',' or line breaks, fixed by the escaper. */
  predicate NormalVideos(urls: seq<string>, escUrl: string -> string) {
    forall k :: 0 <= k < |urls| ==>
      Truthy(urls[k]) && Trimmed(urls[k]) && ',' !in urls[k] && '\n' !in urls[k] && escUrl(urls[k]) == urls[k]
  }

  /** A join of truthy strings is truthy. */
  lemma JoinTruthy(xs: seq<string>, d: char)
    requires |xs| >= 1 && Truthy(xs[0])
    ensures Truthy(Join(xs, d))
  {
    if |xs| > 1 {
      assert |Join(xs, d)| >= |xs[0]| + 1;
    }
  }

  lemma {:induction false} MapTrimNormal(urls: seq<string>)
    requires forall k :: 0 <= k < |urls| ==> Trimmed(urls[k])
    ensures MapAll(Trim, urls) == urls
  {
    forall k | 0 <= k < |urls|
      ensures Trim(urls[k]) == urls[k]
    {
      TrimTrimmed(urls[k]);
    }
  }

  /**
   * For URL lists without commas the two mappings are inverses: the export
   * of a stored list is its comma form, and importing the comma form gives
   * the stored list back.
   */
  lemma VideoListRoundTrip(urls: seq<string>, escUrl: string -> string)
    requires NormalVideos(urls, escUrl)
    ensures ExportVideos(Join(urls, '\n')) == Join(urls, ',')
    ensures ImportVideos(Join(urls, ','), escUrl) == Join(urls, '\n')
  {
    if |urls| > 0 {
      ExportOfStored(urls);
      ImportOfCommaForm(urls, escUrl);
    }
  }

  lemma ExportOfStored(urls: seq<string>)
    requires |urls| > 0
    requires forall u <- urls :: Truthy(u) && '\n' !in u
    ensures ExportVideos(Join(urls, '\n')) == Join(urls, ',')
  {
    assert Truthy(Join(urls, '\n')) by {
      JoinTruthy(urls, '\n');
    }
    assert Split(Join(urls, '\n'), '\n') == urls by {
      assert FreeOf(urls, '\n');
      SplitJoin(urls, '\n');
    }
    assert KeepTruthy(urls) == urls by {
      KeepTruthyAll(urls);
    }
  }

  lemma ImportOfCommaForm(urls: seq<string>, escUrl: string -> string)
    requires |urls| > 0 && NormalVideos(urls, escUrl)
    ensures ImportVideos(Join(urls, ','), escUrl) == Join(urls, '\n')
  {
    assert Truthy(Join(urls, ',')) by {
      JoinTruthy(urls, ',');
    }
    assert Split(Join(urls, ','), ',') == urls by {
      assert FreeOf(urls, ',');
      SplitJoin(urls, ',');
    }
    assert MapAll(Trim, urls) == urls by {
      MapTrimNormal(urls);
    }
    assert KeepTruthy(urls) == urls by {
      KeepTruthyAll(urls);
    }
    assert MapAll(escUrl, urls) == urls;
  }

  /** A falsy video cell imports as no videos, and no comma piece of it is kept. */
  lemma FalsyVideoCell(cell: string, escUrl: string -> string)
    requires !Truthy(cell)
    ensures ImportVideos(cell, escUrl) == ""
    ensures VideoList(cell, escUrl) == []
  {
    assert Split(cell, ',') == [cell] by {
      assert cell == "" || cell == "0";
      SplitFree(cell, ',');
    }
    assert MapAll(Trim, [cell]) == [cell] by {
      TrimTrimmed(cell);
    }
    assert KeepTruthy([cell]) == [] by {
      assert [cell][1..] == [];
    }
  }

  /**
   * Exporting what the import stored lists the escaped URLs joined by ',', as
   * long as the escaper leaves them truthy and without line breaks.
   */
  lemma ExportOfImport(cell: string, escUrl: string -> string)
    requires forall u <- VideoList(cell, escUrl) :: Truthy(u) && '\n' !in u
    ensures ExportVideos(ImportVideos(cell, escUrl)) == Join(VideoList(cell, escUrl), ',')
  {
    var e := VideoList(cell, escUrl);
    if !Truthy(cell) {
      FalsyVideoCell(cell, escUrl);
    } else if |e| > 0 {
      assert ImportVideos(cell, escUrl) == Join(e, '\n');
      ExportOfStored(e);
    }
  }

  // ---------------------------------------------------------------- reading an exported row back

  /** The optional integer columns read back as the value exported. */
  lemma OptionalIntReadBack(data: seq<string>, k: nat, v: int)
    requires k < |data| && data[k] == OptionalIntText(v)
    ensures OptionalIntCell(data, k) == v
  {
    if v != 0 {
      NonzeroTruthy(v);
      IntvalOfString(v);
    }
  }

  /** The type name column of an exported row resolves back to the project's type id on import. */
  lemma TypeNameResolves(s: TableState, id: int, parent: int, host: Host)
    requires s.Valid()
    requires IdIndex(s.rows, id) >= 0
    requires var name := s.rows[IdIndex(s.rows, id)].name; Truthy(name) && host.sanitizeText(name) == name
    ensures GetOrCreate(s, TypeName(s.rows, id), parent, host) == (s, id)
  {
    var k := IdIndex(s.rows, id);
    NameIndexUnique(s, s.rows[k].name, k);
  }

  /**
   * The downloaded CSV line of a project, decoded and fed to the import's
   * cell mapping, gives back its completion month and year, beneficiaries,
   * video list and status (when the sanitiser and the URL escaper leave them
   * as they are).
   */
  lemma ExportReimport(p: Project, ptypes: seq<TypeRow>, stypes: seq<TypeRow>, host: Host, urls: seq<string>,
                       ptId: int, stId: int, gallery: string)
    requires p.status in ["publish", "draft"] && host.sanitizeText(p.status) == p.status
    requires p.videoUrls == Join(urls, '\n') && NormalVideos(urls, host.escUrlRaw)
    ensures var records := ReadAll(CsvText([ExportRow(p, ptypes, stypes, host)]));
      && |records| == 1 && |records[0]| == |Header|
      && var q := ProjectOfRow(records[0], ptId, stId, gallery, host);
      && q.completionMonth == p.completionMonth
      && q.completionYear == p.completionYear
      && q.beneficiaries == p.beneficiaries
      && q.videoUrls == p.videoUrls
      && q.status == p.status
  {
    var row := ExportRow(p, ptypes, stypes, host);
    CsvRoundTrip([row]);
    assert ReadAll(CsvText([row])) == [CellTexts(row)];
    var data := CellTexts(row);
    ExportRowTexts(p, ptypes, stypes, host);
    ReimportCells(data, p, host, urls, ptId, stId, gallery);
  }

  /** The texts of the columns the import reads back as integers, videos and status. */
  lemma ExportRowTexts(p: Project, ptypes: seq<TypeRow>, stypes: seq<TypeRow>, host: Host)
    ensures var data := CellTexts(ExportRow(p, ptypes, stypes, host));
      && |data| == |Header|
      && data[7] == OptionalIntText(p.completionMonth) && data[8] == OptionalIntText(p.completionYear)
      && data[9] == IntToString(p.beneficiaries)
      && data[14] == ExportVideos(p.videoUrls) && data[15] == p.status
  {
  }

  /** The cell mapping of the import applied to the texts of an exported row. */
  lemma ReimportCells(data: seq<string>, p: Project, host: Host, urls: seq<string>, ptId: int, stId: int, gallery: string)
    requires p.status in ["publish", "draft"] && host.sanitizeText(p.status) == p.status
    requires p.videoUrls == Join(urls, '\n') && NormalVideos(urls, host.escUrlRaw)
    requires |data| == |Header|
    requires data[7] == OptionalIntText(p.completionMonth) && data[8] == OptionalIntText(p.completionYear)
    requires data[9] == IntToString(p.beneficiaries)
    requires data[14] == ExportVideos(p.videoUrls) && data[15] == p.status
    ensures var q := ProjectOfRow(data, ptId, stId, gallery, host);
      && q.completionMonth == p.completionMonth
      && q.completionYear == p.completionYear
      && q.beneficiaries == p.beneficiaries
      && q.videoUrls == p.videoUrls
      && q.status == p.status
  {
    var q := ProjectOfRow(data, ptId, stId, gallery, host);
    assert q.completionMonth == p.completionMonth by {
      OptionalIntReadBack(data, 7, p.completionMonth);
    }
    assert q.completionYear == p.completionYear by {
      OptionalIntReadBack(data, 8, p.completionYear);
    }
    assert q.beneficiaries == p.beneficiaries by {
      IntvalOfString(p.beneficiaries);
    }
    assert q.videoUrls == p.videoUrls by {
      VideoListRoundTrip(urls, host.escUrlRaw);
      if |urls| > 0 {
        JoinTruthy(urls, ',');
      }
    }
    assert q.status == p.status by {
      assert Given(data, 15);
    }
  }
}
