# Project Map plugin — a verified model of its rules

Project Map is a WordPress plugin that keeps a table of village water
projects and shows them on an interactive map. Each project has:

- a village name, a project number and a country;
- GPS coordinates;
- a project type and a solution type;
- a completion month and year, and a beneficiary count;
- a donor, a description and a featured image;
- a gallery of attachments, a list of video links;
- a publish/draft status.

Administrators maintain the projects, the two type tables and the settings from admin screens. They can:

- import and export projects and types as CSV;
- edit a project's gallery with the media frame.

Visitors use the `[project_map]` shortcode, the `[project_detail]` card and the per-project report page. The map script loads the filtered projects and
statistics by AJAX, clusters them and reloads them when a filter changes.

This project models the deterministic rules under that glue, source file by
source file, and proves what they promise.

- **Tables as data.** The database tables are sequences of records. The
  project table and the two type tables are classes whose methods change
  them in place, and each method is proved to reach a state given by a
  function. The type tables keep their names unique.
- **Host functions as parameters.** WordPress and PHP library functions are
  fields of a `Host` value: the sanitisers, `esc_url_raw`, attachment URLs,
  image side-loading and whether the database accepts a row. The nonce
  verdict, the capability check and the upload outcome are parameters.
- **Module layout:**

  | module | what it models |
  |---|---|
  | `Text` | PHP and JavaScript string helpers: `explode`/`split`, `implode`/`join`, `trim`, `array_filter`, `intval`, `parseInt`, decimal rendering, `LIKE '%…%'` |
  | `Records`, `TypeTables`, `Query` | the tables and the WHERE-clause algebra |
  | `MapData` | the map endpoint, statistics, `format_completion_date` and the choice of map library in `project-map-plugin.php` |
  | `CsvImport`, `CsvExport` | the CSV handlers of the same file |
  | `AdminJs` | `assets/admin.js` |
  | `Frontend` | `assets/frontend.js` |
  | `SingleProject`, `MapShortcode`, `ProjectDetail` | the three templates |
  | `Media`, `Dates` | the gallery and date rendering the templates share |
  | `ProjectsList`, `ProjectTypesAdmin`, `SolutionTypesAdmin`, `AddProject`, `Settings` | the five admin screens |

## Model

| member | source | states |
|---|---|---|
| Records.FindProject | project-map-plugin.php:1496-1518 | the row found has the requested id and is in the table; none is found only when no row has that id |
| Records.InsertProject | add-project.php:78-80 | an accepted row is appended under the next AUTO_INCREMENT id and that id is returned; a refused row changes nothing and gives 0; a valid table stays valid |
| Records.ReplaceProject | add-project.php:67 | every row with the id takes the new columns and keeps its id; every other row is unchanged; the length is kept |
| Records.ProjectTable.Insert | add-project.php:78-80 | changes the table in place to exactly the state `InsertProject` gives, keeping it valid |
| Records.ProjectTable.Update | add-project.php:67-68 | in place: replaces row `id` when the database accepts the row and changes nothing otherwise; `ok` is `$result !== false` |
| Records.CountWhere | project-types.php:54-57 | the usage count is 0 exactly when no project refers to the id through the chosen column; it never exceeds the number of projects |
| Records.ProjectTable.constructor | project-map-plugin.php:128-149 | an empty projects table starts with AUTO_INCREMENT at 1 and is valid |
| TypeTables.NameIndex | project-map-plugin.php:1060-1063 | the position of the row with that name, or -1 exactly when no row has it |
| TypeTables.IdIndex | project-map-plugin.php:1198-1204 | the position of the row with that id, or -1 exactly when no row has it |
| TypeTables.IdOfName | project-map-plugin.php:1060-1066 | `SELECT id … WHERE name`: no id exactly when no row holds the name |
| TypeTables.TypeName | project-map-plugin.php:1390-1396 | the LEFT JOINed type name is '' or the name of a row carrying that id |
| TypeTables.NameIndexUnique | project-map-plugin.php:102-111 | under UNIQUE(name), a row holding the name is the one the lookup finds |
| TypeTables.InsertWith | project-map-plugin.php:1208-1212 | an insert fails with insert id 0 and no change when the name is taken (UNIQUE(name)); otherwise it appends one row under the next id |
| TypeTables.Rename | solution-types.php:55-58 | the rows with that id take the new name and description; other rows stay as they were |
| TypeTables.UpdateWith | solution-types.php:55-60 | the update fails exactly when the row with that id exists and another row holds the new name (UNIQUE(name)); otherwise it succeeds and renames only the rows with that id |
| TypeTables.UpdateAbsentId | solution-types.php:55-60 | an UPDATE whose id matches no row changes nothing and is no error, whatever the name |
| TypeTables.SetDescriptionWith | project-map-plugin.php:1198-1204 | only the description of the row with that id changes; ids, names and length are kept |
| TypeTables.DeleteWith | project-types.php:62 | deletes at most one row and keeps the next id |
| TypeTables.InsertValid | project-map-plugin.php:102-111 | an insert keeps ids positive, increasing and names unique |
| TypeTables.UpdateValid | project-map-plugin.php:102-111 | an update keeps the table's invariants |
| TypeTables.SetDescriptionValid | project-map-plugin.php:102-111 | a description update keeps the table's invariants |
| TypeTables.DeleteValid | project-map-plugin.php:102-111 | a delete keeps the table's invariants |
| TypeTables.InsertLookup | project-map-plugin.php:1068-1069 | after inserting a new name it resolves to the new id and every other name to what it resolved to before |
| TypeTables.SetDescriptionLookup | project-map-plugin.php:1198-1204 | a description update leaves every name resolving to the same id and sets the matched row's description |
| TypeTables.DeleteRemoves | project-types.php:62 | after the delete no row carries the id, every other row remains, and the count deleted accounts for the length |
| TypeTables.RowOf | project-map-plugin.php:1192-1195 | the row found holds the name and resolves to its id; none exactly when the name is absent |
| TypeTables.RowOfInsert | project-map-plugin.php:1208-1212 | inserting a new name gives that name the new row and leaves every other name's row unchanged |
| TypeTables.RowOfSetDescription | project-map-plugin.php:1198-1204 | a description update changes the description of that id's row and nothing else |
| TypeTables.TypeTable.Lookup | project-map-plugin.php:1060-1063 | `get_var` on the table object: no id exactly when no row holds the name |
| TypeTables.TypeTable.Insert | project-map-plugin.php:1068-1069 | in place, reaches the state and insert id `InsertWith` gives, keeping the table valid |
| TypeTables.TypeTable.Update | solution-types.php:55-58 | in place, reaches the state and verdict `UpdateWith` gives |
| TypeTables.TypeTable.SetDescription | project-map-plugin.php:1198-1204 | in place, reaches the state `SetDescriptionWith` gives |
| TypeTables.TypeTable.Delete | solution-types.php:80 | in place, reaches the state and row count `DeleteWith` gives |
| TypeTables.TypeTable.constructor | project-map-plugin.php:102-111 | an empty type table starts with AUTO_INCREMENT at 1 and is valid |
| Query.AllHoldAppend | project-map-plugin.php:796-817 | appending a clause to the WHERE conjunction adds exactly that conjunct |
| Query.Filter | project-map-plugin.php:819-831 | a row is selected exactly when it is in the table and passes the test; never more rows than the table |
| Query.FilterAppend | admin/projects-list.php:61-76 | filtering a concatenation filters each part |
| Query.FilterReverseLength | admin/projects-list.php:61-66 | the newest-first order of the listing does not change how many rows match |
| MapData.Position | project-map-plugin.php:870-883 | the 1-based place of a month name, 0 exactly when the name is not a month |
| MapData.LongMonthsGood | project-map-plugin.php:870-883 | the twelve month names are distinct and contain no space |
| MapData.MonthYearReadBack | project-map-plugin.php:885-889 | "Month year" reads back as that month and year, and a bare year as no month |
| MapData.YearReadBack | project-map-plugin.php:889 | a bare year reads back as that year, with no month |
| MapData.NamedMonthReadBack | project-map-plugin.php:885-887 | "Name year" for a month 1..12 reads back as that month and year |
| MapData.CompletionDateReadBack | project-map-plugin.php:865-890 | the formatted date shows the year, and the month exactly when it is 1..12 |
| MapData.NotApplicableReadBack | project-map-plugin.php:867-868 | 'N/A' names neither a month nor a year |
| MapData.CompletionDateNeedsYear | project-map-plugin.php:867-868 | without a year the result is 'N/A' whatever the month |
| MapData.MapWhere | project-map-plugin.php:793-817 | the status clause comes first, then one clause per filter that is set; a row passes them exactly when it is published and matches every filter, with the search over village name, country and description |
| MapData.StatsWhere | project-map-plugin.php:897-913 | the statistics' clauses are the map's clauses without the search |
| MapData.MapQueryMembers | project-map-plugin.php:819-831 | a row is on the map exactly when it is in the table and matches the filter |
| MapData.MapQueryUnfiltered | project-map-plugin.php:793-794 | with no filter set the map shows exactly the published projects |
| MapData.Countries | project-map-plugin.php:918 | the distinct country values are exactly the countries of the selected rows |
| MapData.GetStatistics | project-map-plugin.php:892-931 | returns the count, the beneficiary sum and the distinct country count of the matching rows |
| MapData.CountriesBound | project-map-plugin.php:918 | there are never more countries than rows, and at least one when rows exist |
| MapData.SumNonNegative | project-map-plugin.php:917 | a sum of non-negative beneficiary figures is non-negative |
| MapData.StatisticsBounds | project-map-plugin.php:915-931 | countries ≤ projects ≤ rows; no projects means no countries and no beneficiaries (COALESCE to 0) |
| MapData.StatisticsIgnoreSearch | project-map-plugin.php:857 | the statistics count exactly what the map shows without the search term; a search can only show fewer |
| MapData.FormatForMap | project-map-plugin.php:838-853 | each entry keeps the project id and `[lng, lat]`; it has a truthy icon and donor, and a truthy image when the placeholder is truthy; the donor is `in_honour_of` exactly when that is set |
| MapData.FormatAll | project-map-plugin.php:834-854 | the loop formats every found row, in order |
| MapData.GetProjects | project-map-plugin.php:778-862 | rejects exactly a failing nonce; otherwise it returns the formatted matching rows newest first and the statistics for the same filters |
| Dates.OutOfRangeMonth | templates/single-project.php:57-60 | a stored month 13 renders as " 2012" in the templates, where the range-checked rendering gives "2012" |
| Dates.AsWrittenAgrees | templates/single-project.php:57-60 | for months 0..12 the templates' rendering and the range-checked one agree |
| Dates.TemplateDateIsFormat | project-map-plugin.php:865-890 | with long names and 'N/A', the range-checked template date is `format_completion_date` |
| Dates.ShortMonthsGood | admin/projects-list.php:237 | the twelve short month names are distinct and contain no space |
| Dates.TemplateDateReadBack | templates/project-detail-shortcode.php:34-37 | a rendered date with a year reads back as its month (0 when none is shown) and its year |
| Dates.ShortDate | admin/projects-list.php:238 | the admin list shows '-' exactly when there is no year |
| Dates.LongDate | templates/single-project.php:57-60 | the page and the card show '' exactly when there is no year |
| Media.IdTexts | project-map-plugin.php:998 | the k-th text is the decimal rendering of the k-th id |
| Media.PieceIds | templates/single-project.php:30-32 | the k-th id is `intval` of the k-th piece |
| Media.ResolvedUrls | templates/single-project.php:31-36 | never more URLs than pieces, and every URL kept is truthy |
| Media.ResolveGallery | templates/single-project.php:28-37 | the explode-and-resolve loop returns exactly the resolving URLs of the stored field, in order |
| Media.ResolvedStep | templates/single-project.php:33-35 | one more piece appends its URL when it resolves and nothing otherwise |
| Media.ResolvedAll | templates/single-project.php:31-36 | when every piece resolves, the k-th URL is the k-th piece's |
| Media.ResolvedNone | templates/single-project.php:33-35 | pieces that do not resolve contribute nothing |
| Media.GalleryFieldIds | admin/add-project.php:392-393 | exploding an imploded gallery field and taking `intval` of each piece gives back the ids |
| CsvImport.GetOrCreateResult | project-map-plugin.php:1051-1094 | an empty name gives null and changes nothing; an existing name gives its id and inserts nothing; a new name inserts exactly one row and gives its id; the name then resolves to the id returned |
| CsvImport.GetOrCreateIdempotent | project-map-plugin.php:1051-1094 | a second call with the same name returns the same id and changes nothing |
| CsvImport.GetOrCreateType | project-map-plugin.php:1072-1094 | the method over the table object reaches the state and id `GetOrCreate` gives |
| CsvImport.ImportStatus | project-map-plugin.php:1008-1011 | the stored status is 'publish' or 'draft'; it is 'draft' exactly when the cell sanitises to 'draft'; a valid status is kept |
| CsvImport.ImportedIds | project-map-plugin.php:990-997 | only successful side-loads give an id, never more ids than URLs |
| CsvImport.ImportedIdsStep | project-map-plugin.php:993-996 | one more URL appends its attachment id when the side-load succeeded |
| CsvImport.ImportGallery | project-map-plugin.php:988-999 | the gallery loop builds exactly the imploded list of imported ids |
| CsvImport.GalleryImportReadBack | project-map-plugin.php:998 | the report page reads an imported gallery back as the imported ids |
| CsvImport.RowTypes | project-map-plugin.php:978-979 | the type lookups keep both tables valid and only add rows to them |
| CsvImport.ImportRow | project-map-plugin.php:970-1041 | one pass of the loop keeps the tables valid |
| CsvImport.RecordRow | project-map-plugin.php:1013-1040 | the insert changes only the projects table |
| CsvImport.ImportRowEffect | project-map-plugin.php:970-1041 | one data row adds exactly one count or one error; a short row adds "Row N: Insufficient data"; the projects table gains exactly the row counted, with status publish or draft; the type tables only grow |
| CsvImport.RowKeepsErrors | project-map-plugin.php:973-976 | earlier messages are kept in order, and a row under six cells adds the insufficient-data message |
| CsvImport.RecordRowEffect | project-map-plugin.php:1036-1040 | a recorded row adds one count and that row, or one "Database error" and no row |
| CsvImport.ImportRows | project-map-plugin.php:963-1041 | the import of all data rows keeps the tables valid |
| CsvImport.ImportAccounting | project-map-plugin.php:964-1041 | imported plus errors equals the number of data rows; the projects table gains exactly the imported rows, each publish or draft; the type tables only grow |
| CsvImport.ImportReportsShortRows | project-map-plugin.php:967-976 | a data row with fewer than six cells is reported under its file row number, the first data row being row 2 |
| CsvImport.ErrorsOfPrefix | project-map-plugin.php:970-1041 | the messages of earlier rows come first, in order, among all messages |
| CsvImport.ErrorsStep | project-map-plugin.php:970-1041 | the last row only appends messages |
| CsvImport.ResolveTypes | project-map-plugin.php:978-979 | the get-or-create calls on the two table objects reach the state and ids `RowTypes` gives |
| CsvImport.ImportOne | project-map-plugin.php:970-1041 | one pass of the loop on the table objects reaches exactly what `ImportRow` gives |
| CsvImport.RecordOne | project-map-plugin.php:1013-1040 | the insert on the table object reaches what `RecordRow` gives |
| CsvImport.ImportProjects | project-map-plugin.php:963-1041 | the header is skipped and the loop over the file reaches exactly `ImportRows` of the data rows |
| CsvImport.UpsertRow | project-map-plugin.php:1174-1219 | one type row adds exactly one count or one error, keeps earlier messages and keeps the table valid |
| CsvImport.UpsertRows | project-map-plugin.php:1169-1220 | the type import keeps the table valid |
| CsvImport.UpsertAccounting | project-map-plugin.php:1174-1219 | every row of a type CSV adds exactly one count or one message |
| CsvImport.UpsertReportsMissingNames | project-map-plugin.php:1182-1188 | a row whose name sanitises to empty is reported as "Row N: Name is required" |
| CsvImport.UpsertRowByName | project-map-plugin.php:1190-1218 | seen from one name: a row naming it updates only the existing row's description or inserts it; any other name keeps its row |
| CsvImport.UpsertByName | project-map-plugin.php:1292-1337 | a name no row mentions keeps its row; a name some row mentions ends with the last such row's description, an existing row keeping its id, name and parent |
| CsvImport.UpsertOne | project-map-plugin.php:1174-1219 | one pass on the table object reaches exactly what `UpsertRow` gives |
| CsvImport.ImportTypes | project-map-plugin.php:1169-1220 | the loop over the file reaches exactly `UpsertRows` of the data rows |
| CsvImport.HandleImportCsv | project-map-plugin.php:935-1049 | a failing nonce or a failed check (permission, no file, upload error, unopenable file, in that order) changes nothing; otherwise the counts and messages are those of the import |
| CsvImport.HandleImportTypes | project-map-plugin.php:1140-1227 | the same checks, then the upsert of the type table |
| CsvExport.TextCells | project-map-plugin.php:1399-1416 | the header cells are the header texts in order |
| CsvExport.ExportCells | project-map-plugin.php:1444-1461 | one row has one cell per header column |
| CsvExport.ExportRows | project-map-plugin.php:1418-1462 | one exported row per project, in table order |
| CsvExport.ExportCsv | project-map-plugin.php:1376-1465 | a failing nonce or a missing capability is refused; otherwise it returns the header followed by each project's row |
| CsvExport.ExportLayout | project-map-plugin.php:1390-1462 | the k-th data row of the export is the k-th project's, after the header, with one cell per column |
| CsvExport.VideoListRoundTrip | project-map-plugin.php:1438-1442 | for URL lists without commas the export and import mappings of the video column are inverses |
| CsvExport.ExportOfStored | project-map-plugin.php:1438-1442 | the export of a stored newline list is its comma form |
| CsvExport.ImportOfCommaForm | project-map-plugin.php:1002-1006 | importing a comma form gives the newline list back |
| CsvExport.FalsyVideoCell | project-map-plugin.php:1002-1003 | an empty or "0" video cell stores no videos |
| CsvExport.ExportOfImport | project-map-plugin.php:1002-1006 | exporting what the import stored lists the escaped URLs joined by ',' |
| CsvExport.OptionalIntReadBack | project-map-plugin.php:1023-1024 | the optional integer columns read back as the value exported (`?: ''` then `!empty ? intval : null`) |
| CsvExport.TypeNameResolves | project-map-plugin.php:1060-1066 | an exported type name resolves back to the project's type id, creating nothing |
| CsvExport.ExportRowTexts | project-map-plugin.php:1444-1461 | the month, year, beneficiary, video and status cells of an exported row |
| CsvExport.ReimportCells | project-map-plugin.php:1013-1031 | the import's cell mapping recovers month, year, beneficiaries, videos and status from those cells |
| CsvExport.ExportReimport | assets/admin.js:308-318 | an exported project, written by the download and read back as a CSV record, gives back its month, year, beneficiaries, videos and status |
| AdminJs.CellTexts | assets/admin.js:311-312 | each cell's text: null as '', false as "false" |
| AdminJs.Escape | assets/admin.js:313-315 | a cell without ',', '"' or a newline is unchanged; one with any of them is wrapped in quotes |
| AdminJs.EscapeAll | assets/admin.js:309-316 | the k-th escaped cell is the k-th cell escaped |
| AdminJs.CsvTextSnoc | assets/admin.js:308-318 | a further row appends its line after the earlier ones |
| AdminJs.BuildCsv | assets/admin.js:307-318 | the forEach loop builds exactly one line per row, in order |
| AdminJs.QuotedDoubled | assets/admin.js:314 | a quoted field reads back as the text whose quotes were doubled |
| AdminJs.UnquotedPlain | assets/admin.js:313 | a field without ',' or line breaks reads back as itself |
| AdminJs.FieldEscape | assets/admin.js:313-316 | an escaped cell followed by a separator reads back, under the quoting of RFC 4180 section 2, as the cell |
| AdminJs.QuotedFieldRead | assets/admin.js:314 | a cell that needs quotes reads back from inside its quotes |
| AdminJs.PlainFieldRead | assets/admin.js:313 | a cell that needs no quotes reads back as it stands |
| AdminJs.FieldsJoin | assets/admin.js:309-317 | the escaped cells joined by ',' read back as the cells |
| AdminJs.ReadLine | assets/admin.js:317 | one line of the download reads back as the texts of its cells |
| AdminJs.RowsTexts | assets/admin.js:308-318 | the texts of every cell, row by row |
| AdminJs.CsvRoundTrip | assets/admin.js:433-442 | decoding the download gives back every row's cell texts, in order: the escaping loses nothing |
| AdminJs.FieldIds | assets/admin.js:121 | an empty hidden field is the empty list, and a non-empty one is not |
| AdminJs.NewIds | assets/admin.js:124-135 | the ids added are not already in the field, and every selected id ends up in the field |
| AdminJs.NewIdsStep | assets/admin.js:125-126 | one more attachment appends its id exactly when the field did not already hold it |
| AdminJs.AddStep | assets/admin.js:124-135 | one pass of the forEach extends the list by the next new id |
| AdminJs.Without | assets/admin.js:149-151 | the filter keeps exactly the entries different from the id |
| AdminJs.GalleryEditor.Add | assets/admin.js:119-138 | the field becomes its old entries followed by the new selected ids, joined by ',' |
| AdminJs.GalleryEditor.Remove | assets/admin.js:144-154 | the field becomes its entries without the id, joined by ',' |
| AdminJs.IntToStringWellFormed | assets/admin.js:126 | an id's text is non-empty and has no ',' |
| AdminJs.NewIdsWellFormed | assets/admin.js:126 | added entries are non-empty and free of ',' |
| AdminJs.FieldIdsJoin | assets/admin.js:121 | writing well-formed entries into the field and reading them back gives the entries |
| AdminJs.AddReadBack | assets/admin.js:119-138 | after adding, the field lists its old ids in their order, then the new ones in selection order, and every selected id is listed |
| AdminJs.NewIdsDistinct | assets/admin.js:124-135 | distinct attachments add each new id once, and each added id is a selected one |
| AdminJs.NewIdsFromSelection | assets/admin.js:124-135 | every added id is the text of a selected id |
| AdminJs.AddKeepsDistinct | assets/admin.js:119-138 | a duplicate-free field stays duplicate-free when distinct attachments are added |
| AdminJs.WithoutAbsent | assets/admin.js:149-151 | removing an absent id leaves the list as it is |
| AdminJs.WithoutAppend | assets/admin.js:149-151 | removal distributes over concatenation, so the other entries keep their order |
| AdminJs.RemoveUndoesAdd | assets/admin.js:144-154 | removing an id the media frame just added restores the field's entries |
| AdminJs.RemoveReadBack | assets/admin.js:148-152 | removing from a well-formed field leaves exactly the other entries, in order |
| Frontend.ClusterIconMonotone | assets/frontend.js:585-587 | a larger cluster never gets a smaller icon, font or Mapbox circle |
| Frontend.CircleRadiusByBucket | assets/frontend.js:244-248 | the Mapbox circle step and the Leaflet buckets use the same thresholds |
| Frontend.SizeBuckets | assets/frontend.js:585 | small below 10, medium from 10 below 100, large from 100 |
| Frontend.GetOsmTileLayer | assets/frontend.js:133-137 | every tile layer has max zoom 19 and subdomains 'abc' |
| Frontend.TileLayerFallback | assets/frontend.js:90-132 | a known style gets its own tiles; an unknown or empty style gets the standard ones |
| Frontend.TileUrlsDistinct | assets/frontend.js:109-130 | the five styles have five different tile servers |
| Frontend.ClusterRadius | assets/frontend.js:229 | the radius is never 0 |
| Frontend.ClusterRadiusSetting | assets/frontend.js:580 | a saved radius other than 0 is used as it is; 0 or a non-number gives 50 |
| Frontend.ViewAfter | assets/frontend.js:170-176 | the initial load keeps the view, and only the initial load does |
| Frontend.Views | assets/frontend.js:158-177 | one view change per load |
| Frontend.ViewsOfLoads | assets/frontend.js:168-177 | the first successful load keeps the world view; every later one fits the bounds or resets the view; a failed load changes nothing |
| Frontend.PostReadBack | assets/frontend.js:147-150 | the server reads back exactly the filter the script posts |
| Frontend.LeafletPosition | assets/frontend.js:601 | a Leaflet marker sits at the project's own latitude and longitude |
| Frontend.MapScript.constructor | assets/frontend.js:9-28 | the state starts from the wrapper's data attributes, type ids through `parseInt || 0`, with no projects and the first load pending |
| Frontend.MapScript.ChangeCountry | assets/frontend.js:747-751 | only the country filter changes |
| Frontend.MapScript.ChangeProjectType | assets/frontend.js:757-761 | only the project type changes, to `parseInt(value) || 0` |
| Frontend.MapScript.ChangeSolutionType | assets/frontend.js:767-771 | only the solution type changes, to `parseInt(value) || 0` |
| Frontend.MapScript.Search | assets/frontend.js:791-797 | only the search term changes |
| Frontend.MapScript.CloseSearch | assets/frontend.js:804-809 | the search term is reset to '' |
| Frontend.MapScript.LoadResponse | assets/frontend.js:157-178 | success stores the projects, clears the first-load flag and changes the view as `ViewAfter`; failure changes nothing |
| SingleProject.VideoUrls | templates/single-project.php:40 | every stored video is truthy and a single line |
| SingleProject.VideoUrlsReadBack | templates/single-project.php:40 | a stored newline list of truthy URLs reads back as that list |
| SingleProject.Before | templates/single-project.php:346 | the part before the first separator holds none of it, and is all of a string without it |
| SingleProject.After | templates/single-project.php:341 | there is a part after the separator exactly when the string holds it |
| SingleProject.DropFirst | templates/single-project.php:346 | `substr($s, 1)` drops exactly the first character |
| SingleProject.ParamValue | templates/single-project.php:341-342 | `parse_str` finds a value exactly when some pair has that name |
| SingleProject.EmbedUrl | templates/single-project.php:338-351 | the embed is the link itself or a YouTube or Vimeo player URL; a link that is none of the three kinds is left unchanged |
| SingleProject.WatchLinkEmbed | templates/single-project.php:340-344 | `youtube.com/watch?v=<id>` plays `<id>` |
| SingleProject.ShortLinkEmbed | templates/single-project.php:345-347 | `https://youtu.be/<id>` plays `<id>` on the YouTube player |
| SingleProject.VimeoLinkEmbed | templates/single-project.php:348-350 | `https://vimeo.com/<id>` plays `<id>` on the Vimeo player |
| SingleProject.EmbedShortLink | templates/single-project.php:345-347 | a youtu.be link plays its path without the leading '/' |
| SingleProject.EmbedVimeoLink | templates/single-project.php:348-350 | a vimeo.com link plays its path without the leading '/' |
| SingleProject.WatchLinkWithoutId | templates/single-project.php:340-344 | a watch link without a `v` parameter is left as it is |
| SingleProject.WatchLinkParam | templates/single-project.php:341-342 | the `v` parameter of a watch link is its id |
| SingleProject.HostLinkPath | templates/single-project.php:346 | the path of `https://<host>/<id>` is `/<id>` |
| SingleProject.PageOf | templates/single-project.php:17-64 | a missing or unpublished project redirects home; otherwise the page shows the resolving gallery, the stored videos and one embed each, the long date and the map choice |
| SingleProject.RenderPage | templates/single-project.php:17-40 | the template's top half computes exactly `PageOf` |
| SingleProject.NextIndex | templates/single-project.php:750 | the next index stays in [0, n) |
| SingleProject.PrevIndex | templates/single-project.php:756 | the previous index stays in [0, n) |
| SingleProject.NextIndexCases | templates/single-project.php:749-759 | next steps forward and wraps from the last image to the first; previous the other way |
| SingleProject.PrevUndoesNext | templates/single-project.php:749-759 | next and previous undo each other on every valid index |
| SingleProject.NextTimes | templates/single-project.php:776 | k clicks on next keep the index in range |
| SingleProject.NextTimesModulo | templates/single-project.php:750 | k clicks on next move k images on modulo the number of images |
| SingleProject.Lightbox.Counter | templates/single-project.php:739 | the counter is index + 1, between 1 and the total |
| SingleProject.Lightbox.constructor | templates/single-project.php:723-734 | starts at image 0, closed |
| SingleProject.Lightbox.Open | templates/single-project.php:736-742 | opens at the clicked image |
| SingleProject.Lightbox.Close | templates/single-project.php:744-747 | closes, keeping the index |
| SingleProject.Lightbox.ShowNext | templates/single-project.php:749-753 | moves to `NextIndex` |
| SingleProject.Lightbox.ShowPrev | templates/single-project.php:755-759 | moves to `PrevIndex` |
| SingleProject.Lightbox.KeyDown | templates/single-project.php:780-785 | keys act only while open: Escape closes, the arrows step, any other key does nothing |
| MapShortcode.WithDefaults | project-map-plugin.php:675-683 | a missing attribute takes its default ('' country, "true" for the blocks, 800px height) |
| MapShortcode.FilterBoolOf | templates/map-shortcode.php:20-22 | a trimmed attribute is judged by its lower-case form |
| MapShortcode.FilterBoolDefault | templates/map-shortcode.php:20-22 | the default "true" reads as true |
| MapShortcode.FilterBoolUpper | templates/map-shortcode.php:20-22 | "TRUE" reads as true |
| MapShortcode.FilterBoolFalse | templates/map-shortcode.php:20-22 | "false" reads as false |
| MapShortcode.Render | templates/map-shortcode.php:19-145 | stats, filters and search each show exactly when their attribute is true; the country dropdown only without an initial country, the type dropdowns only for type 0 (project types only when some exist), the search button only inside the filters |
| MapShortcode.DefaultsShowAll | project-map-plugin.php:675-683 | a bare `[project_map]` shows every block and dropdown, the project types one when types exist |
| MapShortcode.InitialFilterReadBack | templates/map-shortcode.php:40-42 | the script starts from exactly the filter the shortcode fixed |
| MapShortcode.FixedFilterHidden | templates/map-shortcode.php:96-122 | a fixed filter is never offered as a dropdown |
| ProjectDetail.DetailOf | templates/project-detail-shortcode.php:11-84 | id 0 or a non-number asks for an id; a missing or unpublished project is not found; otherwise the card is the published project's, with its long date and its own report link |
| ProjectDetail.EmptyIdAsksForId | project-map-plugin.php:695-697 | the default id '' asks for an id |
| ProjectDetail.ReportLinkReadBack | templates/project-detail-shortcode.php:84 | the report link is home + '/project-report/' + an id that reads back as the project's |
| ProjectDetail.PublishedProjectShown | templates/project-detail-shortcode.php:18-23 | asking for a published project by its id shows its card |
| ProjectsList.ListWhere | admin/projects-list.php:29-58 | one clause per filter that is set, and a row passes them exactly when it matches every filter, the search over name, project number and country |
| ProjectsList.SearchClauseMeaning | admin/projects-list.php:32-38 | the search clause holds exactly when the term occurs in name, project number or country, ignoring case |
| ProjectsList.EmptyTextUnmatched | admin/projects-list.php:32-38 | an empty column never matches a non-empty search term |
| ProjectsList.ResetIffFiltered | admin/projects-list.php:205 | without the Reset link every row is listed; with it some row is left out |
| ProjectsList.CurrentPage | admin/projects-list.php:18 | the page is `max(1, intval(paged))`, 1 by default |
| ProjectsList.Offset | admin/projects-list.php:19 | the offset is non-negative, a multiple of 20 and before the page's end |
| ProjectsList.PageCount | admin/projects-list.php:298 | the page count is the ceiling of total / 20 |
| ProjectsList.PaginationIffSeveralPages | admin/projects-list.php:288 | the pagination block shows exactly when there are two pages or more |
| ProjectsList.PageRows | admin/projects-list.php:76-79 | a page holds at most 20 rows |
| ProjectsList.PagesPartition | admin/projects-list.php:17-19 | every listed row is on exactly one page, at its place there |
| ProjectsList.UnfilteredListsAll | admin/projects-list.php:29 | with no filters every row is counted |
| ProjectsList.StatusLabel | admin/projects-list.php:274 | 'Published' exactly for 'publish', 'Draft' for anything else |
| ProjectsList.BuildListPage | admin/projects-list.php:16-80 | the page, offset, total, page rows, pagination and Reset flags are those of the filters read from the request |
| ProjectTypesAdmin.FormOutcome | admin/project-types.php:16-45 | only a posted form with a verifying nonce and a truthy name changes the table; an error notice comes with no change |
| ProjectTypesAdmin.DeleteOutcome | admin/project-types.php:48-66 | only a verified delete of an unused type changes the table; an error comes with no change |
| ProjectTypesAdmin.BadNonceUnchanged | admin/project-types.php:17-18 | a failing nonce gives the security error and no change |
| ProjectTypesAdmin.EmptyNameUnchanged | admin/project-types.php:27-28 | an empty name gives the name error and no change |
| ProjectTypesAdmin.EditChangesOnlyThatRow | admin/project-types.php:35-37 | an edit of a positive id changes that row's name and description, when the name is free, and no other row |
| ProjectTypesAdmin.AddInsertsOneRow | admin/project-types.php:38-41 | an add, or an edit without a positive id, inserts one row when the name is new and nothing when it is taken, with the success notice either way |
| ProjectTypesAdmin.DeleteRefusedInUse | admin/project-types.php:54-60 | a type in use is kept, with the count message |
| ProjectTypesAdmin.DeleteUnusedRemoves | admin/project-types.php:61-63 | an unused type is removed and every other row is kept |
| ProjectTypesAdmin.HandleForm | admin/project-types.php:16-45 | the form handler changes the table in place to exactly `FormOutcome` |
| ProjectTypesAdmin.HandleDelete | admin/project-types.php:48-66 | the delete handler changes the table in place to exactly `DeleteOutcome` |
| ProjectTypesAdmin.HandleRequest | admin/project-types.php:16-66 | the form handler then the delete handler; a notice the delete leaves empty shows the form's |
| SolutionTypesAdmin.PostOutcome | admin/solution-types.php:18-90 | only a POST with a verifying nonce changes the table; a death or an error notice comes with no change |
| SolutionTypesAdmin.BadNonceDies | admin/solution-types.php:19-21 | a missing or failing nonce dies before any change |
| SolutionTypesAdmin.EmptyNameUnchanged | admin/solution-types.php:29-31 | an add or edit with an empty name gives "Name is required." and no change |
| SolutionTypesAdmin.AddNewName | admin/solution-types.php:25-45 | an add inserts one row under the next id exactly when the name is new; otherwise it reports the failure and changes nothing |
| SolutionTypesAdmin.EditOnlyThatRow | admin/solution-types.php:46-67 | an edit fails exactly when the row with the posted id exists and another row holds the name; it touches only the row with the posted id |
| SolutionTypesAdmin.EditAbsentIdSucceeds | admin/solution-types.php:55-61 | an edit of an id no row has changes nothing and reports "Solution type updated successfully.", since `0 !== false` |
| SolutionTypesAdmin.DeleteRefusedInUse | admin/solution-types.php:72-78 | a type in use is refused with the usage count and no change |
| SolutionTypesAdmin.DeleteButtonIffDeletable | admin/solution-types.php:197 | the delete button shows exactly for the types the delete would remove; any other type would be refused |
| SolutionTypesAdmin.HandlePost | admin/solution-types.php:18-90 | the handler changes the table in place to exactly `PostOutcome` |
| SolutionTypesAdmin.Add | admin/solution-types.php:25-45 | the add branch reaches `PostOutcome` |
| SolutionTypesAdmin.Edit | admin/solution-types.php:46-67 | the edit branch reaches `PostOutcome` |
| SolutionTypesAdmin.Delete | admin/solution-types.php:68-89 | the delete branch reaches `PostOutcome` |
| AddProject.Nullable | admin/add-project.php:51-57 | an empty field is NULL; any other is its `intval` |
| AddProject.OptionalFieldsNullWhenEmpty | admin/add-project.php:51-57 | each optional integer field is NULL exactly when left empty |
| AddProject.FormVideosReadBack | admin/add-project.php:39-43 | the report page lists exactly the escaped non-empty lines of the video field, in order |
| AddProject.WithCreated | admin/add-project.php:91-94 | the created flag replaces the notice with the created one, keeping the project shown |
| AddProject.SaveOutcome | admin/add-project.php:13-94 | only a verified submission changes the table, and a death changes nothing |
| AddProject.SubmitOutcome | admin/add-project.php:66-87 | a change needs the database to accept the row; an error notice comes with no change |
| AddProject.MissingProjectDies | admin/add-project.php:18-23 | editing an id that does not exist dies before anything else |
| AddProject.BadNonceDies | admin/add-project.php:27-30 | a failing nonce dies with no change |
| AddProject.EditUpdatesSameId | admin/add-project.php:66-72 | an accepted edit replaces the columns of that project under the same id, keeps every other row and shows the saved row |
| AddProject.EditSubmitted | admin/add-project.php:66-72 | the update branch for any row the database accepts |
| AddProject.ReplaceKeepsIds | admin/add-project.php:67-72 | after the update the id finds the new columns and the table stays valid |
| AddProject.FindAppended | admin/add-project.php:78-80 | a row appended under a fresh id is found by it |
| AddProject.FindProjectAt | project-map-plugin.php:1496-1518 | in a table with increasing ids, each row is the one found by its own id |
| AddProject.CreateRedirectsToNewRow | admin/add-project.php:77-82 | an accepted create inserts one row under the next id and redirects to its edit page, which shows it with the created notice |
| AddProject.CreatedPageShows | admin/add-project.php:90-94 | the redirect target shows the project with the created notice |
| AddProject.CreateRefused | admin/add-project.php:83-86 | a refused create changes nothing and reports the error |
| AddProject.Save | admin/add-project.php:13-94 | the screen's handler changes the table in place to exactly `SaveOutcome` |
| AddProject.MonthOptions | admin/add-project.php:102-115 | the month keys are exactly 1..12, with the long names |
| AddProject.OfferedMonthsRender | admin/add-project.php:102-115 | every month offered is stored as itself and renders as its own name |
| AddProject.YearOptions | admin/add-project.php:117-119 | `range(current + 5, 2000)`: every year between the ends once, counting down in the usual case |
| AddProject.OfferedYearsStored | admin/add-project.php:119 | every year offered is stored as that year |
| Settings.OptionStore.Get | admin/settings.php:40-52 | `get_option` gives the stored value, or the default when there is none |
| Settings.OptionStore.Update | admin/settings.php:20-33 | `update_option` writes one option and nothing else |
| Settings.EnableFlagSaved | admin/settings.php:23 | the checkbox is saved as '1' exactly when posted and '0' otherwise; the save writes only its own option names |
| Settings.SavedKeys | admin/settings.php:20-33 | the save adds exactly its ten option names |
| Settings.SavedKeepsOthers | admin/settings.php:20-33 | every other option keeps its value |
| Settings.HandleSave | admin/settings.php:14-37 | no posted nonce field: no change and no notice; a failing nonce dies with no change; otherwise every option is saved and the success notice shown |
| Settings.ReadCurrent | admin/settings.php:40-52 | the screen reads each option with its documented default |
| Settings.FreshSiteDefaults | admin/settings.php:40-52 | a site that never saved shows the defaults and uses OpenStreetMap |
| Settings.SaveReadBack | admin/settings.php:20-52 | after a save the screen shows the sanitised token, the OSM style and the checkbox state |
| Settings.StyleList | admin/settings.php:74 | the Mapbox styles exactly when Mapbox is enabled, the OpenStreetMap styles otherwise |
| Settings.ViewOf | admin/settings.php:105-118 | the token warning shows exactly when Mapbox is enabled with no token; the token field is hidden exactly when Mapbox is disabled; one style section is hidden |
| Settings.VisibleStylesAreStyleList | admin/settings.php:166-183 | the visible style section offers exactly `$map_styles`, and the warning shows exactly when Mapbox is enabled but unused |
| Settings.OsmStylesHaveTiles | admin/settings.php:179-183 | every OpenStreetMap style offered has its own tiles on the map |
| Settings.DisabledHidesToken | admin/settings.php:23 | saving with the checkbox cleared hides the token field and the warning |
| Text.JoinSplit | templates/single-project.php:30 | joining the pieces of an `explode` gives back the string |
| Text.SplitJoin | project-map-plugin.php:998 | exploding an `implode` of pieces without the delimiter gives back the pieces |
| Text.KeepTruthy | templates/single-project.php:40 | `array_filter` keeps exactly the truthy strings, in order |
| Text.Trim | project-map-plugin.php:990 | `trim` removes only trim whitespace, from the two ends, and leaves no trim whitespace at either end of the result |
| Text.IndexOf | templates/single-project.php:340 | the first index of the character, -1 exactly when absent |
| Text.IntvalOfString | project-map-plugin.php:1023-1024 | `intval` of an integer's decimal rendering is the integer |
| Text.Lower | admin/projects-list.php:32-38 | lower-casing keeps the length and maps each character |
| Text.ParseIntOr | assets/frontend.js:27-28 | `parseInt(s) \|\| d` is d or a non-zero number |

## Left out

- Database errors other than the UNIQUE(name) conflict of the two type tables: the host's `dbAccepts` decides whether a project row is accepted, and no other failure mode is modelled.
- LIKE matching: modelled as ASCII case-insensitive substring search. Collations, accents and `esc_like` escaping are not modelled.
- Text equality in SQL: `=`, UNIQUE(name) and `COUNT(DISTINCT country)` compare exactly. The tables' default `_ci` collation would treat "Water Well" and "water well" as one name, and ignore trailing spaces. The members that assume exact comparison are `TypeTables.NameIndex`, `TypeTables.IdOfName`, `TypeTables.InsertWith`, `TypeTables.UpdateWith`, `CsvImport.GetOrCreate`, `CsvImport.GetOrCreateResult`, `CsvImport.UpsertRowByName`, `MapData.MapWhere` (country), `MapData.Countries`, `MapData.GetStatistics` and `ProjectsList.ListWhere` (country and status). With a case-insensitive collation, a CSV name differing only in case reuses the existing type, where the model inserts a new one.
- LEFT JOIN duplicates: the countries table is joined by name and is assumed to hold each name once; the first match is taken.
- `created_at` ties: `ORDER BY created_at DESC` is modelled as reverse insertion order.
- PHP loose comparison (`==`): modelled only for the string spellings the pages compare (`'1'`, and the created flag only for the spelling "1").
- Integer width: `intval` is unbounded here, with no 64-bit overflow, and `mediumint` limits on ids are not modelled.
- Text.Intval: reads an optional sign and the leading decimal digits only. PHP 7.1 and later also read a leading numeric string with a fraction or exponent, so `intval("1e3")` is 1000 where the model gives 1. This reaches the CSV import's month, year and beneficiary columns (`CsvImport.ImportRow`) and `AddProject.Nullable`.
- SingleProject.ParamValue: returns the raw text of the query value. `parse_str` also URL-decodes it (`%2D` becomes '-', '+' becomes a space), so for an encoded `v` parameter the player id of `SingleProject.EmbedUrl` differs from the page's.
- `parseInt` of hexadecimal or other radix prefixes: read as base 10.
- Floating point: `floatval`, coordinates, `number_format`, `toFixed` and `toLocaleString` are opaque values or host functions.
- Async browser behaviour: fetch/ajax callbacks as steps, the 300 ms search debounce, DOM updates, Blob downloads and popups are not modelled.
- Mapbox and Leaflet rendering, clustering inside the libraries, Swiper and the counter animation are not modelled.
- AdminJs.GalleryEditor.Add: the ids pushed by the media frame are numbers, and `indexOf` with a string never finds them. The model keeps ids as their text and compares only with the entries the field held before, which is what the handler ends up comparing.
- JavaScript object keys inherited from the prototype (`layers['constructor']`) are not modelled: `getOsmTileLayer` looks the style up only among its five names.
- The type-table CSV exports (`ajax_export_project_types`, `ajax_export_solution_types`) and `ajax_delete_project` are simple queries and are not part of this model.
- NULL integer columns are read as 0 and NULL texts as ''. A NULL type id, month, year or featured image is therefore indistinguishable from 0.
- `fgetcsv` is modelled by an RFC 4180 decoder (`AdminJs.ReadAll`). PHP's escape character and its handling of stray quotes are not modelled.
- `parse_url` is modelled for the `scheme://host/path?query#fragment` shapes the embed rules meet. Ports, user info and malformed URLs are not modelled.
- Several inputs are parameters of the model: `get_option`'s value (its empty-value handling is a stored string), `admin_url`'s base, `home_url`, the current year, the nonce verdicts and the capability checks.
- The image side-load (`import_image_from_url`), `wp_get_attachment_url` and the sanitisers are host functions.
- The listing SQL of the type screens (usage counts as a JOIN) is modelled only through `Records.CountWhere`.
- project-types.php prints its success notices whatever the database answered on insert and update; the model reproduces this.
- A failing delete nonce on the project types screen is silent, as in the page.
- `$map_styles` in settings.php is computed, but both style sections are rendered and toggled. The model checks that the visible one is `$map_styles`.
- `$completion` in projects-list.php is computed per row but never printed. `Dates.ShortDate` models it in its corrected, range-checked form; `Dates.TemplateDateAsWritten` with the short names and '-' is the form as written.
- Schema creation, activation, rewrite rules, script enqueueing, menus, the default countries list and admin/import-export.php's static markup are framework wiring and are not modelled.

## Findings

| source | as written | input that shows it | evidently intended | confidence | as-written member | corrected member |
|---|---|---|---|---|---|---|
| templates/single-project.php:59 (also templates/project-detail-shortcode.php:36 and admin/projects-list.php:238) | `$months[$project->completion_month]` is read without checking that the month is 1..12; a CSV import can store any `intval` | completion month 13, year 2012: the page shows " 2012" (null, a space, the year) | the year alone, as `format_completion_date` does with its `isset` check | not executed | Dates.OutOfRangeMonth (over Dates.TemplateDateAsWritten) | Dates.LongDate, Dates.ShortDate and Dates.TemplateDateReadBack (over Dates.TemplateDate) |
