# viveParse report model

`parse.py` reads the SQLite database of a Lutron Vive hub and prints an HTML
outline of the installation to standard output:

- fixed script and style boilerplate and a print button;
- the hub's serial number and the Wi-Fi network names, each with a notes box;
- one section per area (every area except the structural "root" area);
- inside each area, one fragment per device.

A device's fragment depends on its category, which its device-class id decides:

- **Pico remotes, occupancy sensors and daylight sensors** are control devices. Their fragment lists the devices they are programmed to control.
- **Every other device** is a load controller. Its fragment shows its firmware revision without leading zeros.

Before any of this, `main` decides which database to read:

- the copy embedded in a support-file archive;
- a path given with `-d`;
- or the hub's default database file.

The model is written in Dafny. Modules:

- `Catalog` (`catalog.dfy`): the rows the queries return, the three device-class tables, the classifier, and the `Database` record standing for the query results.
- `Format` (`format.dfy`): `%08X`, `%d` and `lstrip("0")` as string functions, with the number each digit string denotes.
- `Html` (`html.dfy`): the output as lines of tokens, one line per `print` call. `Render` and `Print` give the characters written, exact apart from the text inside the script and style boilerplate. A stack machine `Run` matches opening and closing tags, and `Balanced` says a token sequence closes everything it opens.
- `Report` (`report.dfy`): the document `dumpproject` prints, built from the rows.
- `ReportProperties` (`report_properties.dfy`): what the document promises:
  - order follows the rows;
  - the printed counts match what follows them;
  - each section and fragment balances its tags;
  - the whole document leaves exactly one element open, `<div id='areas'>`.
- `Resolve` (`resolve.dfy`): the choice of database in `main` and the actions that follow it.
- `Results` (`results.dfy`): `Option` and `Result`.

Lines 191 and 193 are read as Python 2 `print` statements: the `%` applies to the string, so the area name is formatted into the tag.

The label printed before a device's name is the class-info `ModelNumber` column (parse.py:226, 256), so the row field is named `modelNumber`.

`os.remove` (parse.py:64) follows `dumpproject` with no `try`/`finally`, so a dump that raises leaves the temporary copy behind. `Resolve.MainEffects` models this, and `Resolve.TempRemovedIff` states the consequence.

## Model

| member | source | states |
|---|---|---|
| Catalog.Classify | parse.py:230-329 | A control category's kind is one whose id table holds the id. The id is a load controller exactly when no table holds it. |
| Catalog.TablesDisjoint | parse.py:196-217 | No class-info id is in two of the Pico, occupancy and daylight tables. |
| Catalog.ClassifyExclusive | parse.py:230-329 | An id is classified as a kind exactly when that kind's table holds it, so the order of the `if`/`elif` tests does not matter. |
| Catalog.ClassifyTable | parse.py:196-217 | The categories as explicit sets: ids 12, 21-25 and 32-35 are Pico remotes, 11 is an occupancy sensor, 46 is a daylight sensor, and every other id is a load controller. |
| Format.Hex8 | parse.py:150 | The `%08X` conversion, also used for the element ids at lines 247, 250 and 330. No contract of its own; Hex8Value and Hex8Injective state its properties. |
| Format.Decimal | parse.py:192 | The `%d` conversion, also used for the item count at line 248. No contract of its own; DecimalValue and DecimalInjective state its properties. |
| Format.Hex8Value | parse.py:150 | A serial below 2^32 prints as exactly eight upper-case hexadecimal digits that denote it. A larger one prints more digits with no leading zero. A negative one prints a sign, then digits denoting its magnitude: eight characters in all while the magnitude is below 16^7, more (with no zero after the sign) from there on. |
| Format.Hex8Injective | parse.py:150 | Distinct numbers print differently under `%08X`. |
| Format.DecimalValue | parse.py:192 | A printed `%d` count is a nonempty decimal numeral denoting the count, with no leading zero (a count of zero prints as "0"). |
| Format.DecimalInjective | parse.py:248-249 | Distinct counts print differently. |
| Format.StripLeadingZeros | parse.py:331 | The firmware text shown is a suffix of the stored revision. Everything removed is '0', and the result does not start with '0'. |
| Format.StripLeadingZerosUnique | parse.py:331 | Any run of zeros in front of a text that does not start with '0' is exactly what is stripped, so the result is determined by the two properties above. |
| Format.StripLeadingZerosIdempotent | parse.py:331 | Stripping twice gives the same result as stripping once. |
| Format.StripLeadingZerosExample | parse.py:331 | "007.1" is shown as "7.1". |
| Format.StripLeadingZerosUnchanged | parse.py:331 | A revision without a leading zero, "1.0", is shown unchanged. |
| Format.StripLeadingZerosAllZero | parse.py:331 | A revision of only zeros, "000", is shown as the empty text. |
| Report.ElementId | parse.py:247 | The `0x%08X` element id, also built at lines 250 and 330. No contract of its own; ElementIdDigits and ElementIdInjective state its properties. |
| ReportProperties.ElementIdDigits | parse.py:247 | A control device's element id is "0x" followed by eight hexadecimal digits that denote its 32-bit serial number. |
| ReportProperties.ElementIdInjective | parse.py:330 | Devices with distinct serial numbers get distinct element ids. |
| Report.AreaDiv | parse.py:191 | An area section's opening div carries the class `area` and no device class. |
| Report.DevicesDiv | parse.py:193 | An area's devices div carries neither the area class nor a device class. |
| Report.ControlDiv | parse.py:247 | A control device's div carries the device class `control_device`, not `area`. |
| Report.AssignedDiv | parse.py:250 | An assigned-devices div carries neither the area class nor a device class. |
| Report.LoadDiv | parse.py:330 | A load controller's div carries the device class `load_controller`, not `area`. |
| Report.ItemLines | parse.py:252-262 | No contract of its own; ItemLinesLength, ItemLinesAt, ItemLinesAppend and ItemCount state its properties. |
| Report.ControlFragment | parse.py:247-263 | No contract of its own; ControlFragmentCounts, ControlFragmentClasses and ControlFragmentBalanced state its properties. |
| Report.LoadFragment | parse.py:330-332 | No contract of its own; LoadFragmentStandsAlone states its properties. |
| Report.Fragment | parse.py:229-332 | No contract of its own; the dispatch on the class-info id is Catalog.Classify, and FragmentCounts and LoadFragmentStandsAlone state its properties. |
| Report.Fragments | parse.py:220-332 | No contract of its own; FragmentsAppend, FragmentsSingle and FragmentsCount state its properties. |
| Report.Section | parse.py:188-334 | No contract of its own; SectionCounts states its properties. |
| Report.Sections | parse.py:173-334 | No contract of its own; SectionsAppend, SectionsSingle and SectionsCount state its properties. |
| Report.HubLines | parse.py:147-151 | No contract of its own; HubLinesAt and HubLinesNeutral state its properties. |
| Report.WifiLines | parse.py:156-159 | No contract of its own; WifiLinesAt and WifiLinesBalanced state its properties. |
| Report.Preamble | parse.py:85-163 | No contract of its own; PreambleLeavesAreasOpen states its properties. |
| Report.Document | parse.py:85-334 | No contract of its own; DocumentLeavesAreasOpen states its properties. |
| Report.Output | parse.py:85-334 | No contract of its own; it prints the lines of Document, one `print` per line, and Html.PrintAppend states how consecutive prints combine. |
| Report.ReportedAreas | parse.py:169 | The areas reported are exactly the rows not named "root", and there are no more of them than rows. |
| ReportProperties.ReportedAreasAppend | parse.py:169-173 | The root filter keeps row order: filtering consecutive row lists gives the filtered lists one after the other. |
| ReportProperties.ReportedAreasSingle | parse.py:169 | One row is reported exactly when its name is not "root". |
| ReportProperties.SectionsAppend | parse.py:173-334 | The sections of consecutive area lists follow each other. Each area is printed in row order. |
| ReportProperties.SectionsSingle | parse.py:173-334 | One area produces exactly its own section. |
| ReportProperties.FragmentsAppend | parse.py:220-332 | The fragments of consecutive device lists follow each other. Each device is printed in row order. |
| ReportProperties.FragmentsSingle | parse.py:220-332 | One device row produces exactly its own fragment. |
| ReportProperties.ItemLinesAppend | parse.py:252-262 | The list items of consecutive programmed-row lists follow each other. |
| ReportProperties.ItemLinesLength | parse.py:260-262 | Each programmed row takes three lines: `<li>`, its text and `</li>`. |
| ReportProperties.ItemLinesAt | parse.py:252-262 | The i-th programmed row is printed as the i-th list item, after the 3·i lines of the rows before it. |
| ReportProperties.ItemCount | parse.py:252-262 | The items of n programmed rows are exactly n `<li>` elements, with no list and no div of an area or device. Together they are balanced. |
| ReportProperties.ControlFragmentCounts | parse.py:247-263 | A control device's heading prints the number of `<li>` items that follow it, which is the number of programmed rows. The fragment holds exactly one list. |
| ReportProperties.ControlFragmentClasses | parse.py:247-250 | A control fragment holds exactly one device div and no area div. |
| ReportProperties.ControlFragmentBalanced | parse.py:247-263 | A control fragment closes every element it opens, whatever is open around it. |
| ReportProperties.LoadFragmentStandsAlone | parse.py:329-332 | A load controller's fragment is the same for any database. It is its div, its heading and `</div>`. It holds no list item, no list, one device div and no area div, and it is balanced. |
| ReportProperties.FragmentCounts | parse.py:229-332 | Every device row produces one device div and no area div, and a balanced fragment. For a control device, the `<li>` count equals its programmed rows. |
| ReportProperties.FragmentsCount | parse.py:220-332 | An area's fragments hold one device div per device row and no area div, and they are balanced. |
| ReportProperties.SectionCounts | parse.py:188-334 | An area heading prints the number of device divs in its section, which equals its device rows. The section is one area div and is balanced. |
| ReportProperties.SectionsCount | parse.py:173-334 | The sections hold one area div per reported area, and as many device divs as those areas have device rows. They are balanced. |
| ReportProperties.HubLinesAt | parse.py:147-151 | Each hub row prints two lines, in row order: `Hub Serial: ` followed by its `%08X` serial, with no `0x` prefix, then a line break. |
| ReportProperties.HubLinesNeutral | parse.py:147-151 | The hub lines open and close nothing. |
| ReportProperties.WifiLinesBalanced | parse.py:156-159 | The Wi-Fi lines and their notes boxes are balanced and open no div. |
| ReportProperties.WifiLinesAt | parse.py:156-159 | Each Wi-Fi row prints two lines, in row order: `Wifi Name: ` followed by its SSID, then the notes box. |
| ReportProperties.NotesBoxRun | parse.py:159 | The notes box closes its textarea and opens no div. |
| ReportProperties.BoilerplateRun | parse.py:85-139 | The boilerplate closes its script and style elements and opens no div. |
| ReportProperties.PrintButtonRun | parse.py:140 | The print button opens nothing. |
| ReportProperties.ExpandCollapseRun | parse.py:162 | The expand and collapse links close their anchors and open no div. |
| ReportProperties.HubInfoRun | parse.py:141 | The hub-info line leaves exactly its own div open. |
| ReportProperties.AreasOpenRun | parse.py:163 | With the hub-info div open, line 163 closes it and leaves only the areas div open. |
| ReportProperties.PreambleLeavesAreasOpen | parse.py:141-163 | Everything before the first area leaves exactly `<div id='areas'>` open and holds no area or device div. |
| ReportProperties.DocumentLeavesAreasOpen | parse.py:141-334 | The whole document leaves exactly one element open, the areas div opened at line 163, so it is not balanced. It holds one area div per reported area, and one device div per device row of those areas. |
| Html.PrintAppend | parse.py:85-334 | Consecutive `print` calls write their texts one after the other. |
| Resolve.CountMatches | parse.py:52 | The number of archive members named `./supportfile/lutron-db.sqlite` is that name's multiplicity among the members. |
| Resolve.FirstMatch | parse.py:53-55 | When some member has the database name, the index picked is one whose member has it, and no earlier member has it. |
| Resolve.SingleMatch | parse.py:53-55 | When exactly one member matches, the member extracted is that member. |
| Resolve.ResolveSource | parse.py:49-77 | With a support file, the archive is accepted exactly when one member has the database name. The database is that member, and it is the only match. Without a support file the database is a path. The default path is used only when it was given or it exists. |
| Resolve.SupportFileWins | parse.py:49-66 | With a support file, neither `-d` nor the default file affects the outcome. |
| Resolve.ResolveMembersAsMultiset | parse.py:52-53 | Acceptance depends on the member names only, not their order. |
| Resolve.NoOptions | parse.py:68-74 | With neither option, `/var/db/lutron-db.sqlite` is used exactly when it exists. Otherwise the error names that path. |
| Resolve.DatabasePathUsed | parse.py:67-77 | An explicit `-d` path is dumped as given. |
| Resolve.MainEffects | parse.py:49-77 | `main` always does something: at least one action. TempRemovedIff, DumpWhenResolved and ExitWhenRejected state the rest. |
| Resolve.TempRemovedIff | parse.py:53-64 | The temporary copy is removed exactly when an archive was accepted and the dump returned normally. |
| Resolve.DumpWhenResolved | parse.py:61-77 | When the source resolves, `dumpproject` runs on it and `parser.error` is never called. The run ends with an uncaught exception (traceback, status 1) exactly when the dump raises. |
| Resolve.ExitWhenRejected | parse.py:65-74 | When it does not, `main` ends with `parser.error`'s exit (status 2) and that error's message, and nothing is dumped. |

## Left out

- Option parsing and `_fileexists` (parse.py:37-46). A `-d` or `-s` path that is not a file is rejected by `parser.parse_args()` at parse.py:46, inside `main` but before the branch at line 49; the model takes the option values as already checked.
- The SQLite connection, the queries and `conn.close()`. Each query's result is an input sequence in `Catalog.Database`:
  - a missing map key stands for an empty result;
  - the programmed rows are taken to be the `SELECT DISTINCT` result already;
  - no join chain is modelled.
- Opening and extracting the tar archive, the temporary file and its copy, and `os.remove`. These are I/O. `Resolve.MainEffects` records them as actions, and the archive is its list of member names. Errors raised while opening or reading the archive are not modelled.
- NULL column values and non-string values under `%s`. Every field has one type in the model, for example a firmware revision is always a string. The code raises on a NULL revision (`None.lstrip`); the model does not model that failure.
- The text of the script and style boilerplate. Only its element structure (comments, `script`, `style`, `input`) is modelled.
- HTML escaping. Neither the code nor the model escapes names. Tag balance is stated over the tokens the program writes, not over a browser's re-parse of the characters: a name containing `<` is not covered.
- Streaming to standard output and partial output when a query fails. The document is a value.
- A NULL class-info id. The inner join at parse.py:183 drops such a device from the area's device rows, so it gets no fragment and is not counted in the area heading. The model's device rows stand for the join's result, and their ids are integers.
- Report.Output: character encoding is not modelled. Under Python 2, sqlite3 returns TEXT columns as `unicode`, so a line holding a non-ASCII area name, device name or SSID is `unicode`. Printing it to a redirected standard output (the usage at parse.py:22) raises `UnicodeEncodeError` and ends the run partway. `Output` gives the document as if every line could be written.
