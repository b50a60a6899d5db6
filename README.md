# gestao_obras — a Dafny model of the project ingestion and list logic

`gestao_obras` tracks solar-installation projects for several cities. A
server job reads published Google spreadsheets, turns their rows into
project records and replaces the project table with them. A React client
then shows the projects as a searchable, tabbed list, exports tables as
semicolon-separated text, offers a multi-select city filter, and has an
administration report.

This project models the logic of those pieces in Dafny and proves what it
promises:

- **Status cascade and row mapper** (`sync_sheets.dfy`, module `SyncSheets`).
  `determineStatus` is a first-match cascade of four rules over six trimmed
  (and partly upper-cased) cells. The row mapper drops rows and derives the
  stored fields.
- **Snapshot rebuild** (`SyncSheets.Sync`, in the same file). `syncSheets`
  wipes the store, gathers the valid records of every sheet in sheet order,
  and bulk-inserts them. The store is a class holding its rows.
  - Fetching is a parameter: one `Fetch` per sheet, and a failed fetch
    contributes no rows.
  - The sheet list is a parameter too; the application passes
    `SHEETS_CONFIG`.
- **Column configuration and record schema** (`column_config.dfy`,
  `project_model.dfy`). These are a constant table of logical columns and
  the persisted `Project` record. The schema refuses a missing client and
  any status outside its enum.
- **Project list** (`projects_view.dfy`, with `sorting.dfy` and `lists.dfy`).
  It covers:
  - the search filter;
  - the stable sort by lower-cased client, then id;
  - the per-tab sub-lists and their longest-wait-first order;
  - the row colour;
  - the deadline offset;
  - the agreement between tab badges and tab contents.
- **Table export and body** (`project_table.dfy`): cell sanitising, `;` and
  newline joining, the byte-order mark, the file name, and what the screen
  shows.
- **Multi-select** (`multi_select.dfy`): toggle, select-all and clear, the
  header label, and the ticked boxes.
- **Administration report helpers** (`admin_report.dfy`):
  - duration formatting;
  - browser detection from a user agent, and browser icons;
  - user-agent truncation;
  - the empty-date cells;
  - the online-dot cap;
  - row numbering.
- **JavaScript string operations** (`text.dfy`): `includes`, `trim`,
  `toUpperCase`/`toLowerCase`, `join`/`split`, `String(n)`, `parseInt`, and
  an order standing in for `localeCompare`.
- **Shared containers** (`wrappers.dfy`): `Option` and `Result`.

Facts about the code that shape the model:

- **The table is wiped before fetching** (`server/sync-sheets.js:49`), so a
  sync in which every fetch fails leaves the table empty (`SyncSheets.Sync`,
  third ensures).
- **There are four status rules**: PRIORITY, DELIVERED, IN_EXECUTION,
  TO_DELIVER (`server/sync-sheets.js:105-154`). No rule yields `GENERATE_OS`
  or a completed status, and a finished row is dropped.
- **Rows are read by header name** (`server/sync-sheets.js:59-98`). The sync
  code does not consult `COLUMN_CONFIG`; the model proves only that every
  header it reads is one of that table's keys.
- **Wipe and insert are two separate store calls**
  (`server/sync-sheets.js:49` and `:85`), with no transaction around them.
- **The schema refuses only a missing client.** An empty client could reach
  it only through the mapper, and the mapper drops such rows
  (`server/sync-sheets.js:62`).
- **`SyncSheets.Sync` returns the number of inserted projects**, the figure
  that the `Synced N projects.` log line reports (`server/sync-sheets.js:86`);
  the logging itself is not modelled.

## Model

| member | source | states |
|---|---|---|
| SyncSheets.ReadKeysConfigured | server/sync-sheets.js:59-98 | every header the row mapper and the status cascade read is a logical key of the column table |
| SyncSheets.Classify | server/sync-sheets.js:105-157 | a status that comes out is one whose rule holds, for a row not FINALIZADO, and is never GENERATE_OS |
| SyncSheets.DetermineStatus | server/sync-sheets.js:92-158 | a non-null status means the trimmed, upper-cased installation status is not FINALIZADO, and is never GENERATE_OS |
| SyncSheets.FirstMatchSpec | server/sync-sheets.js:105-157 | a first-match search over a rule list yields rule i exactly when rule i holds and no earlier rule does, and yields nothing exactly when no rule holds |
| SyncSheets.ClassifyIsFirstMatch | server/sync-sheets.js:105-157 | the status cascade is the first-match search over PRIORITY, DELIVERED, IN_EXECUTION, TO_DELIVER, in that order |
| SyncSheets.ClassifyCharacterized | server/sync-sheets.js:105-157 | a status comes out if and only if its rule holds and every rule tried before it fails; null comes out if and only if all four fail |
| SyncSheets.FinalizedIsDropped | server/sync-sheets.js:93-157 | a trimmed, upper-cased installation status of FINALIZADO gives null, and every non-null result has a status other than FINALIZADO |
| SyncSheets.FinalizedAnyCase | server/sync-sheets.js:93 | a raw status ` finalizado ` (lower case, padded) is still dropped, because of trimming and upper-casing |
| SyncSheets.StatusInSchema | server/sync-sheets.js:111-157 | the cascade never yields GENERATE_OS, and every status it yields is in the Project status enum |
| SyncSheets.PriorityOutranksExecution | server/sync-sheets.js:105-139 | a row meeting both the PRIORITY and the IN_EXECUTION rule is PRIORITY |
| SyncSheets.PriorityOverlapExample | server/sync-sheets.js:105-139 | a concrete row with priority, order issued, no material, status EM ANDAMENTO and a team is classified PRIORITY |
| SyncSheets.PriorityRowNormalizes | server/sync-sheets.js:93-98 | the six normalised fields of that concrete row |
| SyncSheets.DeliveredNeedsExactSim | server/sync-sheets.js:95-127 | DELIVERED needs the trimmed material flag to be exactly SIM; a flag `sim` never gives DELIVERED |
| SyncSheets.UnderWayFallsToExecution | server/sync-sheets.js:119-139 | with material SIM and status EM EXECUÇÃO or EM ANDAMENTO the DELIVERED rule fails; the row is IN_EXECUTION with a team and null without one |
| SyncSheets.UnderWayLowerCaseExample | server/sync-sheets.js:93-139 | a concrete row with status `em execução`, material SIM and a team is IN_EXECUTION, not DELIVERED |
| SyncSheets.UnderWayRowNormalizes | server/sync-sheets.js:93-98 | the normalised fields of that row: the status upper-cased to EM EXECUÇÃO |
| SyncSheets.ToDeliverExactly | server/sync-sheets.js:105-154 | TO_DELIVER comes out if and only if: no team, the PRIORITY and DELIVERED rules fail, order issued is SIM, no material, not finalized, and a payment date |
| SyncSheets.MapRow | server/sync-sheets.js:57-79 | a kept row gives a record of the sheet's city with a real client (neither empty nor Desconhecido) and the status the cascade gives the row |
| SyncSheets.MapRowDrops | server/sync-sheets.js:58-68 | a row is dropped if and only if its client is missing or empty, or is the literal Desconhecido, or its status is null |
| SyncSheets.MapRowFields | server/sync-sheets.js:70-78 | a kept record holds the row's client and status, the sheet's city, team and details defaulting to '', an external id that is null exactly when the id cell is empty, and the parsed days |
| SyncSheets.DaysFromContinuous | server/sync-sheets.js:64-65 | a number in the continuous elaboration column is the days value |
| SyncSheets.DaysFallBack | server/sync-sheets.js:64-65 | an empty continuous column falls back to the plain elaboration column |
| SyncSheets.DaysNoFallBackOnGarbage | server/sync-sheets.js:64-65 | a non-empty, non-numeric continuous column gives 0 without looking at the plain column |
| SyncSheets.DaysBothEmpty | server/sync-sheets.js:64-65 | both columns empty gives 0 |
| SyncSheets.Kept | server/sync-sheets.js:79 | removing the nulls keeps at most as many records as rows |
| SyncSheets.ValidRecords | server/sync-sheets.js:57-79 | a sheet yields at most one record per row |
| SyncSheets.KeptSpec | server/sync-sheets.js:79 | a record is kept if and only if it is one of the mapped results |
| SyncSheets.KeptAppend | server/sync-sheets.js:79 | removing nulls distributes over concatenation |
| SyncSheets.ValidRecordsMembership | server/sync-sheets.js:57-79 | a record is in a sheet's valid records if and only if some row maps to it |
| SyncSheets.ValidRecordsSound | server/sync-sheets.js:62-74 | every valid record has the sheet's city, a real client and a status other than GENERATE_OS |
| SyncSheets.ValidRecordsAppend | server/sync-sheets.js:57-79 | mapping a concatenation of row lists is the concatenation of the mappings |
| SyncSheets.RecordIsAccepted | server/sync-sheets.js:70-78 | the schema accepts every mapped record and stores exactly its fields |
| SyncSheets.AccumulateStep | server/sync-sheets.js:53-82 | one more sheet appends its valid records at the end |
| SyncSheets.AccumulateOne | server/sync-sheets.js:53-81 | one sheet contributes its valid records; a failed fetch contributes its rows, which are none |
| SyncSheets.AccumulateAllFailed | server/sync-sheets.js:36-82 | when every fetch fails nothing is gathered |
| SyncSheets.Stored | server/sync-sheets.js:85 | the stored rows of a record list, one per record |
| SyncSheets.CreateAllRecords | server/sync-sheets.js:84-85 | a batch of mapped records is accepted whole and stored in order |
| SyncSheets.StoredAreValid | server/sync-sheets.js:70-78 | every stored row has a real client and a status in the enum |
| SyncSheets.ProjectStore.constructor | server/models/Project.js:4-44 | a new store is empty |
| SyncSheets.ProjectStore.Destroy | server/sync-sheets.js:49 | truncating leaves no rows |
| SyncSheets.ProjectStore.BulkCreate | server/sync-sheets.js:85 | an accepted batch is appended whole, and the result counts it; a refused batch changes nothing and reports why |
| SyncSheets.Gather | server/sync-sheets.js:51-82 | the loop gathers exactly the concatenation of every sheet's valid records, in sheet and row order |
| SyncSheets.SyncOutcome | server/sync-sheets.js:84-89 | the gathered batch is always accepted whole; an empty gathering stores nothing; all fetches failing gathers nothing |
| SyncSheets.Sync | server/sync-sheets.js:42-90 | after a sync the store holds exactly the stored form of the gathered records, the count is their number, and when every fetch fails the store is empty |
| ColumnConfig.KeysAreTheTable | server/column-config.js:2-32 | the declared key list is exactly the set of keys of the table |
| ColumnConfig.FirstNameIsKey | server/column-config.js:3-31 | every entry accepts at least one name, and its first name is its own key |
| ColumnConfig.FallbackIndexWellFormed | server/column-config.js:3-31 | every fallback index is -1 or a column number |
| ColumnConfig.ProjectTabHasNoFallback | server/column-config.js:9-31 | ID PROJETO and all project-tab fields have fallback -1 |
| ColumnConfig.FieldAtInverts | server/column-config.js:3-21 | each non-negative fallback column names back its own field |
| ColumnConfig.FallbackIndicesDistinct | server/column-config.js:3-21 | no two fields share a non-negative fallback column |
| ProjectModel.StatusName | server/models/Project.js:10 | every status is stored as one of the five enum names |
| ProjectModel.ParseStatus | server/models/Project.js:10 | a stored name denotes a status exactly when it is in the enum |
| ProjectModel.StatusNameRoundTrip | server/models/Project.js:10 | stored names and statuses correspond one to one |
| ProjectModel.CreateAccepts | server/models/Project.js:5-12 | a record is created if and only if a client is given and a status from the enum is given |
| ProjectModel.CreateFields | server/models/Project.js:13-43 | a created record has the given client and status; days default to 0, team to '', city to SORRISO; the other left-out columns are null |
| ProjectsView.GetFilteredDataSpec | src/components/Projects.jsx:91-101 | no list gives []; an empty term gives the list unchanged; otherwise the result is an order-preserving subsequence holding exactly the items whose lower-cased client or city contains the lower-cased term, each matching item as often as in the list and no other item |
| ProjectsView.GetFilteredDataIdempotent | src/components/Projects.jsx:91-101 | searching a search result again changes nothing |
| ProjectsView.MatchesIgnoresTermCase | src/components/Projects.jsx:96-97 | a term and its lower-cased form match the same items |
| ProjectsView.GetFilteredData | src/components/Projects.jsx:91-101 | the search never returns more items than the list holds |
| ProjectsView.CompareIsKeyOrder | src/components/Projects.jsx:38-44 | each comparator is negative exactly when the first item's key sorts first, and zero exactly when the keys are equal |
| ProjectsView.SortBy | src/components/Projects.jsx:38 | sorting keeps the length |
| ProjectsView.SortSpec | src/components/Projects.jsx:38-44 | the sort is a permutation, in comparator order, and items with equal keys keep their input order |
| ProjectsView.LoadSpec | src/components/Projects.jsx:45-49 | every section keeps its items (a missing one is empty) and comes out sorted by lower-cased client, then id |
| ProjectsView.StableSort | src/components/Projects.jsx:38-44 | a section is sorted into a permutation of itself, ordered by lower-cased client and then id |
| ProjectsView.WaitingListSpec | src/components/Projects.jsx:109-134 | a sub-list holds exactly the in-progress items passing its test, with their multiplicities, sorted longest wait first |
| ProjectsView.EmElaboracaoSpec | src/components/Projects.jsx:109-123 | the elaboration list is exactly the not-started in-progress items of trimmed category `projeto`, in descending days order; each is also a late item |
| ProjectsView.PendentesSpec | src/components/Projects.jsx:125-128 | pendentes are exactly the in-progress items whose status contains `falta art`, longest wait first |
| ProjectsView.EnviarEnergisaSpec | src/components/Projects.jsx:130-134 | exactly the in-progress items whose status contains `mandar` and whose details contain `sm`, longest wait first |
| ProjectsView.AnaliseCircuitoSpec | src/components/Projects.jsx:139-145 | exactly the items of all three sections whose opinion contains one of the four phrases; it equals the filter of new, then in-progress, then finished |
| ProjectsView.RowClass | src/components/Projects.jsx:223-229 | a row gets one of the classes row-red, row-yellow, row-blue or none |
| ProjectsView.RowClassSpec | src/components/Projects.jsx:223-229 | red exactly for late items; yellow exactly for the rest lacking the ART or pending; blue exactly for the rest under way; '' otherwise |
| ProjectsView.ElaboracaoIsRed | src/components/Projects.jsx:223-229 | every project in elaboration is shown red |
| ProjectsView.DaysToAdd | src/components/Projects.jsx:196-205 | an offset, when there is one, is 30, 60 or 120 days |
| ProjectsView.Deadline | src/components/Projects.jsx:171-211 | the start date is moved on by 30, 60 or 120 days, or the cell shows `-` or the stored deadline |
| ProjectsView.DeadlineSpec | src/components/Projects.jsx:171-211 | no start date gives '-'; the start date is moved on exactly when it parses and the opinion calls for an offset, and then by exactly the offset the opinion calls for (30, 60 or 120); otherwise the cell is the deadline or '-' |
| ProjectsView.DaysToAddSpec | src/components/Projects.jsx:196-205 | an offset exists exactly for the opinions the circuit-analysis list keeps; a circuit-analysis phrase gives 30; otherwise `obra 60d` gives 60; otherwise `obra 120d` gives 120 |
| ProjectsView.DayMonthYearParses | src/components/Projects.jsx:179-191 | a date written as three slash-free parts, joined by slashes, always parses |
| ProjectsView.TabContent | src/components/Projects.jsx:243-297 | a shown tab colours its rows exactly when it uses the in-progress columns, and shows no more rows than the three sections hold |
| ProjectsView.TabCount | src/components/Projects.jsx:299-315 | a badge never counts more than the three sections hold |
| ProjectsView.TabCountMatchesContent | src/components/Projects.jsx:243-315 | a shown tab's badge counts exactly its table's rows; a tab is shown unless it is unknown, and then it counts 0; `andamento` shows `elaboracao` |
| Sorting.KeyLessIrreflexive | src/components/Projects.jsx:41-43 | no key sorts before itself |
| Sorting.KeyLessTransitive | src/components/Projects.jsx:41-43 | the key order is transitive |
| Sorting.KeyLessTotal | src/components/Projects.jsx:41-43 | any two different keys are ordered one way or the other |
| Sorting.KeyLessAsymmetric | src/components/Projects.jsx:41-43 | the key order is asymmetric |
| Sorting.SortSorted | src/components/Projects.jsx:38 | the sort's output is ordered by key |
| Sorting.SortPermutes | src/components/Projects.jsx:38 | the sort's output is a permutation of its input |
| Sorting.SortStable | src/components/Projects.jsx:38 | the items of each key come out in input order |
| Sorting.InsertSorted | src/components/Projects.jsx:38 | inserting into an ordered list keeps it ordered |
| Sorting.InsertKeepsKeyOrder | src/components/Projects.jsx:38 | inserting places the item after every item with its key |
| Lists.Filter | src/components/Projects.jsx:95-98 | a filter keeps at most as many items as it is given |
| Lists.FilterMembership | src/components/Projects.jsx:95-98 | a filter keeps exactly the items that pass |
| Lists.FilterIsSubsequence | src/components/Projects.jsx:95-98 | a filter keeps the order of what it keeps |
| Lists.FilterAppend | src/components/Projects.jsx:139 | filtering a concatenation is concatenating the filters |
| Lists.FilterIdempotent | src/components/Projects.jsx:95-98 | filtering twice by one test is filtering once |
| Lists.FilterMultiset | src/components/Projects.jsx:95-98 | a filter keeps every passing item exactly as often as it occurs and no copy of any other item |
| Lists.FilterNoDuplicates | src/components/MultiSelect.jsx:25 | filtering a list without repeats leaves none |
| ProjectTable.Sanitize | src/components/ProjectTable.jsx:15-17 | a sanitised text has the original length and holds no `;` and no newline |
| ProjectTable.SanitizeSpec | src/components/ProjectTable.jsx:15-17 | `;` becomes `,`, newline becomes a space, everything else is kept; clean text is unchanged; sanitising is idempotent |
| ProjectTable.CellTextClean | src/components/ProjectTable.jsx:13-18 | no cell puts a `;` or newline into its line |
| ProjectTable.DataLines | src/components/ProjectTable.jsx:11-20 | there is one data line per item |
| ProjectTable.Export | src/components/ProjectTable.jsx:7 | export produces nothing exactly when there is no data or it is empty |
| ProjectTable.ExportShape | src/components/ProjectTable.jsx:10-22 | read back, the export is the mark, the unsanitised header line, a newline and the data lines; it splits on newlines into the header and one line per item, each splitting on `;` into one field per column |
| ProjectTable.CsvLines | src/components/ProjectTable.jsx:10-22 | the export is the BOM followed by the header line and the data lines joined by newlines |
| ProjectTable.LineShape | src/components/ProjectTable.jsx:11-19 | a data line splits on `;` back into its cells and holds no newline |
| ProjectTable.NoNewlineInLines | src/components/ProjectTable.jsx:10-20 | no line of the export holds a newline, given headers without one |
| ProjectTable.FalsyAttributeExportsEmpty | src/components/ProjectTable.jsx:13 | a falsy attribute (0 included) exports as an empty cell, while a rendered 0 exports as `0` |
| ProjectTable.UnderscoredSpec | src/components/ProjectTable.jsx:30 | the file-name stem holds no white space, and a title without white space is kept |
| ProjectTable.UnderscoredIdempotent | src/components/ProjectTable.jsx:30 | replacing white-space runs twice is replacing them once |
| ProjectTable.RunBecomesOne | src/components/ProjectTable.jsx:30 | a whole white-space run, however long, becomes one `_` |
| ProjectTable.UnderscoredPrefix | src/components/ProjectTable.jsx:30 | text without white space passes through in front of the rest |
| ProjectTable.FileName | src/components/ProjectTable.jsx:30 | the download name ends in `_export.csv` and holds no white space |
| ProjectTable.Body | src/components/ProjectTable.jsx:63-87 | the body has one row per item, or a single row without data |
| ProjectTable.BodySpec | src/components/ProjectTable.jsx:63-87 | the body has one row per item, numbered from 1, carrying the row-class function's class for that item ('' without a function) and one cell per column showing that column's render or attribute value, never null or undefined; with no data it is one message row spanning the columns plus one |
| ProjectTable.ScreenAndExportDiffer | src/components/ProjectTable.jsx:71-74 | an attribute 0 is shown as 0 but exported empty; null and undefined show as nothing |
| MultiSelect.ToggleAbsent | src/components/MultiSelect.jsx:26-27 | an unselected option is appended at the end and is then ticked |
| MultiSelect.TogglePresent | src/components/MultiSelect.jsx:24-25 | a selected option is removed with every occurrence; the others keep their order and multiplicities |
| MultiSelect.RemoveMultiset | src/components/MultiSelect.jsx:25 | removing an option zeroes its count and keeps every other count |
| MultiSelect.ToggleMembership | src/components/MultiSelect.jsx:22-30 | toggling flips whether the option is selected and changes no other label's membership |
| MultiSelect.ToggleTwice | src/components/MultiSelect.jsx:24-28 | toggling an unselected option twice gives back the selection |
| MultiSelect.ToggleNoDuplicates | src/components/MultiSelect.jsx:22-30 | a selection without repeats has none after a toggle |
| MultiSelect.SelectAllAlternates | src/components/MultiSelect.jsx:32-57 | from a selection of another length select-all selects every option, ticks Todas and shows `Todas as Cidades` when there are options; the next select-all clears |
| MultiSelect.LengthOnlyComparison | src/components/MultiSelect.jsx:33-57 | a selection as long as the options but missing one counts as all of them, and select-all clears it |
| MultiSelect.HeaderLabelSpec | src/components/MultiSelect.jsx:44-57 | an empty selection shows the placeholder, a full-length one `Todas as Cidades`, any other its count printed in decimal followed by ` selecionada(s)`, which reads back as the count; a ticked Todas goes with `Todas as Cidades` |
| MultiSelect.Toggle | src/components/MultiSelect.jsx:22-30 | toggling flips whether the option's box is ticked |
| MultiSelect.SelectAll | src/components/MultiSelect.jsx:32-38 | select-all clears exactly when the selection is as long as the options or there are none, and otherwise selects every option |
| MultiSelect.HeaderLabel | src/components/MultiSelect.jsx:44-48 | a non-empty selection of another length than the options is labelled with a text ending in ` selecionada(s)` |
| MultiSelect.AllChecked | src/components/MultiSelect.jsx:57 | the Todas box is ticked only for a non-empty selection |
| MultiSelect.OptionChecked | src/components/MultiSelect.jsx:66 | an option's box is ticked only for a non-empty selection |
| AdminReport.FormatDurationSeconds | src/components/AdminReport.jsx:15 | under a minute the result is the seconds followed by `s` |
| AdminReport.FormatDurationMinutes | src/components/AdminReport.jsx:16 | under an hour the result is `<m>m <r>s` with m·60 + r equal to the seconds and r below 60 |
| AdminReport.FormatDurationHours | src/components/AdminReport.jsx:17-19 | from an hour on the result is `<h>h <m>m` with m below 60, and the seconds lie in the minute that h and m name |
| AdminReport.HoursIgnoreSeconds | src/components/AdminReport.jsx:17-19 | from an hour on, durations within the same minute print alike |
| AdminReport.FormatDuration | src/components/AdminReport.jsx:14-20 | a duration ends in `s` below an hour and in `m` from an hour on |
| AdminReport.ParseUA | src/components/AdminReport.jsx:42-48 | a user agent is named Edge, Chrome, Firefox, Safari or Outro; only null throws |
| AdminReport.BrowserIcon | src/components/AdminReport.jsx:33-40 | a browser gets one of the six icons; only null throws |
| AdminReport.ParseUASpec | src/components/AdminReport.jsx:42-48 | Edg/ or Edge/ gives Edge even with Chrome present; otherwise Chrome (winning over Safari); otherwise Firefox; otherwise Safari; Outro exactly when none of the five names occurs; undefined reads as ''; null throws |
| AdminReport.BrowserIconSpec | src/components/AdminReport.jsx:33-40 | Edge is checked first, then Chrome, Firefox, Safari and Opera, each only when the earlier names are absent; the default icon comes exactly when no name matches; undefined gets the default; null throws |
| AdminReport.ParsedNameKeepsIcon | src/components/AdminReport.jsx:33-48 | a browser name produced by parseUA begins with the icon that browserIcon gives it |
| AdminReport.BrowserCellSpec | src/components/AdminReport.jsx:286 | a missing browser shows the default icon and `-`; a given one shows its icon and name; null throws |
| AdminReport.UaCellSpec | src/components/AdminReport.jsx:287 | a missing user agent shows `-`; a short one is shown whole; a long one is cut to 60 characters followed by `…` |
| AdminReport.UaCell | src/components/AdminReport.jsx:287 | the user-agent cell is never longer than 61 characters |
| AdminReport.DateCellsSpec | src/components/AdminReport.jsx:22-31 | an empty or missing date shows `-` in both cells, and a given date shows its formatted form |
| AdminReport.FormatDateTime | src/components/AdminReport.jsx:27-31 | the date-and-time cell is `-` exactly when the date is missing or empty |
| AdminReport.DotCountSpec | src/components/AdminReport.jsx:117 | the dot count is the active users capped at 20, and none for a non-positive count |
| AdminReport.DotCount | src/components/AdminReport.jsx:117 | at most 20 dots are drawn |
| AdminReport.SessionNumbers | src/components/AdminReport.jsx:170 | the session table numbers one row per session |
| AdminReport.HistoryNumbers | src/components/AdminReport.jsx:273 | the history table numbers one row per entry |
| AdminReport.HistoryNumbersSpec | src/components/AdminReport.jsx:273 | history rows count down from the number of rows to 1: the session numbering reversed, strictly decreasing, and a permutation of it |
| Text.ContainsTrans | src/components/Projects.jsx:114-122 | a block of a block of a string is a block of it |
| Text.ContainsLength | src/components/AdminReport.jsx:43-47 | nothing longer than a string occurs in it |
| Text.ContainsConcat | src/components/AdminReport.jsx:43-47 | a string occurs in anything that starts or ends with it |
| Text.Upper | server/sync-sheets.js:93-96 | upper-casing keeps the length |
| Text.Lower | src/components/Projects.jsx:96-97 | lower-casing keeps the length |
| Text.UpperFixed | server/sync-sheets.js:93-96 | a text without lower-case letters is its own upper case |
| Text.LowerFixed | src/components/Projects.jsx:110-115 | a text without upper-case letters is its own lower case |
| Text.UpperIdempotent | server/sync-sheets.js:93-96 | upper-casing twice is upper-casing once |
| Text.LowerIdempotent | src/components/Projects.jsx:96-97 | lower-casing twice is lower-casing once |
| Text.LowerContains | src/components/Projects.jsx:96-97 | lower-casing keeps containment |
| Text.TrimStartSpec | server/sync-sheets.js:93-98 | leading trimming drops a white-space run and stops at the first other character |
| Text.TrimEndSpec | server/sync-sheets.js:93-98 | trailing trimming drops a white-space run and stops at the last other character |
| Text.TrimSpec | server/sync-sheets.js:93-98 | the trim is the block of the text between its leading and trailing white space, and starts and ends with no white space |
| Text.TrimFixed | server/sync-sheets.js:93-98 | a text that neither starts nor ends with white space is its own trim |
| Text.TrimIdempotent | server/sync-sheets.js:93-98 | trimming twice is trimming once |
| Text.TrimNoWhitespace | src/components/Projects.jsx:115 | a text without white space is its own trim |
| Text.Split | src/components/ProjectTable.jsx:19-20 | splitting yields at least one piece |
| Text.SplitJoin | src/components/ProjectTable.jsx:19-20 | splitting undoes joining when no piece holds the separator |
| Text.JoinAvoids | src/components/ProjectTable.jsx:19-20 | a character in neither the pieces nor the separator is not in the joined text |
| Text.NatToString | src/components/AdminReport.jsx:15-19 | a natural number prints as at least one decimal digit |
| Text.ParseIntIntToString | server/sync-sheets.js:64 | parseInt reads back what String printed |
| Text.ParseIntNaN | server/sync-sheets.js:64-65 | parseInt is NaN when the first character after leading white space and an optional sign is not a decimal digit |
| Text.LocaleCompare | src/components/Projects.jsx:41 | the comparison is negative exactly when the first text sorts first, and zero exactly when the texts are equal |
| Text.StrLessIrreflexive | src/components/Projects.jsx:41 | no text sorts before itself |
| Text.StrLessAsymmetric | src/components/Projects.jsx:41 | the text order is asymmetric |
| Text.StrLessTransitive | src/components/Projects.jsx:41 | the text order is transitive |
| Text.StrLessTotal | src/components/Projects.jsx:41 | any two different texts are ordered |

## Left out

- Network access and CSV parsing (`axios.get`, `Papa.parse`) are foreign calls. Parsed rows are a parameter, and a failed fetch contributes no rows. Whether a parse rejection escapes the `try` depends on the library and is not modelled.
- The storage layer (Sequelize `destroy`, `bulkCreate`, `sync`, SQLite type enforcement) is a class holding the stored rows. Creation models only the schema's null and enum checks.
- The Express server, its routes and startup (`server/index.js`), `server/db.js`, `server/models/AccessLog.js` and `src/services/data.js` are not part of this model, because they are plumbing and I/O. The debug and test scripts under `server/` are not part of it either.
- React state, effects, timers and DOM events, and the Blob and anchor download, are user interface and I/O. The multi-select open/close toggle and outside-click handling are user interface too.
- JavaScript `Date` parsing, arithmetic and locale formatting depend on the host. The deadline parse is a predicate parameter, and `formatTime`/`formatDateTime` take the formatted text as function parameters. Only the `daysToAdd` choice and the `-` branches are modelled.
- `getSessionId`, `usePing`, the statistics fetch, the percentage bars and the chart coordinates of the report involve floats, storage, randomness or the network.
- The late-projects list (`projectsAtrasados`) is modelled for the row colour only, because no tab shows it.
- The KPI cards, the filter-option fetch and the purely presentational components are user interface only.
- Text.LocaleCompare: `localeCompare` collation is replaced by code-point lexicographic order. That order is a total order, zero only on equal texts, which is all the sort relies on. Real locale collation orders accents and cases differently.
- Text.Upper and Text.Lower map ASCII and Latin-1 letters one by one. Other scripts, and special cases such as `ß`, are left unchanged, whereas JavaScript maps them.
- Text.Upper, Text.Lower, AdminReport.UaCellSpec: lengths and the 60-character cut count Unicode code points, not UTF-16 code units. For a user agent with characters outside the basic plane, the cut point differs from the browser's.
- Text.ParseIntIntToString: numbers are unbounded integers, so `parseInt`'s loss of precision above 2^53 is not modelled.
- AdminReport.FormatDurationSeconds: durations are integers; a fractional number of seconds is not modelled.
- ProjectTable.Sanitize: cell values are texts, integers, null and undefined. Booleans, fractional numbers, objects and the React elements a render function may return are not modelled.
- SyncSheets.Sync: it takes the list of sheets as a parameter, and the application passes `SyncSheets.SHEETS_CONFIG`. It does not model the two calls running concurrently with a reader, or the console output.
- ColumnConfig: the table is checked for well-formedness only, because none of the modelled code reads it by position.
