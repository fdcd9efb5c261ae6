# A verified model of the opendart financial-data pipeline

opendart collects the financial statements and disclosures that Korean listed
companies file with DART, the electronic disclosure system of the Financial
Supervisory Service. It is four steps. Each step is modelled here in its own
Dafny module, with the web service, the spreadsheets and the database replaced
by values.

- **Fetch** (`fetch_corp_financials.py`): the batch goes through the company
  list. For every company with a stock code, it visits a window of
  (year, report) periods in chronological order and requests the major
  accounts of each period. It tags the rows with the company, saves one
  spreadsheet per period, skips periods already saved, and ends the whole
  batch at the first quota error.
- **Merge** (`merge_financials.py`): each per-period extract is folded into
  one wide table per company, keyed by the six account columns. The steps are:
  - skip a period the table already records;
  - outer-join on the key;
  - for annual reports, turn the income-statement figure into a fourth
    quarter (annual − Q1 − H1 − Q3);
  - lay out the key columns followed by the period triples
    (`dt`, `amount`, `currency`) in chronological order.
- **Load** (`load_financials_to_pg.py`): the company tables go into four
  PostgreSQL tables (companies, accounts, reports, values). The steps are:
  - group the columns into period triples with a regular expression;
  - parse the period prefix and map its Korean report label to a quarter code;
  - normalise the period date;
  - upsert every present amount.
- **Disclosures** (`dart_by_corp.py`): this step has five parts.
  - Find a company by name: an exact match first, then a substring match.
  - Page through the disclosure list once per disclosure type, with the
    stop rules of the pagination loop.
  - Tag each disclosure with its type.
  - Put six priority columns first.
  - Derive the names of the saved files and sheets.

The files are laid out as follows:

- `text.dfy`: string and sequence helpers (modules `Text`, `Seqs`).
  - `Text` holds ASCII-plus-Hangul `isalnum`, `split`, `strip`, `zfill` and decimal printing and parsing.
  - `Text` also defines `Option` and `Result`, which the other modules import.
  - `Seqs` holds filters, their multisets and duplicate-free sequences.
- `sheet.dfy` (module `Sheet`): spreadsheet cells.
  - A cell is empty (NaN), text, or a whole number. A row is a map from column names to cells.
- `periods.dfy` (module `Periods`): `to_float` and `sort_period_columns`.
- `merge.dfy` (module `Merge`): `append_to_company_files`, as functions and as a class `CompanyStore` with methods.
- `merge_properties.dfy` (module `MergeProperties`): the lemmas about the merge.
- `loader.dfy` (module `Loader`): the pure parts of the loader.
  - the connection settings;
  - `parse_period`;
  - the column pattern;
  - the triple grouping;
  - the date normalisation;
  - the amount conversion.
- `loader_run.dfy` (module `LoaderRun`): the main loop as a class `Warehouse` over the four tables, proved against a log of statements.
- `fetch.dfy` (module `Fetch`): `run_batch_fetch`.
  - It is a left fold over companies and periods.
  - The class `Archive` holds the saved files, and its nested loops are proved against that fold.
- `disclosures.dfy` (module `Disclosures`): the disclosure collector.
  - the lookup;
  - the pagination loop as a method proved against a function;
  - the type tagging;
  - the column reordering;
  - the names.

Errors end the run:

- **An extract that raises ends the whole run.** In both the merge and the load, a file that raises (a missing column, an unparseable period year, an amount that does not convert) stops the run, and the model reports `completed == false`. Only three checks skip a file instead: the loader's zip check and its `read_excel` failure, and the merge's file-name check.

## Model

| member | source | states |
|---|---|---|
| Periods.ToAmountIgnoresCommas | merge_financials.py:6-14 | inserting commas anywhere in a text cell never changes the coerced amount |
| Periods.ToAmountOfDecimal | merge_financials.py:10-12 | an amount printed in decimal, with or without sign, coerces back to itself |
| Periods.SortPeriodColumns | merge_financials.py:17-39 | the loop (collect keys, sort, emit triples) returns exactly `PeriodColumns(cols)`, `None` where the source raises |
| Periods.SortKeysSpec | merge_financials.py:31 | the key sort is ascending in `(year, rank, prefix)` order and a permutation of its input |
| Periods.KeyOfDtColumn | merge_financials.py:26-30 | a `{year}_{label}_thstrm_dt` column sorts by its year, its label's rank and its prefix |
| Periods.PeriodColumnsFails | merge_financials.py:27-30 | the sort raises exactly when some dt column's prefix has no `_` or a year that is not an integer |
| Periods.PeriodColumnsMembers | merge_financials.py:24-38 | an output column is the dt, amount or currency column of a prefix of some input dt column, and every such column is output; key columns and `currency` are never output |
| Periods.PeriodColumnsOrdered | merge_financials.py:31-38 | the output is a run of triples in dt, amount, currency order, sorted by (year, rank, prefix) |
| Periods.UnknownLabelSortsLast | merge_financials.py:29 | a period with an unknown label (rank 99) comes after every known-label period of the same year |
| Periods.PeriodColumnsDistinct | merge_financials.py:24-38 | distinct input columns give distinct output columns, so no period is listed twice |
| Periods.DtKeysFails | merge_financials.py:26-30 | the key loop fails exactly when some dt column does not parse |
| Periods.DtKeysComplete | merge_financials.py:24-30 | every dt column of the input contributes its key |
| Periods.DtKeysFromColumns | merge_financials.py:24-30 | every collected key comes from a dt column of the input |
| Periods.KeyColumnsNotPeriod | merge_financials.py:21-55 | no key column and no legacy `currency` column is a period column |
| Merge.CollectExistingDates | merge_financials.py:97-100 | the `update` loop over the dt columns yields exactly the set of dates already recorded |
| Merge.CorrectAnnualColumn | merge_financials.py:113-157 | the row-by-row correction loop yields the Q4-corrected table |
| Merge.MergeCompanyTable | merge_financials.py:83-165 | the statements of one company group compute `MergeCompany`: an error on a missing key column, a skip when the period is recorded, otherwise the finished merge |
| Merge.CompanyStore.AppendToCompanyFiles | merge_financials.py:44-166 | the store after the run, and whether it completed, are those of `RunFiles` over the files in processing order |
| Merge.CompanyStore.MergeOneFile | merge_financials.py:57-166 | one file's effect on the store, and whether the run goes on, are those of `MergeFile` |
| Merge.CompanyStore.MergeGroupsInto | merge_financials.py:82-166 | the company loop of one file leaves the store, and its success flag, as `MergeGroups` over the companies in order |
| MergeProperties.CompaniesDistinct | merge_financials.py:82 | each company of an extract is visited once |
| MergeProperties.CompaniesMember | merge_financials.py:82 | the visited companies are exactly those of the extract's rows |
| MergeProperties.GroupRowsSpec | merge_financials.py:82-84 | a company's group holds exactly the account keys of its rows, each with the cells of its last row |
| MergeProperties.DatesOfSpec | merge_financials.py:97-100 | a date is recorded exactly when some `_thstrm_dt` column holds it, as text, in some row |
| MergeProperties.ExistingDatesSpec | merge_financials.py:97-101 | the skip set is exactly the non-missing texts of the dt columns |
| MergeProperties.Q4Frame | merge_financials.py:113-157 | the correction changes only the annual amount cell of an income-statement row that has one; other sections and missing annual cells are untouched |
| MergeProperties.Q4Sums | merge_financials.py:131-155 | after the correction, the Q4 cell plus the Q1, H1 and Q3 operands equals the annual figure |
| MergeProperties.Q4Example | merge_financials.py:150-155 | 600 − 100 − 250 − 400 gives −150 |
| MergeProperties.Q4MissingQuarter | merge_financials.py:132-147 | a missing quarter column counts as 0: 600 − 100 − 250 gives 250 |
| MergeProperties.DropLegacySpec | merge_financials.py:93-94 | dropping `currency` removes that column and its cells and nothing else |
| MergeProperties.ReindexSpec | merge_financials.py:163 | reindexing keeps the cells of the listed columns and only those |
| MergeProperties.JoinedLookup | merge_financials.py:107 | one cell of the outer join: the period's cell where the group has the key, the table's cell elsewhere |
| MergeProperties.JoinedSpec | merge_financials.py:107 | the outer join holds every key of either side exactly once |
| MergeProperties.GroupTableSpec | merge_financials.py:110 | a new company's table is the key columns, then the period's triple, with the group's keys |
| MergeProperties.FinishSpec | merge_financials.py:112-163 | after the correction and the layout: the layout's columns, the same keys, and the corrected cells of the kept columns |
| MergeProperties.MergeCompanyOutcome | merge_financials.py:87-165 | on a well-formed table or a new company, one company's merge skips exactly when the period is recorded, raises exactly when it is not recorded and its year does not parse, and writes otherwise |
| MergeProperties.MergeCompanyWrites | merge_financials.py:101-165 | a written table is the finished merge of a period that was not yet recorded and whose prefix parses |
| MergeProperties.MergeCompanyColumns | merge_financials.py:159-163 | a written table has key columns first, then period columns, and stays well-formed |
| MergeProperties.MergeCompanyLayout | merge_financials.py:159-163 | a written table is the key columns in the table's own order, then the period triples in chronological order |
| MergeProperties.MergeCompanyDistinct | merge_financials.py:159-163 | no column, and so no period, appears twice in a written table |
| MergeProperties.MergeCompanyCells | merge_financials.py:107-163 | every cell of a written table: the group's period cells, the old cells of kept columns, the corrected annual amount, and nothing of the new period for keys the group lacks |
| MergeProperties.CorrectedAnnualCell | merge_financials.py:125-155 | the annual cell of an income-statement row is the annual amount minus the old table's Q1, H1 and Q3 amounts |
| MergeProperties.QuarterColumns | merge_financials.py:119-122 | the quarter columns the correction reads are not among the annual period's own columns |
| MergeProperties.MergeCompanyIdempotent | merge_financials.py:96-105 | once a period is written, merging that period again, from any group and with any date, skips the company |
| MergeProperties.RecordedPersists | merge_financials.py:96-107 | a period recorded in a table stays recorded when another period is merged in |
| MergeProperties.DatePersists | merge_financials.py:107-163 | an old cell outside the new period survives the merge |
| MergeProperties.MergeGroupsFrame | merge_financials.py:82-165 | the group loop changes only the tables of the companies it visits |
| MergeProperties.MergeGroupsSettles | merge_financials.py:82-165 | a completed group loop leaves every visited company recorded for the period |
| MergeProperties.MergeGroupsNoop | merge_financials.py:96-105 | a group loop over companies that all record the period changes nothing |
| MergeProperties.MergeFileSettles | merge_financials.py:57-165 | a file merged without error leaves its period recorded |
| MergeProperties.MergeFileNoop | merge_financials.py:57-165 | merging a file that is already settled changes nothing and completes |
| MergeProperties.RunFilesWellFormed | merge_financials.py:57-165 | a run keeps every company table well-formed |
| MergeProperties.RunFilesSettles | merge_financials.py:57-165 | a completed run leaves every one of its files settled |
| MergeProperties.RunFilesIdempotent | merge_financials.py:44-166 | after a run that completed, running the batch a second time over the same extracts changes no company table and completes |
| MergeProperties.RunFilesRerun | merge_financials.py:44-166 | whether or not the first run completed, a second run over the same extracts returns the same store and the same completion flag |
| MergeProperties.MergeFileFailsUnchanged | merge_financials.py:57-166 | a file that raises leaves every company table as it found it |
| MergeProperties.MergeGroupsFailsUnchanged | merge_financials.py:82-166 | the group loop raises only before it has written any company, since only an unparseable period year raises |
| MergeProperties.MergeGroupsParsedCompletes | merge_financials.py:82-166 | a group loop over a period whose year parses never raises |
| MergeProperties.ParseFileNameOf | merge_financials.py:58-66 | the file name `<name>_<year>_<report>_major_accounts.xlsx` parses back to (year, report) when no part holds `/` or `.` and year and report hold no `_` |
| MergeProperties.OrderFilesMembers | merge_financials.py:48-53 | the processing order keeps exactly the files that are not `~$` lock files |
| MergeProperties.OrderFilesAnnualLast | merge_financials.py:51-53 | every annual-report file comes after every other file |
| MergeProperties.OrderFilesSpec | merge_financials.py:48-53 | the processing order is the non-annual files, then the annual ones, each in listed order |
| Loader.ConnectDefaults | load_financials_to_pg.py:11-31 | with nothing set, the fallbacks are used and the port is 5432 |
| Loader.ConnectEmptyIsUnset | load_financials_to_pg.py:20-21 | a variable set to the empty string counts as unset |
| Loader.ConnectPort | load_financials_to_pg.py:24-31 | a port given in decimal digits is the port connected to |
| Loader.ConnectRejectsPort | load_financials_to_pg.py:29-30 | a port text that is set and holds anything but digits is refused |
| Loader.QuarterCodeSpec | load_financials_to_pg.py:122-127 | the four labels map to 1Q, 2Q, 3Q and 4Q, each to a different code; any other label maps to itself |
| Loader.ParsePeriodOf | load_financials_to_pg.py:124-127 | a prefix `<year>_<label>` gives back its year, its label (which may hold `_`) and the label's code |
| Loader.ParsePeriodAgrees | load_financials_to_pg.py:124-127 | the loader and the merge read the same year from a prefix, and either both can or neither can |
| Loader.MatchColumnSound | load_financials_to_pg.py:152-154 | a match means the column starts with a `\d{4}_.+` prefix followed by the kind's suffix |
| Loader.MatchColumnGreedy | load_financials_to_pg.py:152 | the match is greedy: no suffix starts further right within the prefix's reach |
| Loader.MatchColumnComplete | load_financials_to_pg.py:152 | a column matches whenever a well-shaped prefix is followed by a suffix |
| Loader.MatchColumnOf | load_financials_to_pg.py:152-154 | the column names the merge writes match back to their prefix and kind |
| Loader.MatchedPrefixParses | load_financials_to_pg.py:152-180 | every matched prefix parses, so `parse_period` never raises in the loop |
| Loader.GroupTriples | load_financials_to_pg.py:150-155 | the `setdefault` loop yields exactly the grouping `Group(cols)` |
| Loader.GroupOrder | load_financials_to_pg.py:150-155 | every prefix is listed once, and no prefix has an empty group |
| Loader.GroupMembers | load_financials_to_pg.py:151-155 | a kind of a prefix is grouped exactly when some column matches them |
| Loader.GroupLast | load_financials_to_pg.py:155 | a grouped kind holds the last column that matches it |
| Loader.GroupUnmatched | load_financials_to_pg.py:153 | columns that match nothing group to nothing |
| Loader.KeyColumnsUnmatched | load_financials_to_pg.py:147-152 | the key columns are ignored by the pattern |
| Loader.GroupLayout | load_financials_to_pg.py:150-155 | a merged table's period columns group into one full triple per period, in order, when every year has four digits |
| Loader.NormalizeDateSpec | load_financials_to_pg.py:75-89 | a missing date gives `{year}-01-01`; otherwise the first date match in the text before the first `~` is rewritten as `YYYY-MM-DD`, or `{year}-01-01` when there is none |
| Loader.NormalizeDateRange | load_financials_to_pg.py:79-80 | only the stripped text before the first `~` matters |
| Loader.NormalizeDateShape | load_financials_to_pg.py:84-89 | the stored date has the shape `YYYY-MM-DD` when a date was found or the year has four digits |
| Loader.NormalizeDateIdempotent | load_financials_to_pg.py:75-89 | normalising a stored date again gives the same date, for a four-digit year |
| Loader.AmountAgreesWithToFloat | load_financials_to_pg.py:111-115 | where the loader reads an amount, it agrees with the merge's `to_float`, which gives 0 where the loader raises |
| Loader.AmountOfDecimal | load_financials_to_pg.py:114-115 | an amount printed in decimal, or stored as a number, is read back |
| Loader.AmountIgnoresCommas | load_financials_to_pg.py:114 | commas never change the amount |
| LoaderRun.DistinctIdsSpec | load_financials_to_pg.py:164 | the identities are duplicate-free, every row's identity is listed, and each is listed at its first appearance: all rows before it carry identities listed earlier |
| LoaderRun.FirstRowOf | load_financials_to_pg.py:172-176 | the selected row is the first row of the account, `None` when there is none |
| LoaderRun.Warehouse.UpsertCompany | load_financials_to_pg.py:49-56 | inserts the company unless its code is already there |
| LoaderRun.Warehouse.GetOrCreateAccount | load_financials_to_pg.py:58-70 | returns the account row, inserting it when absent |
| LoaderRun.Warehouse.GetOrCreateReport | load_financials_to_pg.py:72-99 | upserts the report of (year, quarter, normalised date), setting its name to the label |
| LoaderRun.Warehouse.UpsertFinValue | load_financials_to_pg.py:101-119 | upserts the value under (company, account, report); writes nothing and reports failure where the amount does not convert |
| LoaderRun.Warehouse.LoadPeriod | load_financials_to_pg.py:180-190 | one period: the report row, then the value unless the amount is missing |
| LoaderRun.Warehouse.LoadPeriods | load_financials_to_pg.py:179-190 | the periods of one account, in the grouping's order, stopping at the first that raises |
| LoaderRun.Warehouse.LoadAccount | load_financials_to_pg.py:166-190 | one account: its row looked up or inserted, then every period |
| LoaderRun.Warehouse.LoadAccounts | load_financials_to_pg.py:166-190 | every distinct account of the sheet in order |
| LoaderRun.Warehouse.LoadWorkbook | load_financials_to_pg.py:147-190 | one file: the grouping, the company upsert from the first row, then every account |
| LoaderRun.Warehouse.LoadFiles | load_financials_to_pg.py:130-190 | the database after the run, and whether it completed, are those of `Load` over the files |
| LoaderRun.ApplyAllOverlay | load_financials_to_pg.py:49-119 | running statements on a database lays what they write on an empty database over it |
| LoaderRun.ApplyAllTwice | load_financials_to_pg.py:50-54 | sending the same statements twice leaves the database as sending them once (the same holds for the upserts at lines 94 and 106) |
| LoaderRun.LoadIdempotent | load_financials_to_pg.py:130-190 | loading the same files again changes nothing, and stops where the first load stopped |
| LoaderRun.MissingAmountSkipped | load_financials_to_pg.py:187-189 | a period with a missing amount writes its report row and no value, and the loop goes on |
| LoaderRun.PresentAmountWritten | load_financials_to_pg.py:181-190 | a period with a present, convertible amount writes its value after the report row |
| LoaderRun.FileValuesUnderItsCompany | load_financials_to_pg.py:158-190 | a file writes values only under the company code of its first row, and writes the company row first |
| Fetch.TagItems | fetch_corp_financials.py:236-239 | tags every item of an answer in place with the company's name, padded code and stock code |
| Fetch.Archive.FetchPeriod | fetch_corp_financials.py:211-292 | one period's files and quota flag are those of `Step` |
| Fetch.Archive.FetchYear | fetch_corp_financials.py:197-292 | the four reports of one year, in order, as `RunCompany` over that year's window periods |
| Fetch.Archive.FetchCompany | fetch_corp_financials.py:196-292 | every window period of one company, as `RunCompany` over `Visits(cfg)` |
| Fetch.Archive.RunBatchFetch | fetch_corp_financials.py:139-292 | the files after the batch, and whether the quota error ended it, are those of `Batch` |
| Fetch.Archive.FetchCompanies | fetch_corp_financials.py:178-292 | the company loop leaves the files, and the quota flag, as `RunAll` over the selected companies |
| Fetch.VisitsMember | fetch_corp_financials.py:196-208 | a period is visited exactly when its year lies between the start and end years and it passes both quarter filters (see also line 165) |
| Fetch.VisitsChronological | fetch_corp_financials.py:165-197 | the window is visited in strictly increasing (year, quarter) order, so each period once |
| Fetch.VisitsExample | fetch_corp_financials.py:196-208 | a window from 2018 Q3 to 2019 Q1 visits 2018 Q3, 2018 Q4 and 2019 Q1, in that order |
| Fetch.SelectedMember | fetch_corp_financials.py:155-175 | a company is processed exactly when it is listed, is named by a non-empty target list, and has a stock code that is neither missing nor empty |
| Fetch.PaddedCodeOfNumber | fetch_corp_financials.py:149 | a numeric identifier gets its leading zeros back: eight or more digits denoting the same number |
| Fetch.PaddedCodeOfText | fetch_corp_financials.py:149 | padding a textual identifier keeps it at the end and makes it at least eight long; a long enough one is kept |
| Fetch.SafeNameSpec | fetch_corp_financials.py:188 | the directory name has the input's length, keeps the alphanumerics, has `_` elsewhere, holds no `/` or `.`, and is a fixed point |
| Fetch.FilePathParses | fetch_corp_financials.py:211-214 | the saved file name reads back, by the merge step's file-name rule, as the period's year and report label |
| Fetch.FilePathInjective | fetch_corp_financials.py:211-214 | different periods of one company are saved under different paths |
| Fetch.TagAllSpec | fetch_corp_financials.py:236-260 | every tagged item and every placeholder names the company, and tagging keeps the item's other columns |
| Fetch.StepGrows | fetch_corp_financials.py:211-292 | a step keeps every saved file and adds at most the period's own file, written for the company |
| Fetch.StepQuiet | fetch_corp_financials.py:234-292 | for a missing file, a step changes nothing exactly on a quiet reply; otherwise it saves the file or meets the quota error |
| Fetch.RunCompanyStopped | fetch_corp_financials.py:286-288 | after the quota error, no later period of the company is requested |
| Fetch.RunAllStopped | fetch_corp_financials.py:286-288 | after the quota error, no later company is processed |
| Fetch.BatchWrites | fetch_corp_financials.py:178-292 | the batch keeps every existing file; each new file is the path of a selected company and a window period, and each of its rows names that company |
| Fetch.BatchQuotaStops | fetch_corp_financials.py:286-288 | once the companies before some point have met the quota error, no later company is processed |
| Fetch.BatchRerun | fetch_corp_financials.py:215-217 | after a batch without a quota error, running it again with the same answers changes nothing |
| Fetch.BatchComplete | fetch_corp_financials.py:215-217 | when every window file already exists, the batch changes nothing, whatever the service would answer |
| Disclosures.CollectPages | dart_by_corp.py:115-154 | the `while True` loop returns `Collect(api, q, 1, bound)`; the pages it requests are 1, 2, … up to the stop page, each once |
| Disclosures.TagDisclosures | dart_by_corp.py:221-223 | tags every disclosure of one type in place with the type's code and name |
| Disclosures.CompanyDisclosures | dart_by_corp.py:194-225 | a lookup error propagates; otherwise the result is the tagged disclosures of all ten types, in type order (see also line 178) |
| Disclosures.GetCorpInfoFails | dart_by_corp.py:52-60 | the lookup fails exactly when no listed name contains the query |
| Disclosures.GetCorpInfoExact | dart_by_corp.py:52-68 | with an exact match, the first exact match is returned |
| Disclosures.GetCorpInfoPartial | dart_by_corp.py:56-68 | without an exact match, the first entry whose name contains the query is returned |
| Disclosures.ExactBeatsEarlierPartial | dart_by_corp.py:52-57 | an exact match wins over an earlier entry whose name merely contains the query |
| Disclosures.InfoCodePadded | dart_by_corp.py:68 | the returned identifier is at least eight characters; a numeric one is its eight-or-more digits |
| Disclosures.ListParamsSpec | dart_by_corp.py:83-95 | the type and detail filters are sent exactly when truthy; the six other parameters are always sent |
| Disclosures.StopPageSpec | dart_by_corp.py:128-151 | every page before the stop page continues the loop (status `000`, a non-empty list, page below the total); the stop page does not |
| Disclosures.CollectIsPages | dart_by_corp.py:136-154 | the collection is the lists of the pages before the stop page, in order, then the stop page's list when its status is `000` |
| Disclosures.AllDisclosuresTagged | dart_by_corp.py:210-223 | every collected disclosure carries the code and name of one disclosure type, a matching pair |
| Disclosures.ReorderSpec | dart_by_corp.py:235-238 | for any duplicate-free priority list, the reordering succeeds exactly when all priority columns are present; it puts them first, keeps the others in order, and is a duplicate-free permutation |
| Disclosures.ReorderColumnsSpec | dart_by_corp.py:235-238 | the same for the six priority columns of the source |
| Disclosures.SanitizeSpec | dart_by_corp.py:253 | a sanitised name holds only alphanumerics, space, `-` and `_`, does not end in whitespace, is a prefix of the filtered name, and is a fixed point (the same rule at lines 329 and 333) |
| Disclosures.SanitizeKeeps | dart_by_corp.py:253 | a name of allowed characters that does not end in a space is kept as it is |
| Disclosures.SheetNameSpec | dart_by_corp.py:268 | a sheet name is a prefix of `<type>_<name>`: all of it when that fits in 31 characters, else exactly its first 31 |

## Left out

- **I/O.** Reading and writing spreadsheets, CSV and JSON, `glob`, `os.path.exists`, `makedirs`, HTTP requests, `time.sleep`, logging and printing are all left out.
  - Files are maps from paths to contents, or sequences of decoded contents.
  - The web services are functions from requests to decoded replies. Within one run, the same request gets the same answer.
  - The database is four maps.
- **Floating point.** Amounts are integers. `to_float`, `float(...)` and `int(q4_val)` are modelled on integral decimal text. Exponents (`1e5`), fractions, the text `nan`, `_` digit separators (`1_000`) and `inf`/`infinity` are not modelled: the model reads them as unparseable (0 in the merge, a refused amount in the loader). With `inf` as an annual or quarter operand the source's `int(q4_val)` raises `OverflowError`, which its `except (ValueError, TypeError)` does not catch, so the source ends the run where the model writes a corrected cell. Because the operands are integral, `int()` truncation has no effect.
- **Unicode character classes.** `str.isalnum` is modelled as ASCII letters and digits plus Hangul syllables. `str.isdigit` and the `\d` of regular expressions are modelled as the ASCII digits.
- **Whitespace.** `str.strip`, `int()` and `float()` are modelled as removing the six ASCII whitespace characters only. Python also removes `\x1c`-`\x1f` and Unicode whitespace such as `\xa0`. So `Text.Strip`, `Text.ParseInt` and the amount conversions differ from the source on a text like `"1000\xa0"`: the model reads it as unparseable (0 in the merge, a refused amount in the loader), where Python reads 1000.
- **Disclosures.GetCorpInfo**: `str.contains` with a regex pattern is modelled as a literal substring test. A query holding regex metacharacters is not modelled.
- **Duplicate account keys.** Rows of one extract with the same six key columns keep the last row in the model. pandas would keep both rows in the outer join.
- **Row order.** The order of the rows of a company table, the `groupby` sort order of the company groups, and pandas' `_x`/`_y` suffixes for clashing non-key columns are not modelled. A table is a map from keys to rows.
- **Type drift.** `astype(str)` and pandas dtype inference are left out. The key columns are already canonical text.
- **Database identifiers.** Serial ids are modelled by the natural keys they stand for. The `if acc_id` test, which treats an id of 0 as absent, is not modelled. The NaN branch inside `upsert_fin_value` cannot be reached, because the caller skips missing amounts first.
- **Fallback password.** The fallback database password is a parameter `defaultPassword` of `Loader.Connect`. Its value is not reproduced.
- **Name clashes.** Two companies whose sanitised names coincide share a directory. Two distinct company identities whose table file names coincide are kept apart in the model, since the store is keyed by (name, code).
- **Fetch.Archive.RunBatchFetch**: writing a spreadsheet always succeeds. The caught `to_excel` exception is not modelled. A JSON `null` list in an answer is not modelled either.
- **Missing company file.** Fetch treats a missing company-list file as an empty list. Both end the batch without a write.
- **Directory layout.** Fetch saves each period into a per-company subdirectory under `dart_financial_data`. Merge globs only the top level of that directory. `Fetch.FilePathParses` proves that the base name still parses as (year, report). Joining the two directory layouts is not modelled.
- **Disclosures.PageReply**: a reply always has a status and an integral page total. The model does not capture three exceptions of the pagination loop. `result['status']` raises `KeyError` when the reply has no status. `int(result.get('total_count', 0))` and `int(result.get('total_page', 0))` raise when those fields are not integers. Each of these ends the collection with an exception in the source.
- **Disclosures.CollectPages**: it requires a bound on the service's page totals (a ghost parameter), so that the loop provably ends. The source relies on the service for this.
- **Disclosure frame.** The sort by `rcept_dt` (a datetime, and not a stable sort), the per-type sheets and sheet-name collisions are left out. The statistics file, the CSV and JSON copies and the document downloads are left out too; only their file names are modelled.
- **Clock.** The default dates come from the clock (`datetime.now()`), and the saved files carry timestamps. These are left out: the dates are parameters.
- **Company-list download.** `corp_code.py` is not part of this model. It is an HTTP download, ZIP extraction and XML parsing.
- **Dead code.** The commented-out code in `fetch_corp_financials.py` is not modelled.
