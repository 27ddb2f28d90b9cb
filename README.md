# Client-record search toolkit — a Dafny model of its core

The toolkit collects a small business's client records and makes them searchable. They come from CSV exports (daily schedules, QuickBooks sales summaries, calendar events, Google Keep notes, PDF invoices). The pieces modelled here are:

- **Deep search agent** (`DeepSearch`, `DeepSearchSpec`). The agent loads every CSV file in a directory into a named set of tables, skipping the raw Keep export when the structured one exists. It offers:
  - an exact search: a case-folded substring test, where the first matching column wins;
  - a fuzzy search: the best score above a threshold, with ties kept by the first column;
  - a date-range search over date-like columns;
  - a date filter on earlier results;
  - a combined search (query, optional date window, column filters);
  - the display of records, with metadata hidden and at most N columns.
- **Schedule database** (`ScheduleDatabase`). It turns column names into SQL-safe names and makes clean names unique with `_2`, `_3`, …. It infers `TEXT`/`REAL` column types, finds the date and client columns, and converts row values for the insert.
- **Daily schedule processor** (`DailySchedule`). It reads the `MM_DD_YY` date in a file name and writes it as `20YY-MM-DD`. It scans each schedule sheet cell by cell into job records: `COMPANY:` starts a job, `key: value` pairs add fields, and the first address, phone and e-mail found are kept. It then merges the jobs of all files.
- **PDF invoice parser** (`PdfToCsv`). It turns `description  123.45` lines into (Description, Amount) records and skips blank and header lines.
- **Web search front end** (`WebSearch`). It parses the search form, extracts an e-mail, phone, postal-code or name pattern from the query, formats results as JSON-ready records, and flattens results for export.
- **QuickBooks processor** (`QuickBooks`). It finds the `YYYY QB.csv` files and adds a `Year` column. In every column except `Customer` and `Year` it strips `$` and `,` and turns the values into numbers, with null tokens and unparsable values becoming 0. It concatenates the yearly tables and ranks the top five services by positive total.
- **Client search** (`ClientSearch`). This is a regex search over every CSV in a directory. Matching rows are returned as string records carrying `_row_index`, grouped by file, together with a total count.
- **Calendar adapter** (`Calendar`). It adds `Client_Name`, `Location` (only when missing or empty), `Event_Date` and `Tags` to calendar events.
- **Keep adapter** (`GKeep`). It extracts the known family clients from the Keep text. Anna Wong has a three-step fallback ladder. Clients are de-duplicated by lower-cased name and written as CSV rows.

Shared helper modules:

- `Wrappers`: Option and Result.
- `Seqs`: subsequences, filters and concatenation.
- `Text`: ASCII `lower`, `strip`, `split`, `join` and `basename`.
- `PyDict`: an insertion-ordered dictionary with Python's `d[k] = v` semantics.
- `Frames`: a table is a sequence of column names plus rows. A row maps column names to cells. A cell is `Missing` (NaN), `Str` or `Num`.

Objects whose methods update fields are classes: `DeepSearchAgent`, `DailyScheduleProcessor`, `QuickBooksProcessor` and `CalendarAdapter`. Each loop of the modelled code that updates variables step by step is a method, proved equal to a specification function. That includes the display loops, which are methods returning the lines they would print. Dict and list comprehensions are functions. The metadata-removal loop of `display_results` is the `DataKeys` filter: dict keys are distinct, so each `remove` deletes the only occurrence. The properties are lemmas about the specification functions.

Anything outside the program is a parameter:

- file reading (`read: string -> Option<Table>`, where `None` means the read raised);
- directory listings;
- the file modification date;
- date parsers;
- `fuzz.ratio`;
- the regular expressions other than `\d{2}_\d{2}_\d{2}`, the invoice-line pattern and the `YYYY QB.csv` pattern, which are written out.

## Model

| member | source | states |
|---|---|---|
| DeepSearch.DeepSearchAgent.constructor | deep_search_agent.py:21-24 | the agent starts with the given CSV file list and no loaded tables |
| DeepSearch.DeepSearchAgent.LoadCsvFiles | deep_search_agent.py:89-116 | after loading, a file has a table iff it was loaded before or it is listed, readable and not the raw Keep export shadowed by the structured one; each loaded table is what the reader returned |
| DeepSearchSpec.Loaded | deep_search_agent.py:91-112 | the loaded set keeps earlier tables, adds exactly the readable, non-skipped listed files, and stores the table read for each |
| DeepSearchSpec.Datasets | deep_search_agent.py:132 | iterating the loaded tables visits them in insertion order, each paired with its own table |
| DeepSearchSpec.KeepPresent | deep_search_agent.py:137-138 | keeps, in the requested order, exactly the requested columns that exist in the table |
| DeepSearchSpec.SearchColumns | deep_search_agent.py:137-143 | no (or an empty) column request searches all columns; otherwise the searched columns are the requested ones present, in requested order, and always columns of the table |
| DeepSearchSpec.FirstExactMatch | deep_search_agent.py:156-169 | no match iff no searched non-NaN cell contains the (case-folded) query; otherwise the matching value is the stringified cell of the first column that matches |
| DeepSearchSpec.FirstExactMatchAt | deep_search_agent.py:156-169 | if column k is the first matching column, the match found is that cell's string |
| DeepSearchSpec.ExactRecord | deep_search_agent.py:176-178 | a result record holds every column of the row plus `file` and `matching_value`, with the metadata overriding same-named columns |
| DeepSearchSpec.ExactRecordKeys | deep_search_agent.py:176-178 | for distinct columns, the record's key order is the table's columns followed by `file`, `matching_value` |
| DeepSearchSpec.ExactRowResultSome | deep_search_agent.py:152-179 | a row yields record r iff some column k is the first match and r is built from that cell's value |
| DeepSearchSpec.ExactRowResults | deep_search_agent.py:152-179 | one optional result per row, in row order |
| DeepSearchSpec.ExactFiles | deep_search_agent.py:132-179 | one result list per loaded table, in table order |
| DeepSearchSpec.ExactRowsMembership | deep_search_agent.py:152-179 | a record is among one table's results iff some row of that table yields it |
| DeepSearchSpec.ExactResultsMembership | deep_search_agent.py:118-181 | a record is an exact-search result iff some loaded table has some row whose first matching searched column yields it |
| DeepSearch.DeepSearchAgent.ExactSearch | deep_search_agent.py:118-181 | the nested loops over tables, rows and columns return exactly the exact-search specification |
| DeepSearch.ExactSearchRows | deep_search_agent.py:152-179 | the row loop collects the rows' records in order |
| DeepSearch.ExactMatchRow | deep_search_agent.py:153-169 | the column loop with `break` finds a match iff one exists, and the value is the first match's |
| DeepSearchSpec.FuzzyBest | deep_search_agent.py:215-228 | the result is the best score above the threshold over the searched string cells, the first column winning ties; none iff no cell qualifies |
| DeepSearchSpec.EligiblePrefix | deep_search_agent.py:217-228 | dropping the last column leaves every earlier column's score and eligibility unchanged |
| DeepSearchSpec.NewBest | deep_search_agent.py:224-228 | a strictly higher eligible score replaces the best so far |
| DeepSearchSpec.KeptBest | deep_search_agent.py:224-228 | a column that does not beat the best so far leaves it unchanged |
| DeepSearchSpec.FuzzyBestFound | deep_search_agent.py:215-230 | a row matches iff some searched string cell scores above the threshold (and above 0) |
| DeepSearchSpec.FuzzyRecord | deep_search_agent.py:234-239 | a fuzzy record holds every column plus `file`, `match_score` (the best score) and `matching_value` |
| DeepSearchSpec.FuzzyRecordKeys | deep_search_agent.py:234-239 | for distinct columns, the keys are the columns followed by the three metadata keys |
| DeepSearchSpec.FuzzyRowResultSome | deep_search_agent.py:214-239 | a row yields record r iff some column k holds the best eligible score and r is built from it |
| DeepSearchSpec.FuzzyRowResults | deep_search_agent.py:214-239 | one optional result per row, in row order |
| DeepSearchSpec.FuzzyFiles | deep_search_agent.py:197-239 | one result list per loaded table, in table order |
| DeepSearchSpec.FuzzyRowsMembership | deep_search_agent.py:214-239 | a record is among one table's fuzzy results iff some row yields it |
| DeepSearchSpec.FuzzyResultsMembership | deep_search_agent.py:183-241 | a record is a fuzzy result iff some loaded table has some row whose best eligible column yields it |
| DeepSearch.DeepSearchAgent.FuzzySearch | deep_search_agent.py:183-241 | the loops return exactly the fuzzy-search specification |
| DeepSearch.FuzzySearchRows | deep_search_agent.py:214-239 | the row loop collects the rows' fuzzy records in order |
| DeepSearch.FuzzyMatchRow | deep_search_agent.py:215-228 | the scoring loop returns the best (score, value) pair exactly as specified |
| DeepSearchSpec.Bound | deep_search_agent.py:561-562 | an empty bound is open; a non-empty bound is an error iff it does not parse, else it is the parsed instant |
| DeepSearchSpec.InRangeRecords | deep_search_agent.py:564-586 | keeps, in order, exactly the records having some field whose parsed date lies in the window |
| DeepSearch.DateInRangeFound | deep_search_agent.py:566-582 | the field loop reports a date in range iff the record has one |
| DeepSearch.KeepInRange | deep_search_agent.py:558-586 | the record loop returns exactly the in-range records in order |
| DeepSearchSpec.DateRangeFiltered | deep_search_agent.py:543-588 | empty results or no bounds return the input unchanged; an error only comes from an unparsable bound; otherwise the output is a subsequence of the input |
| DeepSearchSpec.DateRangeFilteredMembership | deep_search_agent.py:543-588 | with valid bounds, a record survives iff it was a result and has a field dated inside the window |
| DeepSearch.DeepSearchAgent.FilterByDateRange | deep_search_agent.py:543-588 | the method returns exactly the date-filter specification |
| DeepSearchSpec.FilterRecords | deep_search_agent.py:377-398 | keeps, in order, exactly the records matching every column filter |
| DeepSearchSpec.FilterRecordsMembership | deep_search_agent.py:377-398 | a record survives the filters iff it was present and matches every filter |
| DeepSearch.MatchAllFilters | deep_search_agent.py:381-393 | the filter loop with `break` decides exactly whether every filter holds |
| DeepSearch.KeepMatchingFilters | deep_search_agent.py:377-398 | the record loop returns exactly the filtered records |
| DeepSearchSpec.CombinedResults | deep_search_agent.py:363-377 | an empty query returns no results |
| DeepSearchSpec.CombinedResultsSound | deep_search_agent.py:344-400 | every combined result came from the text search (in order) and matches all filters; an error only comes from an unparsable date bound |
| DeepSearchSpec.CombinedResultsMembership | deep_search_agent.py:344-400 | with valid bounds, a record is a combined result iff the text search found it, it is dated in the window when a bound is given, and it passes the filters |
| DeepSearchSpec.CombinedDatedMembership | deep_search_agent.py:373-374 | the date step keeps exactly the searched records dated in the window, or all of them when no bound is given |
| DeepSearch.DeepSearchAgent.CombinedSearch | deep_search_agent.py:344-400 | the method returns exactly the combined-search specification |
| DeepSearchSpec.ValuesMatch | deep_search_agent.py:516-541 | a missing value never matches; a normalised substring always matches; otherwise two values match iff both parse as dates on the same day |
| DeepSearchSpec.ValuesMatchEqual | deep_search_agent.py:516-541 | values equal after normalisation always match |
| DeepSearchSpec.DetectDateColumns | deep_search_agent.py:281-287 | keeps, in order, exactly the columns whose sampled values look like dates |
| DeepSearch.DetectDateColumnsLoop | deep_search_agent.py:281-287 | the detection loop returns exactly the detected date columns |
| DeepSearch.LooksLikeDateLoop | deep_search_agent.py:284-287 | the sample loop decides exactly whether a column looks like a date column |
| DeepSearchSpec.DateColumns | deep_search_agent.py:280-289 | the date columns searched are always columns of the table |
| DeepSearchSpec.IndexedRecord | deep_search_agent.py:327-331 | a date-search record holds every column as its string form plus `_row_index` set to the row number |
| DeepSearchSpec.IndexedRecordKeys | deep_search_agent.py:327-331 | for distinct columns, the keys are the columns followed by `_row_index` |
| DeepSearchSpec.DateRowResults | deep_search_agent.py:300-332 | row j yields its indexed record iff some date column holds a parsable date inside the window |
| DeepSearch.RowDateFound | deep_search_agent.py:305-324 | the column loop finds an in-range date iff the row has one |
| DeepSearch.DateSearchRows | deep_search_agent.py:300-332 | the row loop collects the matching rows' records in order |
| DeepSearchSpec.DateFileMatchesMembership | deep_search_agent.py:279-332 | a record is a table's date match iff the table has date columns and some row dated in the window yields it |
| DeepSearch.DateSearchFile | deep_search_agent.py:279-332 | the per-table method returns exactly the table's date matches |
| DeepSearchSpec.DateFiles | deep_search_agent.py:276-336 | one (file, matches) pair per loaded table |
| DeepSearch.DateSearchFiles | deep_search_agent.py:276-336 | the file loop records exactly the files with matches, in order |
| DeepSearchSpec.DateRangeResults | deep_search_agent.py:243-342 | an unparsable bound gives no results; otherwise a file is a key iff its table has a date match |
| DeepSearchSpec.DateRangeResultsValue | deep_search_agent.py:243-342 | with valid bounds, each file with matches maps to exactly its own matches |
| DeepSearch.DeepSearchAgent.DateRangeSearch | deep_search_agent.py:243-342 | the method returns exactly the date-range specification |
| DeepSearchSpec.PyPrefix | deep_search_agent.py:476 | Python's `s[:n]`: a prefix of length n capped at the length, counting from the end for a negative n |
| DeepSearchSpec.DataKeys | deep_search_agent.py:467-472 | keeps, in order, exactly the keys that are not `file`, `match_score` or `matching_value` |
| DeepSearchSpec.DisplayColumns | deep_search_agent.py:467-476 | with no limit (0) or few columns all data keys are shown; a positive limit caps them; they are always a prefix of the data keys |
| DeepSearchSpec.DisplayedFields | deep_search_agent.py:467-483 | every field shown is one of the displayed columns, is not NaN and carries the record's value; every non-NaN displayed column is shown; the shown names are the displayed columns without the NaN ones, in display order |
| DeepSearchSpec.PresentFields | deep_search_agent.py:480-483 | exactly the non-NaN fields among the given columns are shown, with their values |
| DeepSearchSpec.PresentFieldsOrder | deep_search_agent.py:480-483 | the shown names are the given columns with the NaN ones filtered out, in the columns' order |
| DeepSearchSpec.PresentIn | deep_search_agent.py:482 | a column passes iff the record's value there is not NaN |
| DeepSearch.DisplayRecordFields | deep_search_agent.py:480-483 | the column loop of `display_results` shows exactly the displayed fields of the record, in order |
| ScheduleDatabase.Substituted | schedule_database.py:40 | the lower-cased, substituted name has the length of the name |
| ScheduleDatabase.SubstitutedClean | schedule_database.py:40 | each ASCII letter or digit is kept lower-cased, every other character becomes `_`, so only lower-case letters, digits and `_` remain |
| ScheduleDatabase.CollapseShape | schedule_database.py:45 | collapsing `_` runs never lengthens, keeps the clean alphabet, leaves no `__`, keeps emptiness and the last character |
| ScheduleDatabase.CollapsePrefix | schedule_database.py:45 | collapsing a prefix gives a prefix of the collapsed string |
| ScheduleDatabase.CollapseIdentity | schedule_database.py:45 | a string without `__` is left unchanged |
| ScheduleDatabase.CleanColumnName | schedule_database.py:37-48 | cleaning fails (the `clean_name[0]` index error) iff the name is empty |
| ScheduleDatabase.CleanNameShape | schedule_database.py:37-48 | a non-empty name cleans to lower-case letters, digits and single underscores, with no trailing `_` |
| ScheduleDatabase.CleanNameDigitPrefix | schedule_database.py:42-43 | a name starting with a digit gets the `col_` prefix |
| ScheduleDatabase.CleanFixedPoint | schedule_database.py:37-48 | a name that is already clean (clean alphabet, no `__`, no trailing `_`, no leading digit) is its own clean name |
| ScheduleDatabase.CleanLiteral | schedule_database.py:37-48 | a single ASCII letter cleans to itself lower-cased |
| ScheduleDatabase.CleanedAt | schedule_database.py:55-56 | each column is cleaned on its own |
| ScheduleDatabase.CleanNames | schedule_database.py:55-56 | cleaning all columns keeps their number |
| ScheduleDatabase.CleanNamesSpec | schedule_database.py:55-56 | cleaning all columns fails iff some column name is empty; otherwise each clean name is that column's |
| ScheduleDatabase.CleanNamesOk | schedule_database.py:55-56 | when every column cleans to the matching name, those are exactly the clean names |
| ScheduleDatabase.UsedNames | schedule_database.py:53-65 | the used-name counter is a well-formed dictionary |
| ScheduleDatabase.UsedNamesCount | schedule_database.py:53-65 | the counter holds exactly the clean names seen, each with its number of occurrences |
| ScheduleDatabase.ColumnMappingKeys | schedule_database.py:52-67 | the mapping has exactly the original columns as keys |
| ScheduleDatabase.FirstKeepsName | schedule_database.py:64-65 | the first column with a given clean name keeps it unchanged |
| ScheduleDatabase.ColumnMappingLookup | schedule_database.py:55-67 | for distinct columns, column i maps to its clean name suffixed `_k` when it is the k-th (k>1) to use it |
| ScheduleDatabase.MappingCollision | schedule_database.py:52-67 | for any letter `x`, the columns `x`, `X`, `x_2` map the last two to the same name `x_2`: the suffixing does not guarantee unique names |
| ScheduleDatabase.MappingNotInjective | schedule_database.py:52-67 | the columns `a`, `A`, `a_2` map the last two to the same name `a_2` |
| ScheduleDatabase.BuildColumnMapping | schedule_database.py:52-67 | the mapping loop fails iff some name is empty, and otherwise builds exactly the specified mapping and counter |
| ScheduleDatabase.CountCleanName | schedule_database.py:59-65 | one step bumps the clean name's count and yields `name_count` for a repeated name |
| ScheduleDatabase.UsedNamesStep | schedule_database.py:59-65 | appending a clean name updates the counter exactly as one loop step |
| ScheduleDatabase.UniqueNameStep | schedule_database.py:59-63 | the name given to a new column is the step's suffixed name |
| ScheduleDatabase.ColumnType | schedule_database.py:76-93 | a column named like a date is TEXT; a column is REAL iff it is not date-named and its non-empty sample is numeric |
| ScheduleDatabase.Sample | schedule_database.py:83 | the sample has at most ten values, none NaN |
| ScheduleDatabase.ColumnTypes | schedule_database.py:70-93 | the types form a well-formed dictionary |
| ScheduleDatabase.ColumnTypesKeys | schedule_database.py:73-93 | the types are keyed by exactly the clean names of the columns |
| ScheduleDatabase.ColumnTypesLookup | schedule_database.py:73-93 | a clean name's type is that of the last column mapped to it |
| ScheduleDatabase.ColumnTypesStep | schedule_database.py:73-93 | one loop step records the column's type under its clean name |
| ScheduleDatabase.InferColumnTypes | schedule_database.py:70-93 | the type loop returns exactly the specified types and date columns |
| ScheduleDatabase.DateColumns | schedule_database.py:77-79 | keeps, in order, exactly the columns whose lower-cased name contains `date` |
| ScheduleDatabase.ClientColumns | schedule_database.py:166-167 | keeps, in order, exactly the columns whose name mentions client, customer, name or company |
| ScheduleDatabase.StoredCell | schedule_database.py:117-123 | non-date cells are stored as they are; a date cell becomes NaN iff it cannot be formatted |
| ScheduleDatabase.RowValues | schedule_database.py:136-145 | one SQL value per column; a non-date value is NULL iff the cell is NaN |
| DailySchedule.FirstDateMatch | daily_schedule_processor.py:36-41 | the first position from which an `NN_NN_NN` match starts, or none iff there is none |
| DailySchedule.IsoFromMatch | daily_schedule_processor.py:43-52 | a match is written as `20YY-MM-DD` |
| DailySchedule.DateRoundTrip | daily_schedule_processor.py:43-52 | the written date reads back to the matched `MM_DD_YY` text |
| DailySchedule.ExtractDateFromFilename | daily_schedule_processor.py:29-61 | the first `NN_NN_NN` in the base name gives a `20YY-MM-DD` date that reads back to exactly that matched text; otherwise the modification date, or "Unknown" when that fails |
| DailySchedule.DateFromBaseNameOnly | daily_schedule_processor.py:31 | only the base name matters: a directory prefix does not change the date |
| DailySchedule.Flush | daily_schedule_processor.py:85-87 | a job with more than one field is appended and a fresh job starts; otherwise nothing changes |
| DailySchedule.CompanyStep | daily_schedule_processor.py:96-101 | a `COMPANY:` cell flushes a job with data and sets `Schedule_Date` and `Source_File`; other cells change nothing |
| DailySchedule.PairStep | daily_schedule_processor.py:104-109 | a `key: value` cell with both parts non-blank sets the stripped key to the stripped value; other fields stay |
| DailySchedule.PutIfAbsent | daily_schedule_processor.py:114-126 | a found address/phone/e-mail is stored only if the job lacks that field |
| DailySchedule.ContactStep | daily_schedule_processor.py:112-126 | the contact step never changes a field already present |
| DailySchedule.CellStep | daily_schedule_processor.py:91-126 | non-string cells are skipped; the scan state stays well-formed |
| DailySchedule.RowCells | daily_schedule_processor.py:81 | the row's cells in column order |
| DailySchedule.NonEmptyRows | daily_schedule_processor.py:74 | keeps, in order, exactly the rows with some non-NaN cell |
| DailySchedule.ScanCellsValid | daily_schedule_processor.py:91-126 | scanning cells keeps the state well-formed |
| DailySchedule.ScanRowsValid | daily_schedule_processor.py:80-126 | scanning rows keeps the state well-formed |
| DailySchedule.FileJobsHaveFields | daily_schedule_processor.py:63-136 | every job produced is a well-formed record with more than one field |
| DailySchedule.ScanCellsAppend | daily_schedule_processor.py:91-126 | scanning two runs of cells is scanning one then the other |
| DailySchedule.RowsAreCells | daily_schedule_processor.py:80-126 | scanning non-empty rows is scanning their cells in order |
| DailySchedule.SheetJobsFromCells | daily_schedule_processor.py:74-130 | a sheet's jobs are the flushed scan of all its non-empty rows' cells |
| DailySchedule.PerFileJobs | daily_schedule_processor.py:142-145 | one job list per schedule file, in order |
| DailySchedule.DailyScheduleProcessor.constructor | daily_schedule_processor.py:17-27 | the processor records its folder and the listed files (none if the folder is absent) and has no combined data |
| DailySchedule.DailyScheduleProcessor.ProcessScheduleFile | daily_schedule_processor.py:63-136 | the per-file method returns exactly the specified jobs, each with more than one field |
| DailySchedule.DailyScheduleProcessor.ScanRow | daily_schedule_processor.py:91-126 | the cell loop performs exactly the specified scan |
| DailySchedule.DailyScheduleProcessor.ScanTextCell | daily_schedule_processor.py:96-126 | one string cell is handled exactly as specified |
| DailySchedule.DailyScheduleProcessor.CompanyCell | daily_schedule_processor.py:96-101 | the company branch is exactly the specified step |
| DailySchedule.DailyScheduleProcessor.PairCell | daily_schedule_processor.py:104-109 | the pair branch is exactly the specified step |
| DailySchedule.DailyScheduleProcessor.ContactCell | daily_schedule_processor.py:112-126 | the contact branch is exactly the specified step |
| DailySchedule.DailyScheduleProcessor.CollectJobs | daily_schedule_processor.py:140-148 | the file loop concatenates every file's jobs in order |
| DailySchedule.DailyScheduleProcessor.ProcessAllFiles | daily_schedule_processor.py:138-163 | success iff some job was found, and then the combined data is all jobs; otherwise the state is kept |
| PdfToCsv.SkipSpaces | pdf_to_csv.py:19 | skips exactly the run of whitespace |
| PdfToCsv.DigitsEnd | pdf_to_csv.py:19 | skips exactly the run of digits |
| PdfToCsv.FirstSplit | pdf_to_csv.py:19 | the first position where the description can end before whitespace and a digit, or none iff there is none |
| PdfToCsv.AmountEnd | pdf_to_csv.py:19 | the amount ends inside the line |
| PdfToCsv.ParseLine | pdf_to_csv.py:19-20 | a line parses iff some non-empty description is followed by whitespace and a digit |
| PdfToCsv.ParseLineShape | pdf_to_csv.py:19-22 | the description is the stripped text before the first split, and the amount is the greedy number after the whitespace |
| PdfToCsv.AmountShape | pdf_to_csv.py:19 | the amount is a run of digits with an optional `.DD` cents part, and is the longest such run |
| PdfToCsv.ItemRecord | pdf_to_csv.py:23-26 | a record has exactly the keys Description then Amount, with the parsed values |
| PdfToCsv.LineRecord | pdf_to_csv.py:16-26 | a line gives a record iff it is not a header line and it parses; the record holds the parsed fields |
| PdfToCsv.LineResults | pdf_to_csv.py:13-26 | one optional record per line, in order |
| PdfToCsv.PageResults | pdf_to_csv.py:9-26 | one record list per page, in order |
| PdfToCsv.LinesRecordsFrom | pdf_to_csv.py:14-26 | a page's record comes from some line of it |
| PdfToCsv.PdfRecordsFromPages | pdf_to_csv.py:9-26 | a record of the document comes from some page, and every page's records are kept |
| PdfToCsv.PdfRecordsFields | pdf_to_csv.py:23-28 | every record written has exactly the columns Description and Amount |
| PdfToCsv.EmptyPageNoRecords | pdf_to_csv.py:10-11 | a page without text contributes nothing |
| PdfToCsv.ExtractPageData | pdf_to_csv.py:13-26 | the line loop returns exactly the page's records |
| PdfToCsv.ExtractDataFromPdf | pdf_to_csv.py:5-28 | the page loop returns exactly the document's records |
| WebSearch.ParseColumns | web_search_interface.py:96-102 | no or empty field gives no columns; otherwise the columns are the field split on `,` |
| WebSearch.ParseColumnsSpec | web_search_interface.py:96-102 | no columns iff the field is absent or a single blank entry; otherwise the columns join back to the field |
| WebSearch.FirstPatternMatch | web_search_interface.py:332-335 | the first pattern in order that matches, or none iff none matches |
| WebSearch.ExtractSearchPattern | web_search_interface.py:321-338 | the first of the e-mail, phone, postal-code and name patterns to match gives the query; otherwise the query is kept |
| WebSearch.SearchQuery | web_search_interface.py:94-109 | without the extract option the query is the form's query; with a non-empty extract option it is the extracted pattern of that query |
| WebSearch.ScanPatterns | web_search_interface.py:330-338 | the pattern loop returns exactly the extracted query: the first matching pattern's first match, or the query itself |
| WebSearch.FieldsOf | web_search_interface.py:138-140 | the fields form a well-formed dictionary |
| WebSearch.FieldsOfItems | web_search_interface.py:138-140 | the fields are exactly the non-metadata, non-NaN values, as strings |
| WebSearch.FieldsOfKeys | web_search_interface.py:138-140 | the fields keep the record's key order |
| WebSearch.FormatResult | web_search_interface.py:130-135 | `source_file` is the record's `file` or "Unknown"; score and value are copied when present |
| WebSearch.FormatAll | web_search_interface.py:126-142 | one formatted result per result, in order |
| WebSearch.FormatResults | web_search_interface.py:126-142 | the format loop returns exactly the formatted results |
| WebSearch.FormatFields | web_search_interface.py:138-140 | the field loop returns exactly the specified fields |
| WebSearch.TextResults | web_search_interface.py:115-118 | the fuzzy search (threshold 70) when `fuzzy` is set, else the case-insensitive exact search, over the parsed columns and the search query |
| WebSearch.SearchResults | web_search_interface.py:115-123 | without dates the results are the text results; with a start or end date they are the text results filtered by that date range, a date-parse error propagating |
| WebSearch.SearchOutcome | web_search_interface.py:115-209 | the response succeeds iff the search does, and then holds the query, the formatted results and their count |
| WebSearch.Search | web_search_interface.py:92-244 | the handler returns exactly the specified response for the agent's tables |
| WebSearch.Truthy | web_search_interface.py:272-276 | Python truthiness: an absent value, `0` and `''` are false; every other value, NaN included, is true |
| WebSearch.FlatBase | web_search_interface.py:267-276 | a flattened result starts with `Source File` |
| WebSearch.FlatBaseItems | web_search_interface.py:267-276 | the metadata part holds `Source File` always, `Match Score` iff the score is truthy and `Matching Value` iff the value is truthy (NaN counts as truthy), each with its value |
| WebSearch.PutFields | web_search_interface.py:279-280 | copying fields keeps the first key |
| WebSearch.PutFieldsItems | web_search_interface.py:279-280 | copied fields override and every other key is kept |
| WebSearch.Flatten | web_search_interface.py:266-282 | a flattened result is well-formed and starts with `Source File` |
| WebSearch.FlattenItems | web_search_interface.py:267-280 | a flattened result has exactly `Source File`, the score and the value when truthy (NaN included), and all fields; a field of the same name overwrites the metadata value |
| WebSearch.ExportRows | web_search_interface.py:249-282 | missing or empty results give "No results to export"; the export succeeds iff the results are present, non-empty and decode; a decode failure gives "Error during export"; on success one flattened row per decoded result, in order |
| WebSearch.FlattenResults | web_search_interface.py:265-282 | the loop returns exactly the flattened results |
| WebSearch.FlattenResult | web_search_interface.py:267-280 | one result is flattened exactly as specified |
| WebSearch.FlattenFields | web_search_interface.py:279-280 | the field loop copies exactly the fields |
| WebSearch.Export | web_search_interface.py:247-319 | the export handler returns exactly the specified rows or error |
| QuickBooks.QbFiles | quickbooks_processor.py:22-26 | keeps, in order, exactly the listed names of the form `YYYY QB.csv` |
| QuickBooks.QbFileNameDigits | quickbooks_processor.py:24 | a name the export pattern accepts starts with four digits |
| QuickBooks.QbYear | quickbooks_processor.py:31-33 | a `YYYY QB.csv` base name gives its four digits; anything else gives "Unknown" |
| QuickBooks.ListedFileYear | quickbooks_processor.py:24-33 | a listed QuickBooks file's year is its first four characters |
| QuickBooks.CleanText | quickbooks_processor.py:48 | the cleaned text has no `,` or `$` and only characters of the cell's string |
| QuickBooks.CleanCell | quickbooks_processor.py:48-57 | the result is always a number: the parsed value, or 0 for a null token or unparsable text |
| QuickBooks.MissingCellIsZero | quickbooks_processor.py:48-57 | a NaN cell (text "nan") becomes 0 |
| QuickBooks.CleanColumn | quickbooks_processor.py:48-57 | each row's cell in the column is cleaned and nothing else changes |
| QuickBooks.CleanColumns | quickbooks_processor.py:44-57 | cleaning keeps the number of rows |
| QuickBooks.CleanColumnsAt | quickbooks_processor.py:44-57 | a non-protected column's cells are cleaned; `Customer`, `Year` and other keys are untouched |
| QuickBooks.WithYear | quickbooks_processor.py:41 | every row gets `Year` set, and the columns stay distinct |
| QuickBooks.ProcessedTable | quickbooks_processor.py:40-57 | the processed table has the Year-extended columns and the same number of rows |
| QuickBooks.ProcessedTableCells | quickbooks_processor.py:40-57 | each row has its year, its customer unchanged, and every other column cleaned |
| QuickBooks.ProcessQbFile | quickbooks_processor.py:28-65 | a table is returned iff the file can be read |
| QuickBooks.ProcessQbFileLoop | quickbooks_processor.py:28-65 | the column loop returns exactly the processed table |
| QuickBooks.UnionColumns | quickbooks_processor.py:82 | the union has every column of either, keeps the first order and stays distinct |
| QuickBooks.RowsOf | quickbooks_processor.py:82 | the rows of each table, in order |
| QuickBooks.ConcatTables | quickbooks_processor.py:82 | the concatenation has the union of columns and all rows in file order |
| QuickBooks.FileResults | quickbooks_processor.py:71-78 | one optional table per file, in order |
| QuickBooks.ProcessedTablesNonEmpty | quickbooks_processor.py:71-96 | some table is collected iff some file can be read |
| QuickBooks.QuickBooksProcessor.constructor | quickbooks_processor.py:18-20 | the processor lists the QuickBooks files and has no combined data |
| QuickBooks.QuickBooksProcessor.CollectTables | quickbooks_processor.py:71-78 | the loop collects exactly the readable files' processed tables |
| QuickBooks.QuickBooksProcessor.ProcessAllFiles | quickbooks_processor.py:67-96 | success iff some file is readable, and then the combined data is the concatenation; otherwise the state is kept |
| QuickBooks.ServiceColumns | quickbooks_processor.py:143-144 | keeps, in order, exactly the columns other than Customer, Year and Total |
| QuickBooks.PositiveTotals | quickbooks_processor.py:183-188 | exactly the services with a positive column sum, each with its sum |
| QuickBooks.ServiceTotals | quickbooks_processor.py:183-188 | the loop returns exactly the positive totals |
| QuickBooks.SumColumn | quickbooks_processor.py:186 | the loop returns the column's sum |
| QuickBooks.InsertDesc | quickbooks_processor.py:190 | inserting into a descending list keeps it descending and adds the item |
| QuickBooks.SortDesc | quickbooks_processor.py:190 | the sort is descending by total and has the same items |
| QuickBooks.InsertDescPermutation | quickbooks_processor.py:190 | insertion adds exactly one copy of the item |
| QuickBooks.SortDescPermutation | quickbooks_processor.py:190 | the sort is a permutation |
| QuickBooks.InsertDescStable | quickbooks_processor.py:190 | insertion keeps the order of items with equal totals |
| QuickBooks.WithTotalAppend | quickbooks_processor.py:190 | items with a given total split over a concatenation |
| QuickBooks.NoneWithTotal | quickbooks_processor.py:190 | no item has a total above all of them |
| QuickBooks.SortDescStable | quickbooks_processor.py:190 | the sort is stable: ties keep their original order, as Python's `sorted` |
| QuickBooks.TopServices | quickbooks_processor.py:190 | at most five, descending, a prefix of the sorted totals, all of them when five or fewer |
| QuickBooks.TopServicesBound | quickbooks_processor.py:183-190 | a service with a positive total is in the top list, or the list is full of totals at least as large |
| QuickBooks.QuickBooksProcessor.TopServiceTotals | quickbooks_processor.py:180-192 | without combined data there is no ranking; otherwise it is the top five positive service totals |
| ClientSearch.CsvFiles | client_search.py:22 | keeps, in order, exactly the listed names ending in `.csv` |
| ClientSearch.JoinPath | client_search.py:28 | the joined path ends with the file name |
| ClientSearch.RowMatchesStep | client_search.py:42-47 | a row matches over one more column iff it matched before or that cell's string matches |
| ClientSearch.RowResults | client_search.py:37-54 | row j yields its indexed string record iff some column's string matches the pattern |
| ClientSearch.FileMatchesMembership | client_search.py:37-54 | a record is a file match iff some matching row yields it |
| ClientSearch.FileMatchesNonEmpty | client_search.py:57-58 | a file has matches iff some row matches |
| ClientSearch.FilePairs | client_search.py:27-58 | one (file, matches) pair per CSV file, in order |
| ClientSearch.SearchCsvFiles | client_search.py:10-63 | an invalid pattern is an error; otherwise the results are a well-formed dictionary |
| ClientSearch.FileResultNonEmpty | client_search.py:28-58 | a file contributes iff it is readable and some row matches |
| ClientSearch.SearchCsvFilesEntries | client_search.py:10-63 | a file is a key iff it is a listed CSV with matches, and it maps to exactly its matches |
| ClientSearch.SearchFiles | client_search.py:10-63 | the file loop returns exactly the specified results |
| ClientSearch.SearchRows | client_search.py:37-54 | the row loop collects exactly the file's matches |
| ClientSearch.ScanRow | client_search.py:38-49 | the column loop builds the row's string record and finds a match iff the row matches |
| ClientSearch.TotalIsAllMatches | client_search.py:77 | the total over the results is the sum of the match-list lengths |
| ClientSearch.TotalAfterPut | client_search.py:77 | adding a new file adds its number of matches to the total |
| ClientSearch.SearchCsvFilesTotal | client_search.py:77 | the total of a search is the number of matching rows over all CSV files |
| ClientSearch.DisplayFields | client_search.py:87 | exactly the record's keys other than `_row_index` are displayed |
| ClientSearch.DisplayColumnsOf | client_search.py:87-93 | the column loop prints exactly the record's keys other than `_row_index`, in the record's order |
| ClientSearch.DisplayTotal | client_search.py:73-78 | no results gives no total; otherwise the total number of matches |
| Calendar.ExtractClientName | calendar_adapter.py:67-82 | non-strings give ""; the pattern's group is stripped; otherwise the stripped text after the first `:`, or the summary itself |
| Calendar.ClientNameStripped | calendar_adapter.py:69-79 | a name taken from the pattern or the colon is stripped |
| Calendar.ExtractLocation | calendar_adapter.py:84-95 | a non-empty location only comes from a string matching the address pattern, and is stripped |
| Calendar.EventDate | calendar_adapter.py:51-52 | a string with a space gives its first word (the text before the first space); anything else is unchanged |
| Calendar.EventDateIdempotent | calendar_adapter.py:51-52 | taking the date twice changes nothing |
| Calendar.TextTag | calendar_adapter.py:102-107 | a cell gives one tag iff it is a string |
| Calendar.TagPositions | calendar_adapter.py:97-117 | tags are the calendar, the status, the non-empty client name and the companies, in that order |
| Calendar.TagsSplitBack | calendar_adapter.py:119-120 | when no tag holds a comma, splitting the tags string on `,` gives the tags back (with the joining space) |
| Calendar.ClientNames | calendar_adapter.py:44 | each row's client name comes from its summary |
| Calendar.Locations | calendar_adapter.py:48 | each row's location comes from its description |
| Calendar.EventDates | calendar_adapter.py:51-52 | each row's event date comes from its start date |
| Calendar.TagCells | calendar_adapter.py:55 | each row's tags are generated from the row |
| Calendar.NamedNeedsLocation | calendar_adapter.py:44-47 | adding Client_Name does not change whether a location must be derived |
| Calendar.EnrichSucceeds | calendar_adapter.py:42-65 | enrichment succeeds iff Summary and Start Date exist, and Description exists when a location must be derived |
| Calendar.EnrichWithoutSummary | calendar_adapter.py:44 | without a Summary column enrichment fails and the table is unchanged |
| Calendar.EnrichRows | calendar_adapter.py:44-55 | on success every row is enriched and the row count is kept |
| Calendar.EnrichedRowFields | calendar_adapter.py:44-52 | an enriched row holds its client name, its derived or original location, and its event date |
| Calendar.EnrichedRowTags | calendar_adapter.py:55 | an enriched row's tags are computed with its own new client name |
| Calendar.EnrichedRowKeeps | calendar_adapter.py:44-55 | every other column of the row is unchanged |
| Calendar.EnrichedColumns | calendar_adapter.py:44-55 | the new columns are the old ones plus the four added, and they stay distinct |
| Calendar.CalendarAdapter.constructor | calendar_adapter.py:16-29 | the adapter holds the file name and the loaded table, if any |
| Calendar.CalendarAdapter.EnrichEventData | calendar_adapter.py:31-65 | with no data it fails and changes nothing; otherwise the data becomes the enriched table and the result is its success |
| GKeep.ContextWithinText | gkeep_adapter.py:32 | the context is the text from 50 before to 300 after the match, clipped to the text, and contains the match |
| GKeep.NotesClean | gkeep_adapter.py:50 | notes have no newline and are stripped |
| GKeep.OrElse | gkeep_adapter.py:48-49 | a found value is used, otherwise the known fallback |
| GKeep.ContextRecord | gkeep_adapter.py:45-52 | a context record carries the matched person's name |
| GKeep.AnnaContacts | gkeep_adapter.py:32-52 | Anna's record from a context has her known address, the notes, and the found e-mail/phone or the known ones |
| GKeep.OtherContacts | gkeep_adapter.py:101-185 | Hilda and Kenneth get the found e-mail/phone or ""; Francis gets his fixed e-mail and the found phone |
| GKeep.MatchRecords | gkeep_adapter.py:31-54 | one record per match, in order, each from its own context window |
| GKeep.Stage1Names | gkeep_adapter.py:45-54 | every record from the specific pattern is named Anna Wong |
| GKeep.Stage1Found | gkeep_adapter.py:56-91 | when the specific pattern found Anna, neither fallback adds a record |
| GKeep.Stage1Empty | gkeep_adapter.py:56-91 | otherwise exactly one fallback record is added: the alternative one if the alternative pattern matches, else the known one |
| GKeep.LadderHead | gkeep_adapter.py:23-91 | the Anna ladder always starts with an Anna Wong record |
| GKeep.KeysOf | gkeep_adapter.py:189-195 | the set of keys is exactly the keys of the list |
| GKeep.DedupKeys | gkeep_adapter.py:187-195 | de-duplication keeps every name |
| GKeep.DedupOrder | gkeep_adapter.py:187-195 | de-duplication keeps the original order |
| GKeep.DedupDistinct | gkeep_adapter.py:187-195 | de-duplicated names are pairwise distinct |
| GKeep.DedupProperties | gkeep_adapter.py:187-195 | de-duplication is an order-preserving selection with distinct names covering every name |
| GKeep.DedupFirstWins | gkeep_adapter.py:191-195 | each kept client is the first with its name |
| GKeep.DedupKeepsHead | gkeep_adapter.py:191-195 | the first client always survives de-duplication |
| GKeep.ExactlyOneAnna | gkeep_adapter.py:20-195 | the output has exactly one Anna Wong, and it is the first record of the ladder |
| GKeep.CsvRow | gkeep_adapter.py:200-204 | one value per field, in the header's order |
| GKeep.CsvLines | gkeep_adapter.py:197-204 | the header line followed by one row per client |
| GKeep.AnnaClients | gkeep_adapter.py:23-91 | the Anna part returns exactly the ladder |
| GKeep.AppendMatches | gkeep_adapter.py:101-124 | a match loop appends exactly the match records |
| GKeep.UniqueClients | gkeep_adapter.py:187-195 | the loop returns exactly the de-duplicated clients |
| GKeep.WriteRows | gkeep_adapter.py:197-204 | the writer produces exactly the CSV lines |
| GKeep.ExtractGKeepData | gkeep_adapter.py:20-204 | the whole extraction writes exactly the CSV lines of the de-duplicated clients |

## Left out

- Terminal colours, progress messages and `debug` output are left out. They change no result.
- Flask routing, HTML rendering, `send_file`, temporary files and the export timestamp are left out. The handlers are modelled by their JSON-level results.
- The JSON encoding and decoding of results is left out. Decoding is a parameter.
- WebSearch.ExportRows: a decode failure gives `Error during export` without the `: {str(e)}` suffix of web_search_interface.py:314-318, because decoding is a parameter and the exception's text is not modelled.
- The schedule database's SQLite connection, the SQL text (`CREATE TABLE`, `INSERT`, indexes) and the query helpers are left out. The model stops at the column mapping, the types and the row values.
- Fuzzy scoring (`fuzz.ratio`) is a parameter, as are `pd.to_datetime`/`strptime`, `pd.to_numeric` and the regular expressions other than the filename date, the invoice line and the QuickBooks file name.
- Numbers are integers. Money and scores in floating point are not modelled. Pandas' int/float cell types collapse to `Num`.
- String handling is ASCII only: `lower`, `strip`, `\s` and `\d`. There is no Unicode case folding.
- Directory listings (`os.listdir`, `glob`), file existence, file reading and `os.path.getmtime` are parameters. `read` returning none stands for any exception while reading.
- The dynamic regeneration of the structured Keep file and of the consolidated schedules (`_ensure_*`) is left out, along with `main`/CLI parsing and the interactive loops.
- `export_results`, `analyze_file`, the year-by-year and top-customer revenue summaries and `_create_sqlite_database` of the QuickBooks processor are left out. They are output-only or SQL.
- DeepSearch.DeepSearchAgent.constructor: it does not call the loader itself; the caller does.
- ScheduleDatabase.StoredCell: it models the `strftime` conversion as a formatting parameter per cell. It also looks the date column up under its original name. That agrees with the source only when clean names are distinct. When two columns share a clean name (see `MappingCollision`: `x`, `X`, `x_2`), `CREATE TABLE` fails on the duplicate column and the source returns `False`. A date conversion on such a doubled column would also raise and be skipped by the bare `except`. That failure path is not modelled.
- DailySchedule.ExtractDateFromFilename: it takes the modification date as an already formatted optional string. A failure to read it is `None`.
- Calendar.CalendarAdapter.EnrichEventData: it does not write the enriched CSV file.
- GKeep.ExtractGKeepData: it returns the CSV lines instead of writing `GKeep_Structured.csv`. The context windows are positions reported by the regex parameter.
- QuickBooks.QuickBooksProcessor.ProcessAllFiles: it does not write the consolidated CSV and does not build the SQLite copy.
