/** The `DeepSearchAgent` of deep_search_agent.py: the datasets it has
    loaded, and its searches as loops over files, rows and columns, each
    proved to compute the function of DeepSearchSpec that describes it. */
module DeepSearch {
  import opened Wrappers
  import opened Text
  import opened Seqs
  import opened PyDict
  import opened Frames
  import opened DeepSearchSpec

  class DeepSearchAgent {
    /** The CSV files found on start-up, in order. */
    var csvFiles: seq<string>
    /** `self.dataframes`: file name to dataframe, in loading order. */
    var dataframes: Dict<Table>

    ghost predicate Valid()
      reads this
    {
      PyDict.Valid(dataframes)
    }

    /** The agent over the given file list (the directory listing is not
        modelled), with nothing loaded yet. */
    constructor(files: seq<string>)
      ensures Valid()
      ensures csvFiles == files && dataframes == Empty()
    {
      csvFiles := files;
      dataframes := Empty();
    }

    /** `load_csv_files`: every listed file that is not skipped and that
        `read` can parse is stored under its name. */
    method LoadCsvFiles(read: string -> Option<Table>)
      requires Valid()
      modifies this
      ensures Valid()
      ensures csvFiles == old(csvFiles)
      ensures dataframes == Loaded(old(dataframes), csvFiles, csvFiles, read)
    {
      ghost var d0 := dataframes;
      var i := 0;
      while i < |csvFiles|
        invariant 0 <= i <= |csvFiles|
        invariant csvFiles == old(csvFiles)
        invariant dataframes == Loaded(d0, csvFiles[..i], csvFiles, read)
        invariant PyDict.Valid(dataframes)
      {
        var file := csvFiles[i];
        LoadedStep(d0, csvFiles, csvFiles, read, i);
        if file == RawGKeepFile && StructuredGKeepFile in csvFiles {
          // the structured export is used instead
        } else {
          var df := read(file);
          if df.Some? {
            dataframes := Put(dataframes, file, df.value);
          }
        }
        i := i + 1;
      }
      PrefixFull(csvFiles);
    }

    /** `exact_search` */
    method ExactSearch(query: string, caseSensitive: bool, columns: Option<seq<string>>) returns (results: seq<Record>)
      requires Valid()
      ensures results == ExactResults(Datasets(dataframes), query, caseSensitive, columns)
    {
      ghost var files := ExactFiles(Datasets(dataframes), query, caseSensitive, columns);
      results := [];
      var i := 0;
      while i < |dataframes.keys|
        invariant 0 <= i <= |dataframes.keys|
        invariant results == Concat(files[..i])
      {
        var fileName := dataframes.keys[i];
        var df := dataframes.items[fileName];
        ConcatStep(files, i);
        var searchColumns := SearchColumns(columns, df.columns);
        if searchColumns != [] {
          var fileResults := ExactSearchRows(fileName, df.columns, df.rows, searchColumns, query, caseSensitive);
          results := results + fileResults;
        }
        i := i + 1;
      }
      PrefixFull(files);
    }

    /** `fuzzy_search` */
    method FuzzySearch(query: string, threshold: int, columns: Option<seq<string>>, ratio: Ratio)
      returns (results: seq<Record>)
      requires Valid()
      ensures results == FuzzyResults(Datasets(dataframes), query, threshold, columns, ratio)
    {
      ghost var files := FuzzyFiles(Datasets(dataframes), query, threshold, columns, ratio);
      results := [];
      var i := 0;
      while i < |dataframes.keys|
        invariant 0 <= i <= |dataframes.keys|
        invariant results == Concat(files[..i])
      {
        var fileName := dataframes.keys[i];
        var df := dataframes.items[fileName];
        ConcatStep(files, i);
        var searchColumns := SearchColumns(columns, df.columns);
        if searchColumns != [] {
          var fileResults := FuzzySearchRows(fileName, df.columns, df.rows, searchColumns, query, threshold, ratio);
          results := results + fileResults;
        }
        i := i + 1;
      }
      PrefixFull(files);
    }

    /** `filter_by_date_range` */
    method FilterByDateRange(results: seq<Record>, startDate: string, endDate: string, toDatetime: ToDatetime)
      returns (r: Result<seq<Record>, string>)
      ensures r == DateRangeFiltered(results, startDate, endDate, toDatetime)
    {
      if results == [] || (startDate == "" && endDate == "") {
        return Ok(results);
      }
      var start := Bound(startDate, toDatetime);
      if start.Err? {
        return Err(start.error);
      }
      var end := Bound(endDate, toDatetime);
      if end.Err? {
        return Err(end.error);
      }
      var filteredResults := KeepInRange(results, start.value, end.value, toDatetime);
      return Ok(filteredResults);
    }

    /** `combined_search`; `date_columns` is accepted and not used. */
    method CombinedSearch(query: string, fuzzy: bool, minScore: int, startDate: string, endDate: string,
                          dateColumns: Option<seq<string>>, filters: Dict<string>, caseSensitive: bool,
                          ratio: Ratio, toDatetime: ToDatetime) returns (r: Result<seq<Record>, string>)
      requires Valid()
      ensures r == CombinedResults(Datasets(dataframes), query, fuzzy, minScore, startDate, endDate, filters,
                                   caseSensitive, ratio, toDatetime)
    {
      var results := [];
      if query != "" {
        if fuzzy {
          results := FuzzySearch(query, minScore, None, ratio);
        } else {
          results := ExactSearch(query, caseSensitive, None);
        }
      }
      if (startDate != "" || endDate != "") && results != [] {
        var dated := FilterByDateRange(results, startDate, endDate, toDatetime);
        if dated.Err? {
          return Err(dated.error);
        }
        results := dated.value;
      }
      if |filters.keys| > 0 && results != [] {
        results := KeepMatchingFilters(results, filters);
      }
      return Ok(results);
    }

    /** `date_range_search` */
    method DateRangeSearch(startDate: string, endDate: string, dateColumns: Option<seq<string>>,
                           strptime: ParseDate, parseDate: ParseDate) returns (results: Dict<seq<Record>>)
      requires Valid()
      ensures results == DateRangeResults(Datasets(dataframes), startDate, endDate, dateColumns, strptime, parseDate)
    {
      var start: Option<Instant> := None;
      if startDate != "" {
        start := strptime(startDate);
        if start.None? {
          return Empty();
        }
      }
      var end: Option<Instant> := None;
      if endDate != "" {
        end := strptime(endDate);
        if end.None? {
          return Empty();
        }
      }
      assert start == DateBoundOf(startDate, strptime) && end == DateBoundOf(endDate, strptime);
      results := DateSearchFiles(Datasets(dataframes), dateColumns, start, end, parseDate);
    }
  }

  /** The row loop of `exact_search` for one file. */
  method ExactSearchRows(fileName: string, columns: seq<string>, rows: seq<Row>, searchColumns: seq<string>,
                         query: string, caseSensitive: bool) returns (results: seq<Record>)
    ensures results == Somes(ExactRowResults(fileName, columns, rows, searchColumns, query, caseSensitive))
  {
    ghost var rowResults := ExactRowResults(fileName, columns, rows, searchColumns, query, caseSensitive);
    results := [];
    var j := 0;
    while j < |rows|
      invariant 0 <= j <= |rows|
      invariant results == Somes(rowResults[..j])
    {
      var row := rows[j];
      var matchFound, matchingValue := ExactMatchRow(row, searchColumns, query, caseSensitive);
      SomesStep(rowResults, j);
      if matchFound {
        var record := RowRecord(columns, row);
        record := Put(record, FileField, Str(fileName));
        record := Put(record, MatchingValueField, Str(matchingValue));
        results := results + [record];
      }
      j := j + 1;
    }
    PrefixFull(rowResults);
  }

  /** The column loop of `exact_search` for one row: stops at the first
      present cell whose text contains the query. */
  method ExactMatchRow(row: Row, searchColumns: seq<string>, query: string, caseSensitive: bool)
    returns (matchFound: bool, matchingValue: string)
    ensures matchFound <==> FirstExactMatch(row, searchColumns, query, caseSensitive).Some?
    ensures matchFound ==> matchingValue == FirstExactMatch(row, searchColumns, query, caseSensitive).value
  {
    var queryForComparison := if caseSensitive then query else Lower(query);
    matchFound := false;
    matchingValue := "";
    var k := 0;
    while k < |searchColumns|
      invariant 0 <= k <= |searchColumns|
      invariant forall k' :: 0 <= k' < k ==> ExactCellMatch(At(row, searchColumns[k']), query, caseSensitive).None?
    {
      var cell := At(row, searchColumns[k]);
      if !IsNa(cell) {
        var cellValue := Stringify(cell);
        var cellForComparison := if caseSensitive then cellValue else Lower(cellValue);
        if Contains(cellForComparison, queryForComparison) {
          matchFound := true;
          matchingValue := cellValue;
          assert FirstMatchAt(row, searchColumns, query, caseSensitive, k);
          FirstExactMatchAt(row, searchColumns, query, caseSensitive, k);
          return;
        }
      }
      k := k + 1;
    }
  }

  /** The row loop of `fuzzy_search` for one file. */
  method FuzzySearchRows(fileName: string, columns: seq<string>, rows: seq<Row>, searchColumns: seq<string>,
                         query: string, threshold: int, ratio: Ratio) returns (results: seq<Record>)
    ensures results == Somes(FuzzyRowResults(fileName, columns, rows, searchColumns, query, threshold, ratio))
  {
    ghost var rowResults := FuzzyRowResults(fileName, columns, rows, searchColumns, query, threshold, ratio);
    results := [];
    var j := 0;
    while j < |rows|
      invariant 0 <= j <= |rows|
      invariant results == Somes(rowResults[..j])
    {
      var row := rows[j];
      var matchFound, highestScore, matchingValue := FuzzyMatchRow(row, searchColumns, query, threshold, ratio);
      SomesStep(rowResults, j);
      if matchFound {
        var record := RowRecord(columns, row);
        record := Put(record, FileField, Str(fileName));
        record := Put(record, MatchScoreField, Num(highestScore));
        record := Put(record, MatchingValueField, Str(matchingValue));
        results := results + [record];
      }
      j := j + 1;
    }
    PrefixFull(rowResults);
  }

  /** The column loop of `fuzzy_search` for one row: keeps the first
      string cell with the highest score above `threshold`. */
  method FuzzyMatchRow(row: Row, searchColumns: seq<string>, query: string, threshold: int, ratio: Ratio)
    returns (matchFound: bool, highestScore: Score, matchingValue: string)
    ensures (if matchFound then Some((highestScore, matchingValue)) else None) ==
      FuzzyBest(row, searchColumns, query, threshold, ratio)
  {
    matchFound := false;
    highestScore := 0;
    matchingValue := "";
    var k := 0;
    while k < |searchColumns|
      invariant 0 <= k <= |searchColumns|
      invariant !matchFound ==> highestScore == 0
      invariant (if matchFound then Some((highestScore, matchingValue)) else None) ==
        FuzzyBest(row, searchColumns[..k], query, threshold, ratio)
    {
      var cell := At(row, searchColumns[k]);
      PrefixSnoc(searchColumns, k);
      if !IsNa(cell) && cell.Str? {
        var score := ratio(Lower(query), Lower(cell.s));
        if score > threshold && score > highestScore {
          highestScore := score;
          matchFound := true;
          matchingValue := cell.s;
        }
      }
      k := k + 1;
    }
    PrefixFull(searchColumns);
  }

  /** The field loop of `filter_by_date_range` for one record: stops at the
      first present field that is a date within the bounds. */
  method DateInRangeFound(record: Record, start: Option<Instant>, end: Option<Instant>, toDatetime: ToDatetime)
    returns (dateFound: bool)
    ensures dateFound == HasDateInRange(record, start, end, toDatetime)
  {
    dateFound := false;
    var k := 0;
    while k < |record.keys|
      invariant 0 <= k <= |record.keys|
      invariant forall k' :: 0 <= k' < k ==> !FieldInRange(Lookup(record, record.keys[k'], Missing), start, end, toDatetime)
    {
      var value := Lookup(record, record.keys[k], Missing);
      if !IsNa(value) {
        var dateValue := toDatetime(value);
        if dateValue.Some? && (start.None? || dateValue.value >= start.value) &&
           (end.None? || dateValue.value <= end.value) {
          dateFound := true;
          return;
        }
      }
      k := k + 1;
    }
  }

  /** The filter loop of `combined_search` for one record: stops at the
      first filter that fails. */
  method MatchAllFilters(record: Record, filters: Dict<string>) returns (matchAll: bool)
    ensures matchAll == MatchesAllFilters(record, filters)
  {
    matchAll := true;
    var k := 0;
    while k < |filters.keys|
      invariant 0 <= k <= |filters.keys|
      invariant forall k' :: 0 <= k' < k ==> FilterHolds(record, filters.keys[k'], Lookup(filters, filters.keys[k'], ""))
    {
      var column := filters.keys[k];
      var filterValue := Lookup(filters, column, "");
      if column in record.items {
        var recordValue := Lower(Stringify(record.items[column]));
        if !Contains(recordValue, Lower(filterValue)) {
          matchAll := false;
          return;
        }
      } else {
        matchAll := false;
        return;
      }
      k := k + 1;
    }
  }

  /** The column scan of `date_range_search`: a column is a date column when
      one of its first five present values is a string that parses. */
  method DetectDateColumnsLoop(df: Table, parseDate: ParseDate) returns (potentialDateCols: seq<string>)
    ensures potentialDateCols == DetectDateColumns(df, df.columns, parseDate)
  {
    potentialDateCols := [];
    var c := 0;
    while c < |df.columns|
      invariant 0 <= c <= |df.columns|
      invariant potentialDateCols == DetectDateColumns(df, df.columns[..c], parseDate)
    {
      var column := df.columns[c];
      DetectDateColumnsStep(df, df.columns, parseDate, c);
      var isDateColumn := LooksLikeDateLoop(df, column, parseDate);
      if isDateColumn {
        potentialDateCols := potentialDateCols + [column];
      }
      c := c + 1;
    }
    PrefixFull(df.columns);
  }

  /** The row loop of `date_range_search` for one file. */
  method DateSearchRows(df: Table, dateCols: seq<string>, start: Option<Instant>, end: Option<Instant>,
                        parseDate: ParseDate) returns (fileMatches: seq<Record>)
    requires dateCols != []
    ensures fileMatches == Somes(DateRowResults(df.columns, df.rows, dateCols, start, end, parseDate))
  {
    ghost var rowResults := DateRowResults(df.columns, df.rows, dateCols, start, end, parseDate);
    fileMatches := [];
    var j := 0;
    while j < |df.rows|
      invariant 0 <= j <= |df.rows|
      invariant fileMatches == Somes(rowResults[..j])
    {
      var row := df.rows[j];
      var dateFound := RowDateFound(row, dateCols, start, end, parseDate);
      SomesStep(rowResults, j);
      if dateFound {
        var rowMatches := StrRowRecord(df.columns, row);
        rowMatches := Put(rowMatches, RowIndexField, Num(j));
        fileMatches := fileMatches + [rowMatches];
      }
      j := j + 1;
    }
    PrefixFull(rowResults);
  }

  /** The record loop of `filter_by_date_range`. */
  method KeepInRange(results: seq<Record>, start: Option<Instant>, end: Option<Instant>, toDatetime: ToDatetime)
    returns (filteredResults: seq<Record>)
    ensures filteredResults == InRangeRecords(results, start, end, toDatetime)
  {
    filteredResults := [];
    var i := 0;
    while i < |results|
      invariant 0 <= i <= |results|
      invariant filteredResults == InRangeRecords(results[..i], start, end, toDatetime)
    {
      var record := results[i];
      PrefixSnoc(results, i);
      var dateFound := DateInRangeFound(record, start, end, toDatetime);
      if dateFound {
        filteredResults := filteredResults + [record];
      }
      i := i + 1;
    }
    PrefixFull(results);
  }

  /** The record loop of the column filters in `combined_search`. */
  method KeepMatchingFilters(results: seq<Record>, filters: Dict<string>) returns (filteredResults: seq<Record>)
    ensures filteredResults == FilterRecords(results, filters)
  {
    filteredResults := [];
    var i := 0;
    while i < |results|
      invariant 0 <= i <= |results|
      invariant filteredResults == FilterRecords(results[..i], filters)
    {
      var record := results[i];
      PrefixSnoc(results, i);
      var matchAll := MatchAllFilters(record, filters);
      if matchAll {
        filteredResults := filteredResults + [record];
      }
      i := i + 1;
    }
    PrefixFull(results);
  }

  /** The value loop of the column scan: the first five present values. */
  method LooksLikeDateLoop(df: Table, column: string, parseDate: ParseDate) returns (isDateColumn: bool)
    ensures isDateColumn == LooksLikeDateColumn(df, column, parseDate)
  {
    var head := Take(PresentCells(df.rows, column), 5);
    var v := 0;
    while v < |head|
      invariant 0 <= v <= |head|
      invariant forall v' :: 0 <= v' < v ==> !(head[v'].Str? && IsDate(head[v'].s, parseDate))
    {
      var value := head[v];
      if value.Str? && parseDate(value.s).Some? {
        return true;
      }
      v := v + 1;
    }
    return false;
  }

  /** The date-column loop of `date_range_search` for one row; every
      column is looked at, none stops the scan. */
  method RowDateFound(row: Row, dateCols: seq<string>, start: Option<Instant>, end: Option<Instant>,
                      parseDate: ParseDate) returns (dateFound: bool)
    ensures dateFound == RowDateInRange(row, dateCols, start, end, parseDate)
  {
    dateFound := false;
    var k := 0;
    while k < |dateCols|
      invariant 0 <= k <= |dateCols|
      invariant dateFound <==> exists k' :: 0 <= k' < k && CellDateInRange(At(row, dateCols[k']), start, end, parseDate)
    {
      var cellValue := Stringify(At(row, dateCols[k]));
      if Lower(cellValue) != "nan" && cellValue != "" {
        var dateValue := parseDate(cellValue);
        if dateValue.Some? && InRange(dateValue.value, start, end) {
          dateFound := true;
        }
      }
      k := k + 1;
    }
  }

  /** The matches of one file in `date_range_search`: none when it has no
      date column. */
  method DateSearchFile(df: Table, dateColumns: Option<seq<string>>, start: Option<Instant>, end: Option<Instant>,
                        parseDate: ParseDate) returns (fileMatches: seq<Record>)
    ensures fileMatches == DateFileMatches(df, dateColumns, start, end, parseDate)
  {
    var potentialDateCols;
    if dateColumns.None? || dateColumns.value == [] {
      potentialDateCols := DetectDateColumnsLoop(df, parseDate);
    } else {
      potentialDateCols := KeepPresent(dateColumns.value, df.columns);
    }
    if potentialDateCols == [] {
      return [];
    }
    fileMatches := DateSearchRows(df, potentialDateCols, start, end, parseDate);
  }

  /** The file loop of `date_range_search` over `self.dataframes.items()`:
      a file with matches is stored under its name. */
  method DateSearchFiles(frames: seq<(string, Table)>, dateColumns: Option<seq<string>>, start: Option<Instant>,
                         end: Option<Instant>, parseDate: ParseDate) returns (results: Dict<seq<Record>>)
    ensures results == PutNonEmpty(Empty(), DateFiles(frames, dateColumns, start, end, parseDate))
  {
    ghost var files := DateFiles(frames, dateColumns, start, end, parseDate);
    results := Empty();
    var i := 0;
    while i < |frames|
      invariant 0 <= i <= |frames|
      invariant results == PutNonEmpty(Empty(), files[..i])
    {
      var (csvFile, df) := frames[i];
      PutNonEmptyStep(Empty(), files, i);
      var fileMatches := DateSearchFile(df, dateColumns, start, end, parseDate);
      if fileMatches != [] {
        results := Put(results, csvFile, fileMatches);
      }
      i := i + 1;
    }
    PrefixFull(files);
  }

  /** The column loop of `display_results` for one record: the (column,
      value) lines it prints, skipping NaN values. */
  method DisplayRecordFields(rec: Record, maxColumns: int) returns (shown: seq<(string, Cell)>)
    ensures shown == DisplayedFields(rec, maxColumns)
  {
    var columnsToDisplay := DisplayColumns(rec, maxColumns);
    shown := [];
    var i := 0;
    while i < |columnsToDisplay|
      invariant 0 <= i <= |columnsToDisplay|
      invariant shown == PresentFields(rec, columnsToDisplay[..i])
    {
      var col := columnsToDisplay[i];
      var value := Lookup(rec, col, Missing);
      PrefixSnoc(columnsToDisplay, i);
      if !IsNa(value) {
        shown := shown + [(col, value)];
      }
      i := i + 1;
    }
    PrefixFull(columnsToDisplay);
  }
}
