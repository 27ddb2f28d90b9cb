/** The command-line client search of client_search.py: every row of every
    CSV file in a directory in which some cell matches the query pattern,
    grouped by file, and the total the report shows. */
module ClientSearch {
  import opened Wrappers
  import opened Text
  import opened Seqs
  import opened PyDict
  import opened Frames
  import opened DeepSearchSpec

  /** `re.compile(query, re.IGNORECASE).search(text) is not None`. */
  type Pattern = string -> bool

  /** `re.compile`: the pattern of a query, `None` when the query is not a
      valid regular expression. */
  type Compile = string -> Option<Pattern>

  /** Per file, its matching rows. */
  type Results = Dict<seq<Record>>

  /* ---------------------------------------------------------------------
     Files
     --------------------------------------------------------------------- */

  /** `f.endswith('.csv')` */
  predicate IsCsvName(f: string) {
    |f| >= 4 && f[|f| - 4..] == ".csv"
  }

  /** The CSV files of a directory listing, in listing order. */
  function CsvFiles(listing: seq<string>): (r: seq<string>)
    ensures forall f :: f in r <==> f in listing && IsCsvName(f)
    ensures IsSubsequence(r, listing)
  {
    Filter(listing, IsCsvName)
  }

  /** `os.path.join(directory, name)` for a relative name. */
  function JoinPath(directory: string, name: string): (r: string)
    ensures |r| >= |name| && r[|r| - |name|..] == name
  {
    if name != [] && name[0] == '/' then name
    else if directory == [] || directory[|directory| - 1] == '/' then directory + name
    else directory + "/" + name
  }

  /* ---------------------------------------------------------------------
     Rows
     --------------------------------------------------------------------- */

  /** Some column's text matches the pattern. */
  predicate RowMatches(row: Row, columns: seq<string>, pattern: Pattern) {
    exists k :: 0 <= k < |columns| && pattern(Stringify(At(row, columns[k])))
  }

  /** `RowMatches` over one more column: one step of the column loop. */
  lemma RowMatchesStep(row: Row, columns: seq<string>, pattern: Pattern, j: nat)
    requires j < |columns|
    ensures RowMatches(row, columns[..j + 1], pattern) <==>
      RowMatches(row, columns[..j], pattern) || pattern(Stringify(At(row, columns[j])))
  {
    assert forall k :: 0 <= k <= j ==> columns[..j + 1][k] == columns[k];
    assert forall k :: 0 <= k < j ==> columns[..j][k] == columns[k];
    if pattern(Stringify(At(row, columns[j]))) {
      assert columns[..j + 1][j] == columns[j];
    }
  }

  /** What row `j` contributes: its record, when it matches. */
  function RowResults(columns: seq<string>, rows: seq<Row>, pattern: Pattern): (r: seq<Option<Record>>)
    ensures |r| == |rows|
    ensures forall j :: 0 <= j < |rows| ==>
      r[j] == if RowMatches(rows[j], columns, pattern) then Some(IndexedRecord(columns, rows[j], j)) else None
  {
    seq(|rows|, j requires 0 <= j < |rows| =>
      if RowMatches(rows[j], columns, pattern) then Some(IndexedRecord(columns, rows[j], j)) else None)
  }

  /** The records of a file's matching rows, in row order. */
  function FileMatches(columns: seq<string>, rows: seq<Row>, pattern: Pattern): seq<Record> {
    Somes(RowResults(columns, rows, pattern))
  }

  /** A record is in a file's matches exactly when it is the record of a
      matching row. */
  lemma FileMatchesMembership(columns: seq<string>, rows: seq<Row>, pattern: Pattern, rec: Record)
    ensures rec in FileMatches(columns, rows, pattern) <==>
      exists j :: 0 <= j < |rows| && RowMatches(rows[j], columns, pattern) && rec == IndexedRecord(columns, rows[j], j)
  {
    SomesMembership(RowResults(columns, rows, pattern), rec);
  }

  /** A file has matches exactly when one of its rows matches. */
  lemma FileMatchesNonEmpty(columns: seq<string>, rows: seq<Row>, pattern: Pattern)
    ensures FileMatches(columns, rows, pattern) != [] <==> exists j :: 0 <= j < |rows| && RowMatches(rows[j], columns, pattern)
  {
    var rs := RowResults(columns, rows, pattern);
    if exists j :: 0 <= j < |rows| && RowMatches(rows[j], columns, pattern) {
      var j :| 0 <= j < |rows| && RowMatches(rows[j], columns, pattern);
      SomesMembership(rs, IndexedRecord(columns, rows[j], j));
    } else if FileMatches(columns, rows, pattern) != [] {
      SomesMembership(rs, FileMatches(columns, rows, pattern)[0]);
    }
  }

  /* ---------------------------------------------------------------------
     search_csv_files
     --------------------------------------------------------------------- */

  /** What a file contributes: its matches, or none when it cannot be read. */
  function FileResult(directory: string, file: string, read: string -> Option<Table>, pattern: Pattern)
    : seq<Record>
  {
    match read(JoinPath(directory, file))
    case None => []
    case Some(t) => FileMatches(t.columns, t.rows, pattern)
  }

  /** Each CSV file with what it contributes, in listing order. */
  function FilePairs(directory: string, files: seq<string>, read: string -> Option<Table>, pattern: Pattern)
    : (r: seq<(string, seq<Record>)>)
    ensures |r| == |files|
    ensures forall i :: 0 <= i < |files| ==> r[i] == (files[i], FileResult(directory, files[i], read, pattern))
  {
    seq(|files|, i requires 0 <= i < |files| => (files[i], FileResult(directory, files[i], read, pattern)))
  }

  /** `search_csv_files`: an error when the query is not a valid pattern;
      otherwise every CSV file with at least one matching row, with its
      matches. */
  function SearchCsvFiles(query: string, directory: string, listing: seq<string>, compile: Compile,
                          read: string -> Option<Table>): (r: Result<Results, string>)
    ensures r.Err? <==> compile(query).None?
    ensures r.Ok? ==> Valid(r.value)
  {
    match compile(query)
    case None => Err("invalid pattern: " + query)
    case Some(pattern) => Ok(PutNonEmpty(Empty(), FilePairs(directory, CsvFiles(listing), read, pattern)))
  }

  /** A file contributes matches exactly when it reads and one of its rows
      matches. */
  lemma FileResultNonEmpty(directory: string, file: string, read: string -> Option<Table>, pattern: Pattern)
    ensures FileResult(directory, file, read, pattern) != [] <==>
      && read(JoinPath(directory, file)).Some?
      && var t := read(JoinPath(directory, file)).value;
      exists j :: 0 <= j < |t.rows| && RowMatches(t.rows[j], t.columns, pattern)
  {
    var df := read(JoinPath(directory, file));
    if df.Some? {
      FileMatchesNonEmpty(df.value.columns, df.value.rows, pattern);
    }
  }

  /** A file is in the results exactly when it is a CSV file of the
      listing that contributes matches; its entry is those matches. */
  lemma SearchCsvFilesEntries(query: string, directory: string, listing: seq<string>, compile: Compile,
                              read: string -> Option<Table>, file: string)
    requires compile(query).Some? && Distinct(listing)
    ensures var results := SearchCsvFiles(query, directory, listing, compile, read).value;
      var contributed := FileResult(directory, file, read, compile(query).value);
      && (file in results.items <==> IsCsvName(file) && file in listing && contributed != [])
      && (file in results.items ==> results.items[file] == contributed)
  {
    var pattern := compile(query).value;
    var files := CsvFiles(listing);
    FilterDistinct(listing, IsCsvName);
    PutNonEmptyOf(files, FilePairs(directory, files, read, pattern),
                  name => FileResult(directory, name, read, pattern), file);
  }

  /** `search_csv_files` as its file, row and column loops. */
  method SearchFiles(query: string, directory: string, listing: seq<string>, compile: Compile,
                     read: string -> Option<Table>) returns (r: Result<Results, string>)
    ensures r == SearchCsvFiles(query, directory, listing, compile, read)
  {
    var compiled := compile(query);
    if compiled.None? {
      return Err("invalid pattern: " + query);
    }
    var pattern := compiled.value;
    var csvFiles := CsvFiles(listing);
    ghost var pairs := FilePairs(directory, csvFiles, read, pattern);
    var results: Results := Empty();
    var i := 0;
    while i < |csvFiles|
      invariant 0 <= i <= |csvFiles|
      invariant results == PutNonEmpty(Empty(), pairs[..i])
    {
      var csvFile := csvFiles[i];
      PutNonEmptyStep(Empty(), pairs, i);
      var df := read(JoinPath(directory, csvFile));
      if df.Some? {
        var fileMatches := SearchRows(df.value.columns, df.value.rows, pattern);
        if fileMatches != [] {
          results := Put(results, csvFile, fileMatches);
        }
      }
      i := i + 1;
    }
    PrefixFull(pairs);
    return Ok(results);
  }

  /** The row loop of one file. */
  method SearchRows(columns: seq<string>, rows: seq<Row>, pattern: Pattern) returns (fileMatches: seq<Record>)
    ensures fileMatches == FileMatches(columns, rows, pattern)
  {
    ghost var rs := RowResults(columns, rows, pattern);
    fileMatches := [];
    var idx := 0;
    while idx < |rows|
      invariant 0 <= idx <= |rows|
      invariant fileMatches == Somes(rs[..idx])
    {
      SomesStep(rs, idx);
      var rowMatches, matchFound := ScanRow(columns, rows[idx], pattern);
      if matchFound {
        rowMatches := Put(rowMatches, RowIndexField, Num(idx));
        fileMatches := fileMatches + [rowMatches];
      }
      idx := idx + 1;
    }
    PrefixFull(rs);
  }

  /** The column loop of one row: every column's text is recorded, and the
      flag says whether any of them matched. */
  method ScanRow(columns: seq<string>, row: Row, pattern: Pattern) returns (rowMatches: Record, matchFound: bool)
    ensures rowMatches == StrRowRecord(columns, row)
    ensures matchFound == RowMatches(row, columns, pattern)
  {
    rowMatches := Empty();
    matchFound := false;
    var j := 0;
    while j < |columns|
      invariant 0 <= j <= |columns|
      invariant rowMatches == StrRowRecord(columns[..j], row)
      invariant matchFound == RowMatches(row, columns[..j], pattern)
    {
      var column := columns[j];
      StrRowRecordStep(columns, row, j);
      RowMatchesStep(row, columns, pattern, j);
      var cellValue := Stringify(At(row, column));
      if pattern(cellValue) {
        matchFound := true;
      }
      rowMatches := WithText(rowMatches, row, column);
      j := j + 1;
    }
    PrefixFull(columns);
  }

  /* ---------------------------------------------------------------------
     display_results
     --------------------------------------------------------------------- */

  /** The number of matches over the given files. */
  function TotalOver<T>(results: Dict<seq<T>>, files: seq<string>): nat
    decreases |files|
  {
    if files == [] then 0
    else
      var f := files[|files| - 1];
      TotalOver(results, files[..|files| - 1]) + (if f in results.items then |results.items[f]| else 0)
  }

  /** `total_matches`: the matches of every file in the results. */
  function TotalMatches<T>(results: Dict<seq<T>>): nat {
    TotalOver(results, results.keys)
  }

  /** The lengths of the non-empty match lists, added up. */
  function SumLengths<T>(pairs: seq<(string, seq<T>)>): nat
    decreases |pairs|
  {
    if pairs == [] then 0 else SumLengths(pairs[..|pairs| - 1]) + |pairs[|pairs| - 1].1|
  }

  /** Over distinct file names, the total shown is the number of matching
      rows across all files. */
  lemma {:induction false} TotalIsAllMatches<T>(pairs: seq<(string, seq<T>)>)
    requires DistinctNames(pairs)
    ensures TotalMatches(PutNonEmpty(Empty(), pairs)) == SumLengths(pairs)
    decreases |pairs|
  {
    if pairs != [] {
      var n := |pairs| - 1;
      var init := pairs[..n];
      DistinctNamesLast(pairs);
      TotalIsAllMatches(init);
      PutNonEmptyStep(Empty(), pairs, n);
      PrefixFull(pairs);
      if pairs[n].1 != [] {
        TotalAfterPut(PutNonEmpty(Empty(), init), pairs[n].0, pairs[n].1);
      }
    }
  }

  /** Adding a new file adds its matches to the total. */
  lemma TotalAfterPut<T>(prev: Dict<seq<T>>, k: string, v: seq<T>)
    requires Valid(prev) && k !in prev.items
    ensures TotalMatches(Put(prev, k, v)) == TotalMatches(prev) + |v|
  {
    var next := Put(prev, k, v);
    assert k !in prev.keys;
    TotalOverFrame(prev, next, prev.keys);
    assert next.keys[..|next.keys| - 1] == prev.keys;
  }

  /** The total `display_results` reports for a search is the number of
      matching rows over all CSV files of the listing. */
  lemma SearchCsvFilesTotal(query: string, directory: string, listing: seq<string>, compile: Compile,
                            read: string -> Option<Table>)
    requires compile(query).Some? && Distinct(listing)
    ensures TotalMatches(SearchCsvFiles(query, directory, listing, compile, read).value) ==
      SumLengths(FilePairs(directory, CsvFiles(listing), read, compile(query).value))
  {
    var files := CsvFiles(listing);
    var pairs := FilePairs(directory, files, read, compile(query).value);
    FilterDistinct(listing, IsCsvName);
    assert forall a, b :: 0 <= a < b < |pairs| ==> pairs[a].0 != pairs[b].0 by {
      forall a, b | 0 <= a < b < |pairs| ensures pairs[a].0 != pairs[b].0 {
        assert pairs[a].0 == files[a] && pairs[b].0 == files[b];
      }
    }
    TotalIsAllMatches(pairs);
  }

  /** The total over keys an update leaves alone is unchanged. */
  lemma {:induction false} TotalOverFrame<T>(a: Dict<seq<T>>, b: Dict<seq<T>>, files: seq<string>)
    requires forall f :: f in files ==> (f in a.items <==> f in b.items)
    requires forall f :: f in files && f in a.items ==> a.items[f] == b.items[f]
    ensures TotalOver(a, files) == TotalOver(b, files)
    decreases |files|
  {
    if files != [] {
      TotalOverFrame(a, b, files[..|files| - 1]);
    }
  }

  /** The fields shown for a match: all but `_row_index`, in order. */
  function DisplayFields(m: Record): (r: seq<string>)
    ensures RowIndexField !in r
    ensures forall k :: k in r <==> k in m.keys && k != RowIndexField
  {
    Filter(m.keys, (k: string) => k != RowIndexField)
  }

  /** The column loop of `display_results` for one match: the columns it
      prints, in the match's key order, without `_row_index`. */
  method DisplayColumnsOf(m: Record) returns (shown: seq<string>)
    ensures shown == DisplayFields(m)
  {
    shown := [];
    var i := 0;
    while i < |m.keys|
      invariant 0 <= i <= |m.keys|
      invariant shown == Filter(m.keys[..i], (k: string) => k != RowIndexField)
    {
      FilterStep(m.keys, (k: string) => k != RowIndexField, i);
      if m.keys[i] != RowIndexField {
        shown := shown + [m.keys[i]];
      }
      i := i + 1;
    }
    PrefixFull(m.keys);
  }

  /** The total `display_results` reports: nothing when there are no
      results, else the number of matches. */
  method DisplayTotal(results: Results) returns (total: Option<nat>)
    ensures results.keys == [] ==> total.None?
    ensures results.keys != [] ==> total == Some(TotalMatches(results))
  {
    if results.keys == [] {
      return None;
    }
    var sum := 0;
    var i := 0;
    while i < |results.keys|
      invariant 0 <= i <= |results.keys|
      invariant sum == TotalOver(results, results.keys[..i])
    {
      var fileName := results.keys[i];
      PrefixSnoc(results.keys, i);
      if fileName in results.items {
        sum := sum + |results.items[fileName]|;
      }
      i := i + 1;
    }
    PrefixFull(results.keys);
    return Some(sum);
  }
}
