/** The QuickBooks import of quickbooks_processor.py: which files are
    QuickBooks exports, the year each one is for, how its money cells are
    cleaned into numbers, how the files combine, and which services the
    summary report ranks. */
module QuickBooks {
  import opened Wrappers
  import opened Text
  import opened Seqs
  import opened PyDict
  import opened Frames

  const CustomerColumn := "Customer"
  const YearColumn := "Year"
  const TotalColumn := "Total"
  const QbSuffix := "QB.csv"

  /* ---------------------------------------------------------------------
     File names
     --------------------------------------------------------------------- */

  /** `\d{4}\s+QB\.csv` matches the whole of `f`. */
  predicate QbNameCore(f: string) {
    && |f| >= 4 + 1 + |QbSuffix|
    && (forall i :: 0 <= i < 4 ==> IsDigit(f[i]))
    && (forall i :: 4 <= i < |f| - |QbSuffix| ==> IsSpace(f[i]))
    && f[|f| - |QbSuffix|..] == QbSuffix
  }

  /** `re.match(r'^\d{4}\s+QB\.csv$', f)`: the pattern matches the whole
      name, or the name less one trailing line break (where `$` also
      matches). */
  predicate IsQbFileName(f: string) {
    QbNameCore(f) || (|f| > 0 && f[|f| - 1] == '\n' && QbNameCore(f[..|f| - 1]))
  }

  /** `_get_qb_files`: the names in the listing that are QuickBooks
      exports, in listing order. */
  function QbFiles(listing: seq<string>): (r: seq<string>)
    ensures forall f :: f in r <==> f in listing && IsQbFileName(f)
    ensures IsSubsequence(r, listing)
  {
    Filter(listing, IsQbFileName)
  }

  /** The year of a file: the four digits its base name starts with when
      the base name is a QuickBooks export name, `Unknown` otherwise. */
  function QbYear(path: string): (r: string)
    ensures IsQbFileName(Basename(path)) ==> |r| == 4 && (forall i :: 0 <= i < 4 ==> IsDigit(r[i]))
    ensures IsQbFileName(Basename(path)) ==> r == Basename(path)[..4]
    ensures !IsQbFileName(Basename(path)) ==> r == "Unknown"
  {
    var b := Basename(path);
    if IsQbFileName(b) then QbFileNameDigits(b); b[..4] else "Unknown"
  }

  /** An export name starts with four digits. */
  lemma QbFileNameDigits(f: string)
    requires IsQbFileName(f)
    ensures |f| >= 4 && forall i :: 0 <= i < 4 ==> IsDigit(f[i])
  {
    if !QbNameCore(f) {
      var g := f[..|f| - 1];
      assert forall i :: 0 <= i < 4 ==> f[i] == g[i];
    }
  }

  /** A listed file's year is its own first four characters. */
  lemma ListedFileYear(listing: seq<string>, f: string)
    requires f in QbFiles(listing) && '/' !in f
    ensures QbYear(f) == f[..4]
  {
    NameIsOwnBasename(f);
  }

  /** A name without `/` is its own base name. */
  lemma NameIsOwnBasename(f: string)
    requires '/' !in f
    ensures Basename(f) == f
  {
  }

  /* ---------------------------------------------------------------------
     Cell cleaning
     --------------------------------------------------------------------- */

  /** `pd.to_numeric(value, errors='coerce')` on a text: its number, or
      `None` (NaN) when it does not parse.  Numbers are integers here. */
  type ToNumeric = string -> Option<int>

  /** The texts that `replace(['', 'nan', 'NaN', 'None'], pd.NA)` turns
      into a missing value. */
  predicate IsNullToken(s: string) {
    s == "" || s == "nan" || s == "NaN" || s == "None"
  }

  /** `str(value)` with every `,` and then every `$` removed. */
  function CleanText(c: Cell): (r: string)
    ensures ',' !in r && '$' !in r
    ensures forall x :: x in r ==> x in Stringify(c)
  {
    RemoveChar(RemoveChar(Stringify(c), ','), '$')
  }

  /** One money cell: its cleaned text as a number, or 0 when the text is a
      null token or does not parse. */
  function CleanCell(c: Cell, toNumeric: ToNumeric): (r: Cell)
    ensures r.Num?
    ensures !IsNullToken(CleanText(c)) && toNumeric(CleanText(c)).Some? ==> r == Num(toNumeric(CleanText(c)).value)
    ensures IsNullToken(CleanText(c)) || toNumeric(CleanText(c)).None? ==> r == Num(0)
  {
    var s := CleanText(c);
    if IsNullToken(s) then Num(0)
    else match toNumeric(s)
      case None => Num(0)
      case Some(n) => Num(n)
  }

  /** A cell that was missing on read is 0 after cleaning. */
  lemma MissingCellIsZero(toNumeric: ToNumeric)
    ensures CleanCell(Missing, toNumeric) == Num(0)
  {
    assert Stringify(Missing) == "nan";
    assert RemoveChar("nan", ',') == "nan" && RemoveChar("nan", '$') == "nan";
  }

  /** `Customer` and `Year` are never cleaned. */
  predicate Protected(column: string) {
    column == CustomerColumn || column == YearColumn
  }

  /** `df[column] = ...` for one cleaned column. */
  function CleanColumn(rows: seq<Row>, column: string, toNumeric: ToNumeric): (r: seq<Row>)
    ensures |r| == |rows|
    ensures forall i :: 0 <= i < |rows| ==> r[i] == rows[i][column := CleanCell(At(rows[i], column), toNumeric)]
  {
    seq(|rows|, i requires 0 <= i < |rows| => rows[i][column := CleanCell(At(rows[i], column), toNumeric)])
  }

  /** The column loop: every column but `Customer` and `Year` cleaned, in
      order. */
  function CleanColumns(rows: seq<Row>, columns: seq<string>, toNumeric: ToNumeric): (r: seq<Row>)
    ensures |r| == |rows|
    decreases |columns|
  {
    if columns == [] then rows
    else
      var prev := CleanColumns(rows, columns[..|columns| - 1], toNumeric);
      var column := columns[|columns| - 1];
      if Protected(column) then prev else CleanColumn(prev, column, toNumeric)
  }

  /** `CleanColumns` of a longer prefix: one step of the column loop. */
  lemma CleanColumnsStep(rows: seq<Row>, columns: seq<string>, toNumeric: ToNumeric, j: nat)
    requires j < |columns|
    ensures CleanColumns(rows, columns[..j + 1], toNumeric) ==
      var prev := CleanColumns(rows, columns[..j], toNumeric);
      if Protected(columns[j]) then prev else CleanColumn(prev, columns[j], toNumeric)
  {
    PrefixSnoc(columns, j);
  }

  /** Over distinct columns, each cleaned column holds the cleaned original
      cell; every other cell is as it was. */
  lemma {:induction false} CleanColumnsAt(rows: seq<Row>, columns: seq<string>, toNumeric: ToNumeric,
                                          i: int, c: string)
    requires Distinct(columns) && 0 <= i < |rows|
    ensures var r := CleanColumns(rows, columns, toNumeric);
      if c in columns && !Protected(c) then c in r[i] && r[i][c] == CleanCell(At(rows[i], c), toNumeric)
      else At(r[i], c) == At(rows[i], c)
    decreases |columns|
  {
    if columns != [] {
      var n := |columns| - 1;
      DistinctSnoc(columns);
      InSnoc(columns, c);
      CleanColumnsAt(rows, columns[..n], toNumeric, i, c);
    }
  }

  /** `df['Year'] = year`: the column is added at the end, or overwritten
      in place when the file already has one. */
  function WithYear(t: Table, year: string): (r: Table)
    ensures |r.rows| == |t.rows|
    ensures YearColumn in r.columns
    ensures forall i :: 0 <= i < |t.rows| ==> r.rows[i] == t.rows[i][YearColumn := Str(year)]
    ensures Distinct(t.columns) ==> Distinct(r.columns)
  {
    var columns := if YearColumn in t.columns then t.columns else t.columns + [YearColumn];
    Table(columns, seq(|t.rows|, i requires 0 <= i < |t.rows| => t.rows[i][YearColumn := Str(year)]))
  }

  /** `process_qb_file` on a file that reads as `t`. */
  function ProcessedTable(t: Table, year: string, toNumeric: ToNumeric): (r: Table)
    ensures r.columns == WithYear(t, year).columns && |r.rows| == |t.rows|
  {
    var withYear := WithYear(t, year);
    Table(withYear.columns, CleanColumns(withYear.rows, withYear.columns, toNumeric))
  }

  /** After processing, every row has the file's year, an untouched
      `Customer`, and a number in every other column. */
  lemma ProcessedTableCells(t: Table, year: string, toNumeric: ToNumeric, i: int, c: string)
    requires Distinct(t.columns) && 0 <= i < |t.rows|
    ensures var r := ProcessedTable(t, year, toNumeric);
      && At(r.rows[i], YearColumn) == Str(year)
      && At(r.rows[i], CustomerColumn) == At(t.rows[i], CustomerColumn)
      && (c in r.columns && !Protected(c) ==> At(r.rows[i], c) == CleanCell(At(t.rows[i], c), toNumeric))
  {
    var withYear := WithYear(t, year);
    CleanColumnsAt(withYear.rows, withYear.columns, toNumeric, i, YearColumn);
    CleanColumnsAt(withYear.rows, withYear.columns, toNumeric, i, CustomerColumn);
    CleanColumnsAt(withYear.rows, withYear.columns, toNumeric, i, c);
  }

  /** `process_qb_file`: `None` when the file cannot be read. */
  function ProcessQbFile(path: string, read: string -> Option<Table>, toNumeric: ToNumeric): (r: Option<Table>)
    ensures r.Some? <==> read(path).Some?
  {
    match read(path)
    case None => None
    case Some(t) => Some(ProcessedTable(t, QbYear(path), toNumeric))
  }

  /** `process_qb_file` as the column loop that reassigns each column. */
  method ProcessQbFileLoop(path: string, read: string -> Option<Table>, toNumeric: ToNumeric)
    returns (df: Option<Table>)
    ensures df == ProcessQbFile(path, read, toNumeric)
  {
    var year := QbYear(path);
    var t := read(path);
    if t.None? {
      return None;
    }
    var withYear := WithYear(t.value, year);
    var columns := withYear.columns;
    var rows := withYear.rows;
    var j := 0;
    while j < |columns|
      invariant 0 <= j <= |columns|
      invariant rows == CleanColumns(withYear.rows, columns[..j], toNumeric)
    {
      var column := columns[j];
      CleanColumnsStep(withYear.rows, columns, toNumeric, j);
      if !Protected(column) {
        rows := CleanColumn(rows, column, toNumeric);
      }
      j := j + 1;
    }
    PrefixFull(columns);
    return Some(Table(columns, rows));
  }

  /* ---------------------------------------------------------------------
     Combining files
     --------------------------------------------------------------------- */

  /** `columns` followed by those of `more` not already listed. */
  function UnionColumns(columns: seq<string>, more: seq<string>): (r: seq<string>)
    ensures forall c :: c in r <==> c in columns || c in more
    ensures columns <= r
    ensures Distinct(columns) ==> Distinct(r)
    decreases |more|
  {
    if more == [] then columns
    else
      var prev := UnionColumns(columns, more[..|more| - 1]);
      var c := more[|more| - 1];
      if c in prev then prev else prev + [c]
  }

  /** The rows of each table. */
  function RowsOf(tables: seq<Table>): (r: seq<seq<Row>>)
    ensures |r| == |tables| && forall k :: 0 <= k < |tables| ==> r[k] == tables[k].rows
  {
    seq(|tables|, k requires 0 <= k < |tables| => tables[k].rows)
  }

  /** `pd.concat(tables, ignore_index=True)`: the columns in order of first
      appearance, the rows of every table in order (a column a table lacks
      reads as missing). */
  function ConcatTables(tables: seq<Table>): (r: Table)
    ensures forall c :: c in r.columns <==> exists k :: 0 <= k < |tables| && c in tables[k].columns
    ensures r.rows == Concat(RowsOf(tables))
    decreases |tables|
  {
    if tables == [] then Table([], [])
    else
      var n := |tables| - 1;
      var prev := ConcatTables(tables[..n]);
      assert RowsOf(tables)[..n] == RowsOf(tables[..n]);
      Table(UnionColumns(prev.columns, tables[n].columns), prev.rows + tables[n].rows)
  }

  /** The tables of the files that could be processed, in file order. */
  function ProcessedTables(files: seq<string>, read: string -> Option<Table>, toNumeric: ToNumeric): seq<Table> {
    Somes(FileResults(files, read, toNumeric))
  }

  /** Each file's processing result. */
  function FileResults(files: seq<string>, read: string -> Option<Table>, toNumeric: ToNumeric)
    : (r: seq<Option<Table>>)
    ensures |r| == |files| && forall i :: 0 <= i < |files| ==> r[i] == ProcessQbFile(files[i], read, toNumeric)
  {
    seq(|files|, i requires 0 <= i < |files| => ProcessQbFile(files[i], read, toNumeric))
  }

  /** A file contributes a table exactly when it can be read. */
  lemma ProcessedTablesNonEmpty(files: seq<string>, read: string -> Option<Table>, toNumeric: ToNumeric)
    ensures ProcessedTables(files, read, toNumeric) != [] <==> exists i :: 0 <= i < |files| && read(files[i]).Some?
  {
    var results := FileResults(files, read, toNumeric);
    if ProcessedTables(files, read, toNumeric) != [] {
      var t := ProcessedTables(files, read, toNumeric)[0];
      SomesMembership(results, t);
    } else if exists i :: 0 <= i < |files| && read(files[i]).Some? {
      var i :| 0 <= i < |files| && read(files[i]).Some?;
      SomesMembership(results, results[i].value);
    }
  }

  /* ---------------------------------------------------------------------
     The summary report's service ranking
     --------------------------------------------------------------------- */

  /** `service_columns`: every column but `Customer`, `Year` and `Total`. */
  function ServiceColumns(columns: seq<string>): (r: seq<string>)
    ensures forall c :: c in r <==> c in columns && c != CustomerColumn && c != YearColumn && c != TotalColumn
    ensures IsSubsequence(r, columns)
  {
    Filter(columns, (c: string) => c != CustomerColumn && c != YearColumn && c != TotalColumn)
  }

  /** The number in a cell, missing cells counting nothing (`Series.sum`
      skips NaN). */
  function CellAmount(c: Cell): int {
    match c
    case Num(n) => n
    case _ => 0
  }

  /** `df[column].sum()` */
  function ColumnSum(rows: seq<Row>, column: string): int
    decreases |rows|
  {
    if rows == [] then 0
    else ColumnSum(rows[..|rows| - 1], column) + CellAmount(At(rows[|rows| - 1], column))
  }

  /** A service and its total. */
  type ServiceTotal = (string, int)

  /** `service_totals`: the services with a positive total, in column order. */
  function PositiveTotals(rows: seq<Row>, services: seq<string>): (r: seq<ServiceTotal>)
    ensures forall i :: 0 <= i < |r| ==> r[i].1 > 0 && r[i].0 in services && r[i].1 == ColumnSum(rows, r[i].0)
    ensures forall s :: s in services && ColumnSum(rows, s) > 0 ==> (s, ColumnSum(rows, s)) in r
    decreases |services|
  {
    if services == [] then []
    else
      var prev := PositiveTotals(rows, services[..|services| - 1]);
      var s := services[|services| - 1];
      var total := ColumnSum(rows, s);
      if total > 0 then prev + [(s, total)] else prev
  }

  /** Descending by total. */
  predicate SortedDesc(s: seq<ServiceTotal>) {
    forall i, j :: 0 <= i < j < |s| ==> s[i].1 >= s[j].1
  }

  /** Insert `x` after every entry whose total is at least its own. */
  function InsertDesc(x: ServiceTotal, s: seq<ServiceTotal>): (r: seq<ServiceTotal>)
    requires SortedDesc(s)
    ensures SortedDesc(r) && |r| == |s| + 1
    ensures forall y :: y in r <==> y == x || y in s
    decreases |s|
  {
    if s == [] then [x]
    else if s[0].1 >= x.1 then
      var rest := InsertDesc(x, s[1..]);
      HeadTail(s);
      assert forall y :: y in rest ==> s[0].1 >= y.1;
      [s[0]] + rest
    else [x] + s
  }

  /** `sorted(items, key=total, reverse=True)`: Python's sort is stable,
      so entries with equal totals keep their order. */
  function SortDesc(s: seq<ServiceTotal>): (r: seq<ServiceTotal>)
    ensures SortedDesc(r) && |r| == |s|
    ensures forall y :: y in r <==> y in s
    decreases |s|
  {
    if s == [] then []
    else
      var n := |s| - 1;
      InitLast(s);
      assert forall y :: y in s <==> y in s[..n] || y == s[n];
      InsertDesc(s[n], SortDesc(s[..n]))
  }

  /** Inserting adds exactly the one entry. */
  lemma {:induction false} InsertDescPermutation(x: ServiceTotal, s: seq<ServiceTotal>)
    requires SortedDesc(s)
    ensures multiset(InsertDesc(x, s)) == multiset(s) + multiset{x}
    decreases |s|
  {
    if s != [] && s[0].1 >= x.1 {
      InsertDescPermutation(x, s[1..]);
      HeadTail(s);
    }
  }

  /** The sort is a permutation. */
  lemma {:induction false} SortDescPermutation(s: seq<ServiceTotal>)
    ensures multiset(SortDesc(s)) == multiset(s)
    decreases |s|
  {
    if s != [] {
      var n := |s| - 1;
      SortDescPermutation(s[..n]);
      InsertDescPermutation(s[n], SortDesc(s[..n]));
      InitLast(s);
    }
  }

  /** The entries with total `v`, in order. */
  function WithTotal(s: seq<ServiceTotal>, v: int): seq<ServiceTotal>
    decreases |s|
  {
    if s == [] then [] else (if s[0].1 == v then [s[0]] else []) + WithTotal(s[1..], v)
  }

  /** Inserting `x` places it after the entries with its total. */
  lemma {:induction false} InsertDescStable(x: ServiceTotal, s: seq<ServiceTotal>, v: int)
    requires SortedDesc(s)
    ensures WithTotal(InsertDesc(x, s), v) == WithTotal(s, v) + (if x.1 == v then [x] else [])
    decreases |s|
  {
    if s == [] {
    } else if s[0].1 >= x.1 {
      InsertDescStable(x, s[1..], v);
      ConsTail(s[0], InsertDesc(x, s[1..]));
      var h := if s[0].1 == v then [s[0]] else [];
      AppendAssoc(h, WithTotal(s[1..], v), if x.1 == v then [x] else []);
    } else {
      ConsTail(x, s);
      if x.1 == v {
        NoneWithTotal(s, v);
        AppendEmpty([x]);
        EmptyAppend([x]);
      } else {
        EmptyAppend(WithTotal(s, v));
        AppendEmpty(WithTotal(s, v));
      }
    }
  }

  /** Filtering distributes over concatenation. */
  lemma {:induction false} WithTotalAppend(a: seq<ServiceTotal>, b: seq<ServiceTotal>, v: int)
    ensures WithTotal(a + b, v) == WithTotal(a, v) + WithTotal(b, v)
    decreases |a|
  {
    if a == [] {
      EmptyAppend(b);
    } else {
      WithTotalAppend(a[1..], b, v);
      ConsAppend(a, b);
      var h := if a[0].1 == v then [a[0]] else [];
      assert WithTotal(a + b, v) == h + WithTotal(a[1..] + b, v);
      AppendAssoc(h, WithTotal(a[1..], v), WithTotal(b, v));
    }
  }

  /** Totals below `v` contribute nothing. */
  lemma {:induction false} NoneWithTotal(s: seq<ServiceTotal>, v: int)
    requires forall i :: 0 <= i < |s| ==> s[i].1 < v
    ensures WithTotal(s, v) == []
    decreases |s|
  {
    if s != [] {
      NoneWithTotal(s[1..], v);
    }
  }

  /** The sort is stable: the entries with any one total come out in the
      order they went in. */
  lemma {:induction false} SortDescStable(s: seq<ServiceTotal>, v: int)
    ensures WithTotal(SortDesc(s), v) == WithTotal(s, v)
    decreases |s|
  {
    if s != [] {
      var n := |s| - 1;
      SortDescStable(s[..n], v);
      InsertDescStable(s[n], SortDesc(s[..n]), v);
      WithTotalAppend(s[..n], [s[n]], v);
      InitLast(s);
    }
  }

  /** `top_services`: the first five after sorting. */
  function TopServices(totals: seq<ServiceTotal>): (r: seq<ServiceTotal>)
    ensures |r| <= 5 && SortedDesc(r)
    ensures r <= SortDesc(totals)
    ensures |totals| <= 5 ==> SortDesc(totals) == r
  {
    Take(SortDesc(totals), 5)
  }

  /** Every shown service has a positive total no smaller than that of any
      service left out. */
  lemma TopServicesBound(rows: seq<Row>, services: seq<string>, s: string)
    requires s in services && ColumnSum(rows, s) > 0
    ensures var top := TopServices(PositiveTotals(rows, services));
      (s, ColumnSum(rows, s)) in top ||
      (|top| == 5 && forall i :: 0 <= i < 5 ==> top[i].1 >= ColumnSum(rows, s))
  {
    var totals := PositiveTotals(rows, services);
    var sorted := SortDesc(totals);
    var x := (s, ColumnSum(rows, s));
    assert x in sorted;
    var k :| 0 <= k < |sorted| && sorted[k] == x;
    if k >= 5 {
      assert forall i :: 0 <= i < 5 ==> sorted[i].1 >= sorted[k].1;
    } else {
      assert TopServices(totals)[k] == x;
    }
  }

  /** The service-total loop of `generate_summary_report`. */
  method ServiceTotals(rows: seq<Row>, services: seq<string>) returns (serviceTotals: seq<ServiceTotal>)
    ensures serviceTotals == PositiveTotals(rows, services)
  {
    serviceTotals := [];
    var j := 0;
    while j < |services|
      invariant 0 <= j <= |services|
      invariant serviceTotals == PositiveTotals(rows, services[..j])
    {
      var service := services[j];
      PrefixSnoc(services, j);
      var total := SumColumn(rows, service);
      if total > 0 {
        serviceTotals := serviceTotals + [(service, total)];
      }
      j := j + 1;
    }
    PrefixFull(services);
  }

  /** `df[column].sum()` as a loop over the rows. */
  method SumColumn(rows: seq<Row>, column: string) returns (total: int)
    ensures total == ColumnSum(rows, column)
  {
    total := 0;
    var i := 0;
    while i < |rows|
      invariant 0 <= i <= |rows|
      invariant total == ColumnSum(rows[..i], column)
    {
      PrefixSnoc(rows, i);
      total := total + CellAmount(At(rows[i], column));
      i := i + 1;
    }
    PrefixFull(rows);
  }

  /* ---------------------------------------------------------------------
     The processor
     --------------------------------------------------------------------- */

  /** `QuickBooksProcessor`: the QuickBooks files of the working directory
      and the combined table once processed. */
  class QuickBooksProcessor {
    var qbFiles: seq<string>
    var combinedData: Option<Table>

    /** `listing` is the directory listing. */
    constructor(listing: seq<string>)
      ensures qbFiles == QbFiles(listing) && combinedData.None?
    {
      qbFiles := QbFiles(listing);
      combinedData := None;
    }

    /** `process_all_files`: `false` when no file can be read; otherwise the
        processed tables of the readable files, concatenated in file order. */
    method ProcessAllFiles(read: string -> Option<Table>, toNumeric: ToNumeric) returns (success: bool)
      modifies this
      ensures success <==> exists i :: 0 <= i < |qbFiles| && read(qbFiles[i]).Some?
      ensures success ==> combinedData == Some(ConcatTables(ProcessedTables(qbFiles, read, toNumeric)))
      ensures !success ==> combinedData == old(combinedData)
      ensures qbFiles == old(qbFiles)
    {
      var allData := CollectTables(qbFiles, read, toNumeric);
      ProcessedTablesNonEmpty(qbFiles, read, toNumeric);
      if allData != [] {
        combinedData := Some(ConcatTables(allData));
        return true;
      }
      return false;
    }

    /** The file loop of `process_all_files`. */
    static method CollectTables(files: seq<string>, read: string -> Option<Table>, toNumeric: ToNumeric)
      returns (allData: seq<Table>)
      ensures allData == ProcessedTables(files, read, toNumeric)
    {
      ghost var results := FileResults(files, read, toNumeric);
      allData := [];
      var i := 0;
      while i < |files|
        invariant 0 <= i <= |files|
        invariant allData == Somes(results[..i])
      {
        SomesStep(results, i);
        var df := ProcessQbFileLoop(files[i], read, toNumeric);
        if df.Some? {
          allData := allData + [df.value];
        }
        i := i + 1;
      }
      PrefixFull(results);
    }

    /** The service ranking of `generate_summary_report`; nothing when
        there is no combined data. */
    method TopServiceTotals() returns (top: Option<seq<ServiceTotal>>)
      ensures combinedData.None? ==> top.None?
      ensures combinedData.Some? ==>
        top == Some(TopServices(PositiveTotals(combinedData.value.rows, ServiceColumns(combinedData.value.columns))))
    {
      if combinedData.None? {
        return None;
      }
      var data := combinedData.value;
      var serviceColumns := ServiceColumns(data.columns);
      var serviceTotals := ServiceTotals(data.rows, serviceColumns);
      return Some(TopServices(serviceTotals));
    }
  }
}
