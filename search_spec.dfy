/** What `DeepSearchAgent` (deep_search_agent.py) computes, stated as
    functions over the loaded datasets.  The agent's methods are proved
    against these functions; the lemmas state what the searches promise. */
module DeepSearchSpec {
  import opened Wrappers
  import opened Text
  import opened Seqs
  import opened PyDict
  import opened Frames

  /** A `fuzz.ratio` similarity score. */
  type Score = x: int | 0 <= x <= 100

  /** `fuzz.ratio`, a library function the model does not look inside. */
  type Ratio = (string, string) -> Score

  /** `pd.to_datetime(value)`: the instant a value denotes, `None` where it raises. */
  type ToDatetime = Cell -> Option<Instant>

  /** `_parse_date` (dateutil, then a fixed list of formats): `None` where it raises. */
  type ParseDate = string -> Option<Instant>

  const RawGKeepFile: string := "GKeep (Simple).csv"
  const StructuredGKeepFile: string := "GKeep_Structured.csv"

  const FileField: string := "file"
  const MatchScoreField: string := "match_score"
  const MatchingValueField: string := "matching_value"
  const RowIndexField: string := "_row_index"

  /* ---------------------------------------------------------------------
     Loading: the datasets in the order the file list gives them.
     --------------------------------------------------------------------- */

  /** The raw GKeep export is not loaded when the structured one is listed. */
  predicate SkippedOnLoad(file: string, csvFiles: seq<string>) {
    file == RawGKeepFile && StructuredGKeepFile in csvFiles
  }

  /** `self.dataframes` after `load_csv_files` has gone through `files`,
      starting from `d`; `read(f)` is `None` where `pd.read_csv` raises. */
  function Loaded(d: Dict<Table>, files: seq<string>, csvFiles: seq<string>,
                  read: string -> Option<Table>): (r: Dict<Table>)
    ensures Valid(d) ==> Valid(r)
    ensures forall f :: f in r.items <==>
      f in d.items || (f in files && !SkippedOnLoad(f, csvFiles) && read(f).Some?)
    ensures forall f :: f in files && !SkippedOnLoad(f, csvFiles) && read(f).Some? ==>
      r.items[f] == read(f).value
    decreases |files|
  {
    if files == [] then d
    else
      var prev := Loaded(d, files[..|files| - 1], csvFiles, read);
      var f := files[|files| - 1];
      assert files == files[..|files| - 1] + [f];
      if SkippedOnLoad(f, csvFiles) || read(f).None? then prev
      else Put(prev, f, read(f).value)
  }
  /** `Loaded` of a longer prefix: one step of the loading loop. */
  lemma LoadedStep(d: Dict<Table>, files: seq<string>, csvFiles: seq<string>,
                   read: string -> Option<Table>, i: nat)
    requires i < |files|
    ensures Loaded(d, files[..i + 1], csvFiles, read) ==
      var prev := Loaded(d, files[..i], csvFiles, read);
      if SkippedOnLoad(files[i], csvFiles) || read(files[i]).None? then prev
      else Put(prev, files[i], read(files[i]).value)
  {
    PrefixSnoc(files, i);
  }


  /** The loaded datasets as (file name, dataframe) pairs in iteration order. */
  function Datasets(d: Dict<Table>): (r: seq<(string, Table)>)
    requires Valid(d)
    ensures |r| == |d.keys|
    ensures forall i :: 0 <= i < |r| ==> r[i].0 == d.keys[i] && r[i].1 == d.items[d.keys[i]]
  {
    seq(|d.keys|, i requires 0 <= i < |d.keys| && Valid(d) => (d.keys[i], d.items[d.keys[i]]))
  }

  /* ---------------------------------------------------------------------
     Search columns
     --------------------------------------------------------------------- */

  /** `[col for col in names if col in columns]` */
  function KeepPresent(names: seq<string>, columns: seq<string>): (r: seq<string>)
    ensures forall i :: 0 <= i < |r| ==> r[i] in names && r[i] in columns
    ensures forall i :: 0 <= i < |names| && names[i] in columns ==> names[i] in r
    ensures IsSubsequence(r, names)
    ensures (forall i :: 0 <= i < |names| ==> names[i] in columns) ==> r == names
    decreases |names|
  {
    if names == [] then []
    else
      var init := KeepPresent(names[..|names| - 1], columns);
      var last := names[|names| - 1];
      assert names == names[..|names| - 1] + [last];
      if last in columns then
        assert (init + [last])[..|init|] == init;
        init + [last]
      else
        SubsequenceExtend(init, names[..|names| - 1], last);
        init
  }

  /** The columns a search looks at: the requested ones that the file has,
      in requested order, or every column when none (or `[]`) is requested. */
  function SearchColumns(requested: Option<seq<string>>, columns: seq<string>): (r: seq<string>)
    ensures forall i :: 0 <= i < |r| ==> r[i] in columns
    ensures requested.None? || requested.value == [] ==> r == columns
    ensures requested.Some? && requested.value != [] ==>
      IsSubsequence(r, requested.value) &&
      forall i :: 0 <= i < |requested.value| && requested.value[i] in columns ==> requested.value[i] in r
  {
    KeepPresent(if requested.Some? && requested.value != [] then requested.value else columns, columns)
  }

  /* ---------------------------------------------------------------------
     Exact search
     --------------------------------------------------------------------- */

  /** Lower-cased unless the comparison is case sensitive. */
  function Fold(s: string, caseSensitive: bool): string {
    if caseSensitive then s else Lower(s)
  }

  /** The stringified cell when it is present and contains the query. */
  function ExactCellMatch(cell: Cell, query: string, caseSensitive: bool): Option<string> {
    if IsNa(cell) then None
    else if Contains(Fold(Stringify(cell), caseSensitive), Fold(query, caseSensitive)) then Some(Stringify(cell))
    else None
  }

  /** Column `k` is the first of `cols` whose cell matches. */
  ghost predicate FirstMatchAt(row: Row, cols: seq<string>, query: string, caseSensitive: bool, k: int) {
    && 0 <= k < |cols|
    && ExactCellMatch(At(row, cols[k]), query, caseSensitive).Some?
    && forall j :: 0 <= j < k ==> ExactCellMatch(At(row, cols[j]), query, caseSensitive).None?
  }

  /** The `matching_value` of a row: the text of the first matching column. */
  function FirstExactMatch(row: Row, cols: seq<string>, query: string, caseSensitive: bool): (r: Option<string>)
    ensures r.None? <==> forall k :: 0 <= k < |cols| ==> ExactCellMatch(At(row, cols[k]), query, caseSensitive).None?
    ensures r.Some? ==> exists k :: FirstMatchAt(row, cols, query, caseSensitive, k) && r.value == Stringify(At(row, cols[k]))
    decreases |cols|
  {
    if cols == [] then None
    else match ExactCellMatch(At(row, cols[0]), query, caseSensitive)
      case Some(v) =>
        assert FirstMatchAt(row, cols, query, caseSensitive, 0);
        Some(v)
      case None =>
        var rest := FirstExactMatch(row, cols[1..], query, caseSensitive);
        if rest.Some? then
          FirstMatchShift(row, cols, query, caseSensitive, rest.value);
          rest
        else
          assert forall k :: 1 <= k < |cols| ==> cols[k] == cols[1..][k - 1];
          rest
  }

  /** A first match in `cols[1..]` is a first match in `cols` when `cols[0]` does not match. */
  lemma FirstMatchShift(row: Row, cols: seq<string>, query: string, caseSensitive: bool, v: string)
    requires |cols| > 0 && ExactCellMatch(At(row, cols[0]), query, caseSensitive).None?
    requires exists k :: FirstMatchAt(row, cols[1..], query, caseSensitive, k) && v == Stringify(At(row, cols[1..][k]))
    ensures exists k :: FirstMatchAt(row, cols, query, caseSensitive, k) && v == Stringify(At(row, cols[k]))
  {
    var k :| FirstMatchAt(row, cols[1..], query, caseSensitive, k) && v == Stringify(At(row, cols[1..][k]));
    forall j | 1 <= j <= k + 1
      ensures cols[j] == cols[1..][j - 1]
    {
    }
    assert FirstMatchAt(row, cols, query, caseSensitive, k + 1);
  }

  /** The first matching column determines the row's `matching_value`. */
  lemma FirstExactMatchAt(row: Row, cols: seq<string>, query: string, caseSensitive: bool, k: int)
    requires FirstMatchAt(row, cols, query, caseSensitive, k)
    ensures FirstExactMatch(row, cols, query, caseSensitive) == Some(Stringify(At(row, cols[k])))
  {
    var r := FirstExactMatch(row, cols, query, caseSensitive);
    assert r.Some?;
    var k' :| FirstMatchAt(row, cols, query, caseSensitive, k') && r.value == Stringify(At(row, cols[k']));
    if k' < k {} else if k < k' {}
  }

  /** The record for a matching row: every column, then `file` and
      `matching_value` (a column already called so is overwritten in place). */
  function ExactRecord(file: string, columns: seq<string>, row: Row, value: string): (r: Record)
    ensures Valid(r)
    ensures forall c :: c in r.items <==> c in columns || c == FileField || c == MatchingValueField
    ensures r.items[FileField] == Str(file) && r.items[MatchingValueField] == Str(value)
    ensures forall c :: c in columns && c != FileField && c != MatchingValueField ==> r.items[c] == At(row, c)
  {
    Put(Put(RowRecord(columns, row), FileField, Str(file)), MatchingValueField, Str(value))
  }

  /** Over distinct data columns the record lists the columns, then `file`,
      then `matching_value`. */
  lemma ExactRecordKeys(file: string, columns: seq<string>, row: Row, value: string)
    requires Distinct(columns) && FileField !in columns && MatchingValueField !in columns
    ensures ExactRecord(file, columns, row, value).keys == columns + [FileField, MatchingValueField]
  {
    RowRecordKeys(columns, row);
    var r0 := RowRecord(columns, row);
    var r1 := Put(r0, FileField, Str(file));
    assert r1.keys == columns + [FileField];
    assert MatchingValueField !in r1.keys;
    AppendTwo(columns, FileField, MatchingValueField);
  }

  /** What one row contributes to exact search: its record when some
      searched column matches. */
  function ExactRowResult(file: string, columns: seq<string>, row: Row, searchCols: seq<string>,
                          query: string, caseSensitive: bool): Option<Record>
  {
    match FirstExactMatch(row, searchCols, query, caseSensitive)
    case None => None
    case Some(v) => Some(ExactRecord(file, columns, row, v))
  }

  /** The contribution of every row of one file, row by row. */
  function ExactRowResults(file: string, columns: seq<string>, rows: seq<Row>, searchCols: seq<string>,
                           query: string, caseSensitive: bool): (r: seq<Option<Record>>)
    ensures |r| == |rows|
    ensures forall j :: 0 <= j < |rows| ==> r[j] == ExactRowResult(file, columns, rows[j], searchCols, query, caseSensitive)
  {
    seq(|rows|, j requires 0 <= j < |rows| => ExactRowResult(file, columns, rows[j], searchCols, query, caseSensitive))
  }

  /** The records exact search produces for one file; a file none of whose
      columns is searched contributes nothing. */
  function ExactFile(file: string, t: Table, query: string, caseSensitive: bool,
                     requested: Option<seq<string>>): seq<Record>
  {
    var sc := SearchColumns(requested, t.columns);
    if sc == [] then [] else Somes(ExactRowResults(file, t.columns, t.rows, sc, query, caseSensitive))
  }

  /** The records of every file, file by file. */
  function ExactFiles(frames: seq<(string, Table)>, query: string, caseSensitive: bool,
                      requested: Option<seq<string>>): (r: seq<seq<Record>>)
    ensures |r| == |frames|
    ensures forall i :: 0 <= i < |frames| ==> r[i] == ExactFile(frames[i].0, frames[i].1, query, caseSensitive, requested)
  {
    seq(|frames|, i requires 0 <= i < |frames| => ExactFile(frames[i].0, frames[i].1, query, caseSensitive, requested))
  }

  /** `exact_search`: the records of every file, in file order, then row order. */
  function ExactResults(frames: seq<(string, Table)>, query: string, caseSensitive: bool,
                        requested: Option<seq<string>>): seq<Record>
  {
    Concat(ExactFiles(frames, query, caseSensitive, requested))
  }

  /** A record is among a file's exact-search records exactly when some
      row contributes it. */
  lemma ExactRowsMembership(file: string, columns: seq<string>, rows: seq<Row>, searchCols: seq<string>,
                            query: string, caseSensitive: bool, rec: Record)
    ensures rec in Somes(ExactRowResults(file, columns, rows, searchCols, query, caseSensitive)) <==>
      exists j :: 0 <= j < |rows| && ExactRowResult(file, columns, rows[j], searchCols, query, caseSensitive) == Some(rec)
  {
    SomesMembership(ExactRowResults(file, columns, rows, searchCols, query, caseSensitive), rec);
  }

  /** Row `j` of dataset `i`, which has a searched column, contributes `rec`. */
  ghost predicate ExactHit(frames: seq<(string, Table)>, query: string, caseSensitive: bool,
                           requested: Option<seq<string>>, i: int, j: int, rec: Record) {
    && 0 <= i < |frames|
    && var t := frames[i].1;
    && var sc := SearchColumns(requested, t.columns);
    && sc != []
    && 0 <= j < |t.rows|
    && ExactRowResult(frames[i].0, t.columns, t.rows[j], sc, query, caseSensitive) == Some(rec)
  }

  /** A row contributes a record exactly when one of its searched columns
      matches; the record is the row's, with the first match as `matching_value`. */
  lemma ExactRowResultSome(file: string, columns: seq<string>, row: Row, searchCols: seq<string>,
                           query: string, caseSensitive: bool, rec: Record)
    ensures ExactRowResult(file, columns, row, searchCols, query, caseSensitive) == Some(rec) <==>
      (exists k :: FirstMatchAt(row, searchCols, query, caseSensitive, k) &&
         rec == ExactRecord(file, columns, row, Stringify(At(row, searchCols[k]))))
  {
    var m := FirstExactMatch(row, searchCols, query, caseSensitive);
    if m.Some? {
      var k :| FirstMatchAt(row, searchCols, query, caseSensitive, k) && m.value == Stringify(At(row, searchCols[k]));
      forall k' | FirstMatchAt(row, searchCols, query, caseSensitive, k') ensures k' == k {
        if k' < k {} else if k < k' {}
      }
    } else {
      forall k | 0 <= k < |searchCols| ensures !FirstMatchAt(row, searchCols, query, caseSensitive, k) { }
    }
  }

  /** A record is an exact-search result exactly when some dataset with a
      searched column has a row that contributes it. */
  lemma ExactResultsMembership(frames: seq<(string, Table)>, query: string, caseSensitive: bool,
                               requested: Option<seq<string>>, rec: Record)
    ensures rec in ExactResults(frames, query, caseSensitive, requested) <==>
      exists i, j :: ExactHit(frames, query, caseSensitive, requested, i, j, rec)
  {
    var files := ExactFiles(frames, query, caseSensitive, requested);
    ConcatMembership(files, rec);
    forall i | 0 <= i < |frames|
      ensures rec in files[i] <==> exists j :: ExactHit(frames, query, caseSensitive, requested, i, j, rec)
    {
      var t := frames[i].1;
      var sc := SearchColumns(requested, t.columns);
      if sc != [] {
        ExactRowsMembership(frames[i].0, t.columns, t.rows, sc, query, caseSensitive, rec);
        assert files[i] == Somes(ExactRowResults(frames[i].0, t.columns, t.rows, sc, query, caseSensitive));
        if rec in files[i] {
          var j :| 0 <= j < |t.rows| && ExactRowResult(frames[i].0, t.columns, t.rows[j], sc, query, caseSensitive) == Some(rec);
          assert ExactHit(frames, query, caseSensitive, requested, i, j, rec);
        }
        if exists j :: ExactHit(frames, query, caseSensitive, requested, i, j, rec) {
          var j :| ExactHit(frames, query, caseSensitive, requested, i, j, rec);
          assert ExactRowResult(frames[i].0, t.columns, t.rows[j], sc, query, caseSensitive) == Some(rec);
        }
      } else { }
    }
  }

  /* ---------------------------------------------------------------------
     Fuzzy search
     --------------------------------------------------------------------- */

  /** The score of column `k`: `fuzz.ratio(query.lower(), cell.lower())` for a
      string cell; other cells are never scored (0 here, and never eligible). */
  function ScoreAt(row: Row, cols: seq<string>, query: string, ratio: Ratio, k: int): Score
    requires 0 <= k < |cols|
  {
    var c := At(row, cols[k]);
    if c.Str? then ratio(Lower(query), Lower(c.s)) else 0
  }

  /** Column `k` holds a string whose score beats the threshold and the
      initial `highest_score` of 0: it can set `match_found`. */
  ghost predicate Eligible(row: Row, cols: seq<string>, query: string, threshold: int, ratio: Ratio, k: int) {
    0 <= k < |cols| && At(row, cols[k]).Str? &&
    ScoreAt(row, cols, query, ratio, k) > threshold && ScoreAt(row, cols, query, ratio, k) > 0
  }

  /** Column `k` carries the best score, and is the earliest column with it. */
  ghost predicate BestAt(row: Row, cols: seq<string>, query: string, threshold: int, ratio: Ratio, k: int) {
    && Eligible(row, cols, query, threshold, ratio, k)
    && (forall j :: 0 <= j < |cols| && Eligible(row, cols, query, threshold, ratio, j) ==>
          ScoreAt(row, cols, query, ratio, j) <= ScoreAt(row, cols, query, ratio, k))
    && (forall j :: 0 <= j < k && Eligible(row, cols, query, threshold, ratio, j) ==>
          ScoreAt(row, cols, query, ratio, j) < ScoreAt(row, cols, query, ratio, k))
  }

  /** `r` is what a row's scan ends with: `None` when no column is
      eligible, otherwise the score and text of the best column. */
  ghost predicate IsBestOf(row: Row, cols: seq<string>, query: string, threshold: int, ratio: Ratio,
                           r: Option<(Score, string)>) {
    && (r.None? <==> forall k :: 0 <= k < |cols| ==> !Eligible(row, cols, query, threshold, ratio, k))
    && (r.Some? ==> exists k :: (BestAt(row, cols, query, threshold, ratio, k) &&
          r.value == (ScoreAt(row, cols, query, ratio, k), At(row, cols[k]).s)))
  }

  /** The (`highest_score`, `matching_value`) a row ends with, `None` when
      `match_found` stays false: the best eligible score, earliest on ties. */
  function FuzzyBest(row: Row, cols: seq<string>, query: string, threshold: int, ratio: Ratio): (r: Option<(Score, string)>)
    ensures IsBestOf(row, cols, query, threshold, ratio, r)
    decreases |cols|
  {
    if cols == [] then None
    else
      var n := |cols| - 1;
      var init := cols[..n];
      var prev := FuzzyBest(row, init, query, threshold, ratio);
      var highest := if prev.Some? then prev.value.0 else 0;
      var cell := At(row, cols[n]);
      if cell.Str? && ScoreAt(row, cols, query, ratio, n) > threshold && ScoreAt(row, cols, query, ratio, n) > highest then
        NewBest(row, cols, init, query, threshold, ratio, prev);
        Some((ScoreAt(row, cols, query, ratio, n), cell.s))
      else
        KeptBest(row, cols, init, query, threshold, ratio, prev);
        prev
  }

  /** Eligibility and scores of the columns before the last do not depend
      on the last column. */
  lemma EligiblePrefix(row: Row, cols: seq<string>, init: seq<string>, query: string, threshold: int, ratio: Ratio)
    requires |cols| > 0 && init == cols[..|cols| - 1]
    ensures forall k :: 0 <= k < |init| ==>
      ScoreAt(row, init, query, ratio, k) == ScoreAt(row, cols, query, ratio, k) &&
      (Eligible(row, init, query, threshold, ratio, k) <==> Eligible(row, cols, query, threshold, ratio, k))
  {
  }

  /** The last column takes over when it beats the best of the others. */
  lemma NewBest(row: Row, cols: seq<string>, init: seq<string>, query: string, threshold: int, ratio: Ratio,
                prev: Option<(Score, string)>)
    requires |cols| > 0 && init == cols[..|cols| - 1]
    requires IsBestOf(row, init, query, threshold, ratio, prev)
    requires At(row, cols[|cols| - 1]).Str?
    requires ScoreAt(row, cols, query, ratio, |cols| - 1) > threshold
    requires ScoreAt(row, cols, query, ratio, |cols| - 1) > if prev.Some? then prev.value.0 else 0
    ensures IsBestOf(row, cols, query, threshold, ratio,
                     Some((ScoreAt(row, cols, query, ratio, |cols| - 1), At(row, cols[|cols| - 1]).s)))
  {
    EligiblePrefix(row, cols, init, query, threshold, ratio);
    var n := |cols| - 1;
    if prev.Some? {
      var k :| BestAt(row, init, query, threshold, ratio, k) &&
        prev.value == (ScoreAt(row, init, query, ratio, k), At(row, init[k]).s);
      assert forall j :: 0 <= j < n && Eligible(row, cols, query, threshold, ratio, j) ==>
        ScoreAt(row, cols, query, ratio, j) <= prev.value.0;
    }
    assert BestAt(row, cols, query, threshold, ratio, n);
  }

  /** Otherwise the best of the others stays the best. */
  lemma KeptBest(row: Row, cols: seq<string>, init: seq<string>, query: string, threshold: int, ratio: Ratio,
                 prev: Option<(Score, string)>)
    requires |cols| > 0 && init == cols[..|cols| - 1]
    requires IsBestOf(row, init, query, threshold, ratio, prev)
    requires !(At(row, cols[|cols| - 1]).Str? && ScoreAt(row, cols, query, ratio, |cols| - 1) > threshold &&
               ScoreAt(row, cols, query, ratio, |cols| - 1) > if prev.Some? then prev.value.0 else 0)
    ensures IsBestOf(row, cols, query, threshold, ratio, prev)
  {
    EligiblePrefix(row, cols, init, query, threshold, ratio);
    var n := |cols| - 1;
    if prev.Some? {
      var k :| BestAt(row, init, query, threshold, ratio, k) &&
        prev.value == (ScoreAt(row, init, query, ratio, k), At(row, init[k]).s);
      assert BestAt(row, cols, query, threshold, ratio, k);
    }
  }

  /** Within a row, some column beats the threshold exactly when the scan
      ends with a match. */
  lemma FuzzyBestFound(row: Row, cols: seq<string>, query: string, threshold: int, ratio: Ratio)
    ensures FuzzyBest(row, cols, query, threshold, ratio).Some? <==>
      exists k :: 0 <= k < |cols| && At(row, cols[k]).Str? &&
        ScoreAt(row, cols, query, ratio, k) > threshold && ScoreAt(row, cols, query, ratio, k) > 0
  {
    var r := FuzzyBest(row, cols, query, threshold, ratio);
    if r.None? {
      forall k | 0 <= k < |cols| ensures !Eligible(row, cols, query, threshold, ratio, k) { }
    } else {
      var k :| BestAt(row, cols, query, threshold, ratio, k) &&
        r.value == (ScoreAt(row, cols, query, ratio, k), At(row, cols[k]).s);
      assert Eligible(row, cols, query, threshold, ratio, k);
    }
  }

  /** The record for a fuzzy match: every column, then `file`,
      `match_score` and `matching_value`. */
  function FuzzyRecord(file: string, columns: seq<string>, row: Row, score: Score, value: string): (r: Record)
    ensures Valid(r)
    ensures forall c :: c in r.items <==> c in columns || c == FileField || c == MatchScoreField || c == MatchingValueField
    ensures r.items[FileField] == Str(file) && r.items[MatchScoreField] == Num(score) &&
            r.items[MatchingValueField] == Str(value)
    ensures forall c :: c in columns && c != FileField && c != MatchScoreField && c != MatchingValueField ==>
      r.items[c] == At(row, c)
  {
    Put(ScoredRecord(file, columns, row, score), MatchingValueField, Str(value))
  }

  /** Every column, then `file` and `match_score`. */
  function ScoredRecord(file: string, columns: seq<string>, row: Row, score: Score): (r: Record)
    ensures Valid(r)
    ensures forall c :: c in r.items <==> c in columns || c == FileField || c == MatchScoreField
    ensures r.items[FileField] == Str(file) && r.items[MatchScoreField] == Num(score)
    ensures forall c :: c in columns && c != FileField && c != MatchScoreField ==> r.items[c] == At(row, c)
  {
    Put(Put(RowRecord(columns, row), FileField, Str(file)), MatchScoreField, Num(score))
  }

  /** Over distinct data columns the record lists the columns, then `file`,
      `match_score` and `matching_value`. */
  lemma FuzzyRecordKeys(file: string, columns: seq<string>, row: Row, score: Score, value: string)
    requires Distinct(columns) && FileField !in columns && MatchScoreField !in columns && MatchingValueField !in columns
    ensures FuzzyRecord(file, columns, row, score, value).keys == columns + [FileField, MatchScoreField, MatchingValueField]
  {
    RowRecordKeys(columns, row);
    var r0 := RowRecord(columns, row);
    var r1 := Put(r0, FileField, Str(file));
    assert r1.keys == columns + [FileField];
    assert MatchScoreField !in r1.keys;
    var r2 := ScoredRecord(file, columns, row, score);
    AppendTwo(columns, FileField, MatchScoreField);
    assert r2.keys == columns + [FileField, MatchScoreField];
    assert MatchingValueField !in r2.keys;
    AppendThree(columns, FileField, MatchScoreField, MatchingValueField);
  }

  /** What one row contributes to fuzzy search. */
  function FuzzyRowResult(file: string, columns: seq<string>, row: Row, searchCols: seq<string>,
                          query: string, threshold: int, ratio: Ratio): Option<Record>
  {
    match FuzzyBest(row, searchCols, query, threshold, ratio)
    case None => None
    case Some(best) => Some(FuzzyRecord(file, columns, row, best.0, best.1))
  }

  /** The contribution of every row of one file, row by row. */
  function FuzzyRowResults(file: string, columns: seq<string>, rows: seq<Row>, searchCols: seq<string>,
                           query: string, threshold: int, ratio: Ratio): (r: seq<Option<Record>>)
    ensures |r| == |rows|
    ensures forall j :: 0 <= j < |rows| ==> r[j] == FuzzyRowResult(file, columns, rows[j], searchCols, query, threshold, ratio)
  {
    seq(|rows|, j requires 0 <= j < |rows| => FuzzyRowResult(file, columns, rows[j], searchCols, query, threshold, ratio))
  }

  /** The records fuzzy search produces for one file. */
  function FuzzyFile(file: string, t: Table, query: string, threshold: int, requested: Option<seq<string>>,
                     ratio: Ratio): seq<Record>
  {
    var sc := SearchColumns(requested, t.columns);
    if sc == [] then [] else Somes(FuzzyRowResults(file, t.columns, t.rows, sc, query, threshold, ratio))
  }

  /** The records of every file, file by file. */
  function FuzzyFiles(frames: seq<(string, Table)>, query: string, threshold: int,
                      requested: Option<seq<string>>, ratio: Ratio): (r: seq<seq<Record>>)
    ensures |r| == |frames|
    ensures forall i :: 0 <= i < |frames| ==> r[i] == FuzzyFile(frames[i].0, frames[i].1, query, threshold, requested, ratio)
  {
    seq(|frames|, i requires 0 <= i < |frames| => FuzzyFile(frames[i].0, frames[i].1, query, threshold, requested, ratio))
  }

  /** `fuzzy_search`: the records of every file, in file order, then row order. */
  function FuzzyResults(frames: seq<(string, Table)>, query: string, threshold: int,
                        requested: Option<seq<string>>, ratio: Ratio): seq<Record>
  {
    Concat(FuzzyFiles(frames, query, threshold, requested, ratio))
  }

  /** Row `j` of dataset `i`, which has a searched column, contributes `rec`. */
  ghost predicate FuzzyHit(frames: seq<(string, Table)>, query: string, threshold: int,
                           requested: Option<seq<string>>, ratio: Ratio, i: int, j: int, rec: Record) {
    && 0 <= i < |frames|
    && var t := frames[i].1;
    && var sc := SearchColumns(requested, t.columns);
    && sc != []
    && 0 <= j < |t.rows|
    && FuzzyRowResult(frames[i].0, t.columns, t.rows[j], sc, query, threshold, ratio) == Some(rec)
  }

  /** A row contributes a record exactly when its scan found a best column;
      the record carries that column's score and text. */
  lemma FuzzyRowResultSome(file: string, columns: seq<string>, row: Row, searchCols: seq<string>,
                           query: string, threshold: int, ratio: Ratio, rec: Record)
    ensures FuzzyRowResult(file, columns, row, searchCols, query, threshold, ratio) == Some(rec) <==>
      (exists k :: BestAt(row, searchCols, query, threshold, ratio, k) &&
         rec == FuzzyRecord(file, columns, row, ScoreAt(row, searchCols, query, ratio, k), At(row, searchCols[k]).s))
  {
    var m := FuzzyBest(row, searchCols, query, threshold, ratio);
    if m.Some? {
      var k :| BestAt(row, searchCols, query, threshold, ratio, k) &&
        m.value == (ScoreAt(row, searchCols, query, ratio, k), At(row, searchCols[k]).s);
      forall k' | BestAt(row, searchCols, query, threshold, ratio, k') ensures k' == k {
        if k' < k {} else if k < k' {}
      }
    } else {
      forall k | 0 <= k < |searchCols| ensures !BestAt(row, searchCols, query, threshold, ratio, k) { }
    }
  }

  /** A record is among a file's fuzzy-search records exactly when some
      row contributes it. */
  lemma FuzzyRowsMembership(file: string, columns: seq<string>, rows: seq<Row>, searchCols: seq<string>,
                            query: string, threshold: int, ratio: Ratio, rec: Record)
    ensures rec in Somes(FuzzyRowResults(file, columns, rows, searchCols, query, threshold, ratio)) <==>
      exists j :: 0 <= j < |rows| && FuzzyRowResult(file, columns, rows[j], searchCols, query, threshold, ratio) == Some(rec)
  {
    SomesMembership(FuzzyRowResults(file, columns, rows, searchCols, query, threshold, ratio), rec);
  }

  /** A record is a fuzzy-search result exactly when some dataset with a
      searched column has a row that contributes it. */
  lemma FuzzyResultsMembership(frames: seq<(string, Table)>, query: string, threshold: int,
                               requested: Option<seq<string>>, ratio: Ratio, rec: Record)
    ensures rec in FuzzyResults(frames, query, threshold, requested, ratio) <==>
      exists i, j :: FuzzyHit(frames, query, threshold, requested, ratio, i, j, rec)
  {
    var files := FuzzyFiles(frames, query, threshold, requested, ratio);
    ConcatMembership(files, rec);
    forall i | 0 <= i < |frames|
      ensures rec in files[i] <==> exists j :: FuzzyHit(frames, query, threshold, requested, ratio, i, j, rec)
    {
      var t := frames[i].1;
      var sc := SearchColumns(requested, t.columns);
      if sc != [] {
        var rs := FuzzyRowResults(frames[i].0, t.columns, t.rows, sc, query, threshold, ratio);
        FuzzyRowsMembership(frames[i].0, t.columns, t.rows, sc, query, threshold, ratio, rec);
        assert files[i] == Somes(rs);
        if rec in files[i] {
          var j :| 0 <= j < |t.rows| && FuzzyRowResult(frames[i].0, t.columns, t.rows[j], sc, query, threshold, ratio) == Some(rec);
          assert FuzzyHit(frames, query, threshold, requested, ratio, i, j, rec);
        }
        if exists j :: FuzzyHit(frames, query, threshold, requested, ratio, i, j, rec) {
          var j :| FuzzyHit(frames, query, threshold, requested, ratio, i, j, rec);
          assert FuzzyRowResult(frames[i].0, t.columns, t.rows[j], sc, query, threshold, ratio) == Some(rec);
        }
      }
    }
  }

  /* ---------------------------------------------------------------------
     Date-range filtering of results
     --------------------------------------------------------------------- */

  /** Within the inclusive bounds; an absent bound does not constrain. */
  predicate InRange(t: Instant, lo: Option<Instant>, hi: Option<Instant>) {
    (lo.None? || lo.value <= t) && (hi.None? || t <= hi.value)
  }

  /** `pd.to_datetime(date) if date else None`; a date that does not parse
      raises, which is the error case here. */
  function Bound(date: string, toDatetime: ToDatetime): (r: Result<Option<Instant>, string>)
    ensures date == "" ==> r == Ok(None)
    ensures date != "" ==> (r.Err? <==> toDatetime(Str(date)).None?)
    ensures date != "" && r.Ok? ==> r.value == Some(toDatetime(Str(date)).value)
  {
    if date == "" then Ok(None)
    else match toDatetime(Str(date))
      case None => Err(date)
      case Some(t) => Ok(Some(t))
  }

  /** A present field value that parses to a date within the bounds. */
  predicate FieldInRange(v: Cell, lo: Option<Instant>, hi: Option<Instant>, toDatetime: ToDatetime) {
    !IsNa(v) && toDatetime(v).Some? && InRange(toDatetime(v).value, lo, hi)
  }

  /** Some field of the record, in key order, is a date within the bounds. */
  predicate HasDateInRange(rec: Record, lo: Option<Instant>, hi: Option<Instant>, toDatetime: ToDatetime) {
    exists i | 0 <= i < |rec.keys| :: FieldInRange(Lookup(rec, rec.keys[i], Missing), lo, hi, toDatetime)
  }

  /** The records that have a date within the bounds, in order. */
  function InRangeRecords(rs: seq<Record>, lo: Option<Instant>, hi: Option<Instant>, toDatetime: ToDatetime): (r: seq<Record>)
    ensures forall i :: 0 <= i < |r| ==> r[i] in rs && HasDateInRange(r[i], lo, hi, toDatetime)
    ensures forall i :: 0 <= i < |rs| && HasDateInRange(rs[i], lo, hi, toDatetime) ==> rs[i] in r
    ensures IsSubsequence(r, rs)
  {
    Filter(rs, (rec: Record) => HasDateInRange(rec, lo, hi, toDatetime))
  }

  /** `filter_by_date_range`: the input itself when it is empty or no bound
      is given; otherwise the records with a date in range, or the error of
      a bound that does not parse. */
  function DateRangeFiltered(results: seq<Record>, startDate: string, endDate: string,
                             toDatetime: ToDatetime): (r: Result<seq<Record>, string>)
    ensures results == [] || (startDate == "" && endDate == "") ==> r == Ok(results)
    ensures r.Err? ==> Bound(startDate, toDatetime).Err? || Bound(endDate, toDatetime).Err?
    ensures r.Ok? ==> IsSubsequence(r.value, results)
  {
    if results == [] || (startDate == "" && endDate == "") then
      SubsequenceRefl(results);
      Ok(results)
    else match Bound(startDate, toDatetime)
      case Err(e) => Err(e)
      case Ok(lo) =>
        match Bound(endDate, toDatetime)
        case Err(e) => Err(e)
        case Ok(hi) => Ok(InRangeRecords(results, lo, hi, toDatetime))
  }

  /** With a bound given and both bounds parsing, a record is kept exactly
      when it is a result with a date in range. */
  lemma DateRangeFilteredMembership(results: seq<Record>, startDate: string, endDate: string,
                                    toDatetime: ToDatetime, rec: Record)
    requires results != [] && (startDate != "" || endDate != "")
    requires Bound(startDate, toDatetime).Ok? && Bound(endDate, toDatetime).Ok?
    ensures DateRangeFiltered(results, startDate, endDate, toDatetime).Ok?
    ensures rec in DateRangeFiltered(results, startDate, endDate, toDatetime).value <==>
      rec in results &&
      HasDateInRange(rec, Bound(startDate, toDatetime).value, Bound(endDate, toDatetime).value, toDatetime)
  {
    var lo := Bound(startDate, toDatetime).value;
    var hi := Bound(endDate, toDatetime).value;
    var r := InRangeRecords(results, lo, hi, toDatetime);
    if rec in r {
      var i :| 0 <= i < |r| && r[i] == rec;
    }
    if rec in results && HasDateInRange(rec, lo, hi, toDatetime) {
      var i :| 0 <= i < |results| && results[i] == rec;
    }
  }

  /* ---------------------------------------------------------------------
     Combined search
     --------------------------------------------------------------------- */

  /** One `column: value` filter: the record has the column and its text
      contains the value, both lower-cased. */
  predicate FilterHolds(rec: Record, column: string, value: string) {
    column in rec.items && Contains(Lower(Stringify(rec.items[column])), Lower(value))
  }

  /** Every filter holds (AND semantics). */
  predicate MatchesAllFilters(rec: Record, filters: Dict<string>) {
    forall i | 0 <= i < |filters.keys| :: FilterHolds(rec, filters.keys[i], Lookup(filters, filters.keys[i], ""))
  }

  /** The records that pass every filter, in order. */
  function FilterRecords(rs: seq<Record>, filters: Dict<string>): (r: seq<Record>)
    ensures forall i :: 0 <= i < |r| ==> r[i] in rs && MatchesAllFilters(r[i], filters)
    ensures forall i :: 0 <= i < |rs| && MatchesAllFilters(rs[i], filters) ==> rs[i] in r
    ensures IsSubsequence(r, rs)
  {
    Filter(rs, (rec: Record) => MatchesAllFilters(rec, filters))
  }

  /** The search step of `combined_search`: nothing without a query, fuzzy
      search over all columns with `min_score`, or exact search. */
  function CombinedSearched(frames: seq<(string, Table)>, query: string, fuzzy: bool, minScore: int,
                            caseSensitive: bool, ratio: Ratio): seq<Record>
  {
    if query == "" then []
    else if fuzzy then FuzzyResults(frames, query, minScore, None, ratio)
    else ExactResults(frames, query, caseSensitive, None)
  }

  /** The date step of `combined_search`: applied only when a bound is
      given and the search found something. */
  function CombinedDated(searched: seq<Record>, startDate: string, endDate: string,
                         toDatetime: ToDatetime): Result<seq<Record>, string>
  {
    if (startDate != "" || endDate != "") && searched != [] then DateRangeFiltered(searched, startDate, endDate, toDatetime)
    else Ok(searched)
  }

  /** `combined_search`: search, then the date filter, then the column
      filters when there are any and something is left. */
  function CombinedResults(frames: seq<(string, Table)>, query: string, fuzzy: bool, minScore: int,
                           startDate: string, endDate: string, filters: Dict<string>,
                           caseSensitive: bool, ratio: Ratio, toDatetime: ToDatetime): (r: Result<seq<Record>, string>)
    ensures query == "" ==> r == Ok([])
  {
    match CombinedDated(CombinedSearched(frames, query, fuzzy, minScore, caseSensitive, ratio), startDate, endDate, toDatetime)
    case Err(e) => Err(e)
    case Ok(rs) => Ok(if |filters.keys| > 0 && rs != [] then FilterRecords(rs, filters) else rs)
  }

  /** What `combined_search` returns is an order-preserving selection of
      the search results, each passing every filter; it fails only on a
      date bound that does not parse. */
  lemma CombinedResultsSound(frames: seq<(string, Table)>, query: string, fuzzy: bool, minScore: int,
                             startDate: string, endDate: string, filters: Dict<string>,
                             caseSensitive: bool, ratio: Ratio, toDatetime: ToDatetime)
    ensures var r := CombinedResults(frames, query, fuzzy, minScore, startDate, endDate, filters, caseSensitive, ratio, toDatetime);
      && (r.Ok? ==> IsSubsequence(r.value, CombinedSearched(frames, query, fuzzy, minScore, caseSensitive, ratio)))
      && (r.Ok? ==> forall i :: 0 <= i < |r.value| ==> MatchesAllFilters(r.value[i], filters))
      && (r.Err? ==> Bound(startDate, toDatetime).Err? || Bound(endDate, toDatetime).Err?)
  {
    var searched := CombinedSearched(frames, query, fuzzy, minScore, caseSensitive, ratio);
    SubsequenceRefl(searched);
    var dated := CombinedDated(searched, startDate, endDate, toDatetime);
    if dated.Ok? {
      var rs := dated.value;
      if |filters.keys| > 0 && rs != [] {
        SubsequenceTrans(FilterRecords(rs, filters), rs, searched);
      }
    }
  }

  /** Without a failing bound, a record is returned exactly when the search
      found it, it has a date in range if the date step applies, and it
      passes every filter. */
  lemma CombinedResultsMembership(frames: seq<(string, Table)>, query: string, fuzzy: bool, minScore: int,
                                  startDate: string, endDate: string, filters: Dict<string>,
                                  caseSensitive: bool, ratio: Ratio, toDatetime: ToDatetime, rec: Record)
    requires Bound(startDate, toDatetime).Ok? && Bound(endDate, toDatetime).Ok?
    ensures var r := CombinedResults(frames, query, fuzzy, minScore, startDate, endDate, filters, caseSensitive, ratio, toDatetime);
      var searched := CombinedSearched(frames, query, fuzzy, minScore, caseSensitive, ratio);
      && r.Ok?
      && (rec in r.value <==>
            && rec in searched
            && ((startDate != "" || endDate != "") ==>
                  HasDateInRange(rec, Bound(startDate, toDatetime).value, Bound(endDate, toDatetime).value, toDatetime))
            && (|filters.keys| > 0 ==> MatchesAllFilters(rec, filters)))
  {
    var searched := CombinedSearched(frames, query, fuzzy, minScore, caseSensitive, ratio);
    CombinedDatedMembership(searched, startDate, endDate, toDatetime, rec);
    var rs := CombinedDated(searched, startDate, endDate, toDatetime).value;
    FilterRecordsMembership(rs, filters, rec);
  }

  /** The date step keeps exactly the records with a date in range, when it
      applies. */
  lemma CombinedDatedMembership(searched: seq<Record>, startDate: string, endDate: string,
                                toDatetime: ToDatetime, rec: Record)
    requires Bound(startDate, toDatetime).Ok? && Bound(endDate, toDatetime).Ok?
    ensures CombinedDated(searched, startDate, endDate, toDatetime).Ok?
    ensures rec in CombinedDated(searched, startDate, endDate, toDatetime).value <==>
      && rec in searched
      && ((startDate != "" || endDate != "") ==>
            HasDateInRange(rec, Bound(startDate, toDatetime).value, Bound(endDate, toDatetime).value, toDatetime))
  {
    if (startDate != "" || endDate != "") && searched != [] {
      DateRangeFilteredMembership(searched, startDate, endDate, toDatetime, rec);
    }
  }

  /** The column filters keep exactly the records that pass all of them. */
  lemma FilterRecordsMembership(rs: seq<Record>, filters: Dict<string>, rec: Record)
    ensures rec in FilterRecords(rs, filters) <==> rec in rs && MatchesAllFilters(rec, filters)
  {
    var out := FilterRecords(rs, filters);
    if rec in out {
      var i :| 0 <= i < |out| && out[i] == rec;
    }
    if rec in rs && MatchesAllFilters(rec, filters) {
      var i :| 0 <= i < |rs| && rs[i] == rec;
    }
  }

  /* ---------------------------------------------------------------------
     Comparing values
     --------------------------------------------------------------------- */

  /** `str(value).lower().strip()` */
  function Normalised(c: Cell): string {
    Strip(Lower(Stringify(c)))
  }

  /** `_values_match`: absent values never match; otherwise equal or
      containing normalised texts match, and failing that the two texts
      must parse to dates on the same day. */
  function ValuesMatch(v1: Option<Cell>, v2: Option<Cell>, parseDate: ParseDate): (r: bool)
    ensures v1.None? || v2.None? ==> !r
    ensures v1.Some? && v2.Some? && Contains(Normalised(v1.value), Normalised(v2.value)) ==> r
    ensures v1.Some? && v2.Some? && !Contains(Normalised(v1.value), Normalised(v2.value)) ==>
      (r <==> parseDate(Normalised(v1.value)).Some? && parseDate(Normalised(v2.value)).Some? &&
              DayOf(parseDate(Normalised(v1.value)).value) == DayOf(parseDate(Normalised(v2.value)).value))
  {
    if v1.None? || v2.None? then false
    else
      var s1 := Normalised(v1.value);
      var s2 := Normalised(v2.value);
      if s1 == s2 then
        assert s2 <= s1[0..];
        true
      else if Contains(s1, s2) then true
      else
        match (parseDate(s1), parseDate(s2))
        case (Some(d1), Some(d2)) => DayOf(d1) == DayOf(d2)
        case _ => false
  }

  /** Equal normalised texts always match. */
  lemma ValuesMatchEqual(v1: Cell, v2: Cell, parseDate: ParseDate)
    requires Normalised(v1) == Normalised(v2)
    ensures ValuesMatch(Some(v1), Some(v2), parseDate)
  {
    assert Normalised(v2) <= Normalised(v1)[0..];
  }

  /* ---------------------------------------------------------------------
     Date-range search over the datasets
     --------------------------------------------------------------------- */

  /** `_is_date`: the date parser accepts the text. */
  predicate IsDate(s: string, parseDate: ParseDate) {
    parseDate(s).Some?
  }

  /** One of the first five present cells of the column is a string that
      parses as a date. */
  predicate LooksLikeDateColumn(t: Table, column: string, parseDate: ParseDate) {
    var head := Take(PresentCells(t.rows, column), 5);
    exists i | 0 <= i < |head| :: head[i].Str? && IsDate(head[i].s, parseDate)
  }

  /** The columns of `t` that look like date columns, in column order. */
  function DetectDateColumns(t: Table, columns: seq<string>, parseDate: ParseDate): (r: seq<string>)
    ensures forall i :: 0 <= i < |r| ==> r[i] in columns && LooksLikeDateColumn(t, r[i], parseDate)
    ensures forall i :: 0 <= i < |columns| && LooksLikeDateColumn(t, columns[i], parseDate) ==> columns[i] in r
    ensures IsSubsequence(r, columns)
  {
    Filter(columns, (c: string) => LooksLikeDateColumn(t, c, parseDate))
  }

  /** Scanning one more column adds it exactly when it looks like a date column. */
  lemma DetectDateColumnsStep(t: Table, columns: seq<string>, parseDate: ParseDate, i: nat)
    requires i < |columns|
    ensures DetectDateColumns(t, columns[..i + 1], parseDate) ==
      if LooksLikeDateColumn(t, columns[i], parseDate) then DetectDateColumns(t, columns[..i], parseDate) + [columns[i]]
      else DetectDateColumns(t, columns[..i], parseDate)
  {
    FilterStep(columns, (c: string) => LooksLikeDateColumn(t, c, parseDate), i);
  }

  /** The date columns of a file: the requested ones it has, or, when none
      are requested, the detected ones. */
  function DateColumns(requested: Option<seq<string>>, t: Table, parseDate: ParseDate): (r: seq<string>)
    ensures forall i :: 0 <= i < |r| ==> r[i] in t.columns
  {
    if requested.None? || requested.value == [] then DetectDateColumns(t, t.columns, parseDate)
    else KeepPresent(requested.value, t.columns)
  }

  /** A cell whose text is neither `nan` (in any case) nor empty and parses
      to a date within the bounds. */
  predicate CellDateInRange(c: Cell, lo: Option<Instant>, hi: Option<Instant>, parseDate: ParseDate) {
    var s := Stringify(c);
    Lower(s) != "nan" && s != "" && parseDate(s).Some? && InRange(parseDate(s).value, lo, hi)
  }

  /** Some date column of the row holds a date within the bounds. */
  predicate RowDateInRange(row: Row, dateCols: seq<string>, lo: Option<Instant>, hi: Option<Instant>,
                           parseDate: ParseDate) {
    exists k | 0 <= k < |dateCols| :: CellDateInRange(At(row, dateCols[k]), lo, hi, parseDate)
  }

  /** The record of a matched row: every column as text, and its index
      as `_row_index`. */
  function IndexedRecord(columns: seq<string>, row: Row, j: int): (r: Record)
    ensures Valid(r)
    ensures forall c :: c in r.items <==> c in columns || c == RowIndexField
    ensures r.items[RowIndexField] == Num(j)
    ensures forall c :: c in columns && c != RowIndexField ==> r.items[c] == Str(Stringify(At(row, c)))
  {
    Put(StrRowRecord(columns, row), RowIndexField, Num(j))
  }

  /** Over distinct columns the record lists the columns, then `_row_index`. */
  lemma IndexedRecordKeys(columns: seq<string>, row: Row, j: int)
    requires Distinct(columns) && RowIndexField !in columns
    ensures IndexedRecord(columns, row, j).keys == columns + [RowIndexField]
  {
    StrRowRecordKeys(columns, row);
  }

  /** What row `j` contributes to a file's date matches. */
  function DateRowResults(columns: seq<string>, rows: seq<Row>, dateCols: seq<string>,
                          lo: Option<Instant>, hi: Option<Instant>, parseDate: ParseDate): (r: seq<Option<Record>>)
    ensures |r| == |rows|
    ensures forall j :: 0 <= j < |rows| ==>
      r[j] == if RowDateInRange(rows[j], dateCols, lo, hi, parseDate) then Some(IndexedRecord(columns, rows[j], j)) else None
  {
    seq(|rows|, j requires 0 <= j < |rows| =>
      if RowDateInRange(rows[j], dateCols, lo, hi, parseDate) then Some(IndexedRecord(columns, rows[j], j)) else None)
  }

  /** The date matches of one file; none when it has no date column. */
  function DateFileMatches(t: Table, requested: Option<seq<string>>, lo: Option<Instant>, hi: Option<Instant>,
                           parseDate: ParseDate): seq<Record>
  {
    var dc := DateColumns(requested, t, parseDate);
    if dc == [] then [] else Somes(DateRowResults(t.columns, t.rows, dc, lo, hi, parseDate))
  }

  /** A record is among a file's date matches exactly when it is the record
      of a row with a date in range. */
  lemma DateFileMatchesMembership(t: Table, requested: Option<seq<string>>, lo: Option<Instant>, hi: Option<Instant>,
                                  parseDate: ParseDate, rec: Record)
    ensures rec in DateFileMatches(t, requested, lo, hi, parseDate) <==>
      exists j :: 0 <= j < |t.rows| && DateColumns(requested, t, parseDate) != [] &&
        RowDateInRange(t.rows[j], DateColumns(requested, t, parseDate), lo, hi, parseDate) &&
        rec == IndexedRecord(t.columns, t.rows[j], j)
  {
    var dc := DateColumns(requested, t, parseDate);
    if dc != [] {
      var rs := DateRowResults(t.columns, t.rows, dc, lo, hi, parseDate);
      SomesMembership(rs, rec);
    }
  }

  /** Each dataset's name with its date matches. */
  function DateFiles(frames: seq<(string, Table)>, requested: Option<seq<string>>, lo: Option<Instant>,
                     hi: Option<Instant>, parseDate: ParseDate): (r: seq<(string, seq<Record>)>)
    ensures |r| == |frames|
    ensures forall i :: 0 <= i < |frames| ==>
      r[i] == (frames[i].0, DateFileMatches(frames[i].1, requested, lo, hi, parseDate))
  {
    seq(|frames|, i requires 0 <= i < |frames| => (frames[i].0, DateFileMatches(frames[i].1, requested, lo, hi, parseDate)))
  }

  /** `datetime.strptime(date, '%Y-%m-%d')` for a given bound, none (the
      extreme `datetime.min` or `datetime.max`) for an absent one. */
  function DateBoundOf(date: string, strptime: ParseDate): Option<Instant> {
    if date != "" then strptime(date) else None
  }

  /** With distinct file names, a file's entry holds exactly its matches. */
  lemma DateRangeResultsValue(frames: seq<(string, Table)>, startDate: string, endDate: string,
                              requested: Option<seq<string>>, strptime: ParseDate, parseDate: ParseDate, i: int)
    requires 0 <= i < |frames|
    requires forall a, b :: 0 <= a < b < |frames| ==> frames[a].0 != frames[b].0
    requires !(startDate != "" && strptime(startDate).None?) && !(endDate != "" && strptime(endDate).None?)
    requires DateFileMatches(frames[i].1, requested, DateBoundOf(startDate, strptime), DateBoundOf(endDate, strptime), parseDate) != []
    ensures frames[i].0 in DateRangeResults(frames, startDate, endDate, requested, strptime, parseDate).items
    ensures DateRangeResults(frames, startDate, endDate, requested, strptime, parseDate).items[frames[i].0] ==
      DateFileMatches(frames[i].1, requested, DateBoundOf(startDate, strptime), DateBoundOf(endDate, strptime), parseDate)
  {
    var files := DateFiles(frames, requested, DateBoundOf(startDate, strptime), DateBoundOf(endDate, strptime), parseDate);
    PutNonEmptyValue(Empty(), files, i);
  }

  /** `date_range_search`: an empty result when a given bound is not a
      `YYYY-MM-DD` date; otherwise the files with a date match, each with
      its matches. */
  function DateRangeResults(frames: seq<(string, Table)>, startDate: string, endDate: string,
                            requested: Option<seq<string>>, strptime: ParseDate, parseDate: ParseDate): (r: Dict<seq<Record>>)
    ensures Valid(r)
    ensures (startDate != "" && strptime(startDate).None?) || (endDate != "" && strptime(endDate).None?) ==>
      r.keys == []
    ensures !((startDate != "" && strptime(startDate).None?) || (endDate != "" && strptime(endDate).None?)) ==>
      forall f :: f in r.items <==> exists i :: (0 <= i < |frames| && frames[i].0 == f &&
        DateFileMatches(frames[i].1, requested, DateBoundOf(startDate, strptime), DateBoundOf(endDate, strptime), parseDate) != [])
  {
    if startDate != "" && strptime(startDate).None? then Empty()
    else if endDate != "" && strptime(endDate).None? then Empty()
    else
      var lo := DateBoundOf(startDate, strptime);
      var hi := DateBoundOf(endDate, strptime);
      PutNonEmpty(Empty(), DateFiles(frames, requested, lo, hi, parseDate))
  }

  /* ---------------------------------------------------------------------
     Display
     --------------------------------------------------------------------- */

  /** `s[:n]` with Python's meaning for a negative `n`. */
  function PyPrefix<T>(s: seq<T>, n: int): (r: seq<T>)
    ensures r <= s
    ensures n >= 0 ==> |r| == if n < |s| then n else |s|
    ensures n < 0 ==> |r| == if |s| + n > 0 then |s| + n else 0
  {
    if n >= 0 then (if n < |s| then s[..n] else s)
    else if |s| + n > 0 then s[..|s| + n] else []
  }

  /** The keys of a record other than `file`, `match_score` and `matching_value`. */
  function DataKeys(keys: seq<string>): (r: seq<string>)
    ensures forall i :: 0 <= i < |r| ==> r[i] in keys && r[i] !in [FileField, MatchScoreField, MatchingValueField]
    ensures forall i :: 0 <= i < |keys| && keys[i] !in [FileField, MatchScoreField, MatchingValueField] ==> keys[i] in r
    ensures IsSubsequence(r, keys)
  {
    Filter(keys, (k: string) => k !in [FileField, MatchScoreField, MatchingValueField])
  }

  /** The columns `display_results` considers: the data keys, cut to
      `max_columns` when that is non-zero and smaller than their number. */
  function DisplayColumns(rec: Record, maxColumns: int): (r: seq<string>)
    ensures maxColumns == 0 || |DataKeys(rec.keys)| <= maxColumns ==> r == DataKeys(rec.keys)
    ensures maxColumns > 0 ==> |r| <= maxColumns
    ensures r <= DataKeys(rec.keys)
  {
    var cols := DataKeys(rec.keys);
    if maxColumns != 0 && |cols| > maxColumns then PyPrefix(cols, maxColumns) else cols
  }

  /** The (column, value) lines shown for a record: its display columns
      whose value is present, in display order. */
  function DisplayedFields(rec: Record, maxColumns: int): (r: seq<(string, Cell)>)
    ensures forall i :: 0 <= i < |r| ==>
      r[i].0 in DisplayColumns(rec, maxColumns) && !IsNa(r[i].1) && r[i].1 == Lookup(rec, r[i].0, Missing)
    ensures var cols := DisplayColumns(rec, maxColumns);
      forall i :: 0 <= i < |cols| && !IsNa(Lookup(rec, cols[i], Missing)) ==> (cols[i], Lookup(rec, cols[i], Missing)) in r
    ensures FieldNames(r) == Filter(DisplayColumns(rec, maxColumns), PresentIn(rec))
  {
    PresentFieldsOrder(rec, DisplayColumns(rec, maxColumns));
    PresentFields(rec, DisplayColumns(rec, maxColumns))
  }

  /** The column is set to a non-NaN value in the record (`pd.notna(result[col])`). */
  function PresentIn(rec: Record): (p: string -> bool)
    ensures forall c :: p(c) <==> !IsNa(Lookup(rec, c, Missing))
  {
    c => !IsNa(Lookup(rec, c, Missing))
  }

  /** The column names of (column, value) lines, in order. */
  function FieldNames(fields: seq<(string, Cell)>): (r: seq<string>)
    ensures |r| == |fields| && forall i :: 0 <= i < |fields| ==> r[i] == fields[i].0
  {
    seq(|fields|, i requires 0 <= i < |fields| => fields[i].0)
  }

  /** The present values among `cols`, in order. */
  function PresentFields(rec: Record, cols: seq<string>): (r: seq<(string, Cell)>)
    ensures forall i :: 0 <= i < |r| ==> r[i].0 in cols && !IsNa(r[i].1) && r[i].1 == Lookup(rec, r[i].0, Missing)
    ensures forall i :: 0 <= i < |cols| && !IsNa(Lookup(rec, cols[i], Missing)) ==>
      (cols[i], Lookup(rec, cols[i], Missing)) in r
    decreases |cols|
  {
    if cols == [] then []
    else
      var init := PresentFields(rec, cols[..|cols| - 1]);
      var c := cols[|cols| - 1];
      assert cols == cols[..|cols| - 1] + [c];
      var v := Lookup(rec, c, Missing);
      if IsNa(v) then init else init + [(c, v)]
  }

  /** The lines come in column order: their names are the present columns,
      in the order the columns are listed. */
  lemma {:induction false} PresentFieldsOrder(rec: Record, cols: seq<string>)
    ensures FieldNames(PresentFields(rec, cols)) == Filter(cols, PresentIn(rec))
    decreases |cols|
  {
    if cols != [] {
      var n := |cols| - 1;
      PresentFieldsOrder(rec, cols[..n]);
      FilterStep(cols, PresentIn(rec), n);
      PrefixFull(cols);
      var init := PresentFields(rec, cols[..n]);
      var v := Lookup(rec, cols[n], Missing);
      if !IsNa(v) {
        assert FieldNames(init + [(cols[n], v)]) == FieldNames(init) + [cols[n]];
      }
    }
  }
}
