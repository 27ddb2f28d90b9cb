/** The data model shared by all scripts: a CSV cell, a row, a dataframe and
    a result record. */
module Frames {
  import opened Text
  import opened Seqs
  import opened PyDict

  /** A dataframe cell: missing (pandas NaN / None), a string, or a number.
      Numbers are integers here; see README for what that leaves out. */
  datatype Cell = Missing | Str(s: string) | Num(n: int)

  /** One row of a dataframe, by column name. */
  type Row = map<string, Cell>

  /** A dataframe: its column names in order and its rows in order. */
  datatype Table = Table(columns: seq<string>, rows: seq<Row>)

  /** A result record: a Python dict from field name to cell. */
  type Record = Dict<Cell>

  /** A point in time as produced by the date parsers of the source, in
      seconds; the model uses only its order and its day. */
  type Instant = int

  /** The calendar day of an instant (`.date()`), taking an instant to count
      seconds. */
  function DayOf(t: Instant): int {
    t / 86400
  }

  /** Column names are distinct (pandas de-duplicates them on read) and
      every row holds every column. */
  ghost predicate WellFormed(t: Table) {
    Distinct(t.columns) && forall r, c :: r in t.rows && c in t.columns ==> c in r
  }

  /** `row[c]`; a cell that the row does not hold reads as missing. */
  function At(row: Row, c: string): Cell {
    if c in row then row[c] else Missing
  }

  /** `row[c] = v` */
  function SetCell(row: Row, c: string, v: Cell): (r: Row)
    ensures At(r, c) == v
    ensures forall x :: x != c ==> At(r, x) == At(row, x)
  {
    row[c := v]
  }

  /** `pd.isna(value)` */
  predicate IsNa(c: Cell) {
    c.Missing?
  }

  /** `str(value)` */
  function Stringify(c: Cell): string {
    match c
    case Missing => "nan"
    case Str(s) => s
    case Num(n) => IntToString(n)
  }

  /** `{col: row[col] for col in cols}` */
  function RowRecord(cols: seq<string>, row: Row): (r: Record)
    ensures Valid(r)
    ensures forall c :: c in r.items <==> c in cols
    ensures forall c :: c in cols ==> r.items[c] == At(row, c)
  {
    if cols == [] then Empty()
    else
      var init := cols[..|cols| - 1];
      var last := cols[|cols| - 1];
      assert cols == init + [last];
      Put(RowRecord(init, row), last, At(row, last))
  }

  /** `{col: str(row[col]) for col in cols}` */
  function StrRowRecord(cols: seq<string>, row: Row): (r: Record)
    ensures Valid(r)
    ensures forall c :: c in r.items <==> c in cols
    ensures forall c :: c in cols ==> r.items[c] == Str(Stringify(At(row, c)))
  {
    if cols == [] then Empty()
    else
      var init := cols[..|cols| - 1];
      var last := cols[|cols| - 1];
      assert cols == init + [last];
      WithText(StrRowRecord(init, row), row, last)
  }

  /** `rec[c] = str(row[c])` */
  function WithText(rec: Record, row: Row, c: string): (r: Record)
    ensures Valid(rec) ==> Valid(r)
    ensures r.items == rec.items[c := Str(Stringify(At(row, c)))]
  {
    Put(rec, c, Str(Stringify(At(row, c))))
  }

  /** Over distinct columns the record's fields come in column order. */
  lemma {:induction false} RowRecordKeys(cols: seq<string>, row: Row)
    requires Distinct(cols)
    ensures RowRecord(cols, row).keys == cols
    decreases |cols|
  {
    if cols != [] {
      var init := cols[..|cols| - 1];
      assert cols == init + [cols[|cols| - 1]];
      RowRecordKeys(init, row);
    }
  }

  /** Over distinct columns the record's fields come in column order. */
  lemma {:induction false} StrRowRecordKeys(cols: seq<string>, row: Row)
    requires Distinct(cols)
    ensures StrRowRecord(cols, row).keys == cols
    decreases |cols|
  {
    if cols != [] {
      var init := cols[..|cols| - 1];
      assert cols == init + [cols[|cols| - 1]];
      StrRowRecordKeys(init, row);
    }
  }

  /** `StrRowRecord` of one more column: one step of the building loop. */
  lemma StrRowRecordStep(cols: seq<string>, row: Row, j: nat)
    requires j < |cols|
    ensures StrRowRecord(cols[..j + 1], row) == WithText(StrRowRecord(cols[..j], row), row, cols[j])
  {
    PrefixSnoc(cols, j);
  }

  /** `df[c] = values`: the column is added at the end, or overwritten in
      place when the table already has one. */
  function WithColumn(t: Table, c: string, values: seq<Cell>): (r: Table)
    requires |values| == |t.rows|
    ensures |r.rows| == |t.rows|
    ensures forall x :: x in r.columns <==> x in t.columns || x == c
    ensures c in t.columns ==> r.columns == t.columns
    ensures forall i :: 0 <= i < |t.rows| ==> r.rows[i] == t.rows[i][c := values[i]]
    ensures Distinct(t.columns) ==> Distinct(r.columns)
  {
    var columns := if c in t.columns then t.columns else t.columns + [c];
    Table(columns, seq(|t.rows|, i requires 0 <= i < |t.rows| => t.rows[i][c := values[i]]))
  }

  /** At most the first `n` elements (`s[:n]` for `n >= 0`). */
  function Take<T>(s: seq<T>, n: nat): (r: seq<T>)
    ensures |r| <= n && r <= s
    ensures |s| <= n ==> r == s
  {
    if |s| <= n then s else s[..n]
  }

  /** `df[column].dropna()`: the present cells of a column, in row order. */
  function PresentCells(rows: seq<Row>, column: string): (r: seq<Cell>)
    ensures forall i :: 0 <= i < |r| ==> !IsNa(r[i])
    ensures |r| <= |rows|
    decreases |rows|
  {
    if rows == [] then []
    else
      var init := PresentCells(rows[..|rows| - 1], column);
      var c := At(rows[|rows| - 1], column);
      if IsNa(c) then init else init + [c]
  }
}
