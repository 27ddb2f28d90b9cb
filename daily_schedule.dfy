/** The daily-schedule job extractor of daily_schedule_processor.py: the
    schedule date read from a file name, the scan that turns the cells of
    one exported sheet into jobs, and the concatenation over all files. */
module DailySchedule {
  import opened Wrappers
  import opened Text
  import opened Seqs
  import opened PyDict
  import opened Frames

  /** A job: field name to text, in insertion order. */
  type Job = Dict<string>

  const ScheduleDateField := "Schedule_Date"
  const SourceFileField := "Source_File"
  const AddressField := "Address"
  const PhoneField := "Phone"
  const EmailField := "Email"

  /* ---------------------------------------------------------------------
     extract_date_from_filename
     --------------------------------------------------------------------- */

  /** `\d{2}_\d{2}_\d{2}` matches at position `p`. */
  predicate DateMatchAt(s: string, p: nat) {
    && p + 8 <= |s|
    && IsDigit(s[p]) && IsDigit(s[p + 1]) && s[p + 2] == '_'
    && IsDigit(s[p + 3]) && IsDigit(s[p + 4]) && s[p + 5] == '_'
    && IsDigit(s[p + 6]) && IsDigit(s[p + 7])
  }

  /** `re.search`: the first position at or after `from` where the date
      pattern matches. */
  function FirstDateMatch(s: string, from: nat): (r: Option<nat>)
    ensures r.Some? ==> from <= r.value && DateMatchAt(s, r.value)
    ensures r.Some? ==> forall q :: from <= q < r.value ==> !DateMatchAt(s, q)
    ensures r.None? ==> forall q :: from <= q ==> !DateMatchAt(s, q)
    decreases |s| - from
  {
    if from + 8 > |s| then None
    else if DateMatchAt(s, from) then Some(from)
    else FirstDateMatch(s, from + 1)
  }

  /** `YYYY-MM-DD` in shape: ten characters, digits with dashes at 4 and 7,
      in the 2000s. */
  predicate IsoShaped(r: string) {
    && |r| == 10 && r[..2] == "20" && r[4] == '-' && r[7] == '-'
    && IsDigit(r[2]) && IsDigit(r[3]) && IsDigit(r[5]) && IsDigit(r[6])
    && IsDigit(r[8]) && IsDigit(r[9])
  }

  /** The ISO date written for a match at `p`: `20YY-MM-DD`. */
  function IsoFromMatch(b: string, p: nat): (r: string)
    requires DateMatchAt(b, p)
    ensures IsoShaped(r)
  {
    ['2', '0', b[p + 6], b[p + 7], '-', b[p], b[p + 1], '-', b[p + 3], b[p + 4]]
  }

  /** `extract_date_from_filename`: the first `MM_DD_YY` in the base name
      becomes `20YY-MM-DD` (neither month nor day is range-checked);
      without one, the file's modification date, or `Unknown` when that
      cannot be read. */
  function ExtractDateFromFilename(filename: string, modifiedDate: Option<string>): (r: string)
    ensures FirstDateMatch(Basename(filename), 0).Some? ==> IsoShaped(r)
    ensures FirstDateMatch(Basename(filename), 0).Some? ==>
      var b := Basename(filename);
      var p := FirstDateMatch(b, 0).value;
      r[..2] == "20" && r[5..7] + "_" + r[8..10] + "_" + r[2..4] == b[p..p + 8]
    ensures FirstDateMatch(Basename(filename), 0).None? ==> r == modifiedDate.GetOr("Unknown")
  {
    var b := Basename(filename);
    match FirstDateMatch(b, 0)
    case Some(p) =>
      DateRoundTrip(b, p);
      IsoFromMatch(b, p)
    case None => modifiedDate.GetOr("Unknown")
  }

  /** The ISO date gives back the matched `MM_DD_YY`: month, day and
      two-digit year are carried over unchanged. */
  lemma DateRoundTrip(b: string, p: nat)
    requires DateMatchAt(b, p)
    ensures var r := IsoFromMatch(b, p);
      r[5..7] + "_" + r[8..10] + "_" + r[2..4] == b[p..p + 8]
  {
    var r := IsoFromMatch(b, p);
    assert r[5..7] + "_" + r[8..10] + "_" + r[2..4] == [b[p], b[p + 1], '_', b[p + 3], b[p + 4], '_', b[p + 6], b[p + 7]];
  }

  /** Only the base name is searched: a date in a directory name is not used. */
  lemma DateFromBaseNameOnly(dir: string, name: string, modifiedDate: Option<string>)
    requires '/' !in name
    ensures ExtractDateFromFilename(dir + "/" + name, modifiedDate) == ExtractDateFromFilename(name, modifiedDate)
  {
    BasenameAfterSlash(dir, name);
    NoSlashBasename(name);
  }

  /** The base name of `dir/name` is `name`. */
  lemma BasenameAfterSlash(dir: string, name: string)
    requires '/' !in name
    ensures Basename(dir + "/" + name) == name
  {
    var p := dir + "/" + name;
    assert p[|dir|] == '/';
    assert p[|dir| + 1..] == name;
  }

  /** A name without `/` is its own base name. */
  lemma NoSlashBasename(name: string)
    requires '/' !in name
    ensures Basename(name) == name
  {
  }

  /* ---------------------------------------------------------------------
     The job scan of process_schedule_file
     --------------------------------------------------------------------- */

  /** The first `re.findall` match of the address, phone and e-mail
      patterns in a text, if any. */
  datatype Extractors = Extractors(address: string -> Option<string>,
                                   phone: string -> Option<string>,
                                   email: string -> Option<string>)

  /** The jobs found so far and the job being filled. */
  datatype Scan = Scan(jobs: seq<Job>, current: Job)

  /** The scan's invariant: every job is a proper dictionary with more
      than one field, and the open job is a proper dictionary. */
  ghost predicate ScanValid(st: Scan) {
    Valid(st.current) && forall j :: j in st.jobs ==> Valid(j) && |j.keys| > 1
  }

  /** The scan before the first row. */
  function Start(): Scan {
    Scan([], Empty())
  }

  /** `if current_job and len(current_job) > 1: jobs.append(current_job);
      current_job = {}` */
  function Flush(st: Scan): (r: Scan)
    ensures |st.current.keys| > 1 ==> r == Scan(st.jobs + [st.current], Empty())
    ensures |st.current.keys| <= 1 ==> r == st
    ensures ScanValid(st) ==> ScanValid(r)
  {
    if |st.current.keys| > 1 then Scan(st.jobs + [st.current], Empty()) else st
  }

  /** A cell mentioning `COMPANY:` closes the open job (when it has more
      than one field) and stamps the schedule date and source file on the
      job being filled. */
  function CompanyStep(st: Scan, s: string, date: string, source: string): (r: Scan)
    ensures !Contains(s, "COMPANY:") ==> r == st
    ensures Contains(s, "COMPANY:") ==>
      ScheduleDateField in r.current.items && r.current.items[ScheduleDateField] == date &&
      SourceFileField in r.current.items && r.current.items[SourceFileField] == source
    ensures Contains(s, "COMPANY:") && |st.current.keys| > 1 ==>
      r.jobs == st.jobs + [st.current] && r.current.keys == [ScheduleDateField, SourceFileField]
    ensures Contains(s, "COMPANY:") && |st.current.keys| <= 1 ==>
      r.jobs == st.jobs && forall k :: k in st.current.items ==> k in r.current.items
    ensures ScanValid(st) ==> ScanValid(r)
  {
    if Contains(s, "COMPANY:") then
      var f := Flush(st);
      Scan(f.jobs, Put(Put(f.current, ScheduleDateField, date), SourceFileField, source))
    else st
  }

  /** A cell with a colon is split at the first one; the stripped key and
      value are stored when both are non-empty, replacing an earlier value. */
  function PairStep(current: Job, s: string): (r: Job)
    ensures Valid(current) ==> Valid(r)
    ensures match SplitOnce(s, ':')
      case Some((a, b)) =>
        if Strip(a) != "" && Strip(b) != "" then
          Strip(a) in r.items && r.items[Strip(a)] == Strip(b) &&
          forall k :: k in current.items && k != Strip(a) ==> k in r.items && r.items[k] == current.items[k]
        else r == current
      case None => r == current
  {
    match SplitOnce(s, ':')
    case None => current
    case Some((a, b)) =>
      var key := Strip(a);
      var value := Strip(b);
      if key != "" && value != "" then Put(current, key, value) else current
  }

  /** `if matches and key not in current_job: current_job[key] = matches[0]`:
      the first value found for a key is kept. */
  function PutIfAbsent(current: Job, key: string, found: Option<string>): (r: Job)
    ensures Valid(current) ==> Valid(r)
    ensures key in current.items || found.None? ==> r == current
    ensures key !in current.items && found.Some? ==> r == Put(current, key, found.value)
  {
    if found.Some? && key !in current.items then Put(current, key, found.value) else current
  }

  /** The address, phone and e-mail found in a text, each kept only when
      the job has no such field yet. */
  function ContactStep(current: Job, s: string, ex: Extractors): (r: Job)
    ensures Valid(current) ==> Valid(r)
    ensures forall k :: k in current.items ==> k in r.items && r.items[k] == current.items[k]
  {
    var withAddress := PutIfAbsent(current, AddressField, ex.address(s));
    var withPhone := PutIfAbsent(withAddress, PhoneField, ex.phone(s));
    PutIfAbsent(withPhone, EmailField, ex.email(s))
  }

  /** One cell of a row: text cells go through the company, pair and
      contact steps in turn; any other cell is skipped. */
  function CellStep(st: Scan, cell: Cell, date: string, source: string, ex: Extractors): (r: Scan)
    ensures !cell.Str? ==> r == st
    ensures ScanValid(st) ==> ScanValid(r)
  {
    match cell
    case Str(s) =>
      var c := CompanyStep(st, s, date, source);
      Scan(c.jobs, ContactStep(PairStep(c.current, s), s, ex))
    case _ => st
  }

  /** The cells in order, one step each. */
  function ScanCells(st: Scan, cells: seq<Cell>, date: string, source: string, ex: Extractors): Scan
    decreases |cells|
  {
    if cells == [] then st
    else CellStep(ScanCells(st, cells[..|cells| - 1], date, source, ex), cells[|cells| - 1], date, source, ex)
  }

  /** `row.values`: the row's cells in column order. */
  function RowCells(row: Row, columns: seq<string>): (r: seq<Cell>)
    ensures |r| == |columns| && forall i :: 0 <= i < |columns| ==> r[i] == At(row, columns[i])
  {
    seq(|columns|, i requires 0 <= i < |columns| => At(row, columns[i]))
  }

  /** Every cell of the row is missing. */
  predicate AllMissing(row: Row, columns: seq<string>) {
    forall c :: c in columns ==> IsNa(At(row, c))
  }

  /** One row: an all-missing row closes the open job; any other row is
      scanned cell by cell. */
  function RowStep(st: Scan, row: Row, columns: seq<string>, date: string, source: string,
                   ex: Extractors): Scan
  {
    if AllMissing(row, columns) then Flush(st)
    else ScanCells(st, RowCells(row, columns), date, source, ex)
  }

  /** The rows in order, one step each. */
  function ScanRows(st: Scan, rows: seq<Row>, columns: seq<string>, date: string, source: string,
                    ex: Extractors): Scan
    decreases |rows|
  {
    if rows == [] then st
    else RowStep(ScanRows(st, rows[..|rows| - 1], columns, date, source, ex), rows[|rows| - 1],
                 columns, date, source, ex)
  }

  /** `df.dropna(how='all')`: the rows with at least one present cell. */
  function NonEmptyRows(t: Table): (r: seq<Row>)
    ensures forall i :: 0 <= i < |r| ==> r[i] in t.rows && !AllMissing(r[i], t.columns)
    ensures forall i :: 0 <= i < |t.rows| && !AllMissing(t.rows[i], t.columns) ==> t.rows[i] in r
    ensures IsSubsequence(r, t.rows)
  {
    Filter(t.rows, (row: Row) => !AllMissing(row, t.columns))
  }

  /** The jobs of one sheet: scan the non-empty rows, then close the last
      job when it has more than one field. */
  function SheetJobs(t: Table, date: string, source: string, ex: Extractors): seq<Job> {
    Flush(ScanRows(Start(), NonEmptyRows(t), t.columns, date, source, ex)).jobs
  }

  /** `process_schedule_file`: the jobs of one file, or none when the file
      cannot be read. */
  function ScheduleFileJobs(filePath: string, modifiedDate: Option<string>, read: string -> Option<Table>,
                            ex: Extractors): seq<Job>
  {
    match read(filePath)
    case None => []
    case Some(t) => SheetJobs(t, ExtractDateFromFilename(filePath, modifiedDate), Basename(filePath), ex)
  }

  /** The scan keeps its invariant over any cells. */
  lemma {:induction false} ScanCellsValid(st: Scan, cells: seq<Cell>, date: string, source: string, ex: Extractors)
    requires ScanValid(st)
    ensures ScanValid(ScanCells(st, cells, date, source, ex))
    decreases |cells|
  {
    if cells != [] {
      ScanCellsValid(st, cells[..|cells| - 1], date, source, ex);
    }
  }

  /** The scan keeps its invariant over any rows. */
  lemma {:induction false} ScanRowsValid(st: Scan, rows: seq<Row>, columns: seq<string>, date: string,
                                         source: string, ex: Extractors)
    requires ScanValid(st)
    ensures ScanValid(ScanRows(st, rows, columns, date, source, ex))
    decreases |rows|
  {
    if rows != [] {
      var n := |rows| - 1;
      ScanRowsValid(st, rows[..n], columns, date, source, ex);
      var prev := ScanRows(st, rows[..n], columns, date, source, ex);
      if !AllMissing(rows[n], columns) {
        ScanCellsValid(prev, RowCells(rows[n], columns), date, source, ex);
      }
    }
  }

  /** Every job of a file is a proper dictionary with more than one field. */
  lemma FileJobsHaveFields(filePath: string, modifiedDate: Option<string>, read: string -> Option<Table>,
                           ex: Extractors)
    ensures forall j :: j in ScheduleFileJobs(filePath, modifiedDate, read, ex) ==> Valid(j) && |j.keys| > 1
  {
    if read(filePath).Some? {
      var t := read(filePath).value;
      ScanRowsValid(Start(), NonEmptyRows(t), t.columns,
                    ExtractDateFromFilename(filePath, modifiedDate), Basename(filePath), ex);
    }
  }

  /** Scanning two runs of cells is scanning the first, then the second. */
  lemma {:induction false} ScanCellsAppend(st: Scan, a: seq<Cell>, b: seq<Cell>, date: string, source: string,
                                           ex: Extractors)
    ensures ScanCells(st, a + b, date, source, ex) ==
      ScanCells(ScanCells(st, a, date, source, ex), b, date, source, ex)
    decreases |b|
  {
    if b == [] {
      AppendEmpty(a);
    } else {
      var n := |b| - 1;
      ScanCellsAppend(st, a, b[..n], date, source, ex);
      SnocAppend(a, b);
    }
  }

  /** All cells of the rows, row after row. */
  function AllCells(rows: seq<Row>, columns: seq<string>): seq<Cell>
    decreases |rows|
  {
    if rows == [] then [] else AllCells(rows[..|rows| - 1], columns) + RowCells(rows[|rows| - 1], columns)
  }

  /** Once all-missing rows are dropped, row boundaries play no part: the
      scan of the rows is the scan of all their cells in order, so jobs are
      delimited only by `COMPANY:` cells and the end of the sheet. */
  lemma {:induction false} RowsAreCells(st: Scan, rows: seq<Row>, columns: seq<string>, date: string,
                                        source: string, ex: Extractors)
    requires forall i :: 0 <= i < |rows| ==> !AllMissing(rows[i], columns)
    ensures ScanRows(st, rows, columns, date, source, ex) ==
      ScanCells(st, AllCells(rows, columns), date, source, ex)
    decreases |rows|
  {
    if rows != [] {
      var n := |rows| - 1;
      var init := rows[..n];
      assert forall i :: 0 <= i < n ==> init[i] == rows[i];
      RowsAreCells(st, init, columns, date, source, ex);
      ScanCellsAppend(st, AllCells(init, columns), RowCells(rows[n], columns), date, source, ex);
    }
  }

  /** The jobs of a sheet are those of the scan over all cells of its
      non-empty rows. */
  lemma SheetJobsFromCells(t: Table, date: string, source: string, ex: Extractors)
    ensures SheetJobs(t, date, source, ex) ==
      Flush(ScanCells(Start(), AllCells(NonEmptyRows(t), t.columns), date, source, ex)).jobs
  {
    RowsAreCells(Start(), NonEmptyRows(t), t.columns, date, source, ex);
  }

  /* ---------------------------------------------------------------------
     The processor
     --------------------------------------------------------------------- */

  /** All jobs of the files, in file order. */
  function AllJobs(files: seq<string>, modifiedDate: string -> Option<string>, read: string -> Option<Table>,
                   ex: Extractors): seq<Job>
  {
    Concat(PerFileJobs(files, modifiedDate, read, ex))
  }

  /** The jobs of each file. */
  function PerFileJobs(files: seq<string>, modifiedDate: string -> Option<string>, read: string -> Option<Table>,
                       ex: Extractors): (r: seq<seq<Job>>)
    ensures |r| == |files|
    ensures forall i :: 0 <= i < |files| ==> r[i] == ScheduleFileJobs(files[i], modifiedDate(files[i]), read, ex)
  {
    seq(|files|, i requires 0 <= i < |files| => ScheduleFileJobs(files[i], modifiedDate(files[i]), read, ex))
  }

  /** `DailyScheduleProcessor`: the schedule files found in its folder and
      the combined jobs once processed. */
  class DailyScheduleProcessor {
    var schedulesFolder: string
    var scheduleFiles: seq<string>
    var combinedData: Option<seq<Job>>

    /** `listing` is the folder's `*.csv` files, or `None` when the folder
        does not exist. */
    constructor(folder: string, listing: Option<seq<string>>)
      ensures schedulesFolder == folder
      ensures scheduleFiles == listing.GetOr([])
      ensures combinedData.None?
    {
      schedulesFolder := folder;
      scheduleFiles := listing.GetOr([]);
      combinedData := None;
    }

    /** `process_schedule_file`: scan one file's non-empty rows cell by
        cell, building jobs. */
    static method ProcessScheduleFile(filePath: string, modifiedDate: Option<string>, read: string -> Option<Table>,
                               ex: Extractors) returns (jobs: seq<Job>)
      ensures jobs == ScheduleFileJobs(filePath, modifiedDate, read, ex)
      ensures forall j :: j in jobs ==> Valid(j) && |j.keys| > 1
    {
      FileJobsHaveFields(filePath, modifiedDate, read, ex);
      var scheduleDate := ExtractDateFromFilename(filePath, modifiedDate);
      var source := Basename(filePath);
      var df := read(filePath);
      if df.None? {
        return [];
      }
      var t := df.value;
      var rows := NonEmptyRows(t);
      jobs := [];
      var currentJob: Job := Empty();
      var i := 0;
      while i < |rows|
        invariant 0 <= i <= |rows|
        invariant Scan(jobs, currentJob) == ScanRows(Start(), rows[..i], t.columns, scheduleDate, source, ex)
      {
        var row := rows[i];
        PrefixSnoc(rows, i);
        if AllMissing(row, t.columns) {
          if |currentJob.keys| > 1 {
            jobs := jobs + [currentJob];
            currentJob := Empty();
          }
        } else {
          jobs, currentJob := ScanRow(jobs, currentJob, RowCells(row, t.columns), scheduleDate, source, ex);
        }
        i := i + 1;
      }
      PrefixFull(rows);
      if |currentJob.keys| > 1 {
        jobs := jobs + [currentJob];
      }
    }

    /** The cell loop of one row. */
    static method ScanRow(jobs0: seq<Job>, current0: Job, values: seq<Cell>, scheduleDate: string,
                          source: string, ex: Extractors) returns (jobs: seq<Job>, currentJob: Job)
      ensures Scan(jobs, currentJob) == ScanCells(Scan(jobs0, current0), values, scheduleDate, source, ex)
    {
      jobs, currentJob := jobs0, current0;
      var k := 0;
      while k < |values|
        invariant 0 <= k <= |values|
        invariant Scan(jobs, currentJob) == ScanCells(Scan(jobs0, current0), values[..k], scheduleDate, source, ex)
      {
        PrefixSnoc(values, k);
        var cell := values[k];
        if cell.Str? {
          jobs, currentJob := ScanTextCell(jobs, currentJob, cell.s, scheduleDate, source, ex);
        }
        k := k + 1;
      }
      PrefixFull(values);
    }

    /** The body of the cell loop for a text cell. */
    static method ScanTextCell(jobs0: seq<Job>, current0: Job, cell: string, scheduleDate: string,
                               source: string, ex: Extractors) returns (jobs: seq<Job>, currentJob: Job)
      ensures Scan(jobs, currentJob) == CellStep(Scan(jobs0, current0), Str(cell), scheduleDate, source, ex)
    {
      jobs, currentJob := CompanyCell(jobs0, current0, cell, scheduleDate, source);
      currentJob := PairCell(currentJob, cell);
      currentJob := ContactCell(currentJob, cell, ex);
    }

    /** A `COMPANY:` cell closes the open job and stamps the new one. */
    static method CompanyCell(jobs0: seq<Job>, current0: Job, cell: string, scheduleDate: string,
                              source: string) returns (jobs: seq<Job>, currentJob: Job)
      ensures Scan(jobs, currentJob) == CompanyStep(Scan(jobs0, current0), cell, scheduleDate, source)
    {
      jobs, currentJob := jobs0, current0;
      if Contains(cell, "COMPANY:") {
        if |currentJob.keys| > 1 {
          jobs := jobs + [currentJob];
          currentJob := Empty();
        }
        currentJob := Put(currentJob, ScheduleDateField, scheduleDate);
        currentJob := Put(currentJob, SourceFileField, source);
      }
    }

    /** A `key: value` cell sets the field. */
    static method PairCell(current0: Job, cell: string) returns (currentJob: Job)
      ensures currentJob == PairStep(current0, cell)
    {
      currentJob := current0;
      var parts := SplitOnce(cell, ':');
      if parts.Some? {
        var key := Strip(parts.value.0);
        var value := Strip(parts.value.1);
        if key != "" && value != "" {
          currentJob := Put(currentJob, key, value);
        }
      }
    }

    /** The first address, phone and e-mail of a job are kept. */
    static method ContactCell(current0: Job, cell: string, ex: Extractors) returns (currentJob: Job)
      ensures currentJob == ContactStep(current0, cell, ex)
    {
      currentJob := current0;
      var addressMatch := ex.address(cell);
      if addressMatch.Some? && AddressField !in currentJob.items {
        currentJob := Put(currentJob, AddressField, addressMatch.value);
      }
      ghost var withAddress := currentJob;
      var phoneMatch := ex.phone(cell);
      if phoneMatch.Some? && PhoneField !in currentJob.items {
        currentJob := Put(currentJob, PhoneField, phoneMatch.value);
      }
      ghost var withPhone := currentJob;
      var emailMatch := ex.email(cell);
      if emailMatch.Some? && EmailField !in currentJob.items {
        currentJob := Put(currentJob, EmailField, emailMatch.value);
      }
      assert withAddress == PutIfAbsent(current0, AddressField, ex.address(cell));
      assert withPhone == PutIfAbsent(withAddress, PhoneField, ex.phone(cell));
    }

    /** `process_all_files`: the jobs of every file, in file order; the
        combined data is set only when there is at least one job. */
    method ProcessAllFiles(modifiedDate: string -> Option<string>, read: string -> Option<Table>,
                           ex: Extractors) returns (success: bool)
      modifies this
      ensures success <==> AllJobs(scheduleFiles, modifiedDate, read, ex) != []
      ensures success ==> combinedData == Some(AllJobs(scheduleFiles, modifiedDate, read, ex))
      ensures !success ==> combinedData == old(combinedData)
      ensures scheduleFiles == old(scheduleFiles) && schedulesFolder == old(schedulesFolder)
    {
      var allJobs := CollectJobs(scheduleFiles, modifiedDate, read, ex);
      if allJobs != [] {
        combinedData := Some(allJobs);
        return true;
      }
      return false;
    }

    /** The loop of `process_all_files`: each file's jobs, appended in turn. */
    static method CollectJobs(files: seq<string>, modifiedDate: string -> Option<string>,
                              read: string -> Option<Table>, ex: Extractors) returns (allJobs: seq<Job>)
      ensures allJobs == AllJobs(files, modifiedDate, read, ex)
      ensures forall j :: j in allJobs ==> Valid(j) && |j.keys| > 1
    {
      ghost var perFile := PerFileJobs(files, modifiedDate, read, ex);
      allJobs := [];
      var i := 0;
      while i < |files|
        invariant 0 <= i <= |files|
        invariant allJobs == Concat(perFile[..i])
        invariant forall j :: j in allJobs ==> Valid(j) && |j.keys| > 1
      {
        var jobs := ProcessScheduleFile(files[i], modifiedDate(files[i]), read, ex);
        ConcatStep(perFile, i);
        allJobs := allJobs + jobs;
        i := i + 1;
      }
      PrefixFull(perFile);
    }
  }
}
