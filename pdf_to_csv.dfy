/** The invoice line-item parser of pdf_to_csv.py: which lines of the
    extracted page text are kept, how a kept line splits into a description
    and an amount, and the page and line loops that collect the records. */
module PdfToCsv {
  import opened Wrappers
  import opened Text
  import opened Seqs
  import opened PyDict

  /** A line item: the `Description` and `Amount` fields, both text. */
  type Record = Dict<string>

  const DescriptionField := "Description"
  const AmountField := "Amount"

  /** The words that mark a header or summary line. */
  const HeaderWords: seq<string> := ["invoice", "estimate", "date", "total"]

  /* ---------------------------------------------------------------------
     Line filter
     --------------------------------------------------------------------- */

  /** Some header word occurs anywhere in the lowered line. */
  predicate IsHeaderLine(line: string) {
    exists i :: 0 <= i < |HeaderWords| && Contains(Lower(line), HeaderWords[i])
  }

  /** The line is blank after stripping, or is a header line. */
  predicate Skipped(line: string) {
    Strip(line) == "" || IsHeaderLine(line)
  }

  /* ---------------------------------------------------------------------
     The pattern `(.+?)\s+(\d+(?:\.\d{2})?)`, anchored at the start
     --------------------------------------------------------------------- */

  /** The first position at or after `from` that is not whitespace. */
  function SkipSpaces(s: string, from: nat): (r: nat)
    requires from <= |s|
    ensures from <= r <= |s|
    ensures forall i :: from <= i < r ==> IsSpace(s[i])
    ensures r < |s| ==> !IsSpace(s[r])
    decreases |s| - from
  {
    if from == |s| || !IsSpace(s[from]) then from else SkipSpaces(s, from + 1)
  }

  /** The end of the run of digits starting at `from`. */
  function DigitsEnd(s: string, from: nat): (r: nat)
    requires from <= |s|
    ensures from <= r <= |s|
    ensures forall i :: from <= i < r ==> IsDigit(s[i])
    ensures r < |s| ==> !IsDigit(s[r])
    decreases |s| - from
  {
    if from == |s| || !IsDigit(s[from]) then from else DigitsEnd(s, from + 1)
  }

  /** The lazy group `(.+?)` may end at `k`: it is non-empty, holds no line
      break (`.`), and the rest of the line starts with whitespace whose
      first non-whitespace successor is a digit. */
  predicate SplitsAt(line: string, k: nat) {
    && 1 <= k < |line|
    && '\n' !in line[..k]
    && IsSpace(line[k])
    && SkipSpaces(line, k) < |line|
    && IsDigit(line[SkipSpaces(line, k)])
  }

  /** The first end of the lazy group at or after `k`. */
  function FirstSplit(line: string, k: nat): (r: Option<nat>)
    requires 1 <= k
    ensures r.Some? ==> k <= r.value && SplitsAt(line, r.value)
    ensures r.Some? ==> forall q :: k <= q < r.value ==> !SplitsAt(line, q)
    ensures r.None? ==> forall q :: k <= q ==> !SplitsAt(line, q)
    decreases |line| - k
  {
    if k >= |line| || line[k - 1] == '\n' then
      assert forall q :: k <= q ==> !SplitsAt(line, q) by {
        forall q | k <= q && q < |line|
          ensures !SplitsAt(line, q)
        {
          assert line[..q][k - 1] == '\n';
        }
      }
      None
    else if SplitsAt(line, k) then Some(k)
    else FirstSplit(line, k + 1)
  }

  /** The amount group: the digit run at `j`, with `.` and two more digits
      when they follow. */
  function AmountEnd(line: string, j: nat): (r: nat)
    requires j <= |line|
    ensures j <= r <= |line|
  {
    var e := DigitsEnd(line, j);
    if e + 2 < |line| && line[e] == '.' && IsDigit(line[e + 1]) && IsDigit(line[e + 2]) then e + 3 else e
  }

  /** A parsed line: the stripped description and the amount text. */
  datatype LineItem = LineItem(description: string, amount: string)

  /** `re.match` of the line pattern: the description is the shortest
      first group that lets the rest match, stripped; the amount is the
      second group. */
  function ParseLine(line: string): (r: Option<LineItem>)
    ensures r.None? <==> forall q :: 1 <= q ==> !SplitsAt(line, q)
  {
    match FirstSplit(line, 1)
    case None => None
    case Some(k) =>
      var j := SkipSpaces(line, k);
      Some(LineItem(Strip(line[..k]), line[j..AmountEnd(line, j)]))
  }

  /** What a parsed line is made of: a first group ending at the first
      admissible `k`, then whitespace, then the amount. */
  lemma ParseLineShape(line: string)
    requires ParseLine(line).Some?
    ensures var k := FirstSplit(line, 1).value;
      var j := SkipSpaces(line, k);
      var item := ParseLine(line).value;
      && item.description == Strip(line[..k])
      && k < j && (forall i :: k <= i < j ==> IsSpace(line[i]))
      && (forall q :: 1 <= q < k ==> !SplitsAt(line, q))
      && item.amount == line[j..AmountEnd(line, j)]
      && IsDigit(line[j])
  {
  }

  /** The amount is a maximal digit run, optionally followed by `.` and
      exactly two digits: a single decimal digit is left out, and without
      cents the amount is not followed by a digit. */
  lemma AmountShape(line: string, j: nat)
    requires j < |line| && IsDigit(line[j])
    ensures var a := line[j..AmountEnd(line, j)];
      && a == line[j..j + |a|]
      && AmountShaped(a)
      && (!IsAmountWithCents(a) && j + |a| < |line| ==> !IsDigit(line[j + |a|]))
      && (!IsAmountWithCents(a) && j + |a| + 2 < |line| && line[j + |a|] == '.' ==>
            !(IsDigit(line[j + |a| + 1]) && IsDigit(line[j + |a| + 2])))
  {
    var e := DigitsEnd(line, j);
    var a := line[j..AmountEnd(line, j)];
    if AmountEnd(line, j) == e + 3 {
      assert a[|a| - 3] == line[e];
      assert IsAmountWithCents(a);
    } else {
      assert a == line[j..e];
    }
  }

  /** The amount is digits, optionally followed by `.` and two digits. */
  predicate AmountShaped(a: string) {
    |a| >= 1 && IsDigit(a[0]) &&
    (IsAmountWithCents(a) || forall i :: 0 <= i < |a| ==> IsDigit(a[i]))
  }

  /** `D+.DD` */
  predicate IsAmountWithCents(a: string) {
    && |a| >= 4 && a[|a| - 3] == '.' && IsDigit(a[|a| - 2]) && IsDigit(a[|a| - 1])
    && forall i :: 0 <= i < |a| - 3 ==> IsDigit(a[i])
  }

  /** `{'Description': description, 'Amount': amount}` */
  function ItemRecord(item: LineItem): (r: Record)
    ensures Valid(r) && r.keys == [DescriptionField, AmountField]
    ensures r.items[DescriptionField] == item.description && r.items[AmountField] == item.amount
  {
    assert DescriptionField[0] != AmountField[0];
    Put(Put(Empty(), DescriptionField, item.description), AmountField, item.amount)
  }

  /** One line: a record with exactly the two fields when the line is kept
      and parses, nothing otherwise. */
  function LineRecord(line: string): (r: Option<Record>)
    ensures r.Some? ==> Valid(r.value) && r.value.keys == [DescriptionField, AmountField]
    ensures r.Some? <==> !Skipped(line) && ParseLine(line).Some?
    ensures r.Some? ==> r.value.items[DescriptionField] == ParseLine(line).value.description &&
                        r.value.items[AmountField] == ParseLine(line).value.amount
  {
    if Skipped(line) then None
    else match ParseLine(line)
      case None => None
      case Some(item) => Some(ItemRecord(item))
  }

  /** The per-line results of a page's lines. */
  function LineResults(lines: seq<string>): (r: seq<Option<Record>>)
    ensures |r| == |lines| && forall i :: 0 <= i < |lines| ==> r[i] == LineRecord(lines[i])
  {
    seq(|lines|, i requires 0 <= i < |lines| => LineRecord(lines[i]))
  }

  /** The records of one page's text, in line order; a page without text
      gives none. */
  function PageRecords(text: Option<string>): seq<Record> {
    match text
    case None => []
    case Some(t) => Somes(LineResults(Split(t, '\n')))
  }

  /** The records of each page. */
  function PageResults(pages: seq<Option<string>>): (r: seq<seq<Record>>)
    ensures |r| == |pages| && forall i :: 0 <= i < |pages| ==> r[i] == PageRecords(pages[i])
  {
    seq(|pages|, i requires 0 <= i < |pages| => PageRecords(pages[i]))
  }

  /** The records of every page, in page order, then line order. */
  function PdfRecords(pages: seq<Option<string>>): seq<Record> {
    Concat(PageResults(pages))
  }

  /** Every record of a page comes from one of its lines, and back. */
  lemma LinesRecordsFrom(lines: seq<string>, rec: Record)
    ensures rec in Somes(LineResults(lines)) <==> exists i :: 0 <= i < |lines| && LineRecord(lines[i]) == Some(rec)
  {
    SomesMembership(LineResults(lines), rec);
  }

  /** Every record of the document comes from some page. */
  lemma PdfRecordsFromPages(pages: seq<Option<string>>, rec: Record)
    ensures rec in PdfRecords(pages) <==> exists p :: 0 <= p < |pages| && rec in PageRecords(pages[p])
  {
    ConcatMembership(PageResults(pages), rec);
  }

  /** Every record has exactly the keys `Description` and `Amount`, in that
      order. */
  lemma PdfRecordsFields(pages: seq<Option<string>>)
    ensures forall rec :: rec in PdfRecords(pages) ==> Valid(rec) && rec.keys == [DescriptionField, AmountField]
  {
    forall rec | rec in PdfRecords(pages)
      ensures Valid(rec) && rec.keys == [DescriptionField, AmountField]
    {
      PdfRecordsFromPages(pages, rec);
      var p :| 0 <= p < |pages| && rec in PageRecords(pages[p]);
      LinesRecordsFrom(Split(pages[p].value, '\n'), rec);
    }
  }

  /** An empty page text gives no record, so skipping it changes nothing. */
  lemma EmptyPageNoRecords(t: string)
    requires t == ""
    ensures PageRecords(Some(t)) == []
  {
    var lines := Split(t, '\n');
    assert lines == [t];
    var results := LineResults(lines);
    assert results[..1] == results;
    SomesStep(results, 0);
    assert results[..0] == [];
  }

  /* ---------------------------------------------------------------------
     extract_data_from_pdf
     --------------------------------------------------------------------- */

  /** `extract_data_from_pdf`, given each page's extracted text (`None` when
      a page has none): the page loop and the line loop appending records. */
  method ExtractDataFromPdf(pages: seq<Option<string>>) returns (data: seq<Record>)
    ensures data == PdfRecords(pages)
  {
    ghost var perPage := PageResults(pages);
    data := [];
    var p := 0;
    while p < |pages|
      invariant 0 <= p <= |pages|
      invariant data == Concat(perPage[..p])
    {
      ConcatStep(perPage, p);
      var text := pages[p];
      if text.Some? && text.value != "" {
        var pageData := ExtractPageData(text.value);
        data := data + pageData;
      } else if text.Some? {
        EmptyPageNoRecords(text.value);
      }
      p := p + 1;
    }
    PrefixFull(perPage);
  }

  /** The line loop of one page. */
  method ExtractPageData(text: string) returns (pageData: seq<Record>)
    ensures pageData == PageRecords(Some(text))
  {
    var lines := Split(text, '\n');
    ghost var results := LineResults(lines);
    pageData := [];
    var i := 0;
    while i < |lines|
      invariant 0 <= i <= |lines|
      invariant pageData == Somes(results[..i])
    {
      SomesStep(results, i);
      var line := lines[i];
      var record := LineRecord(line);
      if record.Some? {
        pageData := pageData + [record.value];
      }
      i := i + 1;
    }
    PrefixFull(results);
  }
}
