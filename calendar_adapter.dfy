/** The calendar adapter of calendar_adapter.py: it derives a client name, a
    location, a day and searchable tags for every calendar event. */
module Calendar {
  import opened Wrappers
  import opened Text
  import opened Seqs
  import opened Frames

  const SummaryColumn := "Summary"
  const DescriptionColumn := "Description"
  const LocationColumn := "Location"
  const StartDateColumn := "Start Date"
  const CalendarColumn := "Calendar"
  const StatusColumn := "Status"
  const ClientNameColumn := "Client_Name"
  const EventDateColumn := "Event_Date"
  const TagsColumn := "Tags"

  /** The adapter's three case-insensitive regular expressions, each as what
      it captures in a text: the client-name group of the first
      client-name match, the address group of the first `address:` /
      `location:` / `at:` match, and the company group of every `company:`
      / `vendor:` / `supplier:` / `client:` match in order (`re.findall`). */
  datatype Matchers = Matchers(
    clientName: string -> Option<string>,
    address: string -> Option<string>,
    companies: string -> seq<string>)

  /* ---------------------------------------------------------------------
     _extract_client_name, _extract_location, Event_Date
     --------------------------------------------------------------------- */

  /** `_extract_client_name`: nothing for a value that is not text; else the
      stripped client-name group; else the stripped text after the first
      `:`; else the summary itself. */
  function ExtractClientName(summary: Cell, m: Matchers): (r: string)
    ensures !summary.Str? ==> r == ""
    ensures summary.Str? && m.clientName(summary.s).Some? ==> r == Strip(m.clientName(summary.s).value)
    ensures summary.Str? && m.clientName(summary.s).None? && ':' !in summary.s ==> r == summary.s
    ensures summary.Str? && m.clientName(summary.s).None? && ':' in summary.s ==>
      exists k :: 0 <= k < |summary.s| && summary.s[k] == ':' && ':' !in summary.s[..k] && r == Strip(summary.s[k + 1..])
  {
    match summary
    case Str(s) =>
      (match m.clientName(s)
       case Some(g) => Strip(g)
       case None =>
         match SplitOnce(s, ':')
         case Some((before, after)) =>
           assert s[|before|] == ':' && s[..|before|] == before && s[|before| + 1..] == after;
           Strip(after)
         case None => s)
    case _ => ""
  }

  /** A name found by the pattern or after a colon carries no surrounding
      whitespace; only a summary returned whole may. */
  lemma ClientNameStripped(summary: Cell, m: Matchers)
    requires !summary.Str? || m.clientName(summary.s).Some? || ':' in summary.s
    ensures Strip(ExtractClientName(summary, m)) == ExtractClientName(summary, m)
  {
    if summary.Str? {
      var s := summary.s;
      if m.clientName(s).Some? {
        StripIdempotent(m.clientName(s).value);
      } else {
        var (_, after) := SplitOnce(s, ':').value;
        StripIdempotent(after);
      }
    }
  }

  /** `_extract_location`: the stripped address group, or nothing when the
      value is not text or has no address. */
  function ExtractLocation(description: Cell, m: Matchers): (r: string)
    ensures r != "" ==> description.Str? && m.address(description.s).Some?
    ensures description.Str? && m.address(description.s).Some? ==> r == Strip(m.address(description.s).value)
    ensures Strip(r) == r
  {
    match description
    case Str(s) =>
      (match m.address(s)
       case Some(g) => StripIdempotent(g); Strip(g)
       case None => "")
    case _ => ""
  }

  /** `x.split(' ')[0] if isinstance(x, str) and ' ' in x else x`: the day
      part of a start date. */
  function EventDate(start: Cell): (r: Cell)
    ensures start.Str? && ' ' in start.s ==>
      r.Str? && ' ' !in r.s && |r.s| < |start.s| && r.s + " " + start.s[|r.s| + 1..] == start.s
    ensures !(start.Str? && ' ' in start.s) ==> r == start
  {
    if start.Str? && ' ' in start.s then Str(SplitOnce(start.s, ' ').value.0) else start
  }

  /** Truncating to the day twice changes nothing more. */
  lemma EventDateIdempotent(start: Cell)
    ensures EventDate(EventDate(start)) == EventDate(start)
  {
  }

  /* ---------------------------------------------------------------------
     _generate_tags
     --------------------------------------------------------------------- */

  /** A cell's text, as a tag, when it is text. */
  function TextTag(c: Cell): (r: seq<string>)
    ensures |r| <= 1 && (r != [] <==> c.Str?)
  {
    if c.Str? then [c.s] else []
  }

  /** The tags of a row: its calendar, its status, its client name when
      non-empty, then the companies named in its description. */
  function TagList(calendar: Cell, status: Cell, clientName: Cell, description: Cell, m: Matchers): (r: seq<string>)
  {
    TextTag(calendar) + TextTag(status)
    + (if clientName.Str? && clientName.s != "" then [clientName.s] else [])
    + (if description.Str? then m.companies(description.s) else [])
  }

  /** Where each kind of tag sits: the calendar first, the status next, the
      client name after them, and the companies last, in their order. */
  lemma TagPositions(calendar: Cell, status: Cell, clientName: Cell, description: Cell, m: Matchers)
    ensures var r := TagList(calendar, status, clientName, description, m);
      var fixed := |TextTag(calendar)| + |TextTag(status)|;
      var named := if clientName.Str? && clientName.s != "" then 1 else 0;
      var companies := if description.Str? then m.companies(description.s) else [];
      && |r| == fixed + named + |companies|
      && (calendar.Str? ==> r[0] == calendar.s)
      && (status.Str? ==> r[|TextTag(calendar)|] == status.s)
      && (named == 1 ==> r[fixed] == clientName.s)
      && r[fixed + named..] == companies
  {
  }

  /** `_generate_tags`: the tags of a row, joined with `", "`. */
  function GenerateTags(row: Row, m: Matchers): string {
    Join(TagList(At(row, CalendarColumn), At(row, StatusColumn), At(row, ClientNameColumn),
                 At(row, DescriptionColumn), m), ", ")
  }

  /** Tags free of commas come back from the joined field by splitting it
      on `,`: the first tag, then each other one behind a space. */
  lemma TagsSplitBack(row: Row, m: Matchers)
    requires var tags := TagList(At(row, CalendarColumn), At(row, StatusColumn), At(row, ClientNameColumn),
                                 At(row, DescriptionColumn), m);
      |tags| >= 1 && forall i :: 0 <= i < |tags| ==> ',' !in tags[i]
    ensures var tags := TagList(At(row, CalendarColumn), At(row, StatusColumn), At(row, ClientNameColumn),
                                At(row, DescriptionColumn), m);
      Split(GenerateTags(row, m), ',') == [tags[0]] + Prefixed(" ", tags[1..])
  {
    var tags := TagList(At(row, CalendarColumn), At(row, StatusColumn), At(row, ClientNameColumn),
                        At(row, DescriptionColumn), m);
    assert ", " == [','] + " ";
    JoinSplit(tags, ',', " ");
  }

  /* ---------------------------------------------------------------------
     enrich_event_data
     --------------------------------------------------------------------- */

  /** `df['Summary'].apply(_extract_client_name)` */
  function ClientNames(rows: seq<Row>, m: Matchers): (r: seq<Cell>)
    ensures |r| == |rows|
    ensures forall i :: 0 <= i < |rows| ==> r[i] == Str(ExtractClientName(At(rows[i], SummaryColumn), m))
  {
    seq(|rows|, i requires 0 <= i < |rows| => Str(ExtractClientName(At(rows[i], SummaryColumn), m)))
  }

  /** `df['Description'].apply(_extract_location)` */
  function Locations(rows: seq<Row>, m: Matchers): (r: seq<Cell>)
    ensures |r| == |rows|
    ensures forall i :: 0 <= i < |rows| ==> r[i] == Str(ExtractLocation(At(rows[i], DescriptionColumn), m))
  {
    seq(|rows|, i requires 0 <= i < |rows| => Str(ExtractLocation(At(rows[i], DescriptionColumn), m)))
  }

  /** `df['Start Date'].apply(...)` */
  function EventDates(rows: seq<Row>): (r: seq<Cell>)
    ensures |r| == |rows|
    ensures forall i :: 0 <= i < |rows| ==> r[i] == EventDate(At(rows[i], StartDateColumn))
  {
    seq(|rows|, i requires 0 <= i < |rows| => EventDate(At(rows[i], StartDateColumn)))
  }

  /** `df.apply(_generate_tags, axis=1)` */
  function TagCells(rows: seq<Row>, m: Matchers): (r: seq<Cell>)
    ensures |r| == |rows|
    ensures forall i :: 0 <= i < |rows| ==> r[i] == Str(GenerateTags(rows[i], m))
  {
    seq(|rows|, i requires 0 <= i < |rows| => Str(GenerateTags(rows[i], m)))
  }

  /** The table has no `Location` column, or that column is missing in
      every row. */
  predicate NeedsLocation(t: Table) {
    LocationColumn !in t.columns || forall i :: 0 <= i < |t.rows| ==> IsNa(At(t.rows[i], LocationColumn))
  }

  /** The table after `enrich_event_data`, and what it returns.  A column
      the source reads but the table lacks raises a `KeyError`, which is
      caught: the columns assigned before it stay assigned and the result
      is false. */
  datatype Enrichment = Enrichment(table: Table, success: bool)

  /** `enrich_event_data` on loaded data. */
  function Enrich(t: Table, m: Matchers): Enrichment {
    if SummaryColumn !in t.columns then Enrichment(t, false)
    else
      var named := Named(t, m);
      if NeedsLocation(named) && DescriptionColumn !in named.columns then Enrichment(named, false)
      else
        var located := Located(named, m);
        if StartDateColumn !in located.columns then Enrichment(located, false)
        else Enrichment(Tagged(Dated(located), m), true)
  }

  /** `df['Client Name'] = ...` */
  function Named(t: Table, m: Matchers): Table {
    WithColumn(t, ClientNameColumn, ClientNames(t.rows, m))
  }

  /** `df['Location'] = ...` when a location has to be derived. */
  function Located(t: Table, m: Matchers): Table {
    if NeedsLocation(t) then WithColumn(t, LocationColumn, Locations(t.rows, m)) else t
  }

  /** `df['Event Date'] = ...` */
  function Dated(t: Table): Table {
    WithColumn(t, EventDateColumn, EventDates(t.rows))
  }

  /** `df['Tags'] = ...` */
  function Tagged(t: Table, m: Matchers): Table {
    WithColumn(t, TagsColumn, TagCells(t.rows, m))
  }

  /** Adding client names leaves the `Location` column as it was. */
  lemma NamedNeedsLocation(t: Table, m: Matchers)
    ensures NeedsLocation(WithColumn(t, ClientNameColumn, ClientNames(t.rows, m))) <==> NeedsLocation(t)
  {
    var named := WithColumn(t, ClientNameColumn, ClientNames(t.rows, m));
    assert forall i :: 0 <= i < |t.rows| ==> At(named.rows[i], LocationColumn) == At(t.rows[i], LocationColumn);
  }

  /** Enrichment succeeds exactly when the table has a `Summary` and a
      `Start Date` column, and a `Description` column whenever a location
      has to be derived. */
  lemma EnrichSucceeds(t: Table, m: Matchers)
    ensures Enrich(t, m).success <==>
      SummaryColumn in t.columns && StartDateColumn in t.columns && (NeedsLocation(t) ==> DescriptionColumn in t.columns)
  {
    if SummaryColumn in t.columns {
      NamedNeedsLocation(t, m);
    }
  }

  /** Without a `Summary` column nothing is assigned. */
  lemma EnrichWithoutSummary(t: Table, m: Matchers)
    requires SummaryColumn !in t.columns
    ensures Enrich(t, m) == Enrichment(t, false)
  {
  }

  /** The assigned columns differ from each other and from the columns
      they are computed from. */
  lemma NewColumnsDistinct()
    ensures ClientNameColumn != LocationColumn && ClientNameColumn != EventDateColumn && ClientNameColumn != TagsColumn
    ensures LocationColumn != EventDateColumn && LocationColumn != TagsColumn && EventDateColumn != TagsColumn
    ensures ClientNameColumn != SummaryColumn && ClientNameColumn != DescriptionColumn &&
            ClientNameColumn != StartDateColumn && ClientNameColumn != CalendarColumn && ClientNameColumn != StatusColumn
    ensures LocationColumn != SummaryColumn && LocationColumn != DescriptionColumn &&
            LocationColumn != StartDateColumn && LocationColumn != CalendarColumn && LocationColumn != StatusColumn
    ensures EventDateColumn != SummaryColumn && EventDateColumn != DescriptionColumn &&
            EventDateColumn != StartDateColumn && EventDateColumn != CalendarColumn && EventDateColumn != StatusColumn
    ensures TagsColumn != SummaryColumn && TagsColumn != DescriptionColumn &&
            TagsColumn != StartDateColumn && TagsColumn != CalendarColumn && TagsColumn != StatusColumn
  {
    assert SummaryColumn[0] == StartDateColumn[0] == StatusColumn[0] == 'S';
    assert DescriptionColumn[0] == 'D' && CalendarColumn[0] == 'C' && CalendarColumn[1] == 'a';
    assert ClientNameColumn[0] == 'C' && ClientNameColumn[1] == 'l' && LocationColumn[0] == 'L';
    assert EventDateColumn[0] == 'E' && TagsColumn[0] == 'T';
  }

  /** One event after a successful enrichment: its client name, its
      location when one is derived, its day, and its tags, each computed
      from the event as it stands after the assignments before it. */
  function EnrichedRow(row: Row, deriveLocation: bool, m: Matchers): Row {
    var named := SetCell(row, ClientNameColumn, Str(ExtractClientName(At(row, SummaryColumn), m)));
    var located := if deriveLocation then SetCell(named, LocationColumn, Str(ExtractLocation(At(named, DescriptionColumn), m))) else named;
    var dated := SetCell(located, EventDateColumn, EventDate(At(located, StartDateColumn)));
    SetCell(dated, TagsColumn, Str(GenerateTags(dated, m)))
  }

  /** A successful enrichment enriches every event, deriving locations
      exactly when the table had none. */
  lemma EnrichRows(t: Table, m: Matchers, i: int)
    requires Enrich(t, m).success && 0 <= i < |t.rows|
    ensures |Enrich(t, m).table.rows| == |t.rows|
    ensures Enrich(t, m).table.rows[i] == EnrichedRow(t.rows[i], NeedsLocation(t), m)
  {
    NamedNeedsLocation(t, m);
    EnrichTable(t, m);
    var named := Named(t, m);
    var located := Located(named, m);
    var dated := Dated(located);
    NamedRow(t, m, i);
    LocatedRow(named, m, i);
    DatedRow(located, i);
    TaggedRow(dated, m, i);
  }

  /** The table of a successful enrichment: all four columns assigned. */
  lemma EnrichTable(t: Table, m: Matchers)
    requires Enrich(t, m).success
    ensures Enrich(t, m).table == Tagged(Dated(Located(Named(t, m), m)), m)
  {
  }

  lemma NamedRow(t: Table, m: Matchers, i: int)
    requires 0 <= i < |t.rows|
    ensures |Named(t, m).rows| == |t.rows|
    ensures Named(t, m).rows[i] == SetCell(t.rows[i], ClientNameColumn, Str(ExtractClientName(At(t.rows[i], SummaryColumn), m)))
  {
  }

  lemma LocatedRow(t: Table, m: Matchers, i: int)
    requires 0 <= i < |t.rows|
    ensures |Located(t, m).rows| == |t.rows|
    ensures Located(t, m).rows[i] == if NeedsLocation(t) then
      SetCell(t.rows[i], LocationColumn, Str(ExtractLocation(At(t.rows[i], DescriptionColumn), m))) else t.rows[i]
  {
  }

  lemma DatedRow(t: Table, i: int)
    requires 0 <= i < |t.rows|
    ensures |Dated(t).rows| == |t.rows|
    ensures Dated(t).rows[i] == SetCell(t.rows[i], EventDateColumn, EventDate(At(t.rows[i], StartDateColumn)))
  {
  }

  lemma TaggedRow(t: Table, m: Matchers, i: int)
    requires 0 <= i < |t.rows|
    ensures |Tagged(t, m).rows| == |t.rows|
    ensures Tagged(t, m).rows[i] == SetCell(t.rows[i], TagsColumn, Str(GenerateTags(t.rows[i], m)))
  {
  }

  /** An enriched event has its client name and its day; its location is
      the derived one when one is derived and its own otherwise. */
  lemma EnrichedRowFields(row: Row, deriveLocation: bool, m: Matchers)
    ensures var r := EnrichedRow(row, deriveLocation, m);
      && At(r, ClientNameColumn) == Str(ExtractClientName(At(row, SummaryColumn), m))
      && At(r, LocationColumn) ==
         (if deriveLocation then Str(ExtractLocation(At(row, DescriptionColumn), m)) else At(row, LocationColumn))
      && At(r, EventDateColumn) == EventDate(At(row, StartDateColumn))
  {
    EnrichedClientName(row, deriveLocation, m);
    EnrichedLocation(row, deriveLocation, m);
    EnrichedDate(row, deriveLocation, m);
  }

  /** The stages of `EnrichedRow` up to the event date. */
  function LocatedEvent(row: Row, deriveLocation: bool, m: Matchers): Row {
    var named := SetCell(row, ClientNameColumn, Str(ExtractClientName(At(row, SummaryColumn), m)));
    if deriveLocation then SetCell(named, LocationColumn, Str(ExtractLocation(At(named, DescriptionColumn), m))) else named
  }

  lemma EnrichedStages(row: Row, deriveLocation: bool, m: Matchers)
    ensures var located := LocatedEvent(row, deriveLocation, m);
      var dated := SetCell(located, EventDateColumn, EventDate(At(located, StartDateColumn)));
      EnrichedRow(row, deriveLocation, m) == SetCell(dated, TagsColumn, Str(GenerateTags(dated, m)))
  {
  }

  lemma EnrichedClientName(row: Row, deriveLocation: bool, m: Matchers)
    ensures At(EnrichedRow(row, deriveLocation, m), ClientNameColumn) == Str(ExtractClientName(At(row, SummaryColumn), m))
  {
    NewColumnsDistinct();
    EnrichedStages(row, deriveLocation, m);
  }

  lemma EnrichedLocation(row: Row, deriveLocation: bool, m: Matchers)
    ensures At(EnrichedRow(row, deriveLocation, m), LocationColumn) ==
      (if deriveLocation then Str(ExtractLocation(At(row, DescriptionColumn), m)) else At(row, LocationColumn))
  {
    NewColumnsDistinct();
    EnrichedStages(row, deriveLocation, m);
    var located := LocatedEvent(row, deriveLocation, m);
    var named := SetCell(row, ClientNameColumn, Str(ExtractClientName(At(row, SummaryColumn), m)));
    assert At(named, DescriptionColumn) == At(row, DescriptionColumn);
    assert At(named, LocationColumn) == At(row, LocationColumn);
    assert At(located, LocationColumn) ==
      (if deriveLocation then Str(ExtractLocation(At(row, DescriptionColumn), m)) else At(row, LocationColumn));
  }

  lemma EnrichedDate(row: Row, deriveLocation: bool, m: Matchers)
    ensures At(EnrichedRow(row, deriveLocation, m), EventDateColumn) == EventDate(At(row, StartDateColumn))
  {
    NewColumnsDistinct();
    EnrichedStages(row, deriveLocation, m);
    assert At(LocatedEvent(row, deriveLocation, m), StartDateColumn) == At(row, StartDateColumn);
  }

  /** An enriched event's tags are built from its calendar, status and
      description and from its new client name. */
  lemma EnrichedRowTags(row: Row, deriveLocation: bool, m: Matchers)
    ensures At(EnrichedRow(row, deriveLocation, m), TagsColumn) ==
      Str(Join(TagList(At(row, CalendarColumn), At(row, StatusColumn),
                       Str(ExtractClientName(At(row, SummaryColumn), m)), At(row, DescriptionColumn), m), ", "))
  {
    NewColumnsDistinct();
    EnrichedStages(row, deriveLocation, m);
    var located := LocatedEvent(row, deriveLocation, m);
    var dated := SetCell(located, EventDateColumn, EventDate(At(located, StartDateColumn)));
    var named := SetCell(row, ClientNameColumn, Str(ExtractClientName(At(row, SummaryColumn), m)));
    assert At(named, DescriptionColumn) == At(row, DescriptionColumn);
    assert At(dated, CalendarColumn) == At(row, CalendarColumn);
    assert At(dated, StatusColumn) == At(row, StatusColumn);
    assert At(dated, DescriptionColumn) == At(row, DescriptionColumn);
    assert At(dated, ClientNameColumn) == Str(ExtractClientName(At(row, SummaryColumn), m));
  }

  /** Enrichment touches no other field of an event. */
  lemma EnrichedRowKeeps(row: Row, deriveLocation: bool, m: Matchers, c: string)
    requires c != ClientNameColumn && c != LocationColumn && c != EventDateColumn && c != TagsColumn
    ensures At(EnrichedRow(row, deriveLocation, m), c) == At(row, c)
  {
  }

  /** The columns after a successful enrichment: the table's own, then the
      new ones. */
  lemma EnrichedColumns(t: Table, m: Matchers)
    requires Enrich(t, m).success
    ensures forall c :: c in Enrich(t, m).table.columns <==>
      c in t.columns || c in [ClientNameColumn, LocationColumn, EventDateColumn, TagsColumn]
    ensures Distinct(t.columns) ==> Distinct(Enrich(t, m).table.columns)
  {
    NamedNeedsLocation(t, m);
    EnrichTable(t, m);
  }

  /** The adapter: where it loaded its events from, and the events. */
  class CalendarAdapter {
    var calendarFile: string
    var calendarDf: Option<Table>

    /** `__init__`: `loaded` is the file's table, or `None` when the file
        does not exist or does not read. */
    constructor(calendarFile: string, loaded: Option<Table>)
      ensures this.calendarFile == calendarFile && calendarDf == loaded
    {
      this.calendarFile := calendarFile;
      calendarDf := loaded;
    }

    /** `enrich_event_data`: false when nothing is loaded; otherwise the
        events become `Enrich`'s table, and the result says whether every
        column it needs was there. */
    method EnrichEventData(m: Matchers) returns (success: bool)
      modifies this
      ensures calendarFile == old(calendarFile)
      ensures old(calendarDf).None? ==> !success && calendarDf == old(calendarDf)
      ensures old(calendarDf).Some? ==>
        calendarDf == Some(Enrich(old(calendarDf).value, m).table) && success == Enrich(old(calendarDf).value, m).success
    {
      if calendarDf.None? {
        return false;
      }
      var df := calendarDf.value;
      if SummaryColumn !in df.columns {
        return false;
      }
      df := WithColumn(df, ClientNameColumn, ClientNames(df.rows, m));
      calendarDf := Some(df);
      if NeedsLocation(df) {
        if DescriptionColumn !in df.columns {
          return false;
        }
        df := WithColumn(df, LocationColumn, Locations(df.rows, m));
        calendarDf := Some(df);
      }
      if StartDateColumn !in df.columns {
        return false;
      }
      df := WithColumn(df, EventDateColumn, EventDates(df.rows));
      df := WithColumn(df, TagsColumn, TagCells(df.rows, m));
      calendarDf := Some(df);
      return true;
    }
  }
}
