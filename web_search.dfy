/** The record handling of web_search_interface.py: how the search form's
    column list and query are read, how search results are formatted for
    display, and how formatted results are flattened for export. */
module WebSearch {
  import opened Wrappers
  import opened Text
  import opened Seqs
  import opened PyDict
  import opened Frames
  import opened DeepSearchSpec
  import opened DeepSearch

  /* ---------------------------------------------------------------------
     Form fields
     --------------------------------------------------------------------- */

  /** `columns`: absent or empty gives `None`, as does a split into a
      single blank entry; otherwise the raw comma split, not trimmed. */
  function ParseColumns(field: Option<string>): (r: Option<seq<string>>)
    ensures field.None? || field.value == "" ==> r.None?
    ensures r.Some? ==> field.Some? && r.value == Split(field.value, ',')
  {
    match field
    case None => None
    case Some(s) =>
      if s == "" then None
      else
        var columns := Split(s, ',');
        if |columns| == 1 && Strip(columns[0]) == "" then None else Some(columns)
  }

  /** The column list is `None` exactly when the field is absent or is
      blank without a comma; a list given joins back to the field. */
  lemma ParseColumnsSpec(field: Option<string>)
    ensures ParseColumns(field).None? <==>
      field.None? || (',' !in field.value && forall k :: 0 <= k < |field.value| ==> IsSpace(field.value[k]))
    ensures ParseColumns(field).Some? ==> Join(ParseColumns(field).value, ",") == field.value
  {
    if field.Some? {
      var s := field.value;
      SplitJoin(s, ',');
      var columns := Split(s, ',');
      if ',' !in s {
        assert columns == [s];
        StripEmptyIff(s);
      } else {
        var r := SplitOnce(s, ',');
        assert columns == [r.value.0] + Split(r.value.1, ',');
        assert |columns| >= 2;
      }
    }
  }

  /** The `re.findall` of each query pattern, its first match if any. */
  type Matcher = string -> Option<string>

  /** The query patterns in the order they are tried: e-mail, phone,
      postal code, name. */
  datatype QueryPatterns = QueryPatterns(email: Matcher, phone: Matcher, postalCode: Matcher, name: Matcher)

  function PatternOrder(p: QueryPatterns): seq<Matcher> {
    [p.email, p.phone, p.postalCode, p.name]
  }

  /** The first match of the first matcher that matches, from `from` on. */
  function FirstPatternMatch(matchers: seq<Matcher>, query: string, from: nat): (r: Option<string>)
    requires from <= |matchers|
    ensures r.None? <==> forall i :: from <= i < |matchers| ==> matchers[i](query).None?
    ensures r.Some? ==> exists i :: (from <= i < |matchers| && matchers[i](query) == r &&
      forall j :: from <= j < i ==> matchers[j](query).None?)
    decreases |matchers| - from
  {
    if from == |matchers| then None
    else if matchers[from](query).Some? then matchers[from](query)
    else FirstPatternMatch(matchers, query, from + 1)
  }

  /** `extract_search_pattern`: the first match of the first pattern that
      matches, or the query unchanged. */
  function ExtractSearchPattern(query: string, patterns: QueryPatterns): (r: string)
    ensures (forall i :: 0 <= i < 4 ==> PatternOrder(patterns)[i](query).None?) ==> r == query
    ensures forall i :: (0 <= i < 4 && PatternOrder(patterns)[i](query).Some? &&
      (forall j :: 0 <= j < i ==> PatternOrder(patterns)[j](query).None?)) ==> r == PatternOrder(patterns)[i](query).value
  {
    FirstPatternMatch(PatternOrder(patterns), query, 0).GetOr(query)
  }

  /** The pattern loop of `extract_search_pattern`: returns the first match
      of the first pattern that matches, or the query when none does. */
  method ScanPatterns(query: string, patterns: QueryPatterns) returns (r: string)
    ensures r == ExtractSearchPattern(query, patterns)
  {
    var matchers := PatternOrder(patterns);
    var i := 0;
    while i < |matchers|
      invariant 0 <= i <= |matchers|
      invariant FirstPatternMatch(matchers, query, i) == FirstPatternMatch(matchers, query, 0)
    {
      var found := matchers[i](query);
      if found.Some? {
        return found.value;
      }
      i := i + 1;
    }
    return query;
  }

  /** The search form: each field as `request.form.get` gives it, and
      whether the `fuzzy` checkbox was sent. */
  datatype SearchForm = SearchForm(query: Option<string>, fuzzy: bool, columns: Option<string>,
                                   startDate: Option<string>, endDate: Option<string>,
                                   extractPattern: Option<string>)

  /** The query searched for: the form's query, reduced to its first
      recognised pattern when `extract_pattern` is set and non-empty. */
  function SearchQuery(form: SearchForm, patterns: QueryPatterns): (r: string)
    ensures form.extractPattern.None? || form.extractPattern.value == "" ==> r == form.query.GetOr("")
    ensures form.extractPattern.Some? && form.extractPattern.value != "" ==>
      r == ExtractSearchPattern(form.query.GetOr(""), patterns)
  {
    var query := form.query.GetOr("");
    if form.extractPattern.Some? && form.extractPattern.value != "" then ExtractSearchPattern(query, patterns)
    else query
  }

  /* ---------------------------------------------------------------------
     Formatting results
     --------------------------------------------------------------------- */

  /** A result as the search page shows it. */
  datatype FormattedResult = FormattedResult(sourceFile: Cell, matchScore: Option<Cell>,
                                             matchingValue: Option<Cell>, fields: Dict<string>)

  /** A result field shown under `fields`: not one of the metadata keys,
      and not missing. */
  predicate KeptField(rec: Record, k: string) {
    k != FileField && k != MatchScoreField && k != MatchingValueField && k in rec.items && !IsNa(rec.items[k])
  }

  /** The kept fields among `ks`, stringified, in order. */
  function FieldsOf(rec: Record, ks: seq<string>): (r: Dict<string>)
    ensures Valid(r)
    decreases |ks|
  {
    if ks == [] then Empty()
    else
      var prev := FieldsOf(rec, ks[..|ks| - 1]);
      var k := ks[|ks| - 1];
      if KeptField(rec, k) then Put(prev, k, Stringify(rec.items[k])) else prev
  }

  /** A field is shown exactly when it is kept, and shows its value as text. */
  lemma {:induction false} FieldsOfItems(rec: Record, ks: seq<string>)
    ensures forall k :: k in FieldsOf(rec, ks).items <==> k in ks && KeptField(rec, k)
    ensures forall k :: k in FieldsOf(rec, ks).items ==> k in rec.items && FieldsOf(rec, ks).items[k] == Stringify(rec.items[k])
    decreases |ks|
  {
    if ks != [] {
      FieldsOfItems(rec, ks[..|ks| - 1]);
      assert ks == ks[..|ks| - 1] + [ks[|ks| - 1]];
    }
  }

  /** Over distinct keys, the fields keep the record's key order. */
  lemma {:induction false} FieldsOfKeys(rec: Record, ks: seq<string>)
    requires Distinct(ks)
    ensures FieldsOf(rec, ks).keys == Filter(ks, (k: string) => KeptField(rec, k))
    decreases |ks|
  {
    if ks != [] {
      var n := |ks| - 1;
      var init := ks[..n];
      assert Distinct(init);
      FieldsOfKeys(rec, init);
      FieldsOfItems(rec, init);
      if KeptField(rec, ks[n]) {
        assert ks[n] !in init;
        assert ks[n] !in FieldsOf(rec, init).keys;
      }
    }
  }

  /** The formatted form of one result: its file (or `Unknown`), score and
      matching value (or `None`), and its shown fields. */
  function FormatResult(rec: Record): (r: FormattedResult)
    ensures r.sourceFile == if FileField in rec.items then rec.items[FileField] else Str("Unknown")
    ensures r.matchScore == Get(rec, MatchScoreField) && r.matchingValue == Get(rec, MatchingValueField)
  {
    FormattedResult(Lookup(rec, FileField, Str("Unknown")), Get(rec, MatchScoreField), Get(rec, MatchingValueField),
                    FieldsOf(rec, rec.keys))
  }

  /** Each result formatted, in order. */
  function FormatAll(results: seq<Record>): (r: seq<FormattedResult>)
    ensures |r| == |results| && forall i :: 0 <= i < |results| ==> r[i] == FormatResult(results[i])
  {
    seq(|results|, i requires 0 <= i < |results| => FormatResult(results[i]))
  }

  /** The formatting loop of the search route. */
  method FormatResults(results: seq<Record>) returns (formatted: seq<FormattedResult>)
    ensures formatted == FormatAll(results)
  {
    formatted := [];
    var i := 0;
    while i < |results|
      invariant 0 <= i <= |results|
      invariant formatted == FormatAll(results[..i])
    {
      var result := results[i];
      var fields := FormatFields(result);
      var formattedResult := FormattedResult(Lookup(result, FileField, Str("Unknown")),
                                             Get(result, MatchScoreField), Get(result, MatchingValueField), fields);
      assert FormatAll(results[..i + 1]) == FormatAll(results[..i]) + [FormatResult(results[i])];
      formatted := formatted + [formattedResult];
      i := i + 1;
    }
    PrefixFull(results);
  }

  /** The field loop for one result. */
  method FormatFields(result: Record) returns (fields: Dict<string>)
    ensures fields == FieldsOf(result, result.keys)
  {
    fields := Empty();
    var j := 0;
    while j < |result.keys|
      invariant 0 <= j <= |result.keys|
      invariant fields == FieldsOf(result, result.keys[..j])
    {
      var field := result.keys[j];
      PrefixSnoc(result.keys, j);
      if KeptField(result, field) {
        fields := Put(fields, field, Stringify(result.items[field]));
      }
      j := j + 1;
    }
    PrefixFull(result.keys);
  }

  /* ---------------------------------------------------------------------
     The search route
     --------------------------------------------------------------------- */

  /** The JSON body of a search: the query searched for, the result count
      and the formatted results; or the error of a failed search. */
  datatype SearchResponse = SearchResponse(query: string, resultsCount: nat, results: seq<FormattedResult>)

  /** The results before formatting: fuzzy search at the default threshold
      of 70, or case-insensitive exact search, over the parsed columns;
      then the date filter when either bound is given. */
  function SearchResults(frames: seq<(string, Table)>, form: SearchForm, patterns: QueryPatterns, ratio: Ratio,
                         toDatetime: ToDatetime): (r: Result<seq<Record>, string>)
    ensures form.startDate.GetOr("") == "" && form.endDate.GetOr("") == "" ==>
      r == Ok(TextResults(frames, form, patterns, ratio))
    ensures form.startDate.GetOr("") != "" || form.endDate.GetOr("") != "" ==>
      r == DateRangeFiltered(TextResults(frames, form, patterns, ratio),
                             form.startDate.GetOr(""), form.endDate.GetOr(""), toDatetime)
  {
    var results := TextResults(frames, form, patterns, ratio);
    var startDate := form.startDate.GetOr("");
    var endDate := form.endDate.GetOr("");
    if startDate != "" || endDate != "" then DateRangeFiltered(results, startDate, endDate, toDatetime)
    else Ok(results)
  }

  /** The results of the text search alone: fuzzy search at the default
      threshold of 70, or case-insensitive exact search, over the parsed
      columns. */
  function TextResults(frames: seq<(string, Table)>, form: SearchForm, patterns: QueryPatterns,
                       ratio: Ratio): (r: seq<Record>)
    ensures form.fuzzy ==> r == FuzzyResults(frames, SearchQuery(form, patterns), 70, ParseColumns(form.columns), ratio)
    ensures !form.fuzzy ==> r == ExactResults(frames, SearchQuery(form, patterns), false, ParseColumns(form.columns))
  {
    var query := SearchQuery(form, patterns);
    var columns := ParseColumns(form.columns);
    if form.fuzzy then FuzzyResults(frames, query, 70, columns, ratio)
    else ExactResults(frames, query, false, columns)
  }

  /** The search route's JSON answer. */
  function SearchOutcome(frames: seq<(string, Table)>, form: SearchForm, patterns: QueryPatterns, ratio: Ratio,
                         toDatetime: ToDatetime): (r: Result<SearchResponse, string>)
    ensures r.Ok? <==> SearchResults(frames, form, patterns, ratio, toDatetime).Ok?
    ensures r.Ok? ==> (r.value.resultsCount == |r.value.results| &&
      r.value.results == FormatAll(SearchResults(frames, form, patterns, ratio, toDatetime).value))
    ensures r.Ok? ==> r.value.query == SearchQuery(form, patterns)
  {
    match SearchResults(frames, form, patterns, ratio, toDatetime)
    case Err(e) => Err("Error during search: " + e)
    case Ok(results) =>
      var formatted := FormatAll(results);
      Ok(SearchResponse(SearchQuery(form, patterns), |formatted|, formatted))
  }

  /** `search`: read the form, run the agent's search, filter by date and
      format. */
  method Search(agent: DeepSearchAgent, form: SearchForm, patterns: QueryPatterns, ratio: Ratio,
                toDatetime: ToDatetime) returns (r: Result<SearchResponse, string>)
    requires agent.Valid()
    ensures r == SearchOutcome(Datasets(agent.dataframes), form, patterns, ratio, toDatetime)
  {
    var query := form.query.GetOr("");
    var columns := ParseColumns(form.columns);
    var startDate := form.startDate.GetOr("");
    var endDate := form.endDate.GetOr("");
    if form.extractPattern.Some? && form.extractPattern.value != "" {
      query := ScanPatterns(query, patterns);
    }
    var results;
    if form.fuzzy {
      results := agent.FuzzySearch(query, 70, columns, ratio);
    } else {
      results := agent.ExactSearch(query, false, columns);
    }
    if startDate != "" || endDate != "" {
      var dated := agent.FilterByDateRange(results, startDate, endDate, toDatetime);
      if dated.Err? {
        return Err("Error during search: " + dated.error);
      }
      results := dated.value;
    }
    var formattedResults := FormatResults(results);
    return Ok(SearchResponse(query, |formattedResults|, formattedResults));
  }

  /* ---------------------------------------------------------------------
     The export route
     --------------------------------------------------------------------- */

  const SourceFileKey := "Source File"
  const MatchScoreKey := "Match Score"
  const MatchingValueKey := "Matching Value"

  /** Python truthiness of an optional value: `None` (an absent key or a
      JSON `null`), `0` and `''` are false; every other value is true,
      NaN included (`bool(float('nan'))` is `True`). */
  predicate Truthy(v: Option<Cell>): (b: bool)
    ensures b <==> v.Some? && v.value != Str("") && v.value != Num(0)
    ensures v == Some(Missing) ==> b
  {
    match v
    case None => false
    case Some(Missing) => true
    case Some(Str(s)) => s != ""
    case Some(Num(n)) => n != 0
  }

  /** `Source File`, then `Match Score` and `Matching Value` when truthy. */
  function FlatBase(r: FormattedResult): (d: Dict<Cell>)
    ensures Valid(d) && |d.keys| > 0 && d.keys[0] == SourceFileKey
  {
    var flat := Put(Empty(), SourceFileKey, r.sourceFile);
    var withScore := if Truthy(r.matchScore) then Put(flat, MatchScoreKey, r.matchScore.value) else flat;
    if Truthy(r.matchingValue) then Put(withScore, MatchingValueKey, r.matchingValue.value) else withScore
  }

  /** The fields `ks` of `fields` written over `base`, in order. */
  function PutFields(base: Dict<Cell>, fields: Dict<string>, ks: seq<string>): (d: Dict<Cell>)
    ensures Valid(base) ==> Valid(d)
    ensures |base.keys| > 0 ==> |d.keys| > 0 && d.keys[0] == base.keys[0]
    decreases |ks|
  {
    if ks == [] then base
    else
      var k := ks[|ks| - 1];
      Put(PutFields(base, fields, ks[..|ks| - 1]), k, Str(Lookup(fields, k, "")))
  }

  /** A flattened export row. */
  function Flatten(r: FormattedResult): (d: Dict<Cell>)
    ensures Valid(d) && |d.keys| > 0 && d.keys[0] == SourceFileKey
  {
    PutFields(FlatBase(r), r.fields, r.fields.keys)
  }

  /** What a flattened row holds: `Source File`, the truthy metadata, and
      every field as text, a field overriding metadata of the same name. */
  lemma {:induction false} PutFieldsItems(base: Dict<Cell>, fields: Dict<string>, ks: seq<string>)
    ensures forall k :: k in PutFields(base, fields, ks).items <==> k in base.items || k in ks
    ensures forall k :: k in ks ==> PutFields(base, fields, ks).items[k] == Str(Lookup(fields, k, ""))
    ensures forall k :: k in base.items && k !in ks ==> PutFields(base, fields, ks).items[k] == base.items[k]
    decreases |ks|
  {
    if ks != [] {
      var n := |ks| - 1;
      PutFieldsItems(base, fields, ks[..n]);
      forall k {
        InSnoc(ks, k);
      }
    }
  }

  /** The keys of a flattened row and their values. */
  lemma FlattenItems(r: FormattedResult)
    requires Valid(r.fields)
    ensures forall k :: k in Flatten(r).items <==>
      k == SourceFileKey || (k == MatchScoreKey && Truthy(r.matchScore)) ||
      (k == MatchingValueKey && Truthy(r.matchingValue)) || k in r.fields.items
    ensures forall k :: k in r.fields.items ==> Flatten(r).items[k] == Str(r.fields.items[k])
    ensures SourceFileKey !in r.fields.items ==> Flatten(r).items[SourceFileKey] == r.sourceFile
    ensures MatchScoreKey !in r.fields.items && Truthy(r.matchScore) ==>
      Flatten(r).items[MatchScoreKey] == r.matchScore.value
    ensures MatchingValueKey !in r.fields.items && Truthy(r.matchingValue) ==>
      Flatten(r).items[MatchingValueKey] == r.matchingValue.value
  {
    FlatBaseItems(r);
    PutFieldsItems(FlatBase(r), r.fields, r.fields.keys);
    var d := Flatten(r);
    forall k | k in r.fields.items
      ensures d.items[k] == Str(r.fields.items[k])
    {
      assert k in r.fields.keys;
    }
  }

  /** The keys of the metadata part of a flattened row and their values. */
  lemma FlatBaseItems(r: FormattedResult)
    ensures forall k :: k in FlatBase(r).items <==>
      k == SourceFileKey || (k == MatchScoreKey && Truthy(r.matchScore)) ||
      (k == MatchingValueKey && Truthy(r.matchingValue))
    ensures FlatBase(r).items[SourceFileKey] == r.sourceFile
    ensures Truthy(r.matchScore) ==> FlatBase(r).items[MatchScoreKey] == r.matchScore.value
    ensures Truthy(r.matchingValue) ==> FlatBase(r).items[MatchingValueKey] == r.matchingValue.value
  {
    MetadataKeysDistinct();
    var flat := Put(Empty(), SourceFileKey, r.sourceFile);
    var withScore := if Truthy(r.matchScore) then Put(flat, MatchScoreKey, r.matchScore.value) else flat;
    assert withScore.items[SourceFileKey] == r.sourceFile;
  }

  lemma MetadataKeysDistinct()
    ensures SourceFileKey != MatchScoreKey && SourceFileKey != MatchingValueKey && MatchScoreKey != MatchingValueKey
  {
    assert SourceFileKey[0] != MatchScoreKey[0];
    assert SourceFileKey[0] != MatchingValueKey[0];
    assert MatchScoreKey[5] != MatchingValueKey[5];
  }

  /** `export`: no or empty `results` is an error; results that do not
      decode are an error; otherwise each result flattened, in order. */
  function ExportRows(resultsJson: Option<string>, decode: string -> Option<seq<FormattedResult>>)
    : (r: Result<seq<Dict<Cell>>, string>)
    ensures resultsJson.None? || resultsJson.value == "" ==> r == Err("No results to export")
    ensures r.Ok? <==> resultsJson.Some? && resultsJson.value != "" && decode(resultsJson.value).Some?
    ensures resultsJson.Some? && resultsJson.value != "" && decode(resultsJson.value).None? ==>
      r == Err("Error during export")
    ensures r.Ok? ==> |r.value| == |decode(resultsJson.value).value|
    ensures r.Ok? ==> forall i :: 0 <= i < |r.value| ==> r.value[i] == Flatten(decode(resultsJson.value).value[i])
  {
    if resultsJson.None? || resultsJson.value == "" then Err("No results to export")
    else match decode(resultsJson.value)
      case None => Err("Error during export")
      case Some(results) =>
        Ok(seq(|results|, i requires 0 <= i < |results| => Flatten(results[i])))
  }

  /** The flattening loop of the export route. */
  method FlattenResults(results: seq<FormattedResult>) returns (flattened: seq<Dict<Cell>>)
    ensures |flattened| == |results| && forall i :: 0 <= i < |results| ==> flattened[i] == Flatten(results[i])
  {
    flattened := [];
    var i := 0;
    while i < |results|
      invariant 0 <= i <= |results|
      invariant |flattened| == i && forall j :: 0 <= j < i ==> flattened[j] == Flatten(results[j])
    {
      var flatResult := FlattenResult(results[i]);
      flattened := flattened + [flatResult];
      i := i + 1;
    }
  }

  /** The body of the flattening loop for one result. */
  method FlattenResult(result: FormattedResult) returns (flatResult: Dict<Cell>)
    ensures flatResult == Flatten(result)
  {
    flatResult := Put(Empty(), SourceFileKey, result.sourceFile);
    if Truthy(result.matchScore) {
      flatResult := Put(flatResult, MatchScoreKey, result.matchScore.value);
    }
    if Truthy(result.matchingValue) {
      flatResult := Put(flatResult, MatchingValueKey, result.matchingValue.value);
    }
    assert flatResult == FlatBase(result);
    flatResult := FlattenFields(flatResult, result.fields);
  }

  /** `for field, value in result['fields'].items(): flat_result[field] = value` */
  method FlattenFields(base: Dict<Cell>, fields: Dict<string>) returns (flat: Dict<Cell>)
    ensures flat == PutFields(base, fields, fields.keys)
  {
    flat := base;
    var j := 0;
    while j < |fields.keys|
      invariant 0 <= j <= |fields.keys|
      invariant flat == PutFields(base, fields, fields.keys[..j])
    {
      var field := fields.keys[j];
      PrefixSnoc(fields.keys, j);
      flat := Put(flat, field, Str(Lookup(fields, field, "")));
      j := j + 1;
    }
    PrefixFull(fields.keys);
  }

  /** The export route up to writing the file. */
  method Export(resultsJson: Option<string>, decode: string -> Option<seq<FormattedResult>>)
    returns (r: Result<seq<Dict<Cell>>, string>)
    ensures r == ExportRows(resultsJson, decode)
  {
    if resultsJson.None? || resultsJson.value == "" {
      return Err("No results to export");
    }
    var results := decode(resultsJson.value);
    if results.None? {
      return Err("Error during export");
    }
    var flattened := FlattenResults(results.value);
    assert flattened == seq(|results.value|, i requires 0 <= i < |results.value| => Flatten(results.value[i]));
    return Ok(flattened);
  }
}
