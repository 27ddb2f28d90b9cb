/** The naming, typing and value-conversion logic of schedule_database.py:
    how the columns of the consolidated schedule become SQL column names
    and types, and how a row becomes the values of an INSERT. */
module ScheduleDatabase {
  import opened Wrappers
  import opened Text
  import opened Seqs
  import opened PyDict
  import opened Frames

  /* ---------------------------------------------------------------------
     clean_column_name
     --------------------------------------------------------------------- */

  /** No two adjacent underscores. */
  ghost predicate NoDoubleUnderscore(s: string) {
    forall i, j :: 0 <= i && j == i + 1 && j < |s| ==> !(s[i] == '_' && s[j] == '_')
  }

  /** The characters a clean name is made of. */
  predicate IsCleanChar(c: char) {
    IsAsciiLower(c) || IsDigit(c) || c == '_'
  }

  /** Every character is a lower-case ASCII letter, a digit or `_`. */
  ghost predicate AllClean(s: string) {
    forall i :: 0 <= i < |s| ==> IsCleanChar(s[i])
  }

  /** `re.sub(r'_+', '_', s)`: every run of underscores becomes one. */
  function CollapseUnderscores(s: string): (r: string)
    decreases |s|
  {
    if s == [] then []
    else
      var init := CollapseUnderscores(s[..|s| - 1]);
      var c := s[|s| - 1];
      if c == '_' && init != [] && init[|init| - 1] == '_' then init else init + [c]
  }

  /** Collapsing leaves no double underscore, keeps the last character and
      introduces no new characters. */
  lemma {:induction false} CollapseShape(s: string)
    ensures |CollapseUnderscores(s)| <= |s|
    ensures AllClean(s) ==> AllClean(CollapseUnderscores(s))
    ensures NoDoubleUnderscore(CollapseUnderscores(s))
    ensures s == [] <==> CollapseUnderscores(s) == []
    ensures s != [] ==> CollapseUnderscores(s)[|CollapseUnderscores(s)| - 1] == s[|s| - 1]
    decreases |s|
  {
    if s != [] {
      var init := s[..|s| - 1];
      CollapseShape(init);
      if AllClean(s) {
        assert AllClean(init) by {
          assert forall i :: 0 <= i < |init| ==> init[i] == s[i];
        }
      }
    }
  }

  /** Collapsing a prefix gives a prefix of the collapsed string. */
  lemma {:induction false} CollapsePrefix(s: string, k: nat)
    requires k <= |s|
    ensures CollapseUnderscores(s[..k]) <= CollapseUnderscores(s)
    decreases |s|
  {
    if k < |s| {
      CollapsePrefix(s[..|s| - 1], k);
      assert s[..|s| - 1][..k] == s[..k];
    } else {
      PrefixFull(s);
    }
  }

  /** A string without double underscores is left as it is. */
  lemma {:induction false} CollapseIdentity(s: string)
    requires NoDoubleUnderscore(s)
    ensures CollapseUnderscores(s) == s
    decreases |s|
  {
    if s != [] {
      var n := |s| - 1;
      var init := s[..n];
      assert NoDoubleUnderscore(init) by {
        forall i, j | 0 <= i && j == i + 1 && j < |init|
          ensures !(init[i] == '_' && init[j] == '_')
        {
          assert init[i] == s[i] && init[j] == s[j];
        }
      }
      CollapseIdentity(init);
      if n >= 1 {
        assert !(s[n - 1] == '_' && s[n] == '_');
        assert init[|init| - 1] == s[n - 1];
      }
      assert s == init + [s[n]];
    }
  }

  /** One character of `re.sub(r'[^a-zA-Z0-9]', '_', name.lower())`. */
  function SubstChar(c: char): char {
    var l := LowerChar(c);
    if IsAsciiAlnum(l) then l else '_'
  }

  /** Lower-cased with every other character replaced by `_`. */
  function Substituted(name: string): (r: string)
    ensures |r| == |name|
  {
    seq(|name|, i requires 0 <= i < |name| => SubstChar(name[i]))
  }

  /** Substitution keeps each ASCII letter or digit, lower-cased, replaces
      every other character by `_`, and so leaves only clean characters. */
  lemma SubstitutedClean(name: string)
    ensures forall i :: 0 <= i < |name| && IsAsciiAlnum(name[i]) ==> Substituted(name)[i] == LowerChar(name[i])
    ensures forall i :: 0 <= i < |name| && !IsAsciiAlnum(name[i]) ==> Substituted(name)[i] == '_'
    ensures AllClean(Substituted(name))
  {
    forall i | 0 <= i < |name| ensures IsCleanChar(Substituted(name)[i]) {
      var c := name[i];
      if IsAsciiUpper(c) {
        assert IsAsciiLower(LowerChar(c));
      }
    }
  }

  /** The `col_` prefix that a name starting with a digit receives. */
  function Prefix(sub: string): string {
    if sub != [] && IsDigit(sub[0]) then "col_" else ""
  }

  /** `clean_column_name`: lower-case, replace non-alphanumerics by `_`,
      prefix `col_` when a digit comes first, collapse underscores and trim
      trailing ones.  An empty name fails at the first-character test. */
  function CleanColumnName(name: string): (r: Result<string, string>)
    ensures r.Err? <==> name == ""
  {
    // the substituted name is as long as `name`, so its first character
    // is missing exactly when `name` is empty
    if name == "" then Err("string index out of range")
    else Ok(CleanName(name))
  }

  /** The cleaning pipeline for a non-empty name. */
  function CleanName(name: string): string {
    var sub := Substituted(name);
    RStripChar(CollapseUnderscores(Prefix(sub) + sub), '_')
  }

  /** A clean name consists of lower-case letters, digits and single
      underscores, and does not end with an underscore. */
  lemma CleanNameShape(name: string)
    requires name != ""
    ensures CleanColumnName(name).Ok?
    ensures AllClean(CleanColumnName(name).value)
    ensures NoDoubleUnderscore(CleanColumnName(name).value)
    ensures CleanColumnName(name).value == [] || CleanColumnName(name).value[|CleanColumnName(name).value| - 1] != '_'
  {
    var sub := Substituted(name);
    SubstitutedClean(name);
    var prefixed := Prefix(sub) + sub;
    assert AllClean(prefixed) by {
      assert forall i :: 0 <= i < |Prefix(sub)| ==> IsCleanChar(Prefix(sub)[i]);
      assert forall i :: |Prefix(sub)| <= i < |prefixed| ==> prefixed[i] == sub[i - |Prefix(sub)|];
    }
    var collapsed := CollapseUnderscores(prefixed);
    CollapseShape(prefixed);
    var r := RStripChar(collapsed, '_');
    RStripCharSpec(collapsed, '_');
    assert forall i :: 0 <= i < |r| ==> r[i] == collapsed[i];
  }

  /** A name whose cleaned form starts with a digit gets the `col_` prefix. */
  lemma CleanNameDigitPrefix(name: string)
    requires name != "" && IsDigit(Substituted(name)[0])
    ensures "col_" <= CleanColumnName(name).value
  {
    var sub := Substituted(name);
    var prefixed := Prefix(sub) + sub;
    assert prefixed[..4] == "col_" && prefixed[4] == sub[0];
    CollapseIdentity(prefixed[..5]);
    CollapsePrefix(prefixed, 5);
    var collapsed := CollapseUnderscores(prefixed);
    assert collapsed[..5] == prefixed[..5];
    var r := RStripChar(collapsed, '_');
    RStripCharSpec(collapsed, '_');
    assert |r| > 4;
    assert r[..4] == collapsed[..4];
  }

  /* ---------------------------------------------------------------------
     The column mapping
     --------------------------------------------------------------------- */

  /** The result of cleaning each column's name. */
  function Cleaned(columns: seq<string>): (r: seq<Result<string, string>>)
    ensures |r| == |columns|
  {
    MapSeq(columns, CleanColumnName)
  }

  /** Each entry of `Cleaned` is the cleaning of its column. */
  lemma CleanedAt(columns: seq<string>, i: nat)
    requires i < |columns|
    ensures Cleaned(columns)[i] == CleanColumnName(columns[i])
  {
    MapSeqAt(columns, CleanColumnName, i);
  }

  /** The clean names of all columns, or the failure of the first column
      that cannot be cleaned. */
  function CleanNames(columns: seq<string>): (r: Result<seq<string>, string>)
    ensures r.Ok? ==> |r.value| == |columns|
  {
    AllOk(Cleaned(columns))
  }

  /** Cleaning fails exactly when some column name is empty; otherwise each
      clean name is that of its column. */
  lemma CleanNamesSpec(columns: seq<string>)
    ensures CleanNames(columns).Err? <==> exists i :: 0 <= i < |columns| && columns[i] == ""
    ensures CleanNames(columns).Ok? ==>
      forall i :: 0 <= i < |columns| ==> CleanColumnName(columns[i]) == Ok(CleanNames(columns).value[i])
  {
    AllOkSpec(Cleaned(columns));
    forall i | 0 <= i < |columns| ensures Cleaned(columns)[i] == CleanColumnName(columns[i]) {
      CleanedAt(columns, i);
    }
  }

  /** The name column `i` is given: its clean name the first time that name
      occurs, and `name_k` for its `k`-th occurrence. */
  function UniqueName(cleans: seq<string>, i: nat): string
    requires i < |cleans|
  {
    var k := Count(cleans[..i], cleans[i]);
    if k == 0 then cleans[i] else cleans[i] + "_" + NatToString(k + 1)
  }

  /** `used_names` after the columns with clean names `cleans`. */
  function UsedNames(cleans: seq<string>): (r: Dict<nat>)
    ensures Valid(r)
    decreases |cleans|
  {
    if cleans == [] then Empty()
    else
      var n := |cleans| - 1;
      var prev := UsedNames(cleans[..n]);
      var c := cleans[n];
      Put(prev, c, NextCount(prev, c))
  }

  /** The counter of `c` once one more occurrence is seen. */
  function NextCount(used: Dict<nat>, c: string): nat {
    if c in used.items then used.items[c] + 1 else 1
  }

  /** The name a column with clean name `c` receives, given the counters. */
  function NextName(used: Dict<nat>, c: string): string {
    if c in used.items then c + "_" + NatToString(used.items[c] + 1) else c
  }

  /** `used_names` counts every clean name: its keys are the clean names
      seen, each with its number of occurrences. */
  lemma {:induction false} UsedNamesCount(cleans: seq<string>, c: string)
    ensures c in UsedNames(cleans).items <==> c in cleans
    ensures c in UsedNames(cleans).items ==> UsedNames(cleans).items[c] == Count(cleans, c)
    decreases |cleans|
  {
    if cleans != [] {
      var n := |cleans| - 1;
      var init := cleans[..n];
      UsedNamesCount(init, c);
      CountZero(init, c);
      InSnoc(cleans, c);
    }
  }

  /** `column_mapping` after the columns `columns` with clean names `cleans`. */
  function ColumnMapping(columns: seq<string>, cleans: seq<string>): (r: Dict<string>)
    requires |cleans| == |columns|
    ensures Valid(r)
    decreases |columns|
  {
    if columns == [] then Empty()
    else
      var n := |columns| - 1;
      Put(ColumnMapping(columns[..n], cleans[..n]), columns[n], UniqueName(cleans, n))
  }

  /** The mapping has exactly the columns as keys. */
  lemma {:induction false} ColumnMappingKeys(columns: seq<string>, cleans: seq<string>, c: string)
    requires |cleans| == |columns|
    ensures c in ColumnMapping(columns, cleans).items <==> c in columns
    decreases |columns|
  {
    if columns != [] {
      var n := |columns| - 1;
      ColumnMappingUnfold(columns, cleans);
      ColumnMappingKeys(columns[..n], cleans[..n], c);
      InSnoc(columns, c);
    }
  }

  /** The mapping of every column, or the failure of cleaning. */
  function ColumnMappingOf(columns: seq<string>): Result<Dict<string>, string> {
    match CleanNames(columns)
    case Err(e) => Err(e)
    case Ok(cleans) => Ok(ColumnMapping(columns, cleans))
  }

  /** The first column with a clean name keeps it. */
  lemma FirstKeepsName(cleans: seq<string>, i: nat)
    requires i < |cleans|
    requires forall j :: 0 <= j < i ==> cleans[j] != cleans[i]
    ensures UniqueName(cleans, i) == cleans[i]
  {
    assert cleans[i] !in cleans[..i];
    CountZero(cleans[..i], cleans[i]);
  }

  /** With distinct column names, each column is mapped to its own unique name. */
  lemma {:induction false} ColumnMappingLookup(columns: seq<string>, cleans: seq<string>, i: nat)
    requires |cleans| == |columns| && i < |columns| && Distinct(columns)
    ensures columns[i] in ColumnMapping(columns, cleans).items
    ensures ColumnMapping(columns, cleans).items[columns[i]] == UniqueName(cleans, i)
    decreases |columns|
  {
    var n := |columns| - 1;
    ColumnMappingUnfold(columns, cleans);
    if i < n {
      var init, initCleans := columns[..n], cleans[..n];
      assert columns[n] != columns[i];
      assert Distinct(init) by {
        forall a, b | 0 <= a < b < n ensures init[a] != init[b] {
          assert columns[a] != columns[b];
        }
      }
      assert init[i] == columns[i];
      ColumnMappingLookup(init, initCleans, i);
      UniqueNamePrefix(cleans, n, i);
    }
  }

  /** The unique name of a column does not depend on later columns. */
  lemma UniqueNamePrefix(cleans: seq<string>, n: nat, i: nat)
    requires i < n <= |cleans|
    ensures UniqueName(cleans[..n], i) == UniqueName(cleans, i)
  {
    assert cleans[..n][..i] == cleans[..i];
    assert cleans[..n][i] == cleans[i];
  }

  /** The mapping need not be injective: a suffixed name is not recorded in
      `used_names`, so a later column can already be called that.  The
      columns `a`, `A` and `a_2` are mapped to `a`, `a_2` and `a_2`. */
  lemma MappingNotInjective(columns: seq<string>)
    requires columns == ["a", "A", "a_2"]
    ensures ColumnMappingOf(columns).Ok?
    ensures columns[1] in ColumnMappingOf(columns).value.items && columns[2] in ColumnMappingOf(columns).value.items
    ensures ColumnMappingOf(columns).value.items[columns[1]] == "a_2"
    ensures ColumnMappingOf(columns).value.items[columns[2]] == "a_2"
  {
    assert columns[2] == columns[0] + "_2";
    MappingCollision(columns);
  }

  /** For any lower-case letter `x` and its upper-case form `X`, the columns
      `x`, `X` and `x_2` give the last two the same name `x_2`. */
  lemma MappingCollision(columns: seq<string>)
    requires |columns| == 3 && |columns[0]| == 1 && |columns[1]| == 1
    requires IsAsciiLower(columns[0][0]) && IsAsciiUpper(columns[1][0])
    requires LowerChar(columns[1][0]) == columns[0][0]
    requires columns[2] == columns[0] + "_2"
    ensures ColumnMappingOf(columns).Ok?
    ensures columns[1] in ColumnMappingOf(columns).value.items && columns[2] in ColumnMappingOf(columns).value.items
    ensures ColumnMappingOf(columns).value.items[columns[1]] == columns[2]
    ensures ColumnMappingOf(columns).value.items[columns[2]] == columns[2]
  {
    var x := columns[0];
    var cleans := [x, x, columns[2]];
    CollisionCleans(columns, cleans);
    assert Distinct(columns) by {
      assert columns[0] != columns[1] && |columns[2]| == 3;
    }
    assert cleans[..1] == [x];
    assert [x][..0] == [];
    assert Count(cleans[..1], x) == 1;
    assert NatToString(2) == "2";
    assert UniqueName(cleans, 1) == columns[2];
    assert cleans[..2] == [x, x];
    assert columns[2] !in cleans[..2] by {
      assert |columns[2]| != |x|;
    }
    CountZero(cleans[..2], columns[2]);
    assert UniqueName(cleans, 2) == columns[2];
    ColumnMappingLookup(columns, cleans, 1);
    ColumnMappingLookup(columns, cleans, 2);
  }

  /** The clean names of the columns `x`, `X` and `x_2`. */
  lemma CollisionCleans(columns: seq<string>, cleans: seq<string>)
    requires |columns| == 3 && |columns[0]| == 1 && |columns[1]| == 1
    requires IsAsciiLower(columns[0][0]) && IsAsciiUpper(columns[1][0])
    requires LowerChar(columns[1][0]) == columns[0][0]
    requires columns[2] == columns[0] + "_2"
    requires cleans == [columns[0], columns[0], columns[2]]
    ensures CleanNames(columns) == Ok(cleans)
  {
    var x, big, y := columns[0], columns[1], columns[2];
    CleanLiteral(x);
    assert [LowerChar(x[0])] == x;
    CleanLiteral(big);
    assert [LowerChar(big[0])] == x;
    SuffixedClean(x, y);
    CleanThree(x, big, y, columns, cleans);
  }

  /** Three columns that clean to `x`, `x` and `y`. */
  lemma CleanThree(x: string, big: string, y: string, columns: seq<string>, cleans: seq<string>)
    requires CleanColumnName(x) == Ok(x) && CleanColumnName(big) == Ok(x) && CleanColumnName(y) == Ok(y)
    requires columns == [x, big, y] && cleans == [x, x, y]
    ensures CleanNames(columns) == Ok(cleans)
  {
    forall i | 0 <= i < |columns| ensures CleanColumnName(columns[i]) == Ok(cleans[i]) {
      if i == 0 {
        assert columns[i] == x && cleans[i] == x;
      } else if i == 1 {
        assert columns[i] == big && cleans[i] == x;
      } else {
        assert columns[i] == y && cleans[i] == y;
      }
    }
    CleanNamesOk(columns, cleans);
  }

  /** `x_2` for a lower-case letter `x` is its own clean name. */
  lemma SuffixedClean(x: string, name: string)
    requires |x| == 1 && IsAsciiLower(x[0]) && name == x + "_2"
    ensures CleanColumnName(name) == Ok(name)
  {
    assert name[0] == x[0] && name[1] == '_' && name[2] == '2';
    assert NoDoubleUnderscore(name) by {
      forall i, j | 0 <= i && j == i + 1 && j < |name|
        ensures !(name[i] == '_' && name[j] == '_')
      {
        assert name[0] != '_' && name[2] != '_';
      }
    }
    assert AllClean(name) by {
      forall i | 0 <= i < |name| ensures IsCleanChar(name[i]) {
        assert i == 0 || i == 1 || i == 2;
      }
    }
    CleanFixedPoint(name);
  }

  /** When every column cleans to the matching name, those are the clean names. */
  lemma CleanNamesOk(columns: seq<string>, cleans: seq<string>)
    requires |cleans| == |columns|
    requires forall i :: 0 <= i < |columns| ==> CleanColumnName(columns[i]) == Ok(cleans[i])
    ensures CleanNames(columns) == Ok(cleans)
  {
    CleanNamesSpec(columns);
    assert CleanNames(columns).Ok?;
    var v := CleanNames(columns).value;
    forall i | 0 <= i < |columns| ensures v[i] == cleans[i] {
      assert CleanColumnName(columns[i]) == Ok(v[i]);
    }
    assert v == cleans;
  }

  /** A name that is already clean and does not start with a digit is its
      own clean name. */
  lemma CleanFixedPoint(name: string)
    requires name != "" && AllClean(name) && !IsDigit(name[0])
    requires NoDoubleUnderscore(name) && name[|name| - 1] != '_'
    ensures CleanColumnName(name) == Ok(name)
  {
    var sub := Substituted(name);
    assert sub == name by {
      forall i | 0 <= i < |name| ensures sub[i] == name[i] {
        assert IsCleanChar(name[i]);
      }
    }
    assert Prefix(sub) + sub == name;
    CollapseIdentity(name);
    assert RStripChar(name, '_') == name;
  }

  /** A single letter cleans to itself, lower-cased. */
  lemma CleanLiteral(name: string)
    requires |name| == 1 && IsAsciiAlnum(name[0]) && !IsDigit(name[0])
    ensures CleanColumnName(name) == Ok([LowerChar(name[0])])
  {
    var c := LowerChar(name[0]);
    LowerLetter(name[0]);
    var sub := Substituted(name);
    assert sub[0] == c;
    assert sub == [c];
    assert Prefix(sub) == "";
    assert Prefix(sub) + sub == [c];
    CollapseSingle(c);
    assert RStripChar([c], '_') == [c];
    assert CleanName(name) == [c];
  }

  /** Lower-casing a letter gives a lower-case letter. */
  lemma LowerLetter(ch: char)
    requires IsAsciiAlnum(ch) && !IsDigit(ch)
    ensures IsAsciiLower(LowerChar(ch)) && !IsDigit(LowerChar(ch)) && LowerChar(ch) != '_'
  {
  }

  /** One character is left as it is by collapsing. */
  lemma CollapseSingle(c: char)
    ensures CollapseUnderscores([c]) == [c]
  {
    assert [c][..0] == [];
  }

  /** The mapping loop: clean each column's name, count the clean names in
      `used_names`, and give every repeat a numbered suffix. */
  method BuildColumnMapping(columns: seq<string>) returns (r: Result<(Dict<string>, Dict<nat>), string>)
    ensures r.Err? <==> ColumnMappingOf(columns).Err?
    ensures r.Ok? ==> r.value.0 == ColumnMappingOf(columns).value
    ensures r.Ok? ==> r.value.1 == UsedNames(CleanNames(columns).value)
  {
    var columnMapping: Dict<string> := Empty();
    var usedNames: Dict<nat> := Empty();
    ghost var results := Cleaned(columns);
    ghost var cleans: seq<string> := [];
    assert results[..0] == [];
    var i := 0;
    while i < |columns|
      invariant 0 <= i <= |columns| && |cleans| == i
      invariant AllOk(results[..i]) == Ok(cleans)
      invariant columnMapping == ColumnMapping(columns[..i], cleans)
      invariant usedNames == UsedNames(cleans)
    {
      var col := columns[i];
      var cleaned := CleanColumnName(col);
      CleanedAt(columns, i);
      AllOkStep(results, i, cleans);
      if cleaned.Err? {
        AllOkSpec(results);
        return Err(cleaned.error);
      }
      var cleanName := cleaned.value;
      MappingStep(columns, cleans, i, cleanName);
      ghost var next := cleans + [cleanName];
      var name;
      usedNames, name := CountCleanName(usedNames, cleanName);
      assert usedNames == UsedNames(next);
      columnMapping := Put(columnMapping, col, name);
      assert columnMapping == ColumnMapping(columns[..i + 1], next);
      cleans := next;
      i := i + 1;
    }
    PrefixFull(columns);
    PrefixFull(results);
    return Ok((columnMapping, usedNames));
  }

  /** The body of the mapping loop for one clean name: bump its counter in
      `used_names` and suffix the name when it was seen before. */
  method CountCleanName(usedNames: Dict<nat>, cleanName: string) returns (used: Dict<nat>, name: string)
    ensures used == Put(usedNames, cleanName, NextCount(usedNames, cleanName))
    ensures name == NextName(usedNames, cleanName)
  {
    name := cleanName;
    if cleanName in usedNames.items {
      var count := usedNames.items[cleanName] + 1;
      used := Put(usedNames, cleanName, count);
      name := cleanName + "_" + NatToString(count);
    } else {
      used := Put(usedNames, cleanName, 1);
    }
  }

  /** One step of the mapping loop: the counter of the clean name `x` goes
      up by one, and the column gets its unique name. */
  lemma MappingStep(columns: seq<string>, cleans: seq<string>, i: nat, x: string)
    requires i < |columns| && |cleans| == i
    ensures UsedNames(cleans + [x]) == Put(UsedNames(cleans), x, NextCount(UsedNames(cleans), x))
    ensures ColumnMapping(columns[..i + 1], cleans + [x]) ==
      Put(ColumnMapping(columns[..i], cleans), columns[i], NextName(UsedNames(cleans), x))
  {
    UsedNamesStep(cleans, x);
    ColumnMappingStep(columns, cleans, i, x);
  }

  lemma UsedNamesStep(cleans: seq<string>, x: string)
    ensures UsedNames(cleans + [x]) == Put(UsedNames(cleans), x, NextCount(UsedNames(cleans), x))
  {
    var next := cleans + [x];
    assert next[..|cleans|] == cleans;
    assert next[|cleans|] == x;
  }

  lemma ColumnMappingStep(columns: seq<string>, cleans: seq<string>, i: nat, x: string)
    requires i < |columns| && |cleans| == i
    ensures ColumnMapping(columns[..i + 1], cleans + [x]) ==
      Put(ColumnMapping(columns[..i], cleans), columns[i], NextName(UsedNames(cleans), x))
  {
    ColumnMappingSnoc(columns, cleans, i, x);
    UniqueNameStep(cleans, x);
  }

  /** `ColumnMapping` of one more column. */
  lemma ColumnMappingSnoc(columns: seq<string>, cleans: seq<string>, i: nat, x: string)
    requires i < |columns| && |cleans| == i
    ensures ColumnMapping(columns[..i + 1], cleans + [x]) ==
      Put(ColumnMapping(columns[..i], cleans), columns[i], UniqueName(cleans + [x], |cleans|))
  {
    PrefixSnoc(columns, i);
    AppendOne(cleans, x);
    ColumnMappingUnfold(columns[..i + 1], cleans + [x]);
  }

  /** `ColumnMapping` of a non-empty prefix, one column at a time. */
  lemma ColumnMappingUnfold(columns: seq<string>, cleans: seq<string>)
    requires |cleans| == |columns| && columns != []
    ensures ColumnMapping(columns, cleans) ==
      Put(ColumnMapping(columns[..|columns| - 1], cleans[..|columns| - 1]), columns[|columns| - 1], UniqueName(cleans, |columns| - 1))
  {
  }

  /** The unique name of a new column, read off the counters so far. */
  lemma UniqueNameStep(cleans: seq<string>, x: string)
    ensures UniqueName(cleans + [x], |cleans|) == NextName(UsedNames(cleans), x)
  {
    var next := cleans + [x];
    assert next[..|cleans|] == cleans;
    assert next[|cleans|] == x;
    var k := Count(cleans, x);
    assert UniqueName(next, |cleans|) == if k == 0 then x else x + "_" + NatToString(k + 1);
    var used := UsedNames(cleans);
    UsedNamesCount(cleans, x);
    CountZero(cleans, x);
    if x in used.items {
      assert used.items[x] == k && k != 0;
    } else {
      assert k == 0;
    }
  }

  /* ---------------------------------------------------------------------
     Column types and roles
     --------------------------------------------------------------------- */

  /** An SQL column type. */
  datatype SqlType = TextType | RealType

  /** The column's name mentions `date`, in any case. */
  predicate IsDateName(column: string) {
    Contains(Lower(column), "date")
  }

  /** The type of a column: TEXT for a date column or a column without
      present values; otherwise REAL when `numeric` accepts the first ten
      present values (`pd.to_numeric`), TEXT when it does not. */
  function ColumnType(t: Table, column: string, numeric: seq<Cell> -> bool): (r: SqlType)
    ensures IsDateName(column) ==> r == TextType
    ensures r == RealType <==>
      !IsDateName(column) && Sample(t, column) != [] && numeric(Sample(t, column))
  {
    if IsDateName(column) then TextType
    else
      var sample := Sample(t, column);
      if sample == [] then TextType
      else if numeric(sample) then RealType
      else TextType
  }

  /** `data[col].dropna().head(10)` */
  function Sample(t: Table, column: string): (r: seq<Cell>)
    ensures |r| <= 10 && forall i :: 0 <= i < |r| ==> !IsNa(r[i])
  {
    Take(PresentCells(t.rows, column), 10)
  }

  /** Every column has an entry in the mapping. */
  predicate Mapped(mapping: Dict<string>, columns: seq<string>) {
    forall j :: 0 <= j < |columns| ==> columns[j] in mapping.items
  }

  /** `column_types` after the given columns: each column's type is stored
      under its clean name. */
  function ColumnTypes(t: Table, columns: seq<string>, mapping: Dict<string>,
                       numeric: seq<Cell> -> bool): (r: Dict<SqlType>)
    requires Mapped(mapping, columns)
    ensures Valid(r)
    decreases |columns|
  {
    if columns == [] then Empty()
    else
      var n := |columns| - 1;
      var prev := ColumnTypes(t, columns[..n], mapping, numeric);
      var c := columns[n];
      Put(prev, mapping.items[c], ColumnType(t, c, numeric))
  }

  /** `ColumnTypes` of a non-empty list of columns, one column at a time. */
  lemma ColumnTypesUnfold(t: Table, columns: seq<string>, mapping: Dict<string>,
                          numeric: seq<Cell> -> bool)
    requires Mapped(mapping, columns)
    requires columns != []
    ensures Mapped(mapping, columns[..|columns| - 1])
    ensures ColumnTypes(t, columns, mapping, numeric) ==
      Put(ColumnTypes(t, columns[..|columns| - 1], mapping, numeric),
          mapping.items[columns[|columns| - 1]], ColumnType(t, columns[|columns| - 1], numeric))
  {
  }

  /** Some column of `columns` has the clean name `k`. */
  ghost predicate SomeColumnNamed(mapping: Dict<string>, columns: seq<string>, k: string)
    requires Mapped(mapping, columns)
  {
    exists i :: 0 <= i < |columns| && mapping.items[columns[i]] == k
  }

  /** A column has the clean name `k` when an earlier one does or the last one does. */
  lemma SomeColumnNamedSnoc(mapping: Dict<string>, columns: seq<string>, k: string)
    requires Mapped(mapping, columns)
    requires columns != []
    ensures Mapped(mapping, columns[..|columns| - 1])
    ensures SomeColumnNamed(mapping, columns, k) <==>
      SomeColumnNamed(mapping, columns[..|columns| - 1], k) || mapping.items[columns[|columns| - 1]] == k
  {
    var n := |columns| - 1;
    var init := columns[..n];
    if SomeColumnNamed(mapping, columns, k) {
      var i :| 0 <= i < |columns| && mapping.items[columns[i]] == k;
      if i < n {
        assert init[i] == columns[i];
      }
    }
    if SomeColumnNamed(mapping, init, k) {
      var i :| 0 <= i < n && mapping.items[init[i]] == k;
      assert init[i] == columns[i];
    }
  }

  /** Every column's clean name, and nothing else, receives a type. */
  lemma {:induction false} ColumnTypesKeys(t: Table, columns: seq<string>, mapping: Dict<string>,
                                           numeric: seq<Cell> -> bool, k: string)
    requires Mapped(mapping, columns)
    ensures k in ColumnTypes(t, columns, mapping, numeric).items <==> SomeColumnNamed(mapping, columns, k)
    decreases |columns|
  {
    if columns != [] {
      var n := |columns| - 1;
      ColumnTypesUnfold(t, columns, mapping, numeric);
      SomeColumnNamedSnoc(mapping, columns, k);
      ColumnTypesKeys(t, columns[..n], mapping, numeric, k);
    }
  }

  /** No column after column `i` has the same clean name. */
  ghost predicate NamedLast(mapping: Dict<string>, columns: seq<string>, i: nat)
    requires Mapped(mapping, columns) && i < |columns|
  {
    forall j :: i < j < |columns| ==> mapping.items[columns[j]] != mapping.items[columns[i]]
  }

  /** Dropping the last column keeps column `i` the last with its name. */
  lemma NamedLastPrefix(mapping: Dict<string>, columns: seq<string>, i: nat)
    requires Mapped(mapping, columns) && i < |columns| - 1 && NamedLast(mapping, columns, i)
    ensures Mapped(mapping, columns[..|columns| - 1]) && columns[..|columns| - 1][i] == columns[i]
    ensures NamedLast(mapping, columns[..|columns| - 1], i)
    ensures mapping.items[columns[|columns| - 1]] != mapping.items[columns[i]]
  {
  }

  /** The last column mapped to a clean name decides that name's type. */
  lemma {:induction false} ColumnTypesLookup(t: Table, columns: seq<string>, mapping: Dict<string>,
                                             numeric: seq<Cell> -> bool, i: nat)
    requires Mapped(mapping, columns)
    requires i < |columns| && NamedLast(mapping, columns, i)
    ensures mapping.items[columns[i]] in ColumnTypes(t, columns, mapping, numeric).items
    ensures ColumnTypes(t, columns, mapping, numeric).items[mapping.items[columns[i]]] ==
      ColumnType(t, columns[i], numeric)
    decreases |columns|
  {
    var n := |columns| - 1;
    ColumnTypesUnfold(t, columns, mapping, numeric);
    if i < n {
      NamedLastPrefix(mapping, columns, i);
      ColumnTypesLookup(t, columns[..n], mapping, numeric, i);
    }
  }

  /** `column_types` after one more column. */
  lemma ColumnTypesStep(t: Table, columns: seq<string>, mapping: Dict<string>,
                        numeric: seq<Cell> -> bool, i: nat)
    requires Mapped(mapping, columns)
    requires i < |columns|
    ensures ColumnTypes(t, columns[..i + 1], mapping, numeric) ==
      Put(ColumnTypes(t, columns[..i], mapping, numeric), mapping.items[columns[i]], ColumnType(t, columns[i], numeric))
  {
    PrefixSnoc(columns, i);
    ColumnTypesUnfold(t, columns[..i + 1], mapping, numeric);
  }

  /** `date_columns`: the columns whose name mentions `date`, in order. */
  function DateColumns(columns: seq<string>): (r: seq<string>)
    ensures forall i :: 0 <= i < |r| ==> r[i] in columns && IsDateName(r[i])
    ensures forall i :: 0 <= i < |columns| && IsDateName(columns[i]) ==> columns[i] in r
    ensures IsSubsequence(r, columns)
  {
    Filter(columns, (c: string) => IsDateName(c))
  }

  /** The column's name mentions client, customer, name or company. */
  predicate IsClientName(column: string) {
    var lower := Lower(column);
    Contains(lower, "client") || Contains(lower, "customer") || Contains(lower, "name") || Contains(lower, "company")
  }

  /** `client_columns`: the columns whose name mentions a client term, in order. */
  function ClientColumns(columns: seq<string>): (r: seq<string>)
    ensures forall i :: 0 <= i < |r| ==> r[i] in columns && IsClientName(r[i])
    ensures forall i :: 0 <= i < |columns| && IsClientName(columns[i]) ==> columns[i] in r
    ensures IsSubsequence(r, columns)
  {
    Filter(columns, (c: string) => IsClientName(c))
  }

  /** The typing loop: every column's type under its clean name, and the
      date columns in column order. */
  method InferColumnTypes(t: Table, mapping: Dict<string>, numeric: seq<Cell> -> bool)
    returns (columnTypes: Dict<SqlType>, dateColumns: seq<string>)
    requires Mapped(mapping, t.columns)
    ensures columnTypes == ColumnTypes(t, t.columns, mapping, numeric)
    ensures dateColumns == DateColumns(t.columns)
  {
    columnTypes := Empty();
    dateColumns := [];
    var i := 0;
    while i < |t.columns|
      invariant 0 <= i <= |t.columns|
      invariant columnTypes == ColumnTypes(t, t.columns[..i], mapping, numeric)
      invariant dateColumns == DateColumns(t.columns[..i])
    {
      var column := t.columns[i];
      ColumnTypesStep(t, t.columns, mapping, numeric, i);
      FilterStep(t.columns, (c: string) => IsDateName(c), i);
      var cleanName := mapping.items[column];
      var colType: SqlType;
      if Contains(Lower(column), "date") {
        colType := TextType;
        dateColumns := dateColumns + [column];
      } else {
        var sample := Sample(t, column);
        if sample == [] {
          colType := TextType;
        } else if numeric(sample) {
          colType := RealType;
        } else {
          colType := TextType;
        }
      }
      assert colType == ColumnType(t, column, numeric);
      columnTypes := Put(columnTypes, cleanName, colType);
      i := i + 1;
    }
    PrefixFull(t.columns);
  }

  /* ---------------------------------------------------------------------
     Row values
     --------------------------------------------------------------------- */

  /** A value bound to an INSERT placeholder. */
  datatype SqlValue = NullValue | NumberValue(n: int) | TextValue(s: string)

  /** Missing becomes NULL, a number is kept, anything else becomes its text. */
  function SqlValueOf(c: Cell): SqlValue {
    match c
    case Missing => NullValue
    case Num(n) => NumberValue(n)
    case Str(s) => TextValue(s)
  }

  /** A cell as stored: a cell of a date column is reformatted by
      `formatDate` (`pd.to_datetime(..., errors='coerce').dt.strftime`),
      and becomes missing when it does not parse. */
  function StoredCell(row: Row, column: string, dateColumns: seq<string>,
                      formatDate: Cell -> Option<string>): (r: Cell)
    ensures column !in dateColumns ==> r == At(row, column)
    ensures column in dateColumns ==> (r.Missing? <==> formatDate(At(row, column)).None?)
  {
    if column in dateColumns then
      match formatDate(At(row, column))
      case Some(s) => Str(s)
      case None => Missing
    else At(row, column)
  }

  /** The values loop: one value per column, in column order, read from
      the row after the date columns are reformatted. */
  method RowValues(row: Row, columns: seq<string>, dateColumns: seq<string>,
                   formatDate: Cell -> Option<string>) returns (values: seq<SqlValue>)
    ensures |values| == |columns|
    ensures forall i :: 0 <= i < |columns| ==>
      values[i] == SqlValueOf(StoredCell(row, columns[i], dateColumns, formatDate))
    ensures forall i :: 0 <= i < |columns| && columns[i] !in dateColumns ==>
      (values[i] == NullValue <==> IsNa(At(row, columns[i])))
  {
    values := [];
    var i := 0;
    while i < |columns|
      invariant 0 <= i <= |columns|
      invariant |values| == i
      invariant forall k :: 0 <= k < i ==> values[k] == SqlValueOf(StoredCell(row, columns[k], dateColumns, formatDate))
    {
      var val := StoredCell(row, columns[i], dateColumns, formatDate);
      if IsNa(val) {
        values := values + [NullValue];
      } else if val.Num? {
        values := values + [NumberValue(val.n)];
      } else {
        values := values + [TextValue(Stringify(val))];
      }
      i := i + 1;
    }
  }
}
