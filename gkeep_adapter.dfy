/** The Google Keep export adapter of gkeep_adapter.py: it finds the records
    of four known clients in the text of an export, with a fallback ladder
    that guarantees a record for the first of them, and keeps the first
    record for each name. */
module GKeep {
  import opened Wrappers
  import opened Text
  import opened Seqs

  /** One output record; the CSV columns are `FieldNames`, in this order. */
  datatype Client = Client(fullName: string, address: string, email: string, phone: string,
                           notes: string, source: string)

  const FieldNames: seq<string> := ["full_name", "address", "email", "phone", "notes", "source"]

  const SourceName := "GKeep (Simple).csv"
  const AnnaName := "Anna Wong"
  const HildaName := "Hilda Wong"
  const KennethName := "Kenneth Kwong"
  const FrancisName := "Francis Wong"
  const AltNotes := "Information extracted from GKeep file"
  const KnownNotes := "Added from known information"

  /** The addresses and contact details the adapter has built in; the model
      does not depend on their values. */
  datatype Known = Known(annaAddress: string, annaEmail: string, annaPhone: string, hildaAddress: string,
                         kennethAddress: string, francisAddress: string, francisEmail: string)

  /** Where a match lies in the text: `match.start()` and `match.end()`. */
  datatype Span = Span(start: nat, end: nat)

  /** The adapter's regular expressions (case-insensitive, `.` matching
      newlines): for each client, its matches in order (`finditer`); whether
      the general pattern for the first client matches anywhere; and the
      first e-mail address and phone number of a text (Francis's pattern
      also accepts the 437 area code). */
  datatype Matchers = Matchers(
    annaMatches: string -> seq<Span>,
    annaAlternative: string -> bool,
    hildaMatches: string -> seq<Span>,
    kennethMatches: string -> seq<Span>,
    francisMatches: string -> seq<Span>,
    email: string -> Option<string>,
    phone: string -> Option<string>,
    francisPhone: string -> Option<string>)

  /** The clients whose matches are turned into records. */
  datatype Who = Anna | Hilda | Kenneth | Francis

  /* ---------------------------------------------------------------------
     Context windows and records
     --------------------------------------------------------------------- */

  function Max(a: int, b: int): int { if a >= b then a else b }
  function Min(a: int, b: int): int { if a <= b then a else b }

  /** `text[max(0, start - 50):min(len(text), end + 300)]`, with Python's
      slicing: empty when the bounds cross. */
  function ContextWindow(text: string, span: Span): string {
    var lo := Max(0, span.start - 50);
    var hi := Min(|text|, span.end + 300);
    if lo <= hi then text[lo..hi] else ""
  }

  /** For a match of the text, the window is the slice from 50 characters
      before it to 300 after it, cut at the ends of the text, and it holds
      the whole match. */
  lemma ContextWithinText(text: string, span: Span)
    requires span.start <= span.end <= |text|
    ensures var lo := Max(0, span.start - 50);
      var hi := Min(|text|, span.end + 300);
      && 0 <= lo <= span.start && span.end <= hi <= |text|
      && ContextWindow(text, span) == text[lo..hi]
      && text[span.start..span.end] <= ContextWindow(text, span)[span.start - lo..]
  {
    var lo := Max(0, span.start - 50);
    var hi := Min(|text|, span.end + 300);
    var w := text[lo..hi];
    assert w[span.start - lo..][..span.end - span.start] == text[span.start..span.end];
  }

  /** `context.replace('\n', ' ').strip()` */
  function Notes(context: string): string {
    Strip(ReplaceChar(context, '\n', ' '))
  }

  /** Notes hold no line break and no surrounding whitespace. */
  lemma NotesClean(context: string)
    ensures '\n' !in Notes(context)
    ensures Strip(Notes(context)) == Notes(context)
  {
    var t := ReplaceChar(context, '\n', ' ');
    assert '\n' !in t by {
      forall k | 0 <= k < |t| ensures t[k] != '\n' { }
    }
    StripKeepsAbsent(t, '\n');
    StripIdempotent(t);
  }

  /** Stripping adds no character. */
  lemma StripKeepsAbsent(t: string, c: char)
    requires c !in t
    ensures c !in Strip(t)
  {
    var r := Strip(t);
    var i :| TrimmedAt(t, r, i);
    forall k | 0 <= k < |r| ensures r[k] != c {
      assert r[k] == t[i + k];
    }
  }

  /** `x if x else fallback` */
  function OrElse(x: string, fallback: string): (r: string)
    ensures x != "" ==> r == x
    ensures x == "" ==> r == fallback
  {
    if x != "" then x else fallback
  }

  /** The name of each client. */
  function NameOf(who: Who): string {
    match who
    case Anna => AnnaName
    case Hilda => HildaName
    case Kenneth => KennethName
    case Francis => FrancisName
  }

  /** The record built from one match's context. */
  function ContextRecord(who: Who, context: string, m: Matchers, known: Known): (r: Client)
    ensures r.fullName == NameOf(who)
  {
    var email := m.email(context).GetOr("");
    var phone := m.phone(context).GetOr("");
    match who
    case Anna => Client(AnnaName, known.annaAddress, OrElse(email, known.annaEmail), OrElse(phone, known.annaPhone),
                        Notes(context), SourceName)
    case Hilda => Client(HildaName, known.hildaAddress, email, phone, Notes(context), SourceName)
    case Kenneth => Client(KennethName, known.kennethAddress, email, phone, Notes(context), SourceName)
    case Francis => Client(FrancisName, known.francisAddress, known.francisEmail,
                           m.francisPhone(context).GetOr(""), Notes(context), SourceName)
  }

  /** The first client's e-mail and phone fall back to the built-in ones
      when the context has none. */
  lemma AnnaContacts(context: string, m: Matchers, known: Known)
    ensures var r := ContextRecord(Anna, context, m, known);
      && r.address == known.annaAddress && r.notes == Notes(context) && r.source == SourceName
      && r.email == (if m.email(context).GetOr("") != "" then m.email(context).value else known.annaEmail)
      && r.phone == (if m.phone(context).GetOr("") != "" then m.phone(context).value else known.annaPhone)
  {
  }

  /** The other clients keep what the context holds, which is `""` when it
      holds no e-mail or phone; the last one's e-mail is built in. */
  lemma OtherContacts(who: Who, context: string, m: Matchers, known: Known)
    requires who != Anna
    ensures var r := ContextRecord(who, context, m, known);
      && r.notes == Notes(context) && r.source == SourceName
      && (who == Francis ==> r.email == known.francisEmail && r.phone == m.francisPhone(context).GetOr(""))
      && (who != Francis ==> r.email == m.email(context).GetOr("") && r.phone == m.phone(context).GetOr(""))
      && (m.email(context).None? && who != Francis ==> r.email == "")
  {
  }

  /** The first client's record from the general pattern. */
  function AlternativeAnna(known: Known): Client {
    Client(AnnaName, known.annaAddress, known.annaEmail, known.annaPhone, AltNotes, SourceName)
  }

  /** The first client's record from the built-in details alone. */
  function KnownAnna(known: Known): Client {
    Client(AnnaName, known.annaAddress, known.annaEmail, known.annaPhone, KnownNotes, SourceName)
  }

  /** One record per match, in match order. */
  function MatchRecords(who: Who, text: string, spans: seq<Span>, m: Matchers, known: Known): (r: seq<Client>)
    ensures |r| == |spans|
    ensures forall i :: 0 <= i < |spans| ==> r[i] == ContextRecord(who, ContextWindow(text, spans[i]), m, known)
  {
    seq(|spans|, i requires 0 <= i < |spans| => ContextRecord(who, ContextWindow(text, spans[i]), m, known))
  }

  /** `any(client['full_name'] == name for client in clients)` */
  predicate HasName(clients: seq<Client>, name: string) {
    exists i :: 0 <= i < |clients| && clients[i].fullName == name
  }

  /* ---------------------------------------------------------------------
     The fallback ladder
     --------------------------------------------------------------------- */

  /** The first client's records from its specific pattern. */
  function AnnaStage1(text: string, m: Matchers, known: Known): seq<Client> {
    MatchRecords(Anna, text, m.annaMatches(text), m, known)
  }

  /** The general pattern's record (`alternative` says whether it matches),
      tried only when the first rung `s1` gave no record. */
  function AnnaStage2(s1: seq<Client>, alternative: bool, known: Known): seq<Client> {
    if !HasName(s1, AnnaName) && alternative then [AlternativeAnna(known)] else []
  }

  /** The built-in record, added only when the rungs before gave no record. */
  function AnnaStage3(s1: seq<Client>, alternative: bool, known: Known): seq<Client> {
    if !HasName(s1 + AnnaStage2(s1, alternative, known), AnnaName) then [KnownAnna(known)] else []
  }

  /** The three rungs together, on the records of the first rung. */
  function Ladder(s1: seq<Client>, alternative: bool, known: Known): seq<Client> {
    s1 + AnnaStage2(s1, alternative, known) + AnnaStage3(s1, alternative, known)
  }

  /** Every record found, before de-duplication. */
  function Clients(text: string, m: Matchers, known: Known): seq<Client> {
    Ladder(AnnaStage1(text, m, known), m.annaAlternative(text), known)
    + MatchRecords(Hilda, text, m.hildaMatches(text), m, known)
    + MatchRecords(Kenneth, text, m.kennethMatches(text), m, known)
    + MatchRecords(Francis, text, m.francisMatches(text), m, known)
  }

  /** Every record of the specific pattern carries the first client's name. */
  lemma Stage1Names(text: string, m: Matchers, known: Known)
    ensures forall i :: 0 <= i < |AnnaStage1(text, m, known)| ==> AnnaStage1(text, m, known)[i].fullName == AnnaName
  {
  }

  /** A record from the specific pattern stops the ladder there. */
  lemma Stage1Found(s1: seq<Client>, alternative: bool, known: Known)
    requires s1 != [] && s1[0].fullName == AnnaName
    ensures AnnaStage2(s1, alternative, known) == [] && AnnaStage3(s1, alternative, known) == []
  {
    assert HasName(s1, AnnaName);
    assert s1 + [] == s1;
  }

  /** Without a record from the specific pattern, exactly one of the other
      rungs adds one: the general pattern's when it matches, the built-in
      one otherwise. */
  lemma Stage1Empty(alternative: bool, known: Known)
    ensures alternative ==> AnnaStage2([], alternative, known) == [AlternativeAnna(known)]
                            && AnnaStage3([], alternative, known) == []
    ensures !alternative ==> AnnaStage2([], alternative, known) == []
                             && AnnaStage3([], alternative, known) == [KnownAnna(known)]
  {
    var s2 := AnnaStage2([], alternative, known);
    assert !HasName([], AnnaName);
    if alternative {
      assert ([] + s2)[0] == s2[0];
    } else {
      assert [] + s2 == [];
    }
  }

  /* ---------------------------------------------------------------------
     De-duplication
     --------------------------------------------------------------------- */

  /** `client['full_name'].lower()` */
  function NameKey(c: Client): string {
    Lower(c.fullName)
  }

  /** The keys of some elements. */
  function KeysOf<T>(cs: seq<T>, key: T -> string): (r: set<string>)
    ensures forall k :: k in r <==> exists i :: 0 <= i < |cs| && key(cs[i]) == k
  {
    set i | 0 <= i < |cs| :: key(cs[i])
  }

  /** The first element for each key, in order. */
  function Dedup<T>(cs: seq<T>, key: T -> string): seq<T>
    decreases |cs|
  {
    if cs == [] then []
    else
      var prev := Dedup(cs[..|cs| - 1], key);
      if key(cs[|cs| - 1]) in KeysOf(prev, key) then prev else prev + [cs[|cs| - 1]]
  }

  /** De-duplication drops no key. */
  lemma {:induction false} DedupKeys<T>(cs: seq<T>, key: T -> string)
    ensures KeysOf(Dedup(cs, key), key) == KeysOf(cs, key)
    decreases |cs|
  {
    if cs != [] {
      var init := cs[..|cs| - 1];
      var last := cs[|cs| - 1];
      DedupKeys(init, key);
      var prev := Dedup(init, key);
      if key(last) !in KeysOf(prev, key) {
        KeysOfAppend(prev, last, key);
      }
      assert init + [last] == cs;
      KeysOfAppend(init, last, key);
    }
  }

  /** De-duplication keeps elements in their order. */
  lemma {:induction false} DedupOrder<T>(cs: seq<T>, key: T -> string)
    ensures IsSubsequence(Dedup(cs, key), cs)
    decreases |cs|
  {
    if cs != [] {
      var init := cs[..|cs| - 1];
      var last := cs[|cs| - 1];
      DedupOrder(init, key);
      var prev := Dedup(init, key);
      assert init + [last] == cs;
      if key(last) !in KeysOf(prev, key) {
        assert (prev + [last])[..|prev|] == prev;
      } else {
        SubsequenceExtend(prev, init, last);
      }
    }
  }

  /** De-duplication leaves one element per key. */
  lemma {:induction false} DedupDistinct<T>(cs: seq<T>, key: T -> string)
    ensures forall i, j :: 0 <= i < j < |Dedup(cs, key)| ==> key(Dedup(cs, key)[i]) != key(Dedup(cs, key)[j])
    decreases |cs|
  {
    if cs != [] {
      var init := cs[..|cs| - 1];
      var last := cs[|cs| - 1];
      DedupDistinct(init, key);
      var prev := Dedup(init, key);
      if key(last) !in KeysOf(prev, key) {
        var r := prev + [last];
        forall i, j | 0 <= i < j < |r| ensures key(r[i]) != key(r[j]) {
          if j == |prev| {
            assert key(r[i]) in KeysOf(prev, key);
          }
        }
      }
    }
  }

  /** De-duplication keeps elements in their order, leaves one per key,
      and drops no key. */
  lemma DedupProperties<T>(cs: seq<T>, key: T -> string)
    ensures IsSubsequence(Dedup(cs, key), cs)
    ensures forall i, j :: 0 <= i < j < |Dedup(cs, key)| ==> key(Dedup(cs, key)[i]) != key(Dedup(cs, key)[j])
    ensures KeysOf(Dedup(cs, key), key) == KeysOf(cs, key)
  {
    DedupOrder(cs, key);
    DedupDistinct(cs, key);
    DedupKeys(cs, key);
  }

  /** Each element kept is the first element of the input with its key. */
  lemma {:induction false} DedupFirstWins<T>(cs: seq<T>, key: T -> string, k: int)
    requires 0 <= k < |Dedup(cs, key)|
    ensures exists i :: (0 <= i < |cs| && cs[i] == Dedup(cs, key)[k] &&
      forall j :: 0 <= j < i ==> key(cs[j]) != key(cs[i]))
    decreases |cs|
  {
    var init := cs[..|cs| - 1];
    var last := cs[|cs| - 1];
    var prev := Dedup(init, key);
    assert forall j :: 0 <= j < |init| ==> init[j] == cs[j];
    if k < |prev| {
      DedupFirstWins(init, key, k);
      var i :| 0 <= i < |init| && init[i] == prev[k] && forall j :: 0 <= j < i ==> key(init[j]) != key(init[i]);
      assert cs[i] == Dedup(cs, key)[k];
    } else {
      DedupKeys(init, key);
      assert Dedup(cs, key)[k] == last && key(last) !in KeysOf(init, key);
      assert cs[|cs| - 1] == last;
    }
  }

  /** The ladder always yields a record for the first client, and its first
      record carries that name. */
  lemma LadderHead(text: string, m: Matchers, known: Known)
    ensures var ladder := Ladder(AnnaStage1(text, m, known), m.annaAlternative(text), known);
      ladder != [] && ladder[0].fullName == AnnaName
  {
    var s1 := AnnaStage1(text, m, known);
    Stage1Names(text, m, known);
    if s1 != [] {
      Stage1Found(s1, m.annaAlternative(text), known);
    } else {
      Stage1Empty(m.annaAlternative(text), known);
    }
  }

  /** The de-duplicated records: exactly one carries the first client's
      name, the first one found for it. */
  lemma ExactlyOneAnna(text: string, m: Matchers, known: Known)
    ensures var r := Dedup(Clients(text, m, known), NameKey);
      var ladder := Ladder(AnnaStage1(text, m, known), m.annaAlternative(text), known);
      && ladder != [] && ladder[0].fullName == AnnaName
      && (exists i :: 0 <= i < |r| && r[i] == ladder[0])
      && (forall i, j :: 0 <= i < |r| && 0 <= j < |r| && r[i].fullName == AnnaName && r[j].fullName == AnnaName ==> i == j)
  {
    var cs := Clients(text, m, known);
    var r := Dedup(cs, NameKey);
    LadderHead(text, m, known);
    var ladder := Ladder(AnnaStage1(text, m, known), m.annaAlternative(text), known);
    assert cs[0] == ladder[0];
    DedupKeepsHead(cs, NameKey);
    DedupDistinct(cs, NameKey);
    forall i, j | 0 <= i < |r| && 0 <= j < |r| && r[i].fullName == AnnaName && r[j].fullName == AnnaName
      ensures i == j
    {
      assert NameKey(r[i]) == NameKey(r[j]);
    }
  }

  /** The first element survives de-duplication. */
  lemma DedupKeepsHead<T>(cs: seq<T>, key: T -> string)
    requires cs != []
    ensures exists i :: 0 <= i < |Dedup(cs, key)| && Dedup(cs, key)[i] == cs[0]
  {
    var r := Dedup(cs, key);
    DedupKeys(cs, key);
    assert key(cs[0]) in KeysOf(r, key);
    var i :| 0 <= i < |r| && key(r[i]) == key(cs[0]);
    DedupFirstWins(cs, key, i);
    var p :| 0 <= p < |cs| && cs[p] == r[i] && forall j :: 0 <= j < p ==> key(cs[j]) != key(cs[p]);
    assert p == 0;
  }

  /* ---------------------------------------------------------------------
     extract_gkeep_data
     --------------------------------------------------------------------- */

  /** One CSV line of a record, in `FieldNames` order. */
  function CsvRow(c: Client): (r: seq<string>)
    ensures |r| == |FieldNames|
    ensures r[0] == c.fullName && r[5] == c.source
  {
    [c.fullName, c.address, c.email, c.phone, c.notes, c.source]
  }

  /** What the CSV file holds: the header, then one line per record. */
  function CsvLines(cs: seq<Client>): (r: seq<seq<string>>)
    ensures |r| == |cs| + 1 && r[0] == FieldNames
    ensures forall i :: 0 <= i < |cs| ==> r[i + 1] == CsvRow(cs[i])
  {
    [FieldNames] + seq(|cs|, i requires 0 <= i < |cs| => CsvRow(cs[i]))
  }

  /** `extract_gkeep_data`, on the text of the export: the lines it writes
      to the structured CSV file. */
  method ExtractGKeepData(text: string, m: Matchers, known: Known) returns (lines: seq<seq<string>>)
    ensures lines == CsvLines(Dedup(Clients(text, m, known), NameKey))
  {
    var clients := AnnaClients(text, m, known);
    clients := AppendMatches(clients, Hilda, text, m.hildaMatches(text), m, known);
    clients := AppendMatches(clients, Kenneth, text, m.kennethMatches(text), m, known);
    clients := AppendMatches(clients, Francis, text, m.francisMatches(text), m, known);
    var uniqueClients := UniqueClients(clients);
    lines := WriteRows(uniqueClients);
  }

  /** The three rungs of the first client's ladder. */
  method AnnaClients(text: string, m: Matchers, known: Known) returns (clients: seq<Client>)
    ensures clients == Ladder(AnnaStage1(text, m, known), m.annaAlternative(text), known)
  {
    clients := AppendMatches([], Anna, text, m.annaMatches(text), m, known);
    ghost var s1 := clients;
    assert s1 == AnnaStage1(text, m, known);
    if !HasName(clients, AnnaName) {
      if m.annaAlternative(text) {
        clients := clients + [AlternativeAnna(known)];
      }
    }
    assert clients == s1 + AnnaStage2(s1, m.annaAlternative(text), known);
    if !HasName(clients, AnnaName) {
      clients := clients + [KnownAnna(known)];
    }
  }

  /** `writer.writeheader()` and one `writer.writerow` per record. */
  method WriteRows(cs: seq<Client>) returns (lines: seq<seq<string>>)
    ensures lines == CsvLines(cs)
  {
    lines := [FieldNames];
    var i := 0;
    while i < |cs|
      invariant 0 <= i <= |cs|
      invariant lines == CsvLines(cs[..i])
    {
      lines := lines + [CsvRow(cs[i])];
      i := i + 1;
    }
    PrefixFull(cs);
  }

  /** `for match in matches: ... clients.append(record)` */
  method AppendMatches(clients: seq<Client>, who: Who, text: string, spans: seq<Span>, m: Matchers, known: Known)
    returns (r: seq<Client>)
    ensures r == clients + MatchRecords(who, text, spans, m, known)
  {
    ghost var records := MatchRecords(who, text, spans, m, known);
    r := clients;
    var k := 0;
    while k < |spans|
      invariant 0 <= k <= |spans|
      invariant r == clients + records[..k]
    {
      var context := ContextWindow(text, spans[k]);
      AppendStep(clients, records, k);
      r := r + [ContextRecord(who, context, m, known)];
      k := k + 1;
    }
    PrefixFull(records);
  }

  /** The `seen_names` loop. */
  method UniqueClients(clients: seq<Client>) returns (uniqueClients: seq<Client>)
    ensures uniqueClients == Dedup(clients, NameKey)
  {
    uniqueClients := [];
    var seenNames: set<string> := {};
    var i := 0;
    while i < |clients|
      invariant 0 <= i <= |clients|
      invariant uniqueClients == Dedup(clients[..i], NameKey)
      invariant seenNames == KeysOf(uniqueClients, NameKey)
    {
      PrefixSnoc(clients, i);
      var name := Lower(clients[i].fullName);
      if name !in seenNames {
        KeysOfAppend(uniqueClients, clients[i], NameKey);
        seenNames := seenNames + {name};
        uniqueClients := uniqueClients + [clients[i]];
      }
      i := i + 1;
    }
    PrefixFull(clients);
  }

  /** The keys after appending one element. */
  lemma KeysOfAppend<T>(cs: seq<T>, c: T, key: T -> string)
    ensures KeysOf(cs + [c], key) == KeysOf(cs, key) + {key(c)}
  {
    assert forall i :: 0 <= i < |cs| ==> (cs + [c])[i] == cs[i];
    assert (cs + [c])[|cs|] == c;
  }
}
