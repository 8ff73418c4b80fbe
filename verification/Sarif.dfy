/** Findings, their export as a SARIF 2.1.0 run (sections 3.13, 3.19, 3.27 and 3.30) and the import of such a run.

    Every finding is normalized on its way in, whether it is supplied or imported: its fields are redacted, cleaned and
    bounded, and its weakness is checked or inferred. */
module Sarif {
  import opened Wrappers
  import opened ReportPaths

  const MAX_LINE := 1_000_000_000

  // ----- findings ----------------------------------------------------------------------------

  datatype Severity = Critical | High | Medium | Low | Info

  function SeverityName(s: Severity): string {
    match s
    case Critical => "CRITICAL"
    case High => "HIGH"
    case Medium => "MEDIUM"
    case Low => "LOW"
    case Info => "INFO"
  }

  function SeverityOf(name: string): Option<Severity> {
    if name == "CRITICAL" then Some(Critical)
    else if name == "HIGH" then Some(High)
    else if name == "MEDIUM" then Some(Medium)
    else if name == "LOW" then Some(Low)
    else if name == "INFO" then Some(Info)
    else None
  }

  datatype Row = Row(
    id: string, title: string, description: string, rule: string, path: string, line: nat, severity: Severity,
    cwe: Option<string>, exploitPath: string, fix: string, status: string, verification: string, suppression: string)

  /** A finding as supplied; absent text is empty. */
  datatype Raw = Raw(
    id: string, title: string, message: string, description: string, rule: string, kind: string, category: string,
    path: string, line: int, severity: Option<string>, cwe: string, exploitPath: string, fix: string,
    status: string, verification: string, suppression: string)

  function Redacted(redact: string -> string, r: Raw): Raw {
    Raw(redact(r.id), redact(r.title), redact(r.message), redact(r.description), redact(r.rule), redact(r.kind),
        redact(r.category), redact(r.path), r.line, if r.severity.Some? then Some(redact(r.severity.value)) else None,
        redact(r.cwe), redact(r.exploitPath), redact(r.fix), redact(r.status), redact(r.verification), redact(r.suppression))
  }

  function OrElse(a: string, b: string): string {
    if a != "" then a else b
  }

  function LowerChar(c: char): char {
    if 'A' <= c <= 'Z' then (c as int + 32) as char else if c == '-' || c == ' ' then '_' else c
  }

  function Folded(name: string): string {
    seq(|name|, i requires 0 <= i < |name| => LowerChar(name[i]))
  }

  /** Weaknesses by name. */
  const CWE_NAMES := map[
    "sql_injection" := "CWE-89", "os_command_injection" := "CWE-78", "command_injection" := "CWE-78",
    "cross_site_scripting" := "CWE-79", "xss" := "CWE-79", "path_traversal" := "CWE-22",
    "server_side_request_forgery" := "CWE-918", "ssrf" := "CWE-918", "insecure_deserialization" := "CWE-502"]

  function Named(name: string): Option<string> {
    if name in CWE_NAMES then Some(CWE_NAMES[name]) else None
  }

  /** A supplied identifier must be well-formed; otherwise the type, category or rule may name a known weakness. */
  function CweOf(r: Raw): Result<Option<string>> {
    if r.cwe != "" then (if CweId(r.cwe) then Ok(Some(r.cwe)) else Err)
    else
      var kind, category := Named(Folded(r.kind)), Named(Folded(r.category));
      Ok(if kind.Some? then kind else if category.Some? then category else Named(Folded(r.rule)))
  }

  predicate Denotes(name: string, id: string) {
    || (name == "sql_injection" && id == "CWE-89")
    || ((name == "os_command_injection" || name == "command_injection") && id == "CWE-78")
    || ((name == "cross_site_scripting" || name == "xss") && id == "CWE-79")
    || (name == "path_traversal" && id == "CWE-22")
    || ((name == "server_side_request_forgery" || name == "ssrf") && id == "CWE-918")
    || (name == "insecure_deserialization" && id == "CWE-502")
  }

  lemma TableSays(name: string, id: string)
    ensures Named(name) == Some(id) <==> Denotes(name, id)
  {
  }

  /** The weakness of a finding: the one supplied, or else the one that its type, its category or its rule denotes, in this
      order, if case and separators are disregarded. */
  lemma WeaknessIs(x: Raw, id: string)
    requires CweOf(x).Ok?
    ensures x.cwe != "" ==> CweOf(x).value == Some(x.cwe) && CweId(x.cwe)
    ensures x.cwe == "" ==>
              (CweOf(x).value == Some(id) <==>
                || Denotes(Folded(x.kind), id)
                || (Denotes(Folded(x.category), id) && !exists w :: Denotes(Folded(x.kind), w))
                || (Denotes(Folded(x.rule), id)
                    && !exists w :: Denotes(Folded(x.kind), w) || Denotes(Folded(x.category), w)))
  {
    hide CWE_NAMES, Denotes;
    forall name: string, w: string ensures Named(name) == Some(w) <==> Denotes(name, w) {
      TableSays(name, w);
    }
  }

  /** Letters are made small, and dashes and blanks become underscores. */
  lemma FoldedIs(name: string, i: nat)
    requires i < |name|
    ensures |Folded(name)| == |name|
    ensures forall k :: 0 <= k < 26 ==> (name[i] == "ABCDEFGHIJKLMNOPQRSTUVWXYZ"[k] ==> Folded(name)[i] == "abcdefghijklmnopqrstuvwxyz"[k])
    ensures name[i] == '-' || name[i] == ' ' ==> Folded(name)[i] == '_'
    ensures name[i] != '-' && name[i] != ' ' && !('A' <= name[i] <= 'Z') ==> Folded(name)[i] == name[i]
  {
  }

  lemma TableHoldsIds()
    ensures forall name :: name in CWE_NAMES ==> CweId(CWE_NAMES[name])
  {
  }

  lemma CweOfIsId(r: Raw)
    requires CweOf(r).Ok? && CweOf(r).value.Some?
    ensures CweId(CweOf(r).value.value)
  {
    TableHoldsIds();
    hide CWE_NAMES, CweId, Folded;
  }

  function Upper(name: string): string {
    seq(|name|, i requires 0 <= i < |name| => if 'a' <= name[i] <= 'z' then (name[i] as int - 32) as char else name[i])
  }

  function NormalizeRedacted(redact: string -> string, r: Raw): Result<Row> {
    var id :- Text(redact, r.id, 200);
    var title :- Text(redact, r.title, 500);
    var description :- Text(redact, r.description, 8192);
    var rule :- Text(redact, r.rule, 200);
    var exploitPath :- Text(redact, r.exploitPath, 8192);
    var fix :- Text(redact, r.fix, 8192);
    var status :- Text(redact, r.status, 80);
    var verification :- Text(redact, r.verification, 80);
    var titleMessage :- if title == "" then Text(redact, r.message, 500) else Ok("");
    var message :- if description == "" then Text(redact, r.message, 8192) else Ok("");
    var path :- if r.path == "" then Ok("") else Path(redact, r.path);
    var severityName :- Text(redact, if r.severity == None then "MEDIUM" else r.severity.value, 20);
    var cwe :- CweOf(r);
    var suppression :- Text(redact, r.suppression, 2000);
    var severity := SeverityOf(Upper(severityName));
    if !(0 <= r.line <= MAX_LINE) || severity == None then Err
    else
      Ok(Row(id, OrElse(title, OrElse(titleMessage, OrElse(rule, "Security finding"))), OrElse(description, message),
             OrElse(rule, "security-finding"), path, r.line, severity.value, cwe, exploitPath, fix,
             OrElse(status, "suspected"), OrElse(verification, "unverified"), suppression))
  }

  function Normalize(redact: string -> string, r: Raw): Result<Row> {
    NormalizeRedacted(redact, Redacted(redact, r))
  }

  predicate Clean(redact: string -> string, s: string) {
    Cleaned(redact, s) == s
  }

  /** What normalization establishes. */
  predicate Normalized(redact: string -> string, row: Row) {
    && Clean(redact, row.id) && Clean(redact, row.title) && Clean(redact, row.description) && Clean(redact, row.rule)
    && Clean(redact, row.exploitPath) && Clean(redact, row.fix) && Clean(redact, row.suppression)
    && Clean(redact, row.path) && '%' !in row.path
    && row.title != "" && row.rule != "" && row.line <= MAX_LINE
    && (row.cwe.Some? ==> CweId(row.cwe.value))
  }

  lemma ProgramWordIsClean(redact: string -> string, s: string)
    requires Redaction(redact) && s in PROGRAM_WORDS
    ensures Clean(redact, s)
  {
    StripKept(s);
  }

  /** Each field of a finding is cleaned text, or one of the program's own words. */
  predicate ComesFrom(redact: string -> string, x: Raw, row: Row) {
    CopiedFrom(redact, x, row) && ChosenFrom(redact, x, row)
  }

  predicate CopiedFrom(redact: string -> string, x: Raw, row: Row) {
    && row.id == Cleaned(redact, x.id) && row.exploitPath == Cleaned(redact, x.exploitPath)
    && row.fix == Cleaned(redact, x.fix) && row.suppression == Cleaned(redact, x.suppression)
    && row.line <= MAX_LINE && CweOf(x) == Ok(row.cwe)
    && (row.path == "" || Path(redact, x.path) == Ok(row.path))
  }

  predicate ChosenFrom(redact: string -> string, x: Raw, row: Row) {
    && (row.description == Cleaned(redact, x.description) || row.description == Cleaned(redact, x.message))
    && (row.rule == Cleaned(redact, x.rule) || row.rule == "security-finding")
    && (row.title == Cleaned(redact, x.title) || row.title == Cleaned(redact, x.message)
        || row.title == Cleaned(redact, x.rule) || row.title == "Security finding")
    && row.title != "" && row.rule != ""
  }

  lemma NormalizeCopies(redact: string -> string, x: Raw)
    requires NormalizeRedacted(redact, x).Ok?
    ensures CopiedFrom(redact, x, NormalizeRedacted(redact, x).value)
  {
    hide Cleaned, Path, Upper, CweOf, SeverityOf;
  }

  lemma NormalizeRelates(redact: string -> string, x: Raw)
    requires NormalizeRedacted(redact, x).Ok?
    ensures ComesFrom(redact, x, NormalizeRedacted(redact, x).value)
  {
    NormalizeCopies(redact, x);
  }

  lemma RelatedIsNormalized(redact: string -> string, x: Raw, row: Row)
    requires Redaction(redact) && ComesFrom(redact, x, row)
    ensures Normalized(redact, row)
  {
    if row.cwe.Some? {
      CweOfIsId(x);
    }
    CleanedTwice(redact, x.id);
    CleanedTwice(redact, x.title);
    CleanedTwice(redact, x.message);
    CleanedTwice(redact, x.description);
    CleanedTwice(redact, x.rule);
    CleanedTwice(redact, x.exploitPath);
    CleanedTwice(redact, x.fix);
    CleanedTwice(redact, x.suppression);
    ProgramWordIsClean(redact, "Security finding");
    ProgramWordIsClean(redact, "security-finding");
    if row.path == "" {
      EmptyIsClean(redact);
    } else {
      NormalizedPath(redact, x.path);
    }
  }

  lemma EmptyIsClean(redact: string -> string)
    requires Redaction(redact)
    ensures Clean(redact, "")
  {
  }

  /** Whatever is supplied, an accepted finding is in normal form. */
  lemma NormalizeEstablishes(redact: string -> string, r: Raw)
    requires Redaction(redact) && Normalize(redact, r).Ok?
    ensures Normalized(redact, Normalize(redact, r).value)
  {
    NormalizeRelates(redact, Redacted(redact, r));
    RelatedIsNormalized(redact, Redacted(redact, r), Normalize(redact, r).value);
  }

  // ----- the document ------------------------------------------------------------------------

  datatype Level = ErrorLevel | WarningLevel | NoteLevel | NoneLevel

  function LevelOf(s: Severity): Level {
    match s
    case Critical => ErrorLevel
    case High => ErrorLevel
    case Medium => WarningLevel
    case Low => NoteLevel
    case Info => NoteLevel
  }

  datatype Rule = Rule(id: string, tags: seq<string>)
  datatype Location = Location(uri: Option<string>, startLine: Option<int>)
  datatype Properties = Properties(
    id: string, title: string, severity: string, status: string, cwe: string, exploitPath: string, fix: string,
    suppression: string)
  datatype Entry = Entry(
    ruleId: string, ruleIndex: int, level: Level, message: string, properties: Properties,
    accepted: Option<string>, locations: seq<Location>)
  datatype Document = Document(rules: seq<Rule>, results: seq<Entry>)

  // ----- export ------------------------------------------------------------------------------

  function LocationsOf(row: Row): seq<Location> {
    if row.path == "" then []
    else [Location(Some(Quote(row.path)), if row.line == 0 then None else Some(row.line))]
  }

  function EntryOf(row: Row, index: int): Entry {
    Entry(row.rule, index, LevelOf(row.severity), OrElse(row.description, row.title),
          Properties(row.id, row.title, SeverityName(row.severity), row.status,
                     if row.cwe.Some? then row.cwe.value else "", row.exploitPath, row.fix, row.suppression),
          if row.status in {"false_positive", "suppressed"} || row.suppression != ""
          then Some(OrElse(row.suppression, "Recorded false-positive decision")) else None,
          LocationsOf(row))
  }

  predicate DistinctIds(rules: seq<Rule>) {
    forall i, j :: 0 <= i < j < |rules| ==> rules[i].id != rules[j].id
  }

  /** The weaknesses recorded under a rule, in first-seen order. */
  function TagsFor(rows: seq<Row>, id: string): seq<string> {
    if rows == [] then []
    else
      var last, tags := rows[|rows| - 1], TagsFor(rows[..|rows| - 1], id);
      if last.rule == id && last.cwe.Some? && last.cwe.value !in tags then tags + [last.cwe.value] else tags
  }

  lemma {:induction false} TagsForMembers(rows: seq<Row>, id: string)
    ensures forall t :: t in TagsFor(rows, id) <==> exists i :: 0 <= i < |rows| && rows[i].rule == id && rows[i].cwe == Some(t)
    ensures forall i, j :: 0 <= i < j < |TagsFor(rows, id)| ==> TagsFor(rows, id)[i] != TagsFor(rows, id)[j]
  {
    if rows != [] {
      var front, last := rows[..|rows| - 1], rows[|rows| - 1];
      TagsForMembers(front, id);
      forall t ensures t in TagsFor(rows, id) <==> exists i :: 0 <= i < |rows| && rows[i].rule == id && rows[i].cwe == Some(t) {
        assert t in TagsFor(rows, id) <==> t in TagsFor(front, id) || (last.rule == id && last.cwe == Some(t));
        assert forall i :: 0 <= i < |front| ==> front[i] == rows[i];
      }
    }
  }

  lemma {:induction false} NoTags(rows: seq<Row>, id: string)
    requires forall i :: 0 <= i < |rows| ==> rows[i].rule != id
    ensures TagsFor(rows, id) == []
  {
    if rows != [] {
      NoTags(rows[..|rows| - 1], id);
    }
  }

  predicate Uses(rows: seq<Row>, id: string) {
    exists i :: 0 <= i < |rows| && rows[i].rule == id
  }

  /** One entry per finding, in order, each naming its rule by index; every rule listed once, for some finding, with
      exactly the weaknesses of its findings. */
  ghost predicate Exports(rows: seq<Row>, d: Document) {
    && |d.results| == |rows| && DistinctIds(d.rules)
    && (forall k :: 0 <= k < |d.rules| ==> Uses(rows, d.rules[k].id) && d.rules[k].tags == TagsFor(rows, d.rules[k].id))
    && forall i :: 0 <= i < |rows| ==>
         0 <= d.results[i].ruleIndex < |d.rules| && d.rules[d.results[i].ruleIndex].id == rows[i].rule
         && d.results[i] == EntryOf(rows[i], d.results[i].ruleIndex)
  }

  /** The index finds every listed rule, and the rules listed are those in use. */
  ghost predicate Indexed(rules: seq<Rule>, indices: map<string, nat>) {
    && (forall k :: 0 <= k < |rules| ==> rules[k].id in indices && indices[rules[k].id] == k)
    && (forall id :: id in indices ==> indices[id] < |rules| && rules[indices[id]].id == id)
  }

  ghost predicate Tagged(rows: seq<Row>, rules: seq<Rule>) {
    forall k :: 0 <= k < |rules| ==> rules[k].tags == TagsFor(rows, rules[k].id)
  }

  ghost predicate Registry(rows: seq<Row>, rules: seq<Rule>, indices: map<string, nat>) {
    Indexed(rules, indices) && Tagged(rows, rules) && forall id :: id in indices <==> Uses(rows, id)
  }

  lemma UsesNext(rows: seq<Row>, row: Row)
    ensures forall id :: Uses(rows + [row], id) <==> Uses(rows, id) || id == row.rule
  {
    var all := rows + [row];
    forall id ensures Uses(all, id) <==> Uses(rows, id) || id == row.rule {
      if Uses(rows, id) {
        var i :| 0 <= i < |rows| && rows[i].rule == id;
        assert all[i].rule == id;
      }
      if id == row.rule {
        assert all[|rows|].rule == id;
      }
    }
  }

  /** Listing a finding's weakness under its rule. */
  function WithTag(rules: seq<Rule>, k: nat, cwe: Option<string>): seq<Rule>
    requires k < |rules|
  {
    if cwe.Some? && cwe.value !in rules[k].tags then rules[k := rules[k].(tags := rules[k].tags + [cwe.value])] else rules
  }

  lemma WithTagIndexed(rules: seq<Rule>, indices: map<string, nat>, k: nat, cwe: Option<string>)
    requires Indexed(rules, indices) && k < |rules|
    ensures Indexed(WithTag(rules, k, cwe), indices)
    ensures |WithTag(rules, k, cwe)| == |rules|
    ensures forall j :: 0 <= j < |rules| ==> WithTag(rules, k, cwe)[j].id == rules[j].id
  {
  }

  lemma WithTagTagged(rows: seq<Row>, row: Row, rules: seq<Rule>, k: nat)
    requires Tagged(rows, rules) && k < |rules| && rules[k].id == row.rule
    requires forall j :: 0 <= j < |rules| && rules[j].id == row.rule ==> j == k
    ensures Tagged(rows + [row], WithTag(rules, k, row.cwe))
  {
    var all, next := rows + [row], WithTag(rules, k, row.cwe);
    assert all[..|all| - 1] == rows;
    forall j | 0 <= j < |next| ensures next[j].tags == TagsFor(all, next[j].id) {
      assert rules[j].tags == TagsFor(rows, rules[j].id);
    }
  }

  lemma WithTagKeeps(rows: seq<Row>, row: Row, rules: seq<Rule>, indices: map<string, nat>, k: nat)
    requires Indexed(rules, indices) && Tagged(rows, rules) && k < |rules| && rules[k].id == row.rule
    ensures Indexed(WithTag(rules, k, row.cwe), indices) && Tagged(rows + [row], WithTag(rules, k, row.cwe))
  {
    WithTagIndexed(rules, indices, k, row.cwe);
    WithTagTagged(rows, row, rules, k);
  }

  lemma NewRuleKeeps(rows: seq<Row>, rules: seq<Rule>, indices: map<string, nat>, id: string)
    requires Registry(rows, rules, indices) && id !in indices
    ensures Indexed(rules + [Rule(id, [])], indices[id := |rules|]) && Tagged(rows, rules + [Rule(id, [])])
  {
    forall i | 0 <= i < |rows| ensures rows[i].rule != id {
      assert Uses(rows, rows[i].rule);
    }
    NoTags(rows, id);
  }

  method Register(ghost rows: seq<Row>, row: Row, rules: seq<Rule>, indices: map<string, nat>)
    returns (newRules: seq<Rule>, newIndices: map<string, nat>, k: nat)
    requires Registry(rows, rules, indices)
    ensures Registry(rows + [row], newRules, newIndices)
    ensures row.rule in newIndices && k == newIndices[row.rule]
    ensures forall id :: id in indices ==> id in newIndices && newIndices[id] == indices[id]
  {
    newRules, newIndices := rules, indices;
    UsesNext(rows, row);
    if row.rule !in indices {
      NewRuleKeeps(rows, rules, indices, row.rule);
      newIndices := indices[row.rule := |rules|];
      newRules := rules + [Rule(row.rule, [])];
    }
    k := newIndices[row.rule];
    WithTagKeeps(rows, row, newRules, newIndices, k);
    newRules := WithTag(newRules, k, row.cwe);
  }

  /** Lists the rules of all findings and gives each finding the index of its rule. */
  method ListRules(rows: seq<Row>) returns (rules: seq<Rule>, ks: seq<nat>)
    ensures |ks| == |rows| && DistinctIds(rules) && Tagged(rows, rules)
    ensures forall k :: 0 <= k < |rules| ==> Uses(rows, rules[k].id)
    ensures forall i :: 0 <= i < |rows| ==> ks[i] < |rules| && rules[ks[i]].id == rows[i].rule
  {
    hide Registry, Tagged, DistinctIds, Uses, Indexed, TagsFor;
    var indices: map<string, nat> := map[];
    rules, ks := [], [];
    EmptyRegistry();
    assert rows[..0] == [];
    for n := 0 to |rows|
      invariant |ks| == n && Registry(rows[..n], rules, indices)
      invariant forall i :: 0 <= i < n ==> rows[i].rule in indices && ks[i] == indices[rows[i].rule]
    {
      var k: nat;
      assert rows[..n + 1] == rows[..n] + [rows[n]];
      rules, indices, k := Register(rows[..n], rows[n], rules, indices);
      ks := ks + [k];
    }
    assert rows[..|rows|] == rows;
    RegistryGives(rows, rules, indices);
  }

  lemma EmptyRegistry()
    ensures Registry([], [], map[])
  {
  }

  lemma RegistryGives(rows: seq<Row>, rules: seq<Rule>, indices: map<string, nat>)
    requires Registry(rows, rules, indices)
    ensures DistinctIds(rules) && Tagged(rows, rules)
    ensures forall k :: 0 <= k < |rules| ==> Uses(rows, rules[k].id)
    ensures forall id :: id in indices ==> indices[id] < |rules| && rules[indices[id]].id == id
  {
  }

  // What an exported result says, field by field.

  predicate LevelFits(severity: Severity, level: Level) {
    && (level.ErrorLevel? <==> severity.Critical? || severity.High?)
    && (level.WarningLevel? <==> severity.Medium?)
    && (level.NoteLevel? <==> severity.Low? || severity.Info?)
  }

  predicate SeverityWritten(severity: Severity, text: string) {
    && (severity.Critical? <==> text == "CRITICAL") && (severity.High? <==> text == "HIGH")
    && (severity.Medium? <==> text == "MEDIUM") && (severity.Low? <==> text == "LOW") && (severity.Info? <==> text == "INFO")
  }

  predicate PlaceWritten(row: Row, locations: seq<Location>) {
    && (row.path == "" <==> locations == [])
    && (row.path != "" ==>
          && |locations| == 1 && locations[0].uri == Some(Quote(row.path))
          && (row.line == 0 <==> locations[0].startLine == None)
          && (row.line != 0 ==> locations[0].startLine == Some(row.line)))
  }

  /** A finding that was dismissed is suppressed in the document, with its reason if one is recorded. */
  predicate DismissalWritten(row: Row, accepted: Option<string>) {
    && (accepted.Some? <==> row.status == "false_positive" || row.status == "suppressed" || row.suppression != "")
    && (row.suppression != "" ==> accepted == Some(row.suppression))
    && (accepted.Some? && row.suppression == "" ==> accepted == Some("Recorded false-positive decision"))
  }

  predicate Writes(row: Row, e: Entry) {
    && e.ruleId == row.rule && LevelFits(row.severity, e.level)
    && (row.description != "" ==> e.message == row.description) && (row.description == "" ==> e.message == row.title)
    && e.properties.id == row.id && e.properties.title == row.title && SeverityWritten(row.severity, e.properties.severity)
    && e.properties.status == row.status && e.properties.exploitPath == row.exploitPath && e.properties.fix == row.fix
    && e.properties.suppression == row.suppression
    && (row.cwe == None ==> e.properties.cwe == "") && (row.cwe.Some? ==> e.properties.cwe == row.cwe.value)
    && DismissalWritten(row, e.accepted) && PlaceWritten(row, e.locations)
  }

  lemma EntryWrites(row: Row, index: int)
    ensures Writes(row, EntryOf(row, index))
  {
    hide Quote;
  }

  method ExportSarif(rows: seq<Row>) returns (d: Document)
    ensures Exports(rows, d)
    ensures forall i :: 0 <= i < |rows| ==> Writes(rows[i], d.results[i])
  {
    hide Writes;
    forall i, k | 0 <= i < |rows| ensures Writes(rows[i], EntryOf(rows[i], k)) {
      EntryWrites(rows[i], k);
    }
    var rules, ks := ListRules(rows);
    var results := seq(|rows|, i requires 0 <= i < |rows| => EntryOf(rows[i], ks[i]));
    return Document(rules, results);
  }

  // ----- import ------------------------------------------------------------------------------

  /** The first rule with an identifier. */
  function FindRule(rules: seq<Rule>, id: string): Option<Rule> {
    if rules == [] then None else if rules[0].id == id then Some(rules[0]) else FindRule(rules[1..], id)
  }

  function RuleFor(rules: seq<Rule>, e: Entry): Result<Option<Rule>> {
    if !(-1 <= e.ruleIndex < |rules|) then Err
    else if e.ruleIndex >= 0 then (if rules[e.ruleIndex].id == e.ruleId then Ok(Some(rules[e.ruleIndex])) else Err)
    else Ok(FindRule(rules, e.ruleId))
  }

  function FirstCwe(tags: seq<string>): string {
    if tags == [] then "" else if CweId(tags[0]) then tags[0] else FirstCwe(tags[1..])
  }

  function EntryCwe(rule: Option<Rule>, e: Entry): string {
    if e.properties.cwe != "" then e.properties.cwe
    else if rule.Some? then FirstCwe(rule.value.tags) else ""
  }

  /** The recorded severity is believed only if it fits the level. */
  function EntrySeverity(e: Entry): string {
    var supplied := SeverityOf(e.properties.severity);
    if supplied.Some? && LevelOf(supplied.value) == e.level then e.properties.severity
    else match e.level
      case ErrorLevel => "HIGH"
      case WarningLevel => "MEDIUM"
      case NoteLevel => "LOW"
      case NoneLevel => "INFO"
  }

  predicate Dismissed(e: Entry) {
    e.properties.status in {"false_positive", "suppressed"} || e.accepted.Some?
  }

  function EntrySuppression(e: Entry): string {
    if !Dismissed(e) then ""
    else if e.properties.suppression != "" then e.properties.suppression
    else if e.accepted.Some? then e.accepted.value else "Imported false-positive decision"
  }

  /** The first location with a path counts, but every location must be acceptable. */
  function Place(redact: string -> string, locations: seq<Location>): Result<(string, int)> {
    if locations == [] then Ok(("", 0))
    else
      var here := locations[0];
      var path :- if here.uri.Some? then Path(redact, here.uri.value) else Ok("");
      if here.startLine.Some? && here.startLine.value <= 0 then Err
      else
        var rest :- Place(redact, locations[1..]);
        Ok(if path != "" then (path, if here.startLine.Some? then here.startLine.value else 0) else rest)
  }

  function EntryRaw(rule: Option<Rule>, e: Entry, place: (string, int)): Raw {
    Raw(e.properties.id, e.properties.title, "", e.message, e.ruleId, "", "", place.0, place.1,
        Some(EntrySeverity(e)), EntryCwe(rule, e), e.properties.exploitPath, e.properties.fix,
        if Dismissed(e) then "false_positive" else "suspected", "unverified", EntrySuppression(e))
  }

  function ImportEntry(redact: string -> string, rules: seq<Rule>, e: Entry): Result<Row> {
    var rule :- RuleFor(rules, e);
    var place :- Place(redact, e.locations);
    Normalize(redact, EntryRaw(rule, e, place))
  }

  // What an imported result becomes, field by field.

  /** The recorded severity is kept in the pairings an export writes, and otherwise the level decides. */
  predicate SeverityRead(e: Entry, severity: Severity) {
    match e.level
    case ErrorLevel => if e.properties.severity == "CRITICAL" then severity.Critical? else severity.High?
    case WarningLevel => severity.Medium?
    case NoteLevel => if e.properties.severity == "INFO" then severity.Info? else severity.Low?
    case NoneLevel => severity.Info?
  }

  function Once(redact: string -> string, s: string): string {
    Cleaned(redact, redact(s))
  }

  predicate DismissalRead(redact: string -> string, e: Entry, row: Row) {
    var dismissed := e.properties.status == "false_positive" || e.properties.status == "suppressed" || e.accepted.Some?;
    && row.status == (if dismissed then "false_positive" else "suspected")
    && (!dismissed ==> row.suppression == "")
    && (dismissed && e.properties.suppression != "" ==> row.suppression == Once(redact, e.properties.suppression))
    && (dismissed && e.properties.suppression == "" && e.accepted.Some? ==>
          row.suppression == Once(redact, e.accepted.value))
    && (dismissed && e.properties.suppression == "" && e.accepted == None ==>
          row.suppression == Once(redact, "Imported false-positive decision"))
  }

  function Normal(redact: string -> string, p: string): Result<string> {
    if redact(p) == "" then Ok("") else Path(redact, redact(p))
  }

  /** The path of a location, as far as it has one. */
  predicate Shows(redact: string -> string, l: Location, p: string) {
    l.uri.Some? && Path(redact, l.uri.value) == Ok(p) && p != ""
  }

  /** The place of location k, which is the first that shows a path. */
  ghost predicate PlaceIs(redact: string -> string, locations: seq<Location>, k: nat, p: string, row: Row) {
    && k < |locations| && Shows(redact, locations[k], p)
    && (forall j, q :: 0 <= j < k ==> !Shows(redact, locations[j], q))
    && Ok(row.path) == Normal(redact, p)
    && row.line == (if locations[k].startLine.Some? then locations[k].startLine.value else 0)
  }

  ghost predicate PlaceRead(redact: string -> string, locations: seq<Location>, row: Row) {
    || ((forall j, q :: 0 <= j < |locations| ==> !Shows(redact, locations[j], q)) && row.path == "" && row.line == 0)
    || exists k: nat, p :: PlaceIs(redact, locations, k, p, row)
  }

  /** The rule an entry names: by index, or the first with its identifier. */
  ghost predicate Names(rules: seq<Rule>, e: Entry, rule: Option<Rule>) {
    if e.ruleIndex >= 0 then e.ruleIndex < |rules| && rule == Some(rules[e.ruleIndex])
    else if rule == None then forall r :: r in rules ==> r.id != e.ruleId
    else exists k :: 0 <= k < |rules| && rules[k] == rule.value && rule.value.id == e.ruleId
                     && forall j :: 0 <= j < k ==> rules[j].id != e.ruleId
  }

  /** The entry's own weakness, or the first one among the tags of its rule, or the one that the rule's name denotes. */
  ghost predicate WeaknessRead(redact: string -> string, rules: seq<Rule>, e: Entry, row: Row) {
    && (CweId(e.properties.cwe) ==> row.cwe == Some(e.properties.cwe))
    && (e.properties.cwe == "" ==>
          exists rule :: Names(rules, e, rule)
            && (forall k: nat :: rule.Some? && FirstWeakness(rule.value.tags, k) ==> row.cwe == Some(rule.value.tags[k]))
            && ((forall t :: rule.Some? && t in rule.value.tags ==> !CweId(t)) ==>
                  forall id :: row.cwe == Some(id) <==> Denotes(Folded(redact(e.ruleId)), id)))
  }

  predicate FirstWeakness(tags: seq<string>, k: nat) {
    k < |tags| && CweId(tags[k]) && forall j :: 0 <= j < k ==> !CweId(tags[j])
  }

  ghost predicate Reads(redact: string -> string, rules: seq<Rule>, e: Entry, row: Row) {
    && row.id == Once(redact, e.properties.id)
    && row.rule == (if Once(redact, e.ruleId) != "" then Once(redact, e.ruleId) else "security-finding")
    && row.title == (if Once(redact, e.properties.title) != "" then Once(redact, e.properties.title)
                     else if Once(redact, e.ruleId) != "" then Once(redact, e.ruleId) else "Security finding")
    && row.description == Once(redact, e.message)
    && row.exploitPath == Once(redact, e.properties.exploitPath) && row.fix == Once(redact, e.properties.fix)
    && row.verification == "unverified" && SeverityRead(e, row.severity)
    && DismissalRead(redact, e, row) && PlaceRead(redact, e.locations, row) && WeaknessRead(redact, rules, e, row)
  }

  /** Each field of a normalized finding, of a supplied one that has been redacted. */
  lemma NormalizeGives(redact: string -> string, x: Raw)
    requires NormalizeRedacted(redact, x).Ok?
    ensures var row := NormalizeRedacted(redact, x).value;
            && row.id == Cleaned(redact, x.id) && row.exploitPath == Cleaned(redact, x.exploitPath)
            && row.fix == Cleaned(redact, x.fix) && row.suppression == Cleaned(redact, x.suppression) && row.line == x.line
            && (if x.path == "" then row.path == "" else Path(redact, x.path) == Ok(row.path))
            && row.rule == (if Cleaned(redact, x.rule) != "" then Cleaned(redact, x.rule) else "security-finding")
            && row.title == (if Cleaned(redact, x.title) != "" then Cleaned(redact, x.title)
                             else if Cleaned(redact, x.message) != "" then Cleaned(redact, x.message)
                             else if Cleaned(redact, x.rule) != "" then Cleaned(redact, x.rule) else "Security finding")
            && row.description == (if Cleaned(redact, x.description) != "" then Cleaned(redact, x.description)
                                   else Cleaned(redact, x.message))
            && row.status == (if Cleaned(redact, x.status) != "" then Cleaned(redact, x.status) else "suspected")
            && row.verification == (if Cleaned(redact, x.verification) != "" then Cleaned(redact, x.verification)
                                    else "unverified")
            && SeverityWritten(row.severity, Upper(Cleaned(redact, if x.severity.Some? then x.severity.value else "MEDIUM")))
            && CweOf(x) == Ok(row.cwe)
  {
    hide Cleaned, Path, CweOf, Upper;
  }

  lemma WordIsUntouched(redact: string -> string, s: string)
    requires Redaction(redact) && s in PROGRAM_WORDS
    ensures redact(s) == s && Cleaned(redact, s) == s && Once(redact, s) == s
  {
    ProgramWordIsClean(redact, s);
  }

  lemma SeverityIsAWord(e: Entry)
    ensures EntrySeverity(e) in {"CRITICAL", "HIGH", "MEDIUM", "LOW", "INFO"} && Upper(EntrySeverity(e)) == EntrySeverity(e)
  {
  }

  /** The word that is read, by level and recorded word. */
  function WordRead(level: Level, word: string): string {
    match level
    case ErrorLevel => if word == "CRITICAL" then "CRITICAL" else "HIGH"
    case WarningLevel => "MEDIUM"
    case NoteLevel => if word == "INFO" then "INFO" else "LOW"
    case NoneLevel => "INFO"
  }

  lemma EntrySeverityIs(e: Entry)
    ensures EntrySeverity(e) == WordRead(e.level, e.properties.severity)
  {
  }

  lemma WordMeans(e: Entry, severity: Severity)
    requires SeverityWritten(severity, WordRead(e.level, e.properties.severity))
    ensures SeverityRead(e, severity)
  {
  }

  lemma SeverityIsRead(redact: string -> string, e: Entry, severity: Severity)
    requires Redaction(redact) && SeverityWritten(severity, Upper(Once(redact, EntrySeverity(e))))
    ensures SeverityRead(e, severity)
  {
    SeverityIsAWord(e);
    EntrySeverityIs(e);
    hide Redaction, Upper, Once, SeverityRead, SeverityWritten, EntrySeverity, WordRead;
    assert EntrySeverity(e) in PROGRAM_WORDS;
    WordIsUntouched(redact, EntrySeverity(e));
    WordMeans(e, severity);
  }

  function PathOf(redact: string -> string, l: Location): Result<string> {
    if l.uri.Some? then Path(redact, l.uri.value) else Ok("")
  }

  lemma ShowsIts(redact: string -> string, l: Location)
    ensures forall p :: Shows(redact, l, p) <==> PathOf(redact, l) == Ok(p) && p != ""
  {
    hide Path;
  }

  lemma {:induction false} PlaceIsRead(redact: string -> string, locations: seq<Location>, row: Row)
    requires Place(redact, locations).Ok?
    requires var (p, line) := Place(redact, locations).value;
             (if p == "" then row.path == "" else Ok(row.path) == Normal(redact, p)) && row.line == line
    ensures PlaceRead(redact, locations, row)
  {
    if locations != [] {
      var here, rest := locations[0], locations[1..];
      var path := PathOf(redact, here).value;
      ShowsIts(redact, here);
      hide Path, Shows;
      if path != "" {
        assert PlaceIs(redact, locations, 0, path, row);
      } else {
        assert Place(redact, rest).Ok? && Place(redact, locations) == Place(redact, rest);
        hide Place;
        PlaceIsRead(redact, rest, row);
        assert forall j :: 0 < j < |locations| ==> locations[j] == rest[j - 1];
        if k: nat, q :| PlaceIs(redact, rest, k, q, row) {
          assert PlaceIs(redact, locations, k + 1, q, row);
        }
      }
    }
  }

  lemma {:induction false} FindRuleNames(rules: seq<Rule>, id: string)
    ensures match FindRule(rules, id)
            case None => forall r :: r in rules ==> r.id != id
            case Some(rule) => exists k :: 0 <= k < |rules| && rules[k] == rule && rule.id == id
                                           && forall j :: 0 <= j < k ==> rules[j].id != id
  {
    if rules != [] && rules[0].id != id {
      FindRuleNames(rules[1..], id);
      if FindRule(rules[1..], id).Some? {
        var rule := FindRule(rules[1..], id).value;
        var k :| 0 <= k < |rules[1..]| && rules[1..][k] == rule && forall j :: 0 <= j < k ==> rules[1..][j].id != id;
        assert rules[k + 1] == rule && forall j :: 0 < j < k + 1 ==> rules[j] == rules[1..][j - 1];
      }
    }
  }

  lemma {:induction false} FirstCweIs(tags: seq<string>, k: nat)
    requires FirstWeakness(tags, k)
    ensures FirstCwe(tags) == tags[k]
  {
    if k > 0 {
      assert !CweId(tags[0]) && tags[1..][k - 1] == tags[k];
      assert forall j :: 0 <= j < k - 1 ==> tags[1..][j] == tags[j + 1];
      FirstCweIs(tags[1..], k - 1);
    }
  }

  lemma WeaknessIsRead(redact: string -> string, rules: seq<Rule>, e: Entry, place: (string, int), row: Row)
    requires Redaction(redact) && RuleFor(rules, e).Ok?
    requires CweOf(Redacted(redact, EntryRaw(RuleFor(rules, e).value, e, place))) == Ok(row.cwe)
    ensures WeaknessRead(redact, rules, e, row)
  {
    var rule := RuleFor(rules, e).value;
    FindRuleNames(rules, e.ruleId);
    assert Names(rules, e, rule);
    var cwe := EntryCwe(rule, e);
    assert CweId(cwe) ==> redact(cwe) == cwe && row.cwe == Some(cwe);
    hide Denotes, CWE_NAMES, Folded, Names;
    if e.properties.cwe == "" && rule.Some? {
      forall k: nat | FirstWeakness(rule.value.tags, k) ensures row.cwe == Some(rule.value.tags[k]) {
        FirstCweIs(rule.value.tags, k);
      }
    }
    if e.properties.cwe == "" && forall t :: rule.Some? && t in rule.value.tags ==> !CweId(t) {
      if rule.Some? {
        NoWeakness(rule.value.tags);
      }
      OnlyTheRuleDenotes(redact, rule, e, place, row);
    }
  }

  lemma OnlyTheRuleDenotes(redact: string -> string, rule: Option<Rule>, e: Entry, place: (string, int), row: Row)
    requires redact("") == "" && EntryCwe(rule, e) == ""
    requires CweOf(Redacted(redact, EntryRaw(rule, e, place))) == Ok(row.cwe)
    ensures forall id :: row.cwe == Some(id) <==> Denotes(Folded(redact(e.ruleId)), id)
  {
    assert Folded("") == "" && forall id :: !Denotes("", id);
    hide Folded, Denotes, EntryCwe, EntrySeverity;
    forall id ensures row.cwe == Some(id) <==> Denotes(Folded(redact(e.ruleId)), id) {
      WeaknessIs(Redacted(redact, EntryRaw(rule, e, place)), id);
    }
  }

  lemma {:induction false} NoWeakness(tags: seq<string>)
    requires forall t :: t in tags ==> !CweId(t)
    ensures FirstCwe(tags) == ""
  {
    if tags != [] {
      NoWeakness(tags[1..]);
    }
  }

  lemma DismissalIsRead(redact: string -> string, e: Entry, row: Row)
    requires Redaction(redact)
    requires row.suppression == Once(redact, EntrySuppression(e)) && Once(redact, "") == ""
    requires row.status == OrElse(Once(redact, if Dismissed(e) then "false_positive" else "suspected"), "suspected")
    ensures DismissalRead(redact, e, row)
  {
    hide Redaction, Cleaned, Once;
    WordIsUntouched(redact, "false_positive");
    WordIsUntouched(redact, "suspected");
  }

  /** A supplied finding is acceptable exactly if no text is too long, the line is within bounds, the severity is one of the
      five, the weakness is an identifier, and the path leads nowhere but into the repository. */
  lemma NormalizeAccepts(redact: string -> string, x: Raw)
    ensures NormalizeRedacted(redact, x).Ok? <==>
              && |x.id| <= 200 && |x.title| <= 500 && |x.description| <= 8192 && |x.rule| <= 200
              && |x.exploitPath| <= 8192 && |x.fix| <= 8192 && |x.status| <= 80 && |x.verification| <= 80
              && |x.suppression| <= 2000
              && (Cleaned(redact, x.title) == "" ==> |x.message| <= 500)
              && (Cleaned(redact, x.description) == "" ==> |x.message| <= 8192)
              && (x.path != "" ==> Path(redact, x.path).Ok?)
              && (x.severity.Some? ==> |x.severity.value| <= 20)
              && Upper(Cleaned(redact, if x.severity.Some? then x.severity.value else "MEDIUM"))
                 in {"CRITICAL", "HIGH", "MEDIUM", "LOW", "INFO"}
              && (x.cwe != "" ==> CweId(x.cwe))
              && 0 <= x.line <= 1_000_000_000
  {
    hide Cleaned, Path, Upper, CweId;
    SeverityWord(Upper(Cleaned(redact, if x.severity.Some? then x.severity.value else "MEDIUM")));
    hide SeverityOf, Folded, CWE_NAMES;
  }

  lemma SeverityWord(name: string)
    ensures SeverityOf(name).Some? <==> name in {"CRITICAL", "HIGH", "MEDIUM", "LOW", "INFO"}
  {
  }

  /** Every location must be acceptable, whichever of them counts. */
  lemma {:induction false} PlaceAccepts(redact: string -> string, locations: seq<Location>)
    ensures Place(redact, locations).Ok? <==>
              forall l :: l in locations ==>
                (l.uri.Some? ==> Path(redact, l.uri.value).Ok?) && (l.startLine.Some? ==> l.startLine.value > 0)
  {
    hide Path;
    if locations != [] {
      PlaceAccepts(redact, locations[1..]);
    }
  }

  /** The rule that an entry points at must be there and have its identifier. */
  lemma RuleAccepts(rules: seq<Rule>, e: Entry)
    ensures RuleFor(rules, e).Ok? <==> e.ruleIndex == -1 || (0 <= e.ruleIndex < |rules| && rules[e.ruleIndex].id == e.ruleId)
  {
  }

  /** What an acceptable entry of any document becomes. */
  lemma EntryReads(redact: string -> string, rules: seq<Rule>, e: Entry)
    requires Redaction(redact) && ImportEntry(redact, rules, e).Ok?
    ensures Reads(redact, rules, e, ImportEntry(redact, rules, e).value)
  {
    hide Redaction, Cleaned, CweOf, Path, Upper, NormalizeRedacted, RuleFor, Place, EntrySeverity, EntrySuppression, EntryCwe,
         Once, Dismissed;
    var rule, place := RuleFor(rules, e).value, Place(redact, e.locations).value;
    var row := ImportEntry(redact, rules, e).value;
    var raw := EntryRaw(rule, e, place);
    NormalizeGives(redact, Redacted(redact, raw));
    WordIsUntouched(redact, "unverified");
    EmptyIsUntouched(redact);
    OnceIs(redact);
    SeverityIsRead(redact, e, row.severity);
    PlaceIsRead(redact, e.locations, row);
    WeaknessIsRead(redact, rules, e, place, row);
    DismissalIsRead(redact, e, row);
  }

  lemma EmptyIsUntouched(redact: string -> string)
    requires Redaction(redact)
    ensures redact("") == "" && Cleaned(redact, "") == "" && Once(redact, "") == ""
  {
  }

  lemma OnceIs(redact: string -> string)
    ensures forall s :: Cleaned(redact, redact(s)) == Once(redact, s)
  {
  }

  predicate BoundedIds(rules: seq<Rule>) {
    forall r :: r in rules ==> 1 <= |r.id| <= 200
  }

  method CheckRules(rules: seq<Rule>) returns (ok: bool)
    ensures ok <==> BoundedIds(rules) && DistinctIds(rules)
  {
    var seen: set<string> := {};
    for k := 0 to |rules|
      invariant forall id :: id in seen <==> exists j :: 0 <= j < k && rules[j].id == id
      invariant forall j :: 0 <= j < k ==> 1 <= |rules[j].id| <= 200
      invariant forall i, j :: 0 <= i < j < k ==> rules[i].id != rules[j].id
    {
      if !(1 <= |rules[k].id| <= 200) || rules[k].id in seen {
        assert rules[k] in rules;
        return false;
      }
      seen := seen + {rules[k].id};
    }
    return true;
  }

  /** Imports entry after entry; the first that is refused refuses the document. */
  method ImportAll(one: Entry -> Result<Row>, entries: seq<Entry>) returns (r: Result<seq<Row>>)
    ensures r.Ok? <==> forall i :: 0 <= i < |entries| ==> one(entries[i]).Ok?
    ensures r.Ok? ==> |r.value| == |entries| && forall i :: 0 <= i < |entries| ==> one(entries[i]) == Ok(r.value[i])
  {
    var imported: seq<Row> := [];
    for i := 0 to |entries|
      invariant |imported| == i && forall j :: 0 <= j < i ==> one(entries[j]) == Ok(imported[j])
    {
      var row := one(entries[i]);
      if row.Err? {
        return Err;
      }
      imported := imported + [row.value];
    }
    return Ok(imported);
  }

  function Importer(redact: string -> string, rules: seq<Rule>): Entry -> Result<Row> {
    e => ImportEntry(redact, rules, e)
  }

  method ImportSarif(redact: string -> string, d: Document) returns (r: Result<seq<Row>>)
    ensures var one := Importer(redact, d.rules);
            && (r.Ok? <==> BoundedIds(d.rules) && DistinctIds(d.rules)
                           && forall i :: 0 <= i < |d.results| ==> one(d.results[i]).Ok?)
            && (r.Ok? ==> |r.value| == |d.results|
                          && forall i :: 0 <= i < |d.results| ==> one(d.results[i]) == Ok(r.value[i]))
    ensures r.Ok? && Redaction(redact) ==>
              forall i :: 0 <= i < |d.results| ==> Reads(redact, d.rules, d.results[i], r.value[i])
  {
    var ok := CheckRules(d.rules);
    if !ok {
      return Err;
    }
    r := ImportAll(Importer(redact, d.rules), d.results);
    hide Reads;
    if r.Ok? && Redaction(redact) {
      forall i | 0 <= i < |d.results| ensures Reads(redact, d.rules, d.results[i], r.value[i]) {
        EntryReads(redact, d.rules, d.results[i]);
      }
    }
  }
}
