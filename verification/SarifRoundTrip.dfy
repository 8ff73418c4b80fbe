/** Importing what was exported: when it succeeds, and what it keeps.

    Export and import are in Sarif; here they meet. A finding survives if its fields are within their limits and its
    path can be read back from the quoted form; the condition is exact, and what is kept is listed field by field. */
module SarifRoundTrip {
  import opened Wrappers
  import opened Utf8
  import opened ReportPaths
  import opened Sarif

  /** The path of an imported finding whose exported path was p: it is read from the quoted URI and, if anything is
      left of it, normalized once more with the rest of the finding. */
  function PathAfterImport(redact: string -> string, p: string): Result<string> {
    if p == "" then Ok("")
    else
      var q :- Path(redact, Quote(p));
      if q == "" then Ok("") else Path(redact, q)
  }

  /** For a path that does not begin with "./": it comes back unchanged if it is still a relative path and its quoted
      form is short enough, and is refused otherwise. */
  lemma PathAfterImportIff(redact: string -> string, p: string)
    requires Redaction(redact) && Clean(redact, p) && '%' !in p && p != "" && DropDots(p) == p
    ensures PathAfterImport(redact, p) == if Relative(p) && |Quote(p)| <= MAX_PATH then Ok(p) else Err
  {
    PathReadBack(redact, p);
    QuoteNotShorter(p);
    assert Unquote(p) == p;
    assert Decoded(p, 4) == p;
  }

  /** A path that normalization leaves as it is: cleaning can uncover a leading "./". */
  predicate PlainPath(p: string) {
    p == "" || DropDots(p) == p
  }

  predicate ShortAndRelative(p: string) {
    p == "" || (Relative(p) && |Quote(p)| <= MAX_PATH)
  }

  lemma PlainPathComesBackIff(redact: string -> string, p: string)
    requires Redaction(redact) && Clean(redact, p) && '%' !in p && PlainPath(p)
    ensures PathAfterImport(redact, p) == if ShortAndRelative(p) then Ok(p) else Err
    ensures ShortAndRelative(p) ==> (ReadsNoPath(redact, p) <==> p == "")
  {
    if p != "" {
      PathAfterImportIff(redact, p);
      PathReadBack(redact, p);
    }
  }

  /** What is left of a path after the second normalization of an import. */
  function Again(redact: string -> string, q: string): Result<string> {
    if q == "" then Ok("")
    else if |q| <= MAX_PATH && Relative(DropDots(q)) then Ok(Cleaned(redact, DropDots(q)))
    else Err
  }

  lemma UnquotedPath(redact: string -> string, p: string)
    requires '%' !in p
    ensures Path(redact, p) == if |p| <= MAX_PATH && Relative(DropDots(p)) then Ok(Cleaned(redact, DropDots(p))) else Err
  {
    hide Relative, Cleaned, DropDots;
    assert Unquote(p) == p && Decoded(p, 4) == p;
  }

  /** For any normalized path, also one that begins with "./": every "./" in front is dropped and the rest cleaned, twice
      over, and the import is refused exactly if the quoted form is too long or what is left at either time is no relative
      path. */
  lemma PathAfterImportIs(redact: string -> string, p: string)
    requires Redaction(redact) && '%' !in p && p != ""
    ensures PathAfterImport(redact, p) ==
              if |Quote(p)| <= MAX_PATH && Relative(DropDots(p)) then Again(redact, Cleaned(redact, DropDots(p))) else Err
  {
    hide Relative, Cleaned, DropDots, Path, Quote, Redaction;
    PathReadBack(redact, p);
    DropDotsKeeps(p);
    CleanedTwice(redact, DropDots(p));
    assert '%' !in MARK;
    UnquotedPath(redact, Cleaned(redact, DropDots(p)));
  }

  lemma FirstOf(c: char, rest: string)
    ensures Parts([c] + rest) == if c == '/' then [[]] + Parts(rest) else [[c] + Parts(rest)[0]] + Parts(rest)[1..]
    ensures Strip([c] + rest) == (if Kept(c) then [c] else []) + Strip(rest)
    ensures Quote([c] + rest) == (if Unreserved(c) then [c] else EscapeAll(Encode(c))) + Quote(rest)
  {
    assert ([c] + rest)[1..] == rest;
  }

  lemma EmptyTexts()
    ensures Parts("") == [""] && Strip("") == "" && Quote("") == "" && DropDots("x") == "x"
    ensures Unreserved('x') && Unreserved('/') && Unreserved('.')
  {
    assert "_.-~/"[1] == '.' && "_.-~/"[4] == '/';
  }

  lemma DottedPathTexts()
    ensures Parts("x") == ["x"] && Parts("\U{202A}./x") == [['\U{202A}'] + ".", "x"]
    ensures Strip("x") == "x" && Strip("\U{202A}./x") == "./x" && Quote("./x") == "./x"
    ensures DropDots("./x") == "x"
  {
    EmptyTexts();
    assert DropDots("./x") == DropDots("./x"[2..]) && "./x"[2..] == "x";
    hide Parts, Strip, Quote, DropDots, Unreserved;
    FirstOf('x', "");
    assert ['x'] + "" == "x" && Parts("x") == ["x"];
    FirstOf('/', "x");
    assert ['/'] + "x" == "/x" && Parts("/x") == ["", "x"];
    FirstOf('.', "/x");
    assert ['.'] + "/x" == "./x" && ['.'] + "" == "." && ["", "x"][1..] == ["x"];
    assert Parts("./x") == [".", "x"];
    FirstOf('\U{202A}', "./x");
    assert ['\U{202A}'] + "./x" == "\U{202A}./x" && [".", "x"][1..] == ["x"];
    assert Parts("\U{202A}./x") == [['\U{202A}'] + ".", "x"];
  }

  const DOTTED := "\U{202A}./x"

  lemma DottedIsRelative()
    ensures '%' !in DOTTED && DropDots(DOTTED) == DOTTED && Relative(DOTTED) && Relative("x")
  {
    DottedPathTexts();
    hide Parts;
    assert DOTTED[0] == '\U{202A}' && (['\U{202A}'] + ".")[0] == '\U{202A}';
    assert DropDots(DOTTED) == DOTTED;
    hide DropDots;
    forall c | c in DOTTED ensures c in ['\U{202A}', '.', '/', 'x'] {
      assert DOTTED == ['\U{202A}', '.', '/', 'x'];
    }
  }

  /** Such a path exists: a direction override in front of "./x" hides the dots until it is cleaned away, and the finding
      comes back with another path. */
  lemma UncoveredDotsAreLost()
    ensures var same := (s: string) => s;
            Redaction(same) && Path(same, DOTTED) == Ok("./x") && PathAfterImport(same, "./x") == Ok("x")
  {
    hide Parts, Strip, Quote, DropDots, PathAfterImport, Relative, Path;
    var same := (s: string) => s;
    DottedPathTexts();
    DottedIsRelative();
    UnquotedPath(same, DOTTED);
    EmptyTexts();
    PathAfterImportIs(same, "./x");
  }

  const COVERED := "\U{202A}/x"

  lemma CoveredPathTexts()
    ensures Parts(COVERED) == [['\U{202A}'], "x"] && Strip(COVERED) == "/x"
  {
    EmptyTexts();
    hide Parts, Strip, Quote, DropDots, Unreserved;
    FirstOf('x', "");
    assert ['x'] + "" == "x" && Parts("x") == ["x"];
    FirstOf('/', "x");
    assert ['/'] + "x" == "/x" && Parts("/x") == ["", "x"];
    FirstOf('\U{202A}', "/x");
    assert ['\U{202A}'] + "/x" == COVERED && ["", "x"][1..] == ["x"] && ['\U{202A}'] + "" == ['\U{202A}'];
  }

  lemma CoveredIsRelative()
    ensures '%' !in COVERED && DropDots(COVERED) == COVERED && Relative(COVERED) && !Relative(DropDots("/x"))
  {
    CoveredPathTexts();
    hide Parts, Strip;
    assert COVERED[0] == '\U{202A}' && ['\U{202A}'][0] == '\U{202A}' && "/x"[0] == '/';
    assert DropDots(COVERED) == COVERED && DropDots("/x") == "/x";
    hide DropDots;
    forall c | c in COVERED ensures c in ['\U{202A}', '/', 'x'] {
      assert COVERED == ['\U{202A}', '/', 'x'];
    }
  }

  /** Normalization accepts a path whose leading "/" only cleaning uncovers; the path it keeps is not relative, and the import
      refuses it. */
  lemma UncoveredSlashIsRefused()
    ensures var same := (s: string) => s;
            Redaction(same) && Path(same, COVERED) == Ok("/x") && PathAfterImport(same, "/x").Err?
  {
    hide Parts, Strip, Quote, DropDots, PathAfterImport, Relative, Path;
    var same := (s: string) => s;
    CoveredPathTexts();
    CoveredIsRelative();
    UnquotedPath(same, COVERED);
    PathAfterImportIs(same, "/x");
  }

  /** Cleaning can replace short text by a longer mark, so text within its limit may leave it. */
  predicate WithinLimits(row: Row) {
    && |row.id| <= 200 && |row.title| <= 500 && |row.rule| <= 200 && |row.exploitPath| <= 8192 && |row.fix| <= 8192
    && |row.suppression| <= 2000 && |OrElse(row.description, row.title)| <= 8192
  }

  const SECRET := seq(199, _ => 'a')
  const MARKED := seq(190, _ => 'a') + MARK

  /** A redaction that knows one secret: its last nine characters give way to the mark. */
  function Marking(): string -> string {
    s => if s == SECRET then MARKED else s
  }

  lemma MarkingIsRedaction()
    ensures Redaction(Marking())
  {
    assert |MARKED| == 201 && |SECRET| == 199 && SECRET[0] == 'a';
    forall c | c in MARKED ensures c in SECRET || c in MARK {
      assert c in seq(190, _ => 'a') ==> c == SECRET[0];
    }
    assert forall w :: w in PROGRAM_WORDS ==> |w| < 199;
  }

  const COVERED_SECRET := ['\U{202A}'] + SECRET

  /** A finding with this id and nothing else. */
  const BARE := Raw(COVERED_SECRET, "", "", "", "", "", "", "", 0, None, "", "", "", "", "", "")

  lemma SecretIsUncovered()
    ensures Cleaned(Marking(), COVERED_SECRET) == MARKED && |COVERED_SECRET| == 200 && |MARKED| == 201
    ensures Marking()(COVERED_SECRET) == COVERED_SECRET
  {
    StripKept(SECRET);
    assert COVERED_SECRET[1..] == SECRET;
    assert Strip(COVERED_SECRET) == [] + Strip(SECRET) == SECRET;
  }

  lemma BareNormalizes()
    ensures Normalize(Marking(), BARE).Ok? && Normalize(Marking(), BARE).value.id == MARKED
  {
    MarkingIsRedaction();
    SecretIsUncovered();
    EmptyIsClean(Marking());
    ProgramWordIsClean(Marking(), "MEDIUM");
    assert Redacted(Marking(), BARE) == BARE;
    assert Folded("") == "" && Upper("MEDIUM") == "MEDIUM";
    hide Strip, Folded, Upper, Marking, Cleaned;
  }

  /** An id of 200 characters in which only cleaning uncovers a secret: normalization keeps 201 characters, and the import
      refuses the finding. */
  lemma LengthenedFieldIsRefused()
    ensures Redaction(Marking()) && Normalize(Marking(), BARE).Ok?
    ensures !Importable(Marking(), Normalize(Marking(), BARE).value)
  {
    MarkingIsRedaction();
    SecretIsUncovered();
    BareNormalizes();
    hide Normalize;
  }

  predicate Importable(redact: string -> string, row: Row) {
    WithinLimits(row) && PathAfterImport(redact, row.path).Ok?
  }

  ghost predicate AllImportable(redact: string -> string, rows: seq<Row>) {
    forall i :: 0 <= i < |rows| ==> Importable(redact, rows[i])
  }

  /** What a finding keeps; its verification is reset and a missing weakness may be filled in. */
  predicate Keeps(redact: string -> string, a: Row, b: Row) {
    && KeepsButPlace(a, b)
    && Ok(b.path) == PathAfterImport(redact, a.path)
    && b.line == (if ReadsNoPath(redact, a.path) then 0 else a.line)
  }

  /** The path is the same, and so is the line if there is a path. */
  predicate SamePlace(a: Row, b: Row) {
    b.path == a.path && (a.path != "" ==> b.line == a.line)
  }

  predicate ReadsNoPath(redact: string -> string, p: string) {
    p == "" || Path(redact, Quote(p)) == Ok("")
  }

  // ----- one finding -------------------------------------------------------------------------

  lemma CleanText(redact: string -> string, s: string)
    requires Redaction(redact) && Clean(redact, s)
    ensures redact(s) == s
  {
    assert redact(redact(Strip(s))) == redact(Strip(s));
  }

  lemma SeverityNames(s: Severity)
    ensures Upper(SeverityName(s)) == SeverityName(s) && SeverityOf(SeverityName(s)) == Some(s)
    ensures SeverityName(s) in PROGRAM_WORDS && |SeverityName(s)| <= 20
  {
  }

  /** The location of an exported finding, read back. */
  lemma PlaceReadBack(redact: string -> string, row: Row)
    ensures Place(redact, LocationsOf(row)) ==
              if row.path == "" then Ok(("", 0))
              else match Path(redact, Quote(row.path))
                case Err => Err
                case Ok(q) => Ok(if q == "" then ("", 0) else (q, row.line))
  {
    var locations := LocationsOf(row);
    if row.path != "" {
      assert locations[1..] == [];
    }
  }

  predicate AllClean(redact: string -> string, x: Raw) {
    && Clean(redact, x.id) && Clean(redact, x.title) && Clean(redact, x.description) && Clean(redact, x.rule)
    && Clean(redact, x.exploitPath) && Clean(redact, x.fix) && Clean(redact, x.status) && Clean(redact, x.verification)
    && Clean(redact, x.suppression) && x.severity.Some? && Clean(redact, x.severity.value)
    && x.title != "" && x.description != "" && x.rule != "" && x.status != "" && x.verification != ""
    && |x.status| <= 80 && |x.verification| <= 80 && |x.severity.value| <= 20
    && SeverityOf(Upper(x.severity.value)).Some? && 0 <= x.line <= MAX_LINE
    && (x.cwe != "" ==> CweId(x.cwe))
  }

  /** Normalizing clean text changes nothing, and fails only on length or on the path. */
  lemma NormalizeClean(redact: string -> string, x: Raw)
    requires AllClean(redact, x)
    ensures var r := NormalizeRedacted(redact, x);
            && (r.Ok? <==> |x.id| <= 200 && |x.title| <= 500 && |x.description| <= 8192 && |x.rule| <= 200
                           && |x.exploitPath| <= 8192 && |x.fix| <= 8192 && |x.suppression| <= 2000
                           && (x.path == "" || Path(redact, x.path).Ok?))
            && (r.Ok? ==>
                  && r.value.id == x.id && r.value.title == x.title && r.value.description == x.description
                  && r.value.rule == x.rule && r.value.exploitPath == x.exploitPath && r.value.fix == x.fix
                  && r.value.verification == x.verification && r.value.status == x.status
                  && r.value.line == x.line && Some(r.value.severity) == SeverityOf(Upper(x.severity.value))
                  && (x.cwe != "" ==> r.value.cwe == Some(x.cwe))
                  && (if x.path == "" then r.value.path == "" else Ok(r.value.path) == Path(redact, x.path)))
  {
  }

  lemma {:induction false} FirstCweIsOne(tags: seq<string>)
    ensures FirstCwe(tags) == "" || CweId(FirstCwe(tags))
  {
    if tags != [] && !CweId(tags[0]) {
      FirstCweIsOne(tags[1..]);
    }
  }

  /** The finding an exported entry is turned into before it is normalized. */
  function Reread(row: Row, rule: Rule, path: string, line: int): Raw {
    Raw(row.id, row.title, "", OrElse(row.description, row.title), row.rule, "", "", path, line,
        Some(SeverityName(row.severity)), if row.cwe.Some? then row.cwe.value else FirstCwe(rule.tags),
        row.exploitPath, row.fix,
        if row.status in {"false_positive", "suppressed"} || row.suppression != "" then "false_positive" else "suspected",
        "unverified",
        if row.suppression != "" then row.suppression
        else if row.status in {"false_positive", "suppressed"} then "Recorded false-positive decision" else "")
  }

  lemma EntryIsReread(redact: string -> string, row: Row, rule: Rule, k: int, place: (string, int))
    requires Normalized(redact, row)
    ensures EntryRaw(Some(rule), EntryOf(row, k), place) == Reread(row, rule, place.0, place.1)
  {
    SeverityNames(row.severity);
    var e := EntryOf(row, k);
    assert EntrySeverity(e) == SeverityName(row.severity);
    assert EntrySuppression(e) == Reread(row, rule, place.0, place.1).suppression;
    assert row.cwe.Some? ==> row.cwe.value != "";
  }

  lemma RereadIsClean(redact: string -> string, row: Row, rule: Rule, path: string, line: int)
    requires Redaction(redact) && Normalized(redact, row) && 0 <= line <= MAX_LINE
    ensures AllClean(redact, Reread(row, rule, path, line))
  {
    SeverityNames(row.severity);
    FirstCweIsOne(rule.tags);
    ProgramWordIsClean(redact, "unverified");
    ProgramWordIsClean(redact, "suspected");
    ProgramWordIsClean(redact, "false_positive");
    ProgramWordIsClean(redact, "Recorded false-positive decision");
    ProgramWordIsClean(redact, SeverityName(row.severity));
    EmptyIsClean(redact);
  }

  lemma RereadIsRedacted(redact: string -> string, row: Row, rule: Rule, path: string, line: int)
    requires Redaction(redact) && Normalized(redact, row) && 0 <= line <= MAX_LINE && Clean(redact, path)
    ensures Redacted(redact, Reread(row, rule, path, line)) == Reread(row, rule, path, line)
  {
    var x := Reread(row, rule, path, line);
    RereadIsClean(redact, row, rule, path, line);
    CleanText(redact, x.id);
    CleanText(redact, x.title);
    CleanText(redact, x.description);
    CleanText(redact, x.rule);
    CleanText(redact, x.exploitPath);
    CleanText(redact, x.fix);
    CleanText(redact, x.status);
    CleanText(redact, x.verification);
    CleanText(redact, x.suppression);
    CleanText(redact, x.severity.value);
    CleanText(redact, path);
  }

  /** Normalizing what was reread keeps the finding, whatever path was read. */
  lemma RereadKeeps(redact: string -> string, row: Row, rule: Rule, path: string, line: int)
    requires Redaction(redact) && Normalized(redact, row) && 0 <= line <= MAX_LINE && Clean(redact, path)
    ensures var r := Normalize(redact, Reread(row, rule, path, line));
            && (r.Ok? <==> |row.id| <= 200 && |row.title| <= 500 && |row.rule| <= 200 && |row.exploitPath| <= 8192
                           && |row.fix| <= 8192 && |row.suppression| <= 2000 && |OrElse(row.description, row.title)| <= 8192
                           && (path == "" || Path(redact, path).Ok?))
            && (r.Ok? ==> KeepsButPlace(row, r.value) && r.value.line == line
                          && (if path == "" then r.value.path == "" else Path(redact, path) == Ok(r.value.path)))
  {
    var x := Reread(row, rule, path, line);
    RereadIsClean(redact, row, rule, path, line);
    RereadIsRedacted(redact, row, rule, path, line);
    NormalizeClean(redact, x);
    SeverityNames(row.severity);
    assert "Recorded false-positive decision" != "";
    assert |"Recorded false-positive decision"| <= 2000;
  }

  predicate KeepsButPlace(a: Row, b: Row) {
    && b.id == a.id && b.title == a.title && b.rule == a.rule && b.severity == a.severity
    && b.exploitPath == a.exploitPath && b.fix == a.fix && b.verification == "unverified"
    && b.description == OrElse(a.description, a.title)
    && (a.cwe.Some? ==> b.cwe == a.cwe)
    && (b.status == "false_positive" <==> a.status in {"false_positive", "suppressed"} || a.suppression != "")
  }

  /** An exported entry is imported exactly when its finding is importable, and then keeps it. */
  lemma EntryRoundTrip(redact: string -> string, rules: seq<Rule>, row: Row, k: nat)
    requires Redaction(redact) && Normalized(redact, row) && k < |rules| && rules[k].id == row.rule
    ensures var r := ImportEntry(redact, rules, EntryOf(row, k));
            (r.Ok? <==> Importable(redact, row)) && (r.Ok? ==> Keeps(redact, row, r.value))
  {
    var e := EntryOf(row, k);
    assert RuleFor(rules, e) == Ok(Some(rules[k]));
    PlaceReadBack(redact, row);
    var place := Place(redact, e.locations);
    if place.Ok? {
      var (path, line) := place.value;
      EntryIsReread(redact, row, rules[k], k, place.value);
      if path == "" {
        EmptyIsClean(redact);
      } else {
        NormalizedPath(redact, Quote(row.path));
      }
      RereadKeeps(redact, row, rules[k], path, line);
      assert ImportEntry(redact, rules, e) == Normalize(redact, Reread(row, rules[k], path, line));
    }
  }

  // ----- a whole list ------------------------------------------------------------------------

  /** An importer of entries that keeps importable findings and refuses others. */
  ghost predicate RoundTrips(redact: string -> string, rows: seq<Row>, entries: seq<Entry>, one: Entry -> Result<Row>) {
    |entries| == |rows| && forall i :: 0 <= i < |rows| ==>
      (one(entries[i]).Ok? <==> Importable(redact, rows[i]))
      && (one(entries[i]).Ok? ==> Keeps(redact, rows[i], one(entries[i]).value))
  }

  lemma EntriesRoundTrip(redact: string -> string, rows: seq<Row>, d: Document)
    requires Redaction(redact) && Exports(rows, d)
    requires forall i :: 0 <= i < |rows| ==> Normalized(redact, rows[i])
    ensures RoundTrips(redact, rows, d.results, Importer(redact, d.rules))
  {
    var one := Importer(redact, d.rules);
    forall i | 0 <= i < |rows|
      ensures (one(d.results[i]).Ok? <==> Importable(redact, rows[i]))
              && (one(d.results[i]).Ok? ==> Keeps(redact, rows[i], one(d.results[i]).value))
    {
      EntryRoundTrip(redact, d.rules, rows[i], d.results[i].ruleIndex);
    }
  }

  lemma RuleIdsAreBounded(redact: string -> string, rows: seq<Row>, d: Document)
    requires Exports(rows, d)
    requires forall i :: 0 <= i < |rows| ==> Normalized(redact, rows[i]) && Importable(redact, rows[i])
    ensures BoundedIds(d.rules) && DistinctIds(d.rules)
  {
    forall rule | rule in d.rules ensures 1 <= |rule.id| <= 200 {
      var k :| 0 <= k < |d.rules| && d.rules[k] == rule;
      assert Uses(rows, d.rules[k].id);
      var i :| 0 <= i < |rows| && rows[i].rule == rule.id;
      assert WithinLimits(rows[i]) && rows[i].rule != "";
    }
  }

  lemma PlainPathsComeBack(redact: string -> string, rows: seq<Row>)
    requires Redaction(redact) && forall i :: 0 <= i < |rows| ==> Normalized(redact, rows[i])
    ensures forall i :: 0 <= i < |rows| && PlainPath(rows[i].path) ==>
              (Importable(redact, rows[i]) <==> WithinLimits(rows[i]) && ShortAndRelative(rows[i].path))
    ensures forall i, b: Row :: 0 <= i < |rows| && PlainPath(rows[i].path) ==>
              (Importable(redact, rows[i]) && Keeps(redact, rows[i], b) ==> SamePlace(rows[i], b))
  {
    forall i | 0 <= i < |rows| && PlainPath(rows[i].path)
      ensures Importable(redact, rows[i]) <==> WithinLimits(rows[i]) && ShortAndRelative(rows[i].path)
      ensures forall b: Row :: Importable(redact, rows[i]) && Keeps(redact, rows[i], b) ==> SamePlace(rows[i], b)
    {
      hide Redaction, PlainPath, WithinLimits;
      PlainPathComesBackIff(redact, rows[i].path);
    }
  }

  /** Exports a list of findings and imports the result. The import succeeds exactly when every finding is importable;
      then length and order are kept and every finding keeps its fields. */
  method RoundTrip(redact: string -> string, rows: seq<Row>) returns (r: Result<seq<Row>>)
    requires Redaction(redact) && forall i :: 0 <= i < |rows| ==> Normalized(redact, rows[i])
    ensures r.Ok? <==> AllImportable(redact, rows)
    ensures r.Ok? ==> |r.value| == |rows| && forall i :: 0 <= i < |rows| ==> Keeps(redact, rows[i], r.value[i])
    ensures (forall i :: 0 <= i < |rows| ==> PlainPath(rows[i].path)) ==>
              (r.Ok? <==> forall i :: 0 <= i < |rows| ==> WithinLimits(rows[i]) && ShortAndRelative(rows[i].path))
    ensures r.Ok? ==> forall i :: 0 <= i < |rows| && PlainPath(rows[i].path) ==> SamePlace(rows[i], r.value[i])
  {
    hide Redaction, Normalized, Exports, ImportEntry, Importable, Keeps, WithinLimits, ShortAndRelative, PlainPath, SamePlace;
    PlainPathsComeBack(redact, rows);
    var d := ExportSarif(rows);
    r := ImportSarif(redact, d);
    EntriesRoundTrip(redact, rows, d);
    if AllImportable(redact, rows) {
      RuleIdsAreBounded(redact, rows, d);
    }
    Concludes(redact, rows, d.results, Importer(redact, d.rules), BoundedIds(d.rules) && DistinctIds(d.rules), r);
  }

  lemma Concludes(redact: string -> string, rows: seq<Row>, entries: seq<Entry>, one: Entry -> Result<Row>, bounded: bool,
                  r: Result<seq<Row>>)
    requires RoundTrips(redact, rows, entries, one) && (AllImportable(redact, rows) ==> bounded)
    requires r.Ok? <==> bounded && forall i :: 0 <= i < |entries| ==> one(entries[i]).Ok?
    requires r.Ok? ==> |r.value| == |entries| && forall i :: 0 <= i < |entries| ==> one(entries[i]) == Ok(r.value[i])
    ensures r.Ok? <==> AllImportable(redact, rows)
    ensures r.Ok? ==> |r.value| == |rows| && forall i :: 0 <= i < |rows| ==> Keeps(redact, rows[i], r.value[i])
  {
  }
}
