/** What the facts say: which expressions count as constant, where values come from, and what a report shows of that. */
module DataFlowFacts {
  // The other modules ask what the analysis misses. Here it is said exactly what it takes for constant, so that it reports
  // nothing, and which inputs the trace of a report names. Names are given here again, as the documentation lists them.

  import opened Wrappers
  import opened DataFlow
  import opened DataFlowSoundness

  // ----- names -------------------------------------------------------------------------------

  /** A name means what it was imported as; an attribute is reached through what it is taken of. */
  lemma NamesFollowImports(aliases: map<string, seq<string>>, base: Expr, attr: string, line: nat, id: string)
    ensures RuntimeName(aliases, Name(id)) == if id in aliases then aliases[id] else [id]
    ensures RuntimeName(aliases, Attr(base, attr, line)) == RuntimeName(aliases, base) + [attr]
  {
    assert [id][1..] == [];
    var name := Dotted(base);
    assert (name + [attr])[1..] == name[1..] + [attr];
  }

  predicate ReadsInput(name: seq<string>) {
    || (|name| > 1 && name[0] == "request")
    || (|name| > 2 && name[0] == "flask" && name[1] == "request")
    || (|name| > 1 && name[0] == "sys" && "argv" <= name[1])
    || (|name| > 1 && name[0] == "os" && "environ" <= name[1])
  }

  predicate MakesPath(name: seq<string>) {
    name == ["pathlib", "Path"] || name == ["pathlib", "PurePath"] || name == ["os", "path", "join"]
  }

  predicate MakesClient(name: seq<string>) {
    || name == ["requests", "Session"] || name == ["requests", "session"]
    || name == ["httpx", "Client"] || name == ["httpx", "AsyncClient"]
  }

  lemma NamesAreListed(name: seq<string>)
    ensures ReadsInput(name) <==> ExternalName(name)
    ensures MakesPath(name) <==> name in PATH_NAMES
    ensures MakesClient(name) <==> name in CLIENT_NAMES
    ensures !(MakesPath(name) && MakesClient(name))
  {
  }

  /** The expression is an input of the program: a call of the builtin, or a request, an argument or an environment
      variable. */
  predicate IsInput(s: Scope, e: Expr) {
    match e
    case Attr(_, _, _) => ReadsInput(Canonical(s, e))
    case Call(func, _, _, _, _) =>
      (Canonical(s, func) == ["input"] && "input" !in s.bindings) || ReadsInput(Canonical(s, func))
    case _ => false
  }

  // ----- keywords ----------------------------------------------------------------------------

  ghost predicate GivenAt<T>(names: seq<string>, values: seq<T>, key: string, i: nat) {
    i < |names| && i < |values| && names[i] == key
  }

  lemma GivenInTail<T>(names: seq<string>, values: seq<T>, key: string, j: nat)
    requires names != [] && values != []
    ensures GivenAt(names[1..], values[1..], key, j) ==> GivenAt(names, values, key, j + 1)
  {
  }

  /** A keyword has the value that stands with it, the last one if it is repeated. */
  lemma {:induction false} KeywordIs<T>(names: seq<string>, values: seq<T>, key: string, i: nat)
    requires GivenAt(names, values, key, i) && forall j: nat :: j > i ==> !GivenAt(names, values, key, j)
    ensures Keyword(names, values, key) == Some(values[i])
    decreases i
  {
    if i == 0 {
      forall j: nat ensures !GivenAt(names[1..], values[1..], key, j) {
        GivenInTail(names, values, key, j);
      }
      KeywordMissing(names[1..], values[1..], key);
    } else {
      forall j: nat | j > i - 1 ensures !GivenAt(names[1..], values[1..], key, j) {
        GivenInTail(names, values, key, j);
      }
      KeywordIs(names[1..], values[1..], key, i - 1);
    }
  }

  lemma {:induction false} KeywordMissing<T>(names: seq<string>, values: seq<T>, key: string)
    requires forall j: nat :: !GivenAt(names, values, key, j)
    ensures Keyword(names, values, key) == None
    decreases |names|
  {
    if names != [] && values != [] {
      assert !GivenAt(names, values, key, 0);
      forall j: nat ensures !GivenAt(names[1..], values[1..], key, j) {
        GivenInTail(names, values, key, j);
      }
      KeywordMissing(names[1..], values[1..], key);
    }
  }

  ghost predicate IsGiven<T>(names: seq<string>, values: seq<T>, key: string) {
    exists i: nat :: GivenAt(names, values, key, i)
  }

  lemma KeywordGivenIff<T>(names: seq<string>, values: seq<T>, key: string)
    ensures Keyword(names, values, key) != None <==> IsGiven(names, values, key)
  {
    if IsGiven(names, values, key) {
      var i: nat :| GivenAt(names, values, key, i);
      LastGiven(names, values, key, i);
    } else {
      KeywordMissing(names, values, key);
    }
  }

  lemma {:induction false} LastGiven<T>(names: seq<string>, values: seq<T>, key: string, i: nat)
    requires GivenAt(names, values, key, i)
    ensures Keyword(names, values, key) != None
    decreases |names| - i
  {
    if j: nat :| j > i && GivenAt(names, values, key, j) {
      LastGiven(names, values, key, j);
    } else {
      KeywordIs(names, values, key, i);
    }
  }

  lemma {:induction false} FirstKeywordGivenIff<T>(names: seq<string>, values: seq<T>, keys: seq<string>)
    ensures FirstKeyword(names, values, keys) != None <==> exists k :: 0 <= k < |keys| && IsGiven(names, values, keys[k])
    decreases |keys|
  {
    if keys != [] {
      KeywordGivenIff(names, values, keys[0]);
      FirstKeywordGivenIff(names, values, keys[1..]);
      assert forall k :: 0 < k < |keys| ==> keys[k] == keys[1..][k - 1];
      assert forall k :: 0 <= k < |keys| - 1 ==> keys[1..][k] == keys[k + 1];
    }
  }

  /** Of several keywords that are given the one listed first counts. */
  lemma {:induction false} FirstKeywordIs<T>(names: seq<string>, values: seq<T>, keys: seq<string>, k: nat)
    requires k < |keys| && IsGiven(names, values, keys[k]) && forall j :: 0 <= j < k ==> !IsGiven(names, values, keys[j])
    ensures FirstKeyword(names, values, keys) == Keyword(names, values, keys[k])
    decreases k
  {
    KeywordGivenIff(names, values, keys[0]);
    if k > 0 {
      assert forall j :: 0 <= j < k - 1 ==> keys[1..][j] == keys[j + 1];
      FirstKeywordIs(names, values, keys[1..], k - 1);
    }
  }

  /** Keywords under which a sink's input is looked for, the first of them that is given. */
  predicate IsJudgedKeyword(key: string) {
    key in {"query", "sql", "operation", "args", "data", "file", "url"}
  }

  /** A call is judged exactly if it has a positional argument or one of these keywords. */
  lemma JudgedIff(e: Expr)
    requires e.Call?
    ensures Argument(e) != None <==>
              e.args != [] || exists key :: IsJudgedKeyword(key) && IsGiven(e.kwNames, e.kwValues, key)
    ensures e.args != [] ==> Argument(e) == Some(e.args[0])
  {
    FirstKeywordGivenIff(e.kwNames, e.kwValues, ARGUMENT_KEYWORDS);
    forall k | 0 <= k < |ARGUMENT_KEYWORDS| ensures IsJudgedKeyword(ARGUMENT_KEYWORDS[k]) {
    }
    forall key | IsJudgedKeyword(key) ensures key in ARGUMENT_KEYWORDS {
    }
  }

  // ----- constants ---------------------------------------------------------------------------

  /** The value is a path object, or built around one. */
  predicate IsPath(s: Scope, e: Expr, depth: nat)
    decreases e, 0
  {
    depth <= 60 &&
    match e
    case Name(id) => id in s.bindings && s.bindings[id].pathlike
    case Call(func, _, _, _, _) =>
      !IsInput(s, e) && (MakesPath(Canonical(s, func))
                         || (!MakesClient(Canonical(s, func)) && func.Attr? && IsPath(s, func.base, depth + 1)))
    case Build(_, children) => exists x :: x in children && IsPath(s, x, depth + 1)
    case _ => false
  }

  predicate AllSettled(s: Scope, es: seq<Expr>, depth: nat)
    decreases es, 0
  {
    forall x :: x in es ==> IsSettled(s, x, depth)
  }

  /** The expression counts as constant: a literal, a name that was given a constant, a display, operator or formatted text
      of constants, a constant text that formats or joins constants, and a path made of constants, with everything that is
      called on it. */
  predicate IsSettled(s: Scope, e: Expr, depth: nat)
    decreases e, 1
  {
    depth <= 60 &&
    match e
    case Const(_) => true
    case Name(id) => id in s.bindings && s.bindings[id].constant
    case Build(_, children) => children != [] && AllSettled(s, children, depth + 1)
    case Call(func, args, _, kwValues, _) =>
      && !IsInput(s, e) && AllSettled(s, args, depth + 1) && AllSettled(s, kwValues, depth + 1)
      && (|| MakesPath(Canonical(s, func))
          || (&& !MakesClient(Canonical(s, func)) && func.Attr? && IsSettled(s, func.base, depth + 1)
              && (IsPath(s, func.base, depth + 1) || func.attr == "format" || func.attr == "join")))
    case _ => false
  }

  ghost predicate FactIs(s: Scope, e: Expr, depth: nat) {
    && (FactOf(s, e, depth).constant <==> IsSettled(s, e, depth))
    && (FactOf(s, e, depth).pathlike <==> IsPath(s, e, depth))
  }

  /** An expression counts as constant, or as a path, exactly in these cases. */
  lemma {:induction false} ConstantIff(s: Scope, e: Expr, depth: nat)
    ensures FactIs(s, e, depth)
    decreases e, 0
  {
    if depth <= 60 {
      match e
      case Build(_, children) =>
        ConstantsIff(s, children, depth + 1);
        BuildIs(s, e, depth);
      case Call(func, args, _, kwValues, _) =>
        ConstantsIff(s, args, depth + 1);
        ConstantsIff(s, kwValues, depth + 1);
        if func.Attr? {
          ConstantIff(s, func.base, depth + 1);
        }
        CallIs(s, e, depth);
      case _ =>
    }
  }

  lemma {:induction false} ConstantsIff(s: Scope, es: seq<Expr>, depth: nat)
    ensures forall x :: x in es ==> FactIs(s, x, depth)
    decreases es, 0
  {
    if es != [] {
      ConstantIff(s, es[0], depth);
      ConstantsIff(s, es[1..], depth);
    }
  }

  lemma FactsAre(s: Scope, es: seq<Expr>, depth: nat)
    requires forall x :: x in es ==> FactIs(s, x, depth)
    ensures AllConstant(FactsOf(s, es, depth)) <==> AllSettled(s, es, depth)
    ensures (exists f :: f in FactsOf(s, es, depth) && f.pathlike) <==> (exists x :: x in es && IsPath(s, x, depth))
  {
    hide FactOf, IsSettled, IsPath;
    var facts := FactsOf(s, es, depth);
    forall i | 0 <= i < |es| ensures facts[i] == FactOf(s, es[i], depth) && facts[i] in facts && es[i] in es {
    }
  }

  lemma BuildIs(s: Scope, e: Expr, depth: nat)
    requires e.Build? && depth <= 60 && forall x :: x in e.children ==> FactIs(s, x, depth + 1)
    ensures FactIs(s, e, depth)
  {
    FactsAre(s, e.children, depth + 1);
    assert |FactsOf(s, e.children, depth + 1)| == |e.children|;
    hide FactsOf, AllConstant, AllSettled, Sources;
  }

  lemma CallFactIs(s: Scope, e: Expr, name: seq<string>, arguments: seq<Fact>, depth: nat)
    requires e.Call?
    ensures var f, receiver := CallFact(s, e, name, arguments, depth), if e.func.Attr? then FactOf(s, e.func.base, depth + 1) else UNKNOWN;
            && (f.constant <==>
                  AllConstant(arguments)
                  && (MakesPath(name)
                      || (!MakesClient(name) && receiver.constant
                          && (receiver.pathlike || e.func.attr == "format" || e.func.attr == "join"))))
            && (f.pathlike <==> MakesPath(name) || (!MakesClient(name) && receiver.pathlike))
  {
    NamesAreListed(name);
    hide FactOf, AllConstant, Sources, MakesPath, MakesClient, PATH_NAMES, CLIENT_NAMES;
  }

  lemma CallIs(s: Scope, e: Expr, depth: nat)
    requires e.Call? && depth <= 60
    requires forall x :: x in e.args || x in e.kwValues ==> FactIs(s, x, depth + 1)
    requires e.func.Attr? ==> FactIs(s, e.func.base, depth + 1)
    ensures FactIs(s, e, depth)
  {
    FactsAre(s, e.args, depth + 1);
    FactsAre(s, e.kwValues, depth + 1);
    var name, arguments := Canonical(s, e.func), FactsOf(s, e.args, depth + 1) + FactsOf(s, e.kwValues, depth + 1);
    AllConstantSplit(FactsOf(s, e.args, depth + 1), FactsOf(s, e.kwValues, depth + 1));
    NamesAreListed(name);
    CallFactIs(s, e, name, arguments, depth);
    hide FactsOf, CallFact, AllConstant, AllSettled, Sources, Canonical, ReadsInput, MakesPath, MakesClient, ExternalName;
    assert !IsInput(s, e) ==> FactOf(s, e, depth) == CallFact(s, e, name, arguments, depth);
  }

  /** A call is reported exactly if it is a sink, its judged argument is there and does not count as constant, and, for the
      functions that start a process, the flag is a constant `True`. */
  lemma CallReportedIff(s: Scope, e: Expr, check: Check)
    requires e.Call?
    ensures (exists r :: r in CallReports(s, e) && r.check == check) <==>
              && Argument(e) != None && !IsSettled(s, Argument(e).value, 0)
              && (var name := Canonical(s, e.func);
                  match check
                  case DynamicSql => RunsSql(name)
                  case ShellInjection =>
                    name in SHELL_SINKS || (name in SUBPROCESS_SINKS && OptionalFact(s, ShellFlag(e)).value == Bool(true))
                  case UnsafeDeserialization => name in DESERIALIZERS)
  {
    EverySinkIsJudged(Canonical(s, e.func));
    if Argument(e) != None {
      ConstantIff(s, Argument(e).value, 0);
      if !FactOf(s, Argument(e).value, 0).constant {
        OwnReports(s, e);
      }
    }
    hide FactOf, IsSettled, Canonical, RunsSql, SqlName, Argument, ShellFlag;
  }

  lemma OwnReports(s: Scope, e: Expr)
    requires e.Call? && Argument(e) != None && !FactOf(s, Argument(e).value, 0).constant
    ensures var name, trace := Canonical(s, e.func), FactOf(s, Argument(e).value, 0).sources;
            && (SqlName(name) ==> Report(e.line, DynamicSql, trace) in CallReports(s, e))
            && (name in SHELL_NAMES || (name in SUBPROCESS_NAMES && OptionalFact(s, ShellFlag(e)).value == Bool(true)) ==>
                  Report(e.line, ShellInjection, trace) in CallReports(s, e))
            && (name in PICKLE_NAMES ==> Report(e.line, UnsafeDeserialization, trace) in CallReports(s, e))
  {
  }

  // ----- files read by constant paths --------------------------------------------------------

  /** `pathlib.Path(path).read_text()` */
  function FileText(path: Expr): Expr {
    Call(Attr(Call(Attr(Name("pathlib"), "Path", 1), [path], [], [], 1), "read_text", 1), [], [], [], 1)
  }

  /** `os.system(pathlib.Path(path).read_text())` */
  function ShellOnFile(path: Expr): Expr {
    Call(Attr(Name("os"), "system", 1), [FileText(path)], [], [], 1)
  }

  /** Nothing is known of these names. */
  predicate OwnModules(s: Scope) {
    forall m :: m in {"os", "pathlib", ""} ==> m !in s.bindings && m !in s.aliases
  }

  lemma FileNames(s: Scope, path: Expr)
    requires OwnModules(s)
    ensures Canonical(s, FileText(path).func) == RuntimeName(s.aliases, FileText(path).func) == ["", "read_text"]
    ensures Canonical(s, FileText(path).func.base.func) == ["pathlib", "Path"]
    ensures Canonical(s, ShellOnFile(path).func) == RuntimeName(s.aliases, ShellOnFile(path).func) == ["os", "system"]
  {
    assert Dotted(FileText(path).func) == [""] + ["read_text"] && (["", "read_text"])[1..] == ["read_text"];
    assert Dotted(FileText(path).func.base.func) == ["pathlib", "Path"] && ["pathlib", "Path"][1..] == ["Path"];
    assert Dotted(ShellOnFile(path).func) == ["os", "system"] && ["os", "system"][1..] == ["system"];
  }

  /** Whatever stands in a file is input, but the analysis takes it for a constant exactly if the path of the file counts as
      one; then a shell that runs it goes unreported. */
  lemma FileTextIsMissedIff(s: Scope, env: Env, path: Expr)
    requires OwnModules(s)
    ensures CallEvents(s.aliases, ShellOnFile(path), env) == [Event(1, ShellInjection, NonLiteral)]
    ensures CallReports(s, ShellOnFile(path)) == [] <==> IsSettled(s, path, 2)
  {
    FileNames(s, path);
    FileTextIsSettledIff(s, path);
    ConstantIff(s, FileText(path), 0);
    hide Canonical, RuntimeName, IsSettled, FactOf, FileText;
    FileTextIsInput(s, env, path);
  }

  lemma FileTextIsInput(s: Scope, env: Env, path: Expr)
    requires RuntimeName(s.aliases, FileText(path).func) == ["", "read_text"]
    ensures Eval(s.aliases, FileText(path), env) == NonLiteral
  {
    hide RuntimeName;
  }

  lemma FileTextIsSettledIff(s: Scope, path: Expr)
    requires OwnModules(s)
    ensures IsSettled(s, FileText(path), 0) <==> IsSettled(s, path, 2)
  {
    FileNames(s, path);
    var made := FileText(path).func.base;
    hide Canonical;
    assert IsSettled(s, made, 1) <==> AllSettled(s, [path], 2);
    assert IsPath(s, made, 1);
  }

  // ----- where values come from --------------------------------------------------------------

  function SourceSet(trace: seq<Source>): set<Source> {
    set x | x in trace
  }

  ghost predicate NoRepetition(trace: seq<Source>) {
    forall i, j :: 0 <= i < j < |trace| ==> trace[i] != trace[j]
  }

  lemma {:induction false} SizeOfSet(trace: seq<Source>)
    requires NoRepetition(trace)
    ensures |SourceSet(trace)| == |trace|
  {
    if trace != [] {
      var front, last := trace[..|trace| - 1], trace[|trace| - 1];
      SizeOfSet(front);
      assert trace == front + [last];
      assert SourceSet(trace) == SourceSet(front) + {last};
      assert last !in front;
    }
  }

  lemma SubsetIsNoLarger<T>(a: set<T>, b: set<T>)
    requires a <= b
    ensures |a| <= |b| && (|a| == |b| ==> a == b)
  {
    assert b == a + (b - a);
    assert |b| == |a| + |b - a|;
    if |b - a| == 0 {
      assert b - a == {};
    }
  }

  lemma OneGathered(seen: seq<Source>, more: seq<Source>)
    requires more != [] && NoRepetition(seen)
    ensures var next := if more[0] in seen then seen else seen + [more[0]];
            NoRepetition(next) && SourceSet(next) + SourceSet(more[1..]) == SourceSet(seen) + SourceSet(more)
  {
    assert more == [more[0]] + more[1..];
  }

  /** Nothing is in the result that was not given, and if that is no more than 16 sources, all of it is. */
  lemma {:induction false} GatherIs(seen: seq<Source>, more: seq<Source>)
    requires |seen| <= 16 && NoRepetition(seen)
    ensures var r := Gather(seen, more);
            && NoRepetition(r) && SourceSet(r) <= SourceSet(seen) + SourceSet(more)
            && (|SourceSet(seen) + SourceSet(more)| <= 16 ==> SourceSet(r) == SourceSet(seen) + SourceSet(more))
    decreases |more|
  {
    if more == [] {
      assert SourceSet(seen) + SourceSet(more) == SourceSet(seen);
    } else if |seen| == 16 {
      SizeOfSet(seen);
      SubsetIsNoLarger(SourceSet(seen), SourceSet(seen) + SourceSet(more));
    } else {
      OneGathered(seen, more);
      hide SourceSet, NoRepetition;
      GatherIs(if more[0] in seen then seen else seen + [more[0]], more[1..]);
    }
  }

  lemma SourcesAre(facts: seq<Fact>)
    ensures var all := SourceSet(Concat(facts));
            SourceSet(Sources(facts)) <= all && (|all| <= 16 ==> SourceSet(Sources(facts)) == all)
  {
    GatherIs([], Concat(facts));
    assert SourceSet([]) + SourceSet(Concat(facts)) == SourceSet(Concat(facts));
  }

  lemma {:induction false} ConcatSplit(a: seq<Fact>, b: seq<Fact>)
    ensures Concat(a + b) == Concat(a) + Concat(b)
  {
    if a == [] {
      assert a + b == b;
    } else {
      assert (a + b)[1..] == a[1..] + b;
      ConcatSplit(a[1..], b);
    }
  }

  lemma ConcatTwo(a: Fact, b: Fact)
    ensures Concat([a, b]) == a.sources + b.sources
  {
    assert [a, b][1..] == [b] && [b][1..] == [];
    assert Concat([b]) == b.sources + Concat([]) == b.sources;
    assert Concat([a, b]) == a.sources + Concat([b]);
  }

  lemma UnionOf(a: seq<Source>, b: seq<Source>)
    ensures SourceSet(a + b) == SourceSet(a) + SourceSet(b)
  {
  }

  /** Everything the value of an expression can come from, as far as the analysis looks: inputs, and what is known of the
      names in it. What a client does is not followed, nor how a path was named. */
  function Origins(s: Scope, e: Expr, depth: nat): set<Source>
    decreases e, 1
  {
    if depth > 60 then {}
    else match e
      case Const(_) => {}
      case Name(id) => if id in s.bindings then SourceSet(s.bindings[id].sources) else {}
      case Attr(base, _, line) => if IsInput(s, e) then {External(line)} else Origins(s, base, depth + 1)
      case Call(func, args, _, kwValues, line) =>
        if IsInput(s, e) then {External(line)}
        else if MakesClient(Canonical(s, func)) then {}
        else
          var given := OriginsAll(s, args, depth + 1) + OriginsAll(s, kwValues, depth + 1);
          if MakesPath(Canonical(s, func)) then given
          else Origins(s, if func.Attr? then func.base else func, depth + 1) + given
      case Build(_, children) => OriginsAll(s, children, depth + 1)
      case Binds(_, _, children) => OriginsAll(s, children, depth + 1)
      case Opaque(_, children) => OriginsAll(s, children, depth + 1)
  }

  function OriginsAll(s: Scope, es: seq<Expr>, depth: nat): set<Source>
    decreases es, 0
  {
    if es == [] then {} else Origins(s, es[0], depth) + OriginsAll(s, es[1..], depth)
  }

  /** What counts as constant comes from nowhere. */
  ghost predicate Clean(s: Scope) {
    forall k :: k in s.bindings && s.bindings[k].constant ==> s.bindings[k].sources == []
  }

  ghost predicate Shows(trace: seq<Source>, origins: set<Source>) {
    SourceSet(trace) <= origins && (|origins| <= 16 ==> SourceSet(trace) == origins)
  }

  ghost predicate TraceIs(s: Scope, e: Expr, depth: nat) {
    var f := FactOf(s, e, depth);
    Shows(f.sources, Origins(s, e, depth)) && (f.constant ==> f.sources == [] && Origins(s, e, depth) == {})
  }

  ghost predicate AllTraces(s: Scope, es: seq<Expr>, depth: nat) {
    forall x :: x in es ==> TraceIs(s, x, depth)
  }

  lemma {:induction false} ConcatShows(s: Scope, es: seq<Expr>, depth: nat)
    requires AllTraces(s, es, depth)
    ensures Shows(Concat(FactsOf(s, es, depth)), OriginsAll(s, es, depth))
    ensures AllConstant(FactsOf(s, es, depth)) ==> Concat(FactsOf(s, es, depth)) == [] && OriginsAll(s, es, depth) == {}
  {
    if es != [] {
      var first, rest := FactOf(s, es[0], depth), FactsOf(s, es[1..], depth);
      assert TraceIs(s, es[0], depth);
      ConcatShows(s, es[1..], depth);
      hide FactOf, Origins;
      assert FactsOf(s, es, depth) == [first] + rest;
      assert Concat([first] + rest) == first.sources + Concat(rest) by { assert ([first] + rest)[1..] == rest; }
      AllConstantSplit([first], rest);
      BothShow(first.sources, Origins(s, es[0], depth), Concat(rest), OriginsAll(s, es[1..], depth));
    }
  }

  lemma BothShow(a: seq<Source>, from: set<Source>, b: seq<Source>, others: set<Source>)
    requires Shows(a, from) && Shows(b, others)
    ensures Shows(a + b, from + others)
  {
    UnionOf(a, b);
    SubsetIsNoLarger(from, from + others);
    SubsetIsNoLarger(others, from + others);
  }

  lemma SourcesShow(facts: seq<Fact>, origins: set<Source>)
    requires Shows(Concat(facts), origins)
    ensures Shows(Sources(facts), origins)
  {
    SourcesAre(facts);
    SubsetIsNoLarger(SourceSet(Concat(facts)), origins);
  }

  lemma NoSources(facts: seq<Fact>)
    requires Concat(facts) == []
    ensures Sources(facts) == []
  {
  }

  /** What the trace of a fact shows: nothing but what the value can come from, and all of it if that is no more than 16
      sources. */
  lemma {:induction false} TraceShowsOrigins(s: Scope, e: Expr, depth: nat)
    requires Clean(s)
    ensures TraceIs(s, e, depth)
    decreases e, 0
  {
    if depth <= 60 {
      match e
      case Const(_) =>
      case Name(_) =>
      case Attr(base, _, _) =>
        TraceShowsOrigins(s, base, depth + 1);
        AttrTrace(s, e, depth);
      case Build(_, children) =>
        TracesShowOrigins(s, children, depth + 1);
        PartsTrace(s, e, children, depth);
      case Binds(_, _, children) =>
        TracesShowOrigins(s, children, depth + 1);
        PartsTrace(s, e, children, depth);
      case Opaque(_, children) =>
        TracesShowOrigins(s, children, depth + 1);
        PartsTrace(s, e, children, depth);
      case Call(func, args, _, kwValues, _) =>
        TracesShowOrigins(s, args, depth + 1);
        TracesShowOrigins(s, kwValues, depth + 1);
        TraceShowsOrigins(s, if func.Attr? then func.base else func, depth + 1);
        CallTrace(s, e, depth);
    }
  }

  lemma {:induction false} TracesShowOrigins(s: Scope, es: seq<Expr>, depth: nat)
    requires Clean(s)
    ensures AllTraces(s, es, depth)
    decreases es, 0
  {
    if es != [] {
      TraceShowsOrigins(s, es[0], depth);
      TracesShowOrigins(s, es[1..], depth);
    }
  }

  lemma AttrTrace(s: Scope, e: Expr, depth: nat)
    requires e.Attr? && depth <= 60 && TraceIs(s, e.base, depth + 1)
    ensures TraceIs(s, e, depth)
  {
    NamesAreListed(Canonical(s, e));
    var base := FactOf(s, e.base, depth + 1);
    assert Concat([base]) == base.sources by { assert [base][1..] == [] && base.sources + [] == base.sources; }
    SourcesShow([base], Origins(s, e.base, depth + 1));
    hide Canonical, ReadsInput, ExternalName, Sources, Shows;
    if IsInput(s, e) {
      ShowsItself([External(e.line)]);
    }
  }

  lemma ShowsItself(trace: seq<Source>)
    requires |trace| == 1
    ensures Shows(trace, {trace[0]})
  {
  }

  lemma PartsTrace(s: Scope, e: Expr, children: seq<Expr>, depth: nat)
    requires depth <= 60 && AllTraces(s, children, depth + 1)
    requires (e.Build? || e.Binds? || e.Opaque?) && e.children == children
    ensures TraceIs(s, e, depth)
  {
    ConcatShows(s, children, depth + 1);
    SourcesShow(FactsOf(s, children, depth + 1), OriginsAll(s, children, depth + 1));
    if AllConstant(FactsOf(s, children, depth + 1)) {
      NoSources(FactsOf(s, children, depth + 1));
    }
    hide FactsOf, AllConstant, Sources, Shows, OriginsAll;
  }

  lemma ArgumentsShow(s: Scope, e: Expr, depth: nat)
    requires e.Call? && AllTraces(s, e.args, depth) && AllTraces(s, e.kwValues, depth)
    ensures var arguments, origins := FactsOf(s, e.args, depth) + FactsOf(s, e.kwValues, depth),
                                      OriginsAll(s, e.args, depth) + OriginsAll(s, e.kwValues, depth);
            Shows(Concat(arguments), origins) && (AllConstant(arguments) ==> Concat(arguments) == [] && origins == {})
  {
    ConcatShows(s, e.args, depth);
    ConcatShows(s, e.kwValues, depth);
    var a, k := FactsOf(s, e.args, depth), FactsOf(s, e.kwValues, depth);
    ConcatSplit(a, k);
    AllConstantSplit(a, k);
    hide FactsOf, Concat, OriginsAll, AllConstant;
    BothShow(Concat(a), OriginsAll(s, e.args, depth), Concat(k), OriginsAll(s, e.kwValues, depth));
  }

  lemma WithCallee(callee: Fact, from: set<Source>, arguments: seq<Fact>, origins: set<Source>)
    requires Shows(callee.sources, from) && Shows(Concat(arguments), origins)
    ensures Shows(Sources([callee] + arguments), from + origins)
    ensures callee.sources == [] && Concat(arguments) == [] ==> Sources([callee] + arguments) == []
  {
    assert ([callee] + arguments)[1..] == arguments;
    assert Concat([callee] + arguments) == callee.sources + Concat(arguments);
    BothShow(callee.sources, from, Concat(arguments), origins);
    SourcesShow([callee] + arguments, from + origins);
    hide Shows, Concat;
    if callee.sources == [] && Concat(arguments) == [] {
      NoSources([callee] + arguments);
    }
  }

  lemma CallTrace(s: Scope, e: Expr, depth: nat)
    requires e.Call? && depth <= 60 && AllTraces(s, e.args, depth + 1) && AllTraces(s, e.kwValues, depth + 1)
    requires TraceIs(s, if e.func.Attr? then e.func.base else e.func, depth + 1)
    ensures TraceIs(s, e, depth)
  {
    NamesAreListed(Canonical(s, e.func));
    ShowsItself([External(e.line)]);
    if !IsInput(s, e) {
      OtherCallTrace(s, e, depth);
    }
    hide Canonical, ReadsInput, MakesPath, MakesClient, ExternalName, Shows, AllTraces, CallFact, FactsOf, OriginsAll;
  }

  lemma OtherCallTrace(s: Scope, e: Expr, depth: nat)
    requires e.Call? && depth <= 60 && !IsInput(s, e) && AllTraces(s, e.args, depth + 1) && AllTraces(s, e.kwValues, depth + 1)
    requires TraceIs(s, if e.func.Attr? then e.func.base else e.func, depth + 1)
    ensures TraceIs(s, e, depth)
  {
    hide Shows, Concat, Sources, AllConstant, AllTraces, Canonical, ReadsInput, MakesPath, MakesClient, ExternalName;
    var name := Canonical(s, e.func);
    var arguments := FactsOf(s, e.args, depth + 1) + FactsOf(s, e.kwValues, depth + 1);
    var origins := OriginsAll(s, e.args, depth + 1) + OriginsAll(s, e.kwValues, depth + 1);
    var callee := if e.func.Attr? then e.func.base else e.func;
    var from := Origins(s, callee, depth + 1);
    NamesAreListed(name);
    ArgumentsShow(s, e, depth + 1);
    hide CallFact, FactsOf, OriginsAll;
    WithCallee(FactOf(s, callee, depth + 1), from, arguments, origins);
    SourcesShow(arguments, origins);
    if Concat(arguments) == [] {
      NoSources(arguments);
    }
    CallFactTrace(s, e, name, arguments, depth, from, origins);
    assert FactOf(s, e, depth) == CallFact(s, e, name, arguments, depth);
  }

  lemma CallFactTrace(s: Scope, e: Expr, name: seq<string>, arguments: seq<Fact>, depth: nat, from: set<Source>,
                      origins: set<Source>)
    requires e.Call? && Shows(Sources(arguments), origins) && (AllConstant(arguments) ==> Sources(arguments) == [] && origins == {})
    requires var callee := FactOf(s, if e.func.Attr? then e.func.base else e.func, depth + 1);
             && Shows(Sources([callee] + arguments), from + origins)
             && (callee.constant ==> from == {})
             && (callee.constant && AllConstant(arguments) ==> Sources([callee] + arguments) == [])
    ensures var f := CallFact(s, e, name, arguments, depth);
            var all := if MakesClient(name) then {} else if MakesPath(name) then origins else from + origins;
            Shows(f.sources, all) && (f.constant ==> f.sources == [] && all == {})
  {
    NamesAreListed(name);
    hide MakesPath, MakesClient, PATH_NAMES, CLIENT_NAMES, Sources, AllConstant, FactOf;
    assert SourceSet([]) == {} && {} + {} == origins - origins;
    var callee := FactOf(s, if e.func.Attr? then e.func.base else e.func, depth + 1);
    if callee.constant && AllConstant(arguments) {
      assert from + origins == {};
    }
  }

  // ----- traces of names and of reports ------------------------------------------------------

  /** A name that is given a value shows where the value comes from, and that it was assigned here; if the value comes from
      nowhere the name shows nothing. */
  lemma AssignedTrace(s: Scope, target: string, value: Expr, line: nat)
    requires Clean(s) && |Origins(s, value, 0)| < 16
    ensures var after := Bound(s, target, value, line).bindings;
            && after.Keys == s.bindings.Keys + {target} && (forall k :: k in s.bindings && k != target ==> after[k] == s.bindings[k])
            && SourceSet(after[target].sources)
               == (if Origins(s, value, 0) == {} then {} else Origins(s, value, 0) + {Assigned(target, line)})
  {
    TraceShowsOrigins(s, value, 0);
    hide FactOf, Origins, Shows;
    StoredTrace(FactOf(s, value, 0), Origins(s, value, 0), target, line);
    assert SourceSet([]) == {};
  }

  lemma StoredTrace(fact: Fact, origins: set<Source>, target: string, line: nat)
    requires Shows(fact.sources, origins) && |origins| < 16
    ensures SourceSet(Sources([fact, Fact(false, NoneLit, [Assigned(target, line)], false, false)]))
            == origins + {Assigned(target, line)}
    ensures fact.sources == [] <==> origins == {}
  {
    var here := Fact(false, NoneLit, [Assigned(target, line)], false, false);
    ConcatTwo(fact, here);
    ShowsItself(here.sources);
    BothShow(fact.sources, origins, here.sources, {Assigned(target, line)});
    SourcesShow([fact, here], origins + {Assigned(target, line)});
    hide Concat, Sources;
    assert fact.sources != [] ==> fact.sources[0] in SourceSet(fact.sources);
  }

  /** After branches a name shows what it shows after either of them, and counts as constant if it does after both, as a path
      or a client if it does after one of them. */
  lemma JoinedTrace(left: map<string, Fact>, right: map<string, Fact>, k: string)
    requires k in left.Keys + right.Keys
    ensures var l, r := SourceSet(Lookup(left, k).sources), SourceSet(Lookup(right, k).sources);
            Shows(Join(left, right)[k].sources, l + r)
    ensures var a, b, joined := Lookup(left, k), Lookup(right, k), Join(left, right)[k];
            && (joined.constant <==> a.constant && b.constant) && (joined.pathlike <==> a.pathlike || b.pathlike)
            && (joined.client <==> a.client || b.client)
  {
    var a, b := Lookup(left, k), Lookup(right, k);
    ConcatTwo(a, b);
    UnionOf(a.sources, b.sources);
    SourcesShow([a, b], SourceSet(a.sources) + SourceSet(b.sources));
  }

  lemma {:induction false} CleanAfter(s: Scope, st: Stmt)
    requires Clean(s)
    ensures Clean(After(s, st))
    decreases st
  {
    match st
    case Assign(target, value, line) =>
      TraceShowsOrigins(s, value, 0);
      hide FactOf, Origins, Sources;
    case Do(_) =>
    case If(_, body, orelse) =>
      var left := AfterAll(s, body);
      CleanAfterAll(s, body);
      CleanAfterAll(Scope(s.bindings, left.aliases), orelse);
      JoinIsClean(left.bindings, AfterAll(Scope(s.bindings, left.aliases), orelse).bindings);
  }

  lemma JoinIsClean(left: map<string, Fact>, right: map<string, Fact>)
    requires Clean(Scope(left, map[])) && Clean(Scope(right, map[]))
    ensures forall k :: k in Join(left, right) && Join(left, right)[k].constant ==> Join(left, right)[k].sources == []
  {
    forall k | k in Join(left, right) && Join(left, right)[k].constant ensures Join(left, right)[k].sources == [] {
      var a, b := Lookup(left, k), Lookup(right, k);
      assert a.constant && b.constant;
      ConcatTwo(a, b);
    }
  }

  lemma {:induction false} CleanAfterAll(s: Scope, ss: seq<Stmt>)
    requires Clean(s)
    ensures Clean(AfterAll(s, ss))
    decreases ss
  {
    if ss != [] {
      CleanAfter(s, ss[0]);
      CleanAfterAll(After(s, ss[0]), ss[1..]);
    }
  }

  /** Wherever a call stands in a body, each report of it shows where its judged argument comes from. */
  lemma ReportShowsOrigins(params: set<string>, aliases: map<string, seq<string>>, before: seq<Stmt>, e: Expr, r: Report)
    requires e.Call? && r in CallReports(AfterAll(Scope(ParameterFacts(params), aliases), before), e)
    ensures r.line == e.line && Argument(e) != None
    ensures Shows(r.trace, Origins(AfterAll(Scope(ParameterFacts(params), aliases), before), Argument(e).value, 0))
  {
    var start := Scope(ParameterFacts(params), aliases);
    CleanAfterAll(start, before);
    if Argument(e) != None {
      TraceShowsOrigins(AfterAll(start, before), Argument(e).value, 0);
    }
    hide AfterAll, FactOf, Origins, Canonical, SqlName, Argument, ShellFlag, SHELL_NAMES, SUBPROCESS_NAMES, PICKLE_NAMES;
  }
}
