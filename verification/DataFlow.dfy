/** The local data-flow analysis of Python source. */
module DataFlow {
  // Facts about expressions, branch joins, alias resolution and the sinks that are reported. What the facts promise
  // about the programs analysed is in DataFlowSoundness.

  import opened Wrappers

  const MAX_DEPTH := 60
  const MAX_SOURCES := 16

  /** Literals; the others are bytes, the ellipsis and infinities. */
  datatype Lit =
    | Str(text: string) | Bool(b: bool) | Int(n: int) | Float(x: real) | Imaginary(y: real) | NoneLit
    | OtherLit(id: int, truthy: bool)

  /** Expressions that give names of their own a value: comprehensions, which run at once; lambdas and generators, which
      run later if at all; and assignment expressions, whose names stay bound. */
  datatype Form = Eager | Deferred | Lasting

  datatype Expr =
    | Const(lit: Lit)
    | Name(id: string)
    | Attr(base: Expr, attr: string, line: nat)
    | Call(func: Expr, args: seq<Expr>, kwNames: seq<string>, kwValues: seq<Expr>, line: nat)
    | Build(kind: string, children: seq<Expr>)    // displays ("list", "tuple", ..), operators, formatted strings
    | Binds(form: Form, names: seq<string>, children: seq<Expr>)
    | Opaque(kind: string, children: seq<Expr>)   // every other expression form

  datatype Stmt =
    | Assign(target: string, value: Expr, line: nat)
    | Do(expr: Expr)
    | If(test: Expr, body: seq<Stmt>, orelse: seq<Stmt>)

  datatype Source = External(line: nat) | Parameter(name: string) | Assigned(name: string, line: nat)

  datatype Fact = Fact(constant: bool, value: Lit, sources: seq<Source>, pathlike: bool, client: bool)

  const UNKNOWN := Fact(false, NoneLit, [], false, false)

  /** Bindings and import aliases in force at one point of the visit. */
  datatype Scope = Scope(bindings: map<string, Fact>, aliases: map<string, seq<string>>)

  function Lookup(bindings: map<string, Fact>, id: string): Fact {
    if id in bindings then bindings[id] else UNKNOWN
  }

  // ----- facts -------------------------------------------------------------------------------

  /** Sources in first-seen order without repetition, at most MAX_SOURCES of them. */
  function Gather(seen: seq<Source>, more: seq<Source>): (r: seq<Source>)
    requires |seen| <= MAX_SOURCES
    ensures |r| <= MAX_SOURCES && seen <= r
    decreases |more|
  {
    if more == [] || |seen| == MAX_SOURCES then seen
    else Gather(if more[0] in seen then seen else seen + [more[0]], more[1..])
  }

  function Concat(facts: seq<Fact>): seq<Source> {
    if facts == [] then [] else facts[0].sources + Concat(facts[1..])
  }

  function Sources(facts: seq<Fact>): seq<Source> {
    Gather([], Concat(facts))
  }

  lemma {:induction false} GatherConcat(seen: seq<Source>, a: seq<Source>, b: seq<Source>)
    requires |seen| <= MAX_SOURCES
    ensures Gather(seen, a + b) == Gather(Gather(seen, a), b)
    decreases |a|
  {
    if a == [] {
      assert a + b == b;
    } else if |seen| < MAX_SOURCES {
      assert (a + b)[1..] == a[1..] + b;
      GatherConcat(if a[0] in seen then seen else seen + [a[0]], a[1..], b);
    }
  }

  /** Adds the sources of one fact; stops when the limit is reached. */
  method AddSources(seen: seq<Source>, items: seq<Source>) returns (result: seq<Source>)
    requires |seen| < MAX_SOURCES
    ensures result == Gather(seen, items)
  {
    result := seen;
    for j := 0 to |items|
      invariant |result| < MAX_SOURCES && Gather(result, items[j..]) == Gather(seen, items)
    {
      if items[j] !in result {
        result := result + [items[j]];
      }
      assert items[j..][1..] == items[j + 1..];
      if |result| >= MAX_SOURCES {
        return;
      }
    }
  }

  method CollectSources(facts: seq<Fact>) returns (result: seq<Source>)
    ensures result == Sources(facts)
  {
    result := [];
    for i := 0 to |facts|
      invariant |result| < MAX_SOURCES && Gather(result, Concat(facts[i..])) == Sources(facts)
    {
      assert facts[i..][1..] == facts[i + 1..];
      GatherConcat(result, facts[i].sources, Concat(facts[i + 1..]));
      result := AddSources(result, facts[i].sources);
      if |result| >= MAX_SOURCES {
        return;
      }
    }
  }

  function Dotted(e: Expr): (r: seq<string>)
    ensures r != []
  {
    match e
    case Name(id) => [id]
    case Attr(base, attr, _) => Dotted(base) + [attr]
    case _ => [""]
  }

  function Resolve(aliases: map<string, seq<string>>, name: seq<string>): seq<string>
    requires name != []
  {
    (if name[0] in aliases then aliases[name[0]] else [name[0]]) + name[1..]
  }

  /** A rebound name is not mistaken for the builtin or module it shadows. */
  function Canonical(s: Scope, e: Expr): seq<string> {
    var name := Dotted(e);
    if name[0] in s.bindings && name[0] !in s.aliases
    then if name[0] == "request" then name else ["<local>"] + name[1..]
    else Resolve(s.aliases, name)
  }

  predicate StartsWith(text: string, prefix: string) {
    |prefix| <= |text| && text[..|prefix|] == prefix
  }

  predicate ExternalName(name: seq<string>) {
    || (|name| >= 2 && name[0] == "request")
    || (|name| >= 3 && name[0] == "flask" && name[1] == "request")
    || (|name| >= 2 && name[0] == "sys" && StartsWith(name[1], "argv"))
    || (|name| >= 2 && name[0] == "os" && StartsWith(name[1], "environ"))
  }

  const PATH_NAMES := {["pathlib", "Path"], ["pathlib", "PurePath"], ["os", "path", "join"]}
  const CLIENT_NAMES := {["requests", "Session"], ["requests", "session"], ["httpx", "Client"], ["httpx", "AsyncClient"]}

  predicate AllConstant(facts: seq<Fact>) {
    forall f :: f in facts ==> f.constant
  }

  function FactOf(s: Scope, e: Expr, depth: nat): Fact
    decreases e, 1
  {
    if depth > MAX_DEPTH then UNKNOWN
    else match e
      case Const(lit) => Fact(true, lit, [], false, false)
      case Name(id) => Lookup(s.bindings, id)
      case Attr(base, _, line) =>
        if ExternalName(Canonical(s, e)) then Fact(false, NoneLit, [External(line)], false, false)
        else Fact(false, NoneLit, Sources([FactOf(s, base, depth + 1)]), false, false)
      case Call(func, args, _, kwValues, line) =>
        var name := Canonical(s, func);
        if (name == ["input"] && "input" !in s.bindings) || ExternalName(name)
        then Fact(false, NoneLit, [External(line)], false, false)
        else CallFact(s, e, name, FactsOf(s, args, depth + 1) + FactsOf(s, kwValues, depth + 1), depth)
      case Build(_, children) =>
        var facts := FactsOf(s, children, depth + 1);
        Fact(facts != [] && AllConstant(facts), NoneLit, Sources(facts), exists f :: f in facts && f.pathlike, false)
      case Binds(_, _, children) =>
        Fact(false, NoneLit, Sources(FactsOf(s, children, depth + 1)), false, false)
      case Opaque(_, children) =>
        Fact(false, NoneLit, Sources(FactsOf(s, children, depth + 1)), false, false)
  }

  function CallFact(s: Scope, e: Expr, name: seq<string>, arguments: seq<Fact>, depth: nat): Fact
    requires e.Call?
    decreases e, 0
  {
    if name in PATH_NAMES then Fact(AllConstant(arguments), NoneLit, Sources(arguments), true, false)
    else if name in CLIENT_NAMES then Fact(false, NoneLit, [], false, true)
    else if e.func.Attr? then
      var receiver := FactOf(s, e.func.base, depth + 1);
      if receiver.pathlike then
        Fact(receiver.constant && AllConstant(arguments), NoneLit, Sources([receiver] + arguments), true, false)
      else if e.func.attr in {"format", "join"} && receiver.constant && AllConstant(arguments) then
        Fact(true, NoneLit, [], false, false)
      else Fact(false, NoneLit, Sources([receiver] + arguments), false, false)
    else Fact(false, NoneLit, Sources([FactOf(s, e.func, depth + 1)] + arguments), false, false)
  }

  function FactsOf(s: Scope, es: seq<Expr>, depth: nat): (r: seq<Fact>)
    ensures |r| == |es|
    ensures forall i :: 0 <= i < |es| ==> r[i] == FactOf(s, es[i], depth)
    decreases es
  {
    if es == [] then [] else [FactOf(s, es[0], depth)] + FactsOf(s, es[1..], depth)
  }

  // ----- sinks -------------------------------------------------------------------------------

  datatype Check = DynamicSql | ShellInjection | UnsafeDeserialization

  datatype Report = Report(line: nat, check: Check, trace: seq<Source>)

  const SHELL_NAMES := {["os", "system"], ["os", "popen"]}
  const SUBPROCESS_NAMES := {["subprocess", "run"], ["subprocess", "call"], ["subprocess", "Popen"],
                             ["subprocess", "check_call"], ["subprocess", "check_output"]}
  const PICKLE_NAMES := {["pickle", "load"], ["pickle", "loads"], ["dill", "load"], ["dill", "loads"],
                         ["marshal", "load"], ["marshal", "loads"]}
  const ARGUMENT_KEYWORDS := ["query", "sql", "operation", "args", "data", "file", "url"]

  predicate SqlName(name: seq<string>) {
    |name| >= 2 && name[|name| - 1] in {"execute", "executemany", "executescript"}
  }

  /** What a keyword argument is given; a `**` argument has the empty name. */
  function Keyword<T>(names: seq<string>, values: seq<T>, key: string): Option<T> {
    if names == [] || values == [] then None
    else match Keyword(names[1..], values[1..], key)
      case Some(x) => Some(x)
      case None => if names[0] == key then Some(values[0]) else None
  }

  function FirstKeyword<T>(names: seq<string>, values: seq<T>, keys: seq<string>): Option<T> {
    if keys == [] then None
    else match Keyword(names, values, keys[0])
      case Some(x) => Some(x)
      case None => FirstKeyword(names, values, keys[1..])
  }

  lemma {:induction false} KeywordIsAValue<T>(names: seq<string>, values: seq<T>, key: string)
    requires Keyword(names, values, key) != None
    ensures Keyword(names, values, key).value in values
  {
    if Keyword(names[1..], values[1..], key) != None {
      KeywordIsAValue(names[1..], values[1..], key);
    }
  }

  lemma {:induction false} FirstKeywordIsAValue<T>(names: seq<string>, values: seq<T>, keys: seq<string>)
    requires FirstKeyword(names, values, keys) != None
    ensures FirstKeyword(names, values, keys).value in values
    decreases |keys|
  {
    if Keyword(names, values, keys[0]) != None {
      KeywordIsAValue(names, values, keys[0]);
    } else {
      FirstKeywordIsAValue(names, values, keys[1..]);
    }
  }

  /** The argument a sink is judged by: the first positional one, else the first listed keyword present. */
  function Argument(e: Expr): Option<Expr>
    requires e.Call?
  {
    if e.args != [] then Some(e.args[0]) else FirstKeyword(e.kwNames, e.kwValues, ARGUMENT_KEYWORDS)
  }

  function ShellFlag(e: Expr): Option<Expr>
    requires e.Call?
  {
    Keyword(e.kwNames, e.kwValues, "shell")
  }

  function OptionalFact(s: Scope, e: Option<Expr>): Fact {
    match e
    case Some(x) => FactOf(s, x, 0)
    case None => UNKNOWN
  }

  function CallReports(s: Scope, e: Expr): seq<Report>
    requires e.Call?
  {
    var name, argument := Canonical(s, e.func), OptionalFact(s, Argument(e));
    if Argument(e) == None || argument.constant then []
    else
      (if SqlName(name) then [Report(e.line, DynamicSql, argument.sources)] else [])
      + (if name in SHELL_NAMES || (name in SUBPROCESS_NAMES && OptionalFact(s, ShellFlag(e)).value == Bool(true))
         then [Report(e.line, ShellInjection, argument.sources)] else [])
      + (if name in PICKLE_NAMES then [Report(e.line, UnsafeDeserialization, argument.sources)] else [])
  }

  /** Everything the visit of an expression wants to report, in visiting order. */
  function Wanted(s: Scope, e: Expr): seq<Report>
    decreases e
  {
    match e
    case Const(_) => []
    case Name(_) => []
    case Attr(base, _, _) => Wanted(s, base)
    case Call(func, args, _, kwValues, _) =>
      CallReports(s, e) + Wanted(s, func) + WantedAll(s, args) + WantedAll(s, kwValues)
    case Build(_, children) => WantedAll(s, children)
    case Binds(_, _, children) => WantedAll(s, children)
    case Opaque(_, children) => WantedAll(s, children)
  }

  function WantedAll(s: Scope, es: seq<Expr>): seq<Report>
    decreases es
  {
    if es == [] then [] else Wanted(s, es[0]) + WantedAll(s, es[1..])
  }

  // ----- statements --------------------------------------------------------------------------

  function Bound(s: Scope, target: string, value: Expr, line: nat): Scope {
    var fact := FactOf(s, value, 0);
    var stored := if !fact.constant && fact.sources != []
                  then Fact(false, NoneLit,
                            Sources([fact, Fact(false, NoneLit, [Assigned(target, line)], false, false)]),
                            fact.pathlike, fact.client)
                  else fact;
    Scope(s.bindings[target := stored], s.aliases - {target})
  }

  /** Real and imaginary part of a number; booleans are numbers too. */
  function Number(l: Lit): Option<(real, real)> {
    match l
    case Bool(b) => Some((if b then 1.0 else 0.0, 0.0))
    case Int(n) => Some((n as real, 0.0))
    case Float(x) => Some((x, 0.0))
    case Imaginary(y) => Some((0.0, y))
    case _ => None
  }

  /** Python's equality on literals: numbers compare by value. */
  predicate PyEqual(a: Lit, b: Lit) {
    a == b || (Number(a).Some? && Number(a) == Number(b))
  }

  predicate SameFact(a: Fact, b: Fact) {
    && a.constant == b.constant && PyEqual(a.value, b.value) && a.sources == b.sources
    && a.pathlike == b.pathlike && a.client == b.client
  }

  function JoinFact(a: Fact, b: Fact): Fact {
    if SameFact(a, b) then a
    else Fact(a.constant && b.constant, NoneLit, Sources([a, b]), a.pathlike || b.pathlike, a.client || b.client)
  }

  function Join(left: map<string, Fact>, right: map<string, Fact>): map<string, Fact> {
    map k | k in left.Keys + right.Keys :: JoinFact(Lookup(left, k), Lookup(right, k))
  }

  function After(s: Scope, st: Stmt): Scope
    decreases st
  {
    match st
    case Assign(target, value, line) => Bound(s, target, value, line)
    case Do(_) => s
    case If(_, body, orelse) =>
      var left := AfterAll(s, body);
      var right := AfterAll(Scope(s.bindings, left.aliases), orelse);
      Scope(Join(left.bindings, right.bindings), right.aliases)
  }

  function AfterAll(s: Scope, ss: seq<Stmt>): Scope
    decreases ss
  {
    if ss == [] then s else AfterAll(After(s, ss[0]), ss[1..])
  }

  function StmtWanted(s: Scope, st: Stmt): seq<Report>
    decreases st
  {
    match st
    case Assign(_, value, _) => Wanted(s, value)
    case Do(e) => Wanted(s, e)
    case If(test, body, orelse) =>
      Wanted(s, test) + StmtsWanted(s, body)
      + StmtsWanted(Scope(s.bindings, AfterAll(s, body).aliases), orelse)
  }

  function StmtsWanted(s: Scope, ss: seq<Stmt>): seq<Report>
    decreases ss
  {
    if ss == [] then [] else StmtWanted(s, ss[0]) + StmtsWanted(After(s, ss[0]), ss[1..])
  }

  // ----- recorded findings -------------------------------------------------------------------

  predicate SameIdentity(a: Report, b: Report) {
    a.line == b.line && a.check == b.check
  }

  predicate Reported(findings: seq<Report>, line: nat, check: Check) {
    exists f :: f in findings && f.line == line && f.check == check
  }

  function Add(findings: seq<Report>, r: Report, selected: set<Check>, cap: nat): seq<Report> {
    if r.check !in selected || |findings| >= cap || Reported(findings, r.line, r.check) then findings
    else findings + [r]
  }

  function AddAll(findings: seq<Report>, rs: seq<Report>, selected: set<Check>, cap: nat): seq<Report>
    decreases |rs|
  {
    if rs == [] then findings else AddAll(Add(findings, rs[0], selected, cap), rs[1..], selected, cap)
  }

  lemma {:induction false} AddAllSplit(fs: seq<Report>, a: seq<Report>, b: seq<Report>, selected: set<Check>, cap: nat)
    ensures AddAll(fs, a + b, selected, cap) == AddAll(AddAll(fs, a, selected, cap), b, selected, cap)
    decreases |a|
  {
    if a == [] {
      assert a + b == b;
    } else {
      assert (a + b)[1..] == a[1..] + b;
      AddAllSplit(Add(fs, a[0], selected, cap), a[1..], b, selected, cap);
    }
  }

  ghost predicate Distinct(fs: seq<Report>) {
    forall i, j :: 0 <= i < j < |fs| ==> !SameIdentity(fs[i], fs[j])
  }

  /** Nothing wanted is lost unless the cap is reached, nothing else is added, and no (line, rule) repeats. */
  lemma {:induction false} AddAllReports(fs: seq<Report>, rs: seq<Report>, selected: set<Check>, cap: nat)
    requires |fs| <= cap && Distinct(fs)
    ensures var r := AddAll(fs, rs, selected, cap);
            && fs <= r && |r| <= cap && Distinct(r)
            && (forall f :: f in r ==> f in fs || (f in rs && f.check in selected))
            && (|r| < cap ==> forall w :: w in rs && w.check in selected ==> Reported(r, w.line, w.check))
    decreases |rs|
  {
    if rs != [] {
      var next := Add(fs, rs[0], selected, cap);
      AddAllReports(next, rs[1..], selected, cap);
      var r := AddAll(fs, rs, selected, cap);
      if |r| < cap && rs[0].check in selected {
        assert Reported(next, rs[0].line, rs[0].check) by {
          if next != fs { assert next[|fs|] == rs[0]; }
        }
        var f :| f in next && f.line == rs[0].line && f.check == rs[0].check;
        assert f in r;
      }
    }
  }

  // ----- the visitor -------------------------------------------------------------------------

  class Analyzer {
    var bindings: map<string, Fact>
    var aliases: map<string, seq<string>>
    var findings: seq<Report>
    var identities: set<(nat, Check)>
    const selected: set<Check>
    const cap: nat

    constructor (aliases: map<string, seq<string>>, selected: set<Check>, cap: nat)
      ensures Valid() && findings == [] && bindings == map[]
      ensures this.aliases == aliases && this.selected == selected && this.cap == cap
    {
      this.bindings, this.aliases, this.findings, this.identities := map[], aliases, [], {};
      this.selected, this.cap := selected, cap;
    }

    ghost predicate Valid()
      reads this
    {
      forall line: nat, check: Check :: (line, check) in identities <==> Reported(findings, line, check)
    }

    function Current(): Scope
      reads this
    {
      Scope(bindings, aliases)
    }

    method Record(r: Report)
      requires Valid()
      modifies this`findings, this`identities
      ensures Valid()
      ensures findings == Add(old(findings), r, selected, cap)
    {
      if r.check !in selected || |findings| >= cap || (r.line, r.check) in identities {
        return;
      }
      identities := identities + {(r.line, r.check)};
      findings := findings + [r];
      assert findings[|findings| - 1] == r;
    }

    /** Reports the call itself if its judged argument is not constant. */
    method ReportCall(e: Expr)
      requires Valid() && e.Call?
      modifies this`findings, this`identities
      ensures Valid()
      ensures findings == AddAll(old(findings), CallReports(Current(), e), selected, cap)
    {
      var s := Current();
      var name, argument := Canonical(s, e.func), Argument(e);
      if argument == None || FactOf(s, argument.value, 0).constant {
        return;
      }

      ghost var start := findings;
      var trace := FactOf(s, argument.value, 0).sources;
      ghost var sql, shell, pickle: seq<Report> := [], [], [];
      if SqlName(name) {
        Record(Report(e.line, DynamicSql, trace));
        sql := [Report(e.line, DynamicSql, trace)];
      }
      if name in SHELL_NAMES || (name in SUBPROCESS_NAMES && OptionalFact(s, ShellFlag(e)).value == Bool(true)) {
        Record(Report(e.line, ShellInjection, trace));
        shell := [Report(e.line, ShellInjection, trace)];
      }
      if name in PICKLE_NAMES {
        Record(Report(e.line, UnsafeDeserialization, trace));
        pickle := [Report(e.line, UnsafeDeserialization, trace)];
      }
      assert CallReports(s, e) == sql + shell + pickle;
      AddAllSplit(start, sql, shell, selected, cap);
      AddAllSplit(start, sql + shell, pickle, selected, cap);
    }

    method VisitCall(e: Expr)
      requires Valid() && e.Call?
      modifies this`findings, this`identities
      ensures Valid()
      ensures findings == AddAll(old(findings), Wanted(Current(), e), selected, cap)
      decreases e, 0
    {
      ghost var start, own := findings, CallReports(Current(), e);
      ghost var func, args := Wanted(Current(), e.func), WantedAll(Current(), e.args);
      ReportCall(e);
      VisitExpr(e.func);
      VisitExprs(e.args);
      VisitExprs(e.kwValues);
      AddAllSplit(start, own, func, selected, cap);
      AddAllSplit(start, own + func, args, selected, cap);
      AddAllSplit(start, own + func + args, WantedAll(Current(), e.kwValues), selected, cap);
    }

    method VisitExpr(e: Expr)
      requires Valid()
      modifies this`findings, this`identities
      ensures Valid()
      ensures findings == AddAll(old(findings), Wanted(Current(), e), selected, cap)
      decreases e, 1
    {
      match e
      case Const(_) =>
      case Name(_) =>
      case Attr(base, _, _) => VisitExpr(base);
      case Call(_, _, _, _, _) => VisitCall(e);
      case Build(_, children) => VisitExprs(children);
      case Binds(_, _, children) => VisitExprs(children);
      case Opaque(_, children) => VisitExprs(children);
    }

    method VisitExprs(es: seq<Expr>)
      requires Valid()
      modifies this`findings, this`identities
      ensures Valid()
      ensures findings == AddAll(old(findings), WantedAll(Current(), es), selected, cap)
      decreases es, 0
    {
      if es != [] {
        ghost var start := findings;
        VisitExpr(es[0]);
        VisitExprs(es[1..]);
        AddAllSplit(start, Wanted(Current(), es[0]), WantedAll(Current(), es[1..]), selected, cap);
      }
    }

    method Bind(target: string, value: Expr, line: nat)
      modifies this`bindings, this`aliases
      ensures Current() == Bound(old(Current()), target, value, line)
    {
      var fact := FactOf(Current(), value, 0);
      if !fact.constant && fact.sources != [] {
        var trace := CollectSources([fact, Fact(false, NoneLit, [Assigned(target, line)], false, false)]);
        fact := Fact(false, NoneLit, trace, fact.pathlike, fact.client);
      }
      bindings := bindings[target := fact];
      aliases := aliases - {target};
    }

    /** Merges the bindings of two branches key by key. */
    method JoinBranches(left: map<string, Fact>, right: map<string, Fact>)
      modifies this`bindings
      ensures bindings == Join(left, right)
    {
      bindings := map[];
      var keys := left.Keys + right.Keys;
      while keys != {}
        invariant keys <= left.Keys + right.Keys
        invariant bindings.Keys == left.Keys + right.Keys - keys
        invariant forall k :: k in bindings ==> bindings[k] == JoinFact(Lookup(left, k), Lookup(right, k))
        decreases keys
      {
        var key :| key in keys;
        var first, second := Lookup(left, key), Lookup(right, key);
        if SameFact(first, second) {
          bindings := bindings[key := first];
        } else {
          var trace := CollectSources([first, second]);
          bindings := bindings[key := Fact(first.constant && second.constant, NoneLit, trace,
                                           first.pathlike || second.pathlike, first.client || second.client)];
        }
        keys := keys - {key};
      }
    }

    method VisitIf(st: Stmt)
      requires Valid() && st.If?
      modifies this
      ensures Valid()
      ensures Current() == After(old(Current()), st)
      ensures findings == AddAll(old(findings), StmtWanted(old(Current()), st), selected, cap)
      decreases st, 0
    {
      ghost var start, s := findings, Current();
      VisitExpr(st.test);
      var before := bindings;
      VisitStmts(st.body);
      var left := bindings;
      ghost var mid := Scope(before, aliases);
      bindings := before;
      VisitStmts(st.orelse);
      var right := bindings;
      JoinBranches(left, right);
      AddAllSplit(start, Wanted(s, st.test), StmtsWanted(s, st.body), selected, cap);
      AddAllSplit(start, Wanted(s, st.test) + StmtsWanted(s, st.body), StmtsWanted(mid, st.orelse), selected, cap);
    }

    method VisitStmt(st: Stmt)
      requires Valid()
      modifies this
      ensures Valid()
      ensures Current() == After(old(Current()), st)
      ensures findings == AddAll(old(findings), StmtWanted(old(Current()), st), selected, cap)
      decreases st, 1
    {
      match st
      case Assign(target, value, line) =>
        VisitExpr(value);
        Bind(target, value, line);
      case Do(e) => VisitExpr(e);
      case If(_, _, _) => VisitIf(st);
    }

    method VisitStmts(ss: seq<Stmt>)
      requires Valid()
      modifies this
      ensures Valid()
      ensures Current() == AfterAll(old(Current()), ss)
      ensures findings == AddAll(old(findings), StmtsWanted(old(Current()), ss), selected, cap)
      decreases ss, 0
    {
      if ss != [] {
        ghost var start, s := findings, Current();
        VisitStmt(ss[0]);
        VisitStmts(ss[1..]);
        AddAllSplit(start, StmtWanted(s, ss[0]), StmtsWanted(After(s, ss[0]), ss[1..]), selected, cap);
      }
    }
  }
}
