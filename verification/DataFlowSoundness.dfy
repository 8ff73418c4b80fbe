/** What programs do, and why the analysis does not miss a sink that a non-literal value can reach. */
module DataFlowSoundness {
  import opened Wrappers
  import opened DataFlow

  // ----- meaning of expressions --------------------------------------------------------------

  /** A value, reduced to what it was built from. */
  datatype Data = Literal(lit: Lit) | Built(kind: string, parts: seq<Data>) | NonLiteral

  predicate FromLiterals(d: Data) {
    match d
    case Literal(_) => true
    case Built(_, parts) => forall p :: p in parts ==> FromLiterals(p)
    case NonLiteral => false
  }

  const CONTAINERS := {"list", "set", "dict"}
  const TEXTS := {"format", "join", "formatted"}

  /** A value that a call can change in place: a container, or something with a container in it. */
  predicate Changeable(d: Data) {
    d.Built? && (d.kind in CONTAINERS || (d.kind !in TEXTS && exists p :: p in d.parts && Changeable(p)))
  }

  type Env = map<string, Data>

  /** What a name may hold that was given this value: whatever has a name and can be changed may have been changed. */
  function Kept(d: Data): Data {
    if Changeable(d) then NonLiteral else d
  }

  /** The names hold values of which nothing is known. */
  function Loosen(env: Env, names: set<string>): Env {
    map k | k in env.Keys + names :: if k in names then NonLiteral else env[k]
  }

  function Mentioned(e: Expr): set<string>
    decreases e
  {
    match e
    case Const(_) => {}
    case Name(id) => {id}
    case Attr(base, _, _) => Mentioned(base)
    case Call(func, args, _, kwValues, _) => Mentioned(func) + MentionedAll(args) + MentionedAll(kwValues)
    case Build(_, children) => MentionedAll(children)
    case Binds(_, _, children) => MentionedAll(children)
    case Opaque(_, children) => MentionedAll(children)
  }

  function MentionedAll(es: seq<Expr>): set<string>
    decreases es
  {
    if es == [] then {} else Mentioned(es[0]) + MentionedAll(es[1..])
  }

  function AsSet(names: seq<string>): set<string> {
    set n | n in names
  }

  /** Names of which nothing is known inside a binding form: the names it binds and, if it runs later, every name it
      mentions, for all of them may have been assigned again by then. */
  function Loose(e: Expr): set<string>
    requires e.Binds?
  {
    AsSet(e.names) + if e.form.Deferred? then MentionedAll(e.children) else {}
  }

  function RuntimeName(aliases: map<string, seq<string>>, func: Expr): seq<string> {
    Resolve(aliases, Dotted(func))
  }

  /** Input, attributes of unknown objects, unknown calls and every form the analysis does not understand yield
      values that are not built from literals. */
  function Eval(aliases: map<string, seq<string>>, e: Expr, env: Env): Data
    decreases e
  {
    match e
    case Const(lit) => Literal(lit)
    case Name(id) => if id in env then env[id] else NonLiteral
    case Attr(_, _, _) => NonLiteral
    case Build(kind, children) => Built(kind, EvalAll(aliases, children, env))
    case Binds(_, _, _) => NonLiteral
    case Opaque(_, _) => NonLiteral
    case Call(func, args, _, kwValues, _) =>
      var name := RuntimeName(aliases, func);
      if name == ["input"] || ExternalName(name) then NonLiteral
      else if func.Attr? && func.attr in {"format", "join"} then
        Built(func.attr, [Eval(aliases, func.base, env)] + EvalAll(aliases, args, env) + EvalAll(aliases, kwValues, env))
      else NonLiteral
  }

  function EvalAll(aliases: map<string, seq<string>>, es: seq<Expr>, env: Env): (r: seq<Data>)
    ensures |r| == |es|
    ensures forall i :: 0 <= i < |es| ==> r[i] == Eval(aliases, es[i], env)
    decreases es
  {
    if es == [] then [] else [Eval(aliases, es[0], env)] + EvalAll(aliases, es[1..], env)
  }

  // ----- sink events -------------------------------------------------------------------------

  datatype Event = Event(line: nat, check: Check, data: Data)

  /** The sinks, by what running them does; the tables of the analysis are compared with these. */
  const SHELL_SINKS := {["os", "system"], ["os", "popen"]}
  const SUBPROCESS_SINKS := {["subprocess", "run"], ["subprocess", "call"], ["subprocess", "Popen"],
                             ["subprocess", "check_call"], ["subprocess", "check_output"]}
  const DESERIALIZERS := {["pickle", "load"], ["pickle", "loads"], ["dill", "load"], ["dill", "loads"],
                          ["marshal", "load"], ["marshal", "loads"]}

  predicate RunsSql(name: seq<string>) {
    && |name| >= 2
    && (name[|name| - 1] == "execute" || name[|name| - 1] == "executemany" || name[|name| - 1] == "executescript")
  }

  /** The analysis judges every sink, and nothing else. */
  lemma EverySinkIsJudged(name: seq<string>)
    ensures RunsSql(name) <==> SqlName(name)
    ensures name in SHELL_SINKS <==> name in SHELL_NAMES
    ensures name in SUBPROCESS_SINKS <==> name in SUBPROCESS_NAMES
    ensures name in DESERIALIZERS <==> name in PICKLE_NAMES
  {
  }

  /** Names under which the sinks take their query, command or payload. */
  const SQL_INPUTS := ["query", "sql", "operation", "statement"]
  const SHELL_INPUTS := ["command", "cmd"]
  const SUBPROCESS_INPUTS := ["args"]
  const PICKLE_INPUTS := ["file", "data", "str", "bytes"]

  function InputKeys(name: seq<string>): seq<string> {
    if RunsSql(name) then SQL_INPUTS
    else if name in SHELL_SINKS then SHELL_INPUTS
    else if name in SUBPROCESS_SINKS then SUBPROCESS_INPUTS
    else PICKLE_INPUTS
  }

  /** What a call hands to a sink: nothing, a known argument, or something under another name or behind a `**`. */
  datatype Input = NoInput | Given(value: Expr) | Unlisted

  function SinkInput(name: seq<string>, e: Expr): Input
    requires e.Call?
  {
    if e.args != [] then Given(e.args[0])
    else match FirstKeyword(e.kwNames, e.kwValues, InputKeys(name))
      case Some(x) => Given(x)
      case None => if e.kwNames == [] || e.kwValues == [] then NoInput else Unlisted
  }

  function InputData(aliases: map<string, seq<string>>, input: Input, env: Env): Data {
    if input.Given? then Eval(aliases, input.value, env) else NonLiteral
  }

  predicate Truthy(l: Lit) {
    match l
    case Str(text) => text != ""
    case Bool(b) => b
    case Int(n) => n != 0
    case Float(x) => x != 0.0
    case Imaginary(y) => y != 0.0
    case NoneLit => false
    case OtherLit(_, truthy) => truthy
  }

  predicate MayBeTrue(d: Data) {
    d.Literal? ==> Truthy(d.lit)
  }

  /** An argument list that may hold more than it shows. */
  predicate Spreads(e: Expr)
    requires e.Call?
  {
    "" in e.kwNames || exists x :: x in e.args && x.Opaque? && x.kind == "starred"
  }

  const SHELL_POSITION := 8

  /** A subprocess call opens a shell if its flag is true in Python's sense, however the flag is passed. */
  predicate MayOpenShell(aliases: map<string, seq<string>>, e: Expr, env: Env)
    requires e.Call?
  {
    || (ShellFlag(e) != None && MayBeTrue(Eval(aliases, ShellFlag(e).value, env)))
    || |e.args| > SHELL_POSITION
    || Spreads(e)
  }

  function CallEvents(aliases: map<string, seq<string>>, e: Expr, env: Env): seq<Event>
    requires e.Call?
  {
    var name := RuntimeName(aliases, e.func);
    var data := InputData(aliases, SinkInput(name, e), env);
    if SinkInput(name, e).NoInput? then []
    else
      (if RunsSql(name) then [Event(e.line, DynamicSql, data)] else [])
      + (if name in SHELL_SINKS || (name in SUBPROCESS_SINKS && MayOpenShell(aliases, e, env))
         then [Event(e.line, ShellInjection, data)] else [])
      + (if name in DESERIALIZERS then [Event(e.line, UnsafeDeserialization, data)] else [])
  }

  function Events(aliases: map<string, seq<string>>, e: Expr, env: Env): seq<Event>
    decreases e
  {
    match e
    case Const(_) => []
    case Name(_) => []
    case Attr(base, _, _) => Events(aliases, base, env)
    case Call(func, args, _, kwValues, _) =>
      Events(aliases, func, env) + EventsAll(aliases, args, env) + EventsAll(aliases, kwValues, env)
      + CallEvents(aliases, e, env)
    case Build(_, children) => EventsAll(aliases, children, env)
    case Binds(_, _, children) => EventsAll(aliases, children, Loosen(env, Loose(e)))
    case Opaque(_, children) => EventsAll(aliases, children, env)
  }

  function EventsAll(aliases: map<string, seq<string>>, es: seq<Expr>, env: Env): seq<Event>
    decreases es
  {
    if es == [] then [] else Events(aliases, es[0], env) + EventsAll(aliases, es[1..], env)
  }

  /** Names that evaluating an expression leaves bound. */
  function LeftBound(e: Expr): set<string>
    decreases e
  {
    match e
    case Const(_) => {}
    case Name(_) => {}
    case Attr(base, _, _) => LeftBound(base)
    case Call(func, args, _, kwValues, _) => LeftBound(func) + LeftBoundAll(args) + LeftBoundAll(kwValues)
    case Build(_, children) => LeftBoundAll(children)
    case Binds(form, names, children) => (if form.Lasting? then AsSet(names) else {}) + LeftBoundAll(children)
    case Opaque(_, children) => LeftBoundAll(children)
  }

  function LeftBoundAll(es: seq<Expr>): set<string>
    decreases es
  {
    if es == [] then {} else LeftBound(es[0]) + LeftBoundAll(es[1..])
  }

  /** The environment during and after an expression; a name it leaves bound may have its old or its new value. */
  function Within(e: Expr, env: Env): Env {
    Loosen(env, LeftBound(e))
  }

  /** One execution: `choose` decides every branch by the position of its `if`. */
  function Exec(aliases: map<string, seq<string>>, st: Stmt, env: Env, choose: seq<nat> -> bool, at: seq<nat>): (Env, seq<Event>)
    decreases st
  {
    match st
    case Assign(target, value, _) =>
      var inside := Within(value, env);
      (inside[target := Kept(Eval(aliases, value, inside))], Events(aliases, value, inside))
    case Do(e) => (Within(e, env), Events(aliases, e, Within(e, env)))
    case If(test, body, orelse) =>
      var inside := Within(test, env);
      var (env', events) := if choose(at) then ExecAll(aliases, body, inside, choose, at + [0], 0)
                            else ExecAll(aliases, orelse, inside, choose, at + [1], 0);
      (env', Events(aliases, test, inside) + events)
  }

  function ExecAll(aliases: map<string, seq<string>>, ss: seq<Stmt>, env: Env, choose: seq<nat> -> bool, at: seq<nat>,
                   i: nat)
    : (Env, seq<Event>)
    decreases ss
  {
    if ss == [] then (env, [])
    else
      var (env1, events1) := Exec(aliases, ss[0], env, choose, at + [i]);
      var (env2, events2) := ExecAll(aliases, ss[1..], env1, choose, at, i + 1);
      (env2, events1 + events2)
  }

  // ----- the fragment ------------------------------------------------------------------------

  /** Builtins that can assign a name behind its back. */
  const NAMESPACE_NAMES := {"exec", "eval", "globals", "locals", "vars", "setattr"}
  const MODULE_NAMES := {"input", "os", "subprocess", "pickle", "dill", "marshal", "flask", "sys", "pathlib", "requests",
                         "httpx", "builtins"} + NAMESPACE_NAMES

  predicate Reserved(aliases: map<string, seq<string>>, id: string) {
    id in aliases || id in MODULE_NAMES || id == ""
  }

  predicate SinkName(name: seq<string>) {
    RunsSql(name) || name in SHELL_SINKS || name in SUBPROCESS_SINKS || name in DESERIALIZERS
  }

  /** The sink's input, if it gets one, is where the analysis looks for it. */
  predicate InputIsJudged(name: seq<string>, e: Expr)
    requires e.Call?
  {
    SinkInput(name, e).NoInput? || (Argument(e) != None && SinkInput(name, e) == Given(Argument(e).value))
  }

  /** The analysis knows the shell flag: it is `True`, or a literal that is false. */
  predicate FlagIsKnown(s: Scope, e: Expr)
    requires e.Call?
  {
    && !Spreads(e) && |e.args| <= SHELL_POSITION
    && (ShellFlag(e) != None ==>
          var flag, value := ShellFlag(e).value, OptionalFact(s, ShellFlag(e)).value;
          value == Bool(true) || flag == Const(NoneLit) || (value != NoneLit && !Truthy(value)))
  }

  predicate PlainCall(s: Scope, e: Expr)
    requires e.Call?
  {
    var name := RuntimeName(s.aliases, e.func);
    && name !in PATH_NAMES
    && (name != [] ==> name[0] !in NAMESPACE_NAMES + {"builtins"})
    && (name in SUBPROCESS_SINKS ==> FlagIsKnown(s, e))
    && (SinkName(name) ==> InputIsJudged(name, e))
  }

  /** Modules and sinks are called, not handed around, and the names bound inside expressions are among those that no
      statement assigns. */
  predicate Plain(s: Scope, loose: set<string>, e: Expr)
    decreases e, 1
  {
    match e
    case Const(_) => true
    case Name(id) => !Reserved(s.aliases, id)
    case Attr(base, _, _) => !SinkName(RuntimeName(s.aliases, e)) && PlainBase(s, loose, base)
    case Call(func, args, _, kwValues, _) =>
      && PlainCall(s, e) && PlainAll(s, loose, args) && PlainAll(s, loose, kwValues)
      && (match func
          case Name(_) => true
          case Attr(base, _, _) => PlainBase(s, loose, base)
          case _ => Plain(s, loose, func))
    case Build(_, children) => PlainAll(s, loose, children)
    case Binds(_, names, children) =>
      Loose(e) <= loose && (forall n :: n in names ==> !Reserved(s.aliases, n)) && PlainAll(s, loose, children)
    case Opaque(_, children) => PlainAll(s, loose, children)
  }

  /** What an attribute is taken of. */
  predicate PlainBase(s: Scope, loose: set<string>, e: Expr)
    decreases e, 2
  {
    match e
    case Name(_) => true
    case Attr(base, _, _) => !SinkName(RuntimeName(s.aliases, e)) && PlainBase(s, loose, base)
    case _ => Plain(s, loose, e)
  }

  predicate PlainAll(s: Scope, loose: set<string>, es: seq<Expr>)
    decreases es
  {
    es == [] || (Plain(s, loose, es[0]) && PlainAll(s, loose, es[1..]))
  }

  /** No container becomes part of the value. */
  predicate Frozen(e: Expr) {
    e.Build? ==> e.kind in TEXTS || (e.kind !in CONTAINERS && forall x :: x in e.children ==> Frozen(x))
  }

  /** No statement assigns an imported or well-known name, or one that is bound inside an expression, or a container built
      from literals. */
  predicate PlainStmt(s: Scope, loose: set<string>, st: Stmt)
    decreases st
  {
    match st
    case Assign(target, value, _) =>
      && !Reserved(s.aliases, target) && target !in loose && Plain(s, loose, value)
      && (FactOf(s, value, 0).constant ==> Frozen(value))
    case Do(e) => Plain(s, loose, e)
    case If(test, body, orelse) =>
      && Plain(s, loose, test) && PlainStmts(s, loose, body)
      && PlainStmts(Scope(s.bindings, AfterAll(s, body).aliases), loose, orelse)
  }

  predicate PlainStmts(s: Scope, loose: set<string>, ss: seq<Stmt>)
    decreases ss
  {
    ss == [] || (PlainStmt(s, loose, ss[0]) && PlainStmts(After(s, ss[0]), loose, ss[1..]))
  }

  // ----- soundness of facts ------------------------------------------------------------------

  predicate FactFits(aliases: map<string, seq<string>>, loose: set<string>, id: string, f: Fact) {
    !Reserved(aliases, id) && !f.pathlike && (f.value != NoneLit ==> f.constant) && (id in loose ==> !f.constant)
  }

  /** What a fact promises about a value. */
  predicate Promises(f: Fact, d: Data) {
    && (f.constant ==> FromLiterals(d))
    && (f.value != NoneLit ==> d.Literal? && PyEqual(f.value, d.lit))
  }

  /** The scope of a fragment program, and the environments of the executions it covers. */
  ghost predicate Covers(s: Scope, loose: set<string>, env: Env) {
    && (forall k :: k in s.bindings ==> FactFits(s.aliases, loose, k, s.bindings[k]))
    && (forall k :: k in s.bindings && s.bindings[k].constant ==>
          k in env && Promises(s.bindings[k], env[k]) && !Changeable(env[k]))
  }

  /** Facts about names that are not loose do not depend on the loose ones. */
  lemma LoosenCovers(s: Scope, loose: set<string>, env: Env, names: set<string>)
    requires Covers(s, loose, env) && names <= loose
    ensures Covers(s, loose, Loosen(env, names))
  {
  }

  /** The analysis sees the runtime name, or one with an unknown head in place of a local one. */
  lemma CanonicalOrLocal(s: Scope, loose: set<string>, env: Env, func: Expr)
    requires Covers(s, loose, env)
    ensures var c, r := Canonical(s, func), RuntimeName(s.aliases, func);
            c == r || (r != [] && r[0] !in MODULE_NAMES + {"request"} && c == ["<local>"] + r[1..])
  {
    var head := Dotted(func)[0];
    if head in s.bindings {
      assert FactFits(s.aliases, loose, head, s.bindings[head]);
    }
  }

  /** The name the analysis sees is the runtime name, or a local object that no exact rule can match. */
  lemma CanonicalAgrees(s: Scope, loose: set<string>, env: Env, func: Expr)
    requires Covers(s, loose, env)
    ensures var c, r := Canonical(s, func), RuntimeName(s.aliases, func);
            && (c == ["input"] <==> r == ["input"])
            && (ExternalName(c) <==> ExternalName(r))
            && (SqlName(c) <==> SqlName(r))
            && (c in SHELL_NAMES <==> r in SHELL_NAMES)
            && (c in SUBPROCESS_NAMES <==> r in SUBPROCESS_NAMES)
            && (c in PICKLE_NAMES <==> r in PICKLE_NAMES)
            && (c in PATH_NAMES <==> r in PATH_NAMES)
  {
    CanonicalOrLocal(s, loose, env, func);
    hide Canonical, RuntimeName, ExternalName, SqlName, Covers, SHELL_NAMES, SUBPROCESS_NAMES, PICKLE_NAMES, PATH_NAMES;
    var r := RuntimeName(s.aliases, func);
    if Canonical(s, func) != r {
      LocalMatchesNothing(r);
    }
  }

  lemma LocalMatchesNothing(name: seq<string>)
    requires name != [] && name[0] !in MODULE_NAMES + {"request"}
    ensures var local := ["<local>"] + name[1..];
            && !ExternalName(local) && !ExternalName(name) && (SqlName(local) <==> SqlName(name))
            && (forall n :: n in [local, name] ==>
                  && n != ["input"] && n !in SHELL_NAMES && n !in SUBPROCESS_NAMES
                  && n !in PICKLE_NAMES && n !in PATH_NAMES)
  {
    HeadDecides(["<local>"] + name[1..]);
    HeadDecides(name);
    LocalSqlName(name);
    hide ExternalName, SqlName, SHELL_NAMES, SUBPROCESS_NAMES, PICKLE_NAMES, PATH_NAMES;
  }

  lemma LocalSqlName(name: seq<string>)
    requires name != []
    ensures SqlName(["<local>"] + name[1..]) <==> SqlName(name)
  {
    var local := ["<local>"] + name[1..];
    assert |local| == |name| && (|name| >= 2 ==> local[|local| - 1] == name[|name| - 1]);
  }

  lemma HeadDecides(name: seq<string>)
    requires name != [] && name[0] !in MODULE_NAMES + {"request"}
    ensures name != ["input"] && !ExternalName(name)
    ensures name !in SHELL_NAMES && name !in SUBPROCESS_NAMES && name !in PICKLE_NAMES && name !in PATH_NAMES
  {
  }

  /** A fact keeps its promises about the value of the expression. */
  ghost predicate SoundAt(s: Scope, env: Env, e: Expr, depth: nat) {
    && !FactOf(s, e, depth).pathlike
    && (FactOf(s, e, depth).value != NoneLit ==> FactOf(s, e, depth).constant)
    && Promises(FactOf(s, e, depth), Eval(s.aliases, e, env))
  }

  ghost predicate SoundAll(s: Scope, env: Env, es: seq<Expr>, depth: nat) {
    forall i :: 0 <= i < |es| ==> SoundAt(s, env, es[i], depth)
  }

  lemma PartsFromLiterals(s: Scope, env: Env, es: seq<Expr>, depth: nat)
    requires SoundAll(s, env, es, depth)
    ensures AllConstant(FactsOf(s, es, depth)) ==> forall d :: d in EvalAll(s.aliases, es, env) ==> FromLiterals(d)
    ensures !exists f :: f in FactsOf(s, es, depth) && f.pathlike
  {
    var facts, data := FactsOf(s, es, depth), EvalAll(s.aliases, es, env);
    if AllConstant(facts) {
      forall i | 0 <= i < |es| ensures FromLiterals(data[i]) {
        assert facts[i] in facts && SoundAt(s, env, es[i], depth);
      }
    }
    forall i | 0 <= i < |es| ensures !facts[i].pathlike {
      assert SoundAt(s, env, es[i], depth);
    }
  }

  lemma BuildIsSound(s: Scope, env: Env, e: Expr, depth: nat)
    requires e.Build? && SoundAll(s, env, e.children, depth + 1)
    ensures SoundAt(s, env, e, depth)
  {
    PartsFromLiterals(s, env, e.children, depth + 1);
  }

  lemma AllConstantSplit(a: seq<Fact>, b: seq<Fact>)
    ensures AllConstant(a + b) <==> AllConstant(a) && AllConstant(b)
  {
    assert forall f :: f in a + b <==> f in a || f in b;
  }

  /** A call is taken for a constant only if it formats or joins constants. */
  lemma ConstantCall(s: Scope, e: Expr, depth: nat)
    requires e.Call? && Canonical(s, e.func) !in PATH_NAMES
    requires e.func.Attr? ==> !FactOf(s, e.func.base, depth + 1).pathlike
    ensures !FactOf(s, e, depth).pathlike && FactOf(s, e, depth).value == NoneLit
    ensures FactOf(s, e, depth).constant ==>
              && e.func.Attr? && e.func.attr in {"format", "join"} && FactOf(s, e.func.base, depth + 1).constant
              && AllConstant(FactsOf(s, e.args, depth + 1) + FactsOf(s, e.kwValues, depth + 1))
              && (Canonical(s, e.func) != ["input"] || "input" in s.bindings) && !ExternalName(Canonical(s, e.func))
  {
    hide Canonical, ExternalName, AllConstant, Sources, PATH_NAMES;
    if depth <= MAX_DEPTH {
      var arguments := FactsOf(s, e.args, depth + 1) + FactsOf(s, e.kwValues, depth + 1);
      var fact := CallFact(s, e, Canonical(s, e.func), arguments, depth);
      assert FactOf(s, e, depth) == fact || !FactOf(s, e, depth).constant;
    }
  }

  lemma CallIsSound(s: Scope, loose: set<string>, env: Env, e: Expr, depth: nat)
    requires Covers(s, loose, env) && e.Call? && PlainCall(s, e)
    requires SoundAll(s, env, e.args, depth + 1) && SoundAll(s, env, e.kwValues, depth + 1)
    requires e.func.Attr? ==> SoundAt(s, env, e.func.base, depth + 1)
    ensures SoundAt(s, env, e, depth)
  {
    CanonicalAgrees(s, loose, env, e.func);
    ConstantCall(s, e, depth);
    if FactOf(s, e, depth).constant {
      PartsFromLiterals(s, env, e.args, depth + 1);
      PartsFromLiterals(s, env, e.kwValues, depth + 1);
      AllConstantSplit(FactsOf(s, e.args, depth + 1), FactsOf(s, e.kwValues, depth + 1));
      assert "input" !in s.bindings;
      hide FactOf, FactsOf, AllConstant, Canonical, RuntimeName, ExternalName, Covers;
      FormattedFromLiterals(s, env, e);
    }
  }

  lemma FormattedFromLiterals(s: Scope, env: Env, e: Expr)
    requires e.Call? && e.func.Attr? && e.func.attr in {"format", "join"}
    requires RuntimeName(s.aliases, e.func) != ["input"] && !ExternalName(RuntimeName(s.aliases, e.func))
    requires FromLiterals(Eval(s.aliases, e.func.base, env))
    requires forall d :: d in EvalAll(s.aliases, e.args, env) || d in EvalAll(s.aliases, e.kwValues, env) ==> FromLiterals(d)
    ensures FromLiterals(Eval(s.aliases, e, env))
  {
    hide RuntimeName, ExternalName;
    var base := Eval(s.aliases, e.func.base, env);
    var args, kws := EvalAll(s.aliases, e.args, env), EvalAll(s.aliases, e.kwValues, env);
    assert Eval(s.aliases, e, env) == Built(e.func.attr, [base] + args + kws);
    assert forall p :: p in [base] + args + kws <==> p == base || p in args || p in kws;
  }

  lemma LeafIsSound(s: Scope, loose: set<string>, env: Env, e: Expr, depth: nat)
    requires Covers(s, loose, env) && (e.Const? || e.Name? || e.Attr? || e.Binds? || e.Opaque? || depth > MAX_DEPTH)
    ensures SoundAt(s, env, e, depth)
  {
    if e.Name? && e.id in s.bindings {
      assert FactFits(s.aliases, loose, e.id, s.bindings[e.id]);
    }
  }

  lemma {:induction false} FactIsSound(s: Scope, loose: set<string>, env: Env, e: Expr, depth: nat)
    requires Covers(s, loose, env) && (Plain(s, loose, e) || PlainBase(s, loose, e))
    ensures SoundAt(s, env, e, depth)
    decreases e, 0
  {
    if depth > MAX_DEPTH || !(e.Build? || e.Call?) {
      LeafIsSound(s, loose, env, e, depth);
    } else if e.Build? {
      FactsAreSound(s, loose, env, e.children, depth + 1);
      BuildIsSound(s, env, e, depth);
    } else {
      FactsAreSound(s, loose, env, e.args, depth + 1);
      FactsAreSound(s, loose, env, e.kwValues, depth + 1);
      if e.func.Attr? {
        FactIsSound(s, loose, env, e.func.base, depth + 1);
      }
      CallIsSound(s, loose, env, e, depth);
    }
  }

  lemma {:induction false} FactsAreSound(s: Scope, loose: set<string>, env: Env, es: seq<Expr>, depth: nat)
    requires Covers(s, loose, env) && PlainAll(s, loose, es)
    ensures SoundAll(s, env, es, depth)
    decreases es
  {
    if es != [] {
      FactIsSound(s, loose, env, es[0], depth);
      FactsAreSound(s, loose, env, es[1..], depth);
    }
  }

  lemma PartsAreConstant(s: Scope, e: Expr, depth: nat)
    requires e.Build? && FactOf(s, e, depth).constant
    ensures forall i :: 0 <= i < |e.children| ==> FactOf(s, e.children[i], depth + 1).constant
  {
    forall i | 0 <= i < |e.children| ensures FactOf(s, e.children[i], depth + 1).constant {
      assert FactsOf(s, e.children, depth + 1)[i] in FactsOf(s, e.children, depth + 1);
    }
  }

  /** A constant can be changed by calls exactly if a container is part of it. */
  lemma {:induction false} FrozenIffUnchangeable(s: Scope, loose: set<string>, env: Env, e: Expr, depth: nat)
    requires Covers(s, loose, env) && FactOf(s, e, depth).constant
    requires Plain(s, loose, e) || PlainBase(s, loose, e)
    ensures Frozen(e) <==> !Changeable(Eval(s.aliases, e, env))
    decreases e
  {
    if e.Build? {
      PartsAreConstant(s, e, depth);
      hide FactOf, Covers;
      forall i | 0 <= i < |e.children|
        ensures Frozen(e.children[i]) <==> !Changeable(EvalAll(s.aliases, e.children, env)[i])
      {
        ChildIsPlain(s, loose, e.children, i);
        FrozenIffUnchangeable(s, loose, env, e.children[i], depth + 1);
      }
      hide Plain, PlainAll;
      PartsDecide(e, EvalAll(s.aliases, e.children, env));
    }
  }

  lemma PartsDecide(e: Expr, parts: seq<Data>)
    requires e.Build? && |parts| == |e.children|
    requires forall i :: 0 <= i < |parts| ==> (Frozen(e.children[i]) <==> !Changeable(parts[i]))
    ensures Frozen(e) <==> !Changeable(Built(e.kind, parts))
  {
    assert (forall x :: x in e.children ==> Frozen(x)) <==> (forall p :: p in parts ==> !Changeable(p)) by {
      forall i | 0 <= i < |parts| ensures e.children[i] in e.children && parts[i] in parts {
      }
    }
  }

  lemma {:induction false} ChildIsPlain(s: Scope, loose: set<string>, es: seq<Expr>, i: nat)
    requires PlainAll(s, loose, es) && i < |es|
    ensures Plain(s, loose, es[i])
  {
    if i > 0 {
      ChildIsPlain(s, loose, es[1..], i - 1);
    }
  }

  // ----- soundness of joins and assignments --------------------------------------------------

  lemma BoundCovers(s: Scope, loose: set<string>, env: Env, target: string, value: Expr, line: nat)
    requires Covers(s, loose, env) && !Reserved(s.aliases, target) && target !in loose && Plain(s, loose, value)
    requires FactOf(s, value, 0).constant ==> Frozen(value)
    ensures Covers(Bound(s, target, value, line), loose, env[target := Kept(Eval(s.aliases, value, env))])
    ensures Bound(s, target, value, line).aliases == s.aliases
  {
    hide FactOf, Eval, Plain, Frozen, Sources;
    FactIsSound(s, loose, env, value, 0);
    if FactOf(s, value, 0).constant {
      FrozenIffUnchangeable(s, loose, env, value, 0);
    }
    assert s.aliases - {target} == s.aliases;
  }

  lemma JoinPromises(a: Fact, b: Fact, d: Data)
    requires (a.value != NoneLit ==> a.constant) && (b.value != NoneLit ==> b.constant)
    requires a.constant && b.constant && (Promises(a, d) || Promises(b, d))
    ensures Promises(JoinFact(a, b), d)
  {
  }

  /** A join is sound for every execution that either branch is sound for. */
  lemma JoinCovers(left: Scope, right: Scope, loose: set<string>, env: Env)
    requires left.aliases == right.aliases
    requires forall k :: k in left.bindings ==> FactFits(left.aliases, loose, k, left.bindings[k])
    requires forall k :: k in right.bindings ==> FactFits(left.aliases, loose, k, right.bindings[k])
    requires Covers(left, loose, env) || Covers(right, loose, env)
    ensures Covers(Scope(Join(left.bindings, right.bindings), right.aliases), loose, env)
  {
    var joined := Join(left.bindings, right.bindings);
    forall k | k in joined
      ensures FactFits(right.aliases, loose, k, joined[k])
      ensures joined[k].constant ==> k in env && Promises(joined[k], env[k]) && !Changeable(env[k])
    {
      var a, b := Lookup(left.bindings, k), Lookup(right.bindings, k);
      assert k in left.bindings || k in right.bindings;
      if joined[k].constant {
        assert a.constant && b.constant;
        assert k in left.bindings && k in right.bindings;
        JoinPromises(a, b, env[k]);
      }
    }
  }

  // ----- every event is wanted ---------------------------------------------------------------

  ghost predicate Wants(reports: seq<Report>, ev: Event) {
    exists r :: r in reports && r.line == ev.line && r.check == ev.check
  }

  ghost predicate CoversEvents(reports: seq<Report>, events: seq<Event>) {
    forall ev :: ev in events && !FromLiterals(ev.data) ==> Wants(reports, ev)
  }

  lemma CoversConcat(r1: seq<Report>, e1: seq<Event>, r2: seq<Report>, e2: seq<Event>)
    requires CoversEvents(r1, e1) && CoversEvents(r2, e2)
    ensures CoversEvents(r1 + r2, e1 + e2) && CoversEvents(r1 + r2, e2 + e1)
  {
    forall ev | ev in e1 + e2 && !FromLiterals(ev.data) ensures Wants(r1 + r2, ev) {
      if ev in e1 {
        var r :| r in r1 && r.line == ev.line && r.check == ev.check;
        assert r in r1 + r2;
      } else {
        var r :| r in r2 && r.line == ev.line && r.check == ev.check;
        assert r in r1 + r2;
      }
    }
    assert forall ev :: ev in e2 + e1 <==> ev in e1 + e2;
  }

  lemma EqualLiteralsAreAsTrue(a: Lit, b: Lit)
    requires PyEqual(a, b)
    ensures Truthy(a) <==> Truthy(b)
  {
  }

  /** Where the analysis knows the flag, a shell can open only if the fact about the flag is `True`. */
  lemma KnownFlagDecides(s: Scope, loose: set<string>, env: Env, e: Expr)
    requires Covers(s, loose, env) && e.Call? && FlagIsKnown(s, e)
    requires ShellFlag(e) != None ==> Plain(s, loose, ShellFlag(e).value)
    ensures MayOpenShell(s.aliases, e, env) ==> OptionalFact(s, ShellFlag(e)).value == Bool(true)
  {
    if ShellFlag(e) != None {
      var flag := ShellFlag(e).value;
      FactIsSound(s, loose, env, flag, 0);
      var value, d := FactOf(s, flag, 0).value, Eval(s.aliases, flag, env);
      if value != NoneLit {
        EqualLiteralsAreAsTrue(value, d.lit);
      }
    }
  }

  lemma CallEventsAreWanted(s: Scope, loose: set<string>, env: Env, e: Expr)
    requires Covers(s, loose, env) && e.Call? && PlainCall(s, e)
    requires Argument(e) != None ==> Plain(s, loose, Argument(e).value)
    requires ShellFlag(e) != None ==> Plain(s, loose, ShellFlag(e).value)
    ensures CoversEvents(CallReports(s, e), CallEvents(s.aliases, e, env))
  {
    CanonicalAgrees(s, loose, env, e.func);
    var name := RuntimeName(s.aliases, e.func);
    EverySinkIsJudged(name);
    if SinkName(name) && !SinkInput(name, e).NoInput? {
      FactIsSound(s, loose, env, Argument(e).value, 0);
      if name in SUBPROCESS_SINKS {
        KnownFlagDecides(s, loose, env, e);
      }
      var events, reports := CallEvents(s.aliases, e, env), CallReports(s, e);
      forall ev | ev in events && !FromLiterals(ev.data) ensures Wants(reports, ev) {
        var trace := FactOf(s, Argument(e).value, 0).sources;
        assert Report(ev.line, ev.check, trace) in reports;
      }
    }
  }

  lemma {:induction false} KeywordIsPlain(s: Scope, loose: set<string>, names: seq<string>, values: seq<Expr>, key: string)
    requires PlainAll(s, loose, values) && Keyword(names, values, key) != None
    ensures Plain(s, loose, Keyword(names, values, key).value)
  {
    if Keyword(names[1..], values[1..], key) != None {
      KeywordIsPlain(s, loose, names[1..], values[1..], key);
    }
  }

  lemma {:induction false} FirstKeywordIsPlain(s: Scope, loose: set<string>, names: seq<string>, values: seq<Expr>,
                                               keys: seq<string>)
    requires PlainAll(s, loose, values) && FirstKeyword(names, values, keys) != None
    ensures Plain(s, loose, FirstKeyword(names, values, keys).value)
    decreases |keys|
  {
    if Keyword(names, values, keys[0]) != None {
      KeywordIsPlain(s, loose, names, values, keys[0]);
    } else {
      FirstKeywordIsPlain(s, loose, names, values, keys[1..]);
    }
  }

  lemma OwnEventsAreWanted(s: Scope, loose: set<string>, env: Env, e: Expr)
    requires Covers(s, loose, env) && e.Call? && Plain(s, loose, e)
    ensures CoversEvents(CallReports(s, e), CallEvents(s.aliases, e, env))
  {
    if e.args == [] && Argument(e) != None {
      FirstKeywordIsPlain(s, loose, e.kwNames, e.kwValues, ARGUMENT_KEYWORDS);
    }
    if ShellFlag(e) != None {
      KeywordIsPlain(s, loose, e.kwNames, e.kwValues, "shell");
    }
    CallEventsAreWanted(s, loose, env, e);
  }

  lemma {:induction false} EventsAreWanted(s: Scope, loose: set<string>, env: Env, e: Expr)
    requires Covers(s, loose, env) && (Plain(s, loose, e) || PlainBase(s, loose, e))
    ensures CoversEvents(Wanted(s, e), Events(s.aliases, e, env))
    decreases e, 0
  {
    match e
    case Const(_) =>
    case Name(_) =>
    case Attr(base, _, _) => EventsAreWanted(s, loose, env, base);
    case Build(_, children) => AllEventsAreWanted(s, loose, env, children);
    case Opaque(_, children) => AllEventsAreWanted(s, loose, env, children);
    case Binds(_, _, children) =>
      LoosenCovers(s, loose, env, Loose(e));
      AllEventsAreWanted(s, loose, Loosen(env, Loose(e)), children);
    case Call(func, args, _, kwValues, _) =>
      OwnEventsAreWanted(s, loose, env, e);
      EventsAreWanted(s, loose, env, if func.Attr? then func.base else func);
      AllEventsAreWanted(s, loose, env, args);
      AllEventsAreWanted(s, loose, env, kwValues);
      hide Plain, PlainBase, PlainAll, Covers, CoversEvents, CallReports, CallEvents;
      CallConcat(s, env, e);
  }

  lemma CallConcat(s: Scope, env: Env, e: Expr)
    requires e.Call? && CoversEvents(CallReports(s, e), CallEvents(s.aliases, e, env))
    requires CoversEvents(Wanted(s, e.func), Events(s.aliases, e.func, env))
    requires CoversEvents(WantedAll(s, e.args), EventsAll(s.aliases, e.args, env))
    requires CoversEvents(WantedAll(s, e.kwValues), EventsAll(s.aliases, e.kwValues, env))
    ensures CoversEvents(Wanted(s, e), Events(s.aliases, e, env))
  {
    hide CoversEvents, CallReports, CallEvents;
    var own, ownEvents := CallReports(s, e), CallEvents(s.aliases, e, env);
    var rf, ef := Wanted(s, e.func), Events(s.aliases, e.func, env);
    var ra, ea := WantedAll(s, e.args), EventsAll(s.aliases, e.args, env);
    var rk, ek := WantedAll(s, e.kwValues), EventsAll(s.aliases, e.kwValues, env);
    CoversConcat(rf, ef, ra, ea);
    CoversConcat(rf + ra, ef + ea, rk, ek);
    CoversConcat(own, ownEvents, rf + ra + rk, ef + ea + ek);
    assert own + rf + ra + rk == own + (rf + ra + rk);
  }

  lemma {:induction false} AllEventsAreWanted(s: Scope, loose: set<string>, env: Env, es: seq<Expr>)
    requires Covers(s, loose, env) && PlainAll(s, loose, es)
    ensures CoversEvents(WantedAll(s, es), EventsAll(s.aliases, es, env))
    decreases es
  {
    if es != [] {
      EventsAreWanted(s, loose, env, es[0]);
      AllEventsAreWanted(s, loose, env, es[1..]);
      CoversConcat(Wanted(s, es[0]), Events(s.aliases, es[0], env),
                   WantedAll(s, es[1..]), EventsAll(s.aliases, es[1..], env));
    }
  }

  // ----- whole programs ----------------------------------------------------------------------

  lemma {:induction false} LeftBoundIsLoose(s: Scope, loose: set<string>, e: Expr)
    requires Plain(s, loose, e) || PlainBase(s, loose, e)
    ensures LeftBound(e) <= loose
    decreases e, 0
  {
    match e
    case Const(_) =>
    case Name(_) =>
    case Attr(base, _, _) => LeftBoundIsLoose(s, loose, base);
    case Build(_, children) => AllLeftBoundIsLoose(s, loose, children);
    case Opaque(_, children) => AllLeftBoundIsLoose(s, loose, children);
    case Binds(_, _, children) => AllLeftBoundIsLoose(s, loose, children);
    case Call(func, args, _, kwValues, _) =>
      LeftBoundIsLoose(s, loose, if func.Attr? then func.base else func);
      AllLeftBoundIsLoose(s, loose, args);
      AllLeftBoundIsLoose(s, loose, kwValues);
  }

  lemma {:induction false} AllLeftBoundIsLoose(s: Scope, loose: set<string>, es: seq<Expr>)
    requires PlainAll(s, loose, es)
    ensures LeftBoundAll(es) <= loose
    decreases es
  {
    if es != [] {
      LeftBoundIsLoose(s, loose, es[0]);
      AllLeftBoundIsLoose(s, loose, es[1..]);
    }
  }

  lemma WithinIsCovered(s: Scope, loose: set<string>, env: Env, e: Expr)
    requires Covers(s, loose, env) && Plain(s, loose, e)
    ensures Covers(s, loose, Within(e, env))
    ensures CoversEvents(Wanted(s, e), Events(s.aliases, e, Within(e, env)))
  {
    LeftBoundIsLoose(s, loose, e);
    LoosenCovers(s, loose, env, LeftBound(e));
    EventsAreWanted(s, loose, Within(e, env), e);
  }

  lemma EitherBranchIsWanted(test: seq<Report>, et: seq<Event>, rl: seq<Report>, el: seq<Event>, rr: seq<Report>, er: seq<Event>)
    requires CoversEvents(test, et) && CoversEvents(rl, el) && CoversEvents(rr, er)
    ensures CoversEvents(test + rl + rr, et + el) && CoversEvents(test + rl + rr, et + er)
  {
    CoversConcat(test, et, rl, el);
    CoversConcat(test + rl, et + el, rr, []);
    CoversConcat(test, et, rl, []);
    CoversConcat(test + rl, et + [], rr, er);
    assert (et + el) + [] == et + el && (et + []) + er == et + er;
  }

  lemma IfCovers(s: Scope, loose: set<string>, env: Env, st: Stmt, choose: seq<nat> -> bool, at: seq<nat>,
                 left: (Env, seq<Event>), right: (Env, seq<Event>))
    requires Covers(s, loose, env) && st.If? && PlainStmt(s, loose, st)
    requires left == ExecAll(s.aliases, st.body, Within(st.test, env), choose, at + [0], 0)
    requires right == ExecAll(s.aliases, st.orelse, Within(st.test, env), choose, at + [1], 0)
    requires AfterAll(s, st.body).aliases == s.aliases && Covers(AfterAll(s, st.body), loose, left.0)
    requires AfterAll(s, st.orelse).aliases == s.aliases && Covers(AfterAll(s, st.orelse), loose, right.0)
    requires CoversEvents(StmtsWanted(s, st.body), left.1) && CoversEvents(StmtsWanted(s, st.orelse), right.1)
    ensures After(s, st).aliases == s.aliases
    ensures Covers(After(s, st), loose, Exec(s.aliases, st, env, choose, at).0)
    ensures CoversEvents(StmtWanted(s, st), Exec(s.aliases, st, env, choose, at).1)
  {
    assert Scope(s.bindings, AfterAll(s, st.body).aliases) == s;
    var taken := if choose(at) then left else right;
    var events := Events(s.aliases, st.test, Within(st.test, env));
    assert Exec(s.aliases, st, env, choose, at) == (taken.0, events + taken.1);
    JoinCovers(AfterAll(s, st.body), AfterAll(s, st.orelse), loose, taken.0);
    WithinIsCovered(s, loose, env, st.test);
    EitherBranchIsWanted(Wanted(s, st.test), events, StmtsWanted(s, st.body), left.1, StmtsWanted(s, st.orelse), right.1);
  }

  /** On every path the scope after a statement covers the environment after it, and every sink event that a
      non-literal value reaches is wanted. */
  lemma {:induction false} StmtIsSound(s: Scope, loose: set<string>, env: Env, st: Stmt, choose: seq<nat> -> bool, at: seq<nat>)
    requires Covers(s, loose, env) && PlainStmt(s, loose, st)
    ensures After(s, st).aliases == s.aliases
    ensures Covers(After(s, st), loose, Exec(s.aliases, st, env, choose, at).0)
    ensures CoversEvents(StmtWanted(s, st), Exec(s.aliases, st, env, choose, at).1)
    decreases st
  {
    match st
    case Assign(target, value, line) =>
      WithinIsCovered(s, loose, env, value);
      BoundCovers(s, loose, Within(value, env), target, value, line);
    case Do(e) =>
      WithinIsCovered(s, loose, env, e);
    case If(test, body, orelse) =>
      var inside := Within(test, env);
      WithinIsCovered(s, loose, env, test);
      StmtsAreSound(s, loose, inside, body, choose, at + [0], 0);
      assert Scope(s.bindings, AfterAll(s, body).aliases) == s;
      StmtsAreSound(s, loose, inside, orelse, choose, at + [1], 0);
      IfCovers(s, loose, env, st, choose, at, ExecAll(s.aliases, body, inside, choose, at + [0], 0),
               ExecAll(s.aliases, orelse, inside, choose, at + [1], 0));
  }

  lemma {:induction false} StmtsAreSound(s: Scope, loose: set<string>, env: Env, ss: seq<Stmt>, choose: seq<nat> -> bool,
                                         at: seq<nat>, i: nat)
    requires Covers(s, loose, env) && PlainStmts(s, loose, ss)
    ensures AfterAll(s, ss).aliases == s.aliases
    ensures Covers(AfterAll(s, ss), loose, ExecAll(s.aliases, ss, env, choose, at, i).0)
    ensures CoversEvents(StmtsWanted(s, ss), ExecAll(s.aliases, ss, env, choose, at, i).1)
    decreases ss
  {
    if ss != [] {
      StmtIsSound(s, loose, env, ss[0], choose, at + [i]);
      var (env1, events1) := Exec(s.aliases, ss[0], env, choose, at + [i]);
      StmtsAreSound(After(s, ss[0]), loose, env1, ss[1..], choose, at, i + 1);
      CoversConcat(StmtWanted(s, ss[0]), events1,
                   StmtsWanted(After(s, ss[0]), ss[1..]), ExecAll(s.aliases, ss[1..], env1, choose, at, i + 1).1);
    }
  }

  function ParameterFacts(params: set<string>): map<string, Fact> {
    map p | p in params :: Fact(false, NoneLit, [Parameter(p)], false, false)
  }

  function ParameterEnv(params: set<string>): Env {
    map p | p in params :: NonLiteral
  }

  /** Analyses one function body (or a module, without parameters). Whatever branches an execution takes, a sink
      that it hands a value not built from literals is reported at its line under its rule, unless the cap on
      findings was reached. Nothing is reported twice. `loose` are the names bound inside expressions. */
  method Analyze(params: set<string>, aliases: map<string, seq<string>>, body: seq<Stmt>, selected: set<Check>, cap: nat,
                 ghost loose: set<string>)
    returns (findings: seq<Report>)
    ensures |findings| <= cap && Distinct(findings)
    ensures findings == AddAll([], StmtsWanted(Scope(ParameterFacts(params), aliases), body), selected, cap)
    ensures (forall p :: p in params ==> !Reserved(aliases, p))
            && PlainStmts(Scope(ParameterFacts(params), aliases), loose, body) && |findings| < cap ==>
              forall choose: seq<nat> -> bool, ev ::
                ev in ExecAll(aliases, body, ParameterEnv(params), choose, [], 0).1
                && !FromLiterals(ev.data) && ev.check in selected
                ==> Reported(findings, ev.line, ev.check)
  {
    var analyzer := new Analyzer(aliases, selected, cap);
    analyzer.bindings := ParameterFacts(params);
    analyzer.VisitStmts(body);
    findings := analyzer.findings;
    var s := Scope(ParameterFacts(params), aliases);
    AddAllReports([], StmtsWanted(s, body), selected, cap);
    if (forall p :: p in params ==> !Reserved(aliases, p)) && PlainStmts(s, loose, body) && |findings| < cap {
      forall choose: seq<nat> -> bool, ev |
        ev in ExecAll(aliases, body, ParameterEnv(params), choose, [], 0).1
        && !FromLiterals(ev.data) && ev.check in selected
        ensures Reported(findings, ev.line, ev.check)
      {
        StmtsAreSound(s, loose, ParameterEnv(params), body, choose, [], 0);
        var w :| w in StmtsWanted(s, body) && w.line == ev.line && w.check == ev.check;
      }
    }
  }
}
