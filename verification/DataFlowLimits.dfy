/** Where the analysis misses a sink: programs on which it does, and the exact conditions under which a sink is
    reported. */
module DataFlowLimits {
  import opened Wrappers
  import opened DataFlow
  import opened DataFlowSoundness

  // ----- the place of the input ---------------------------------------------------------------

  predicate SinkOf(check: Check, name: seq<string>) {
    match check
    case DynamicSql => RunsSql(name)
    case ShellInjection => name in SHELL_SINKS
    case UnsafeDeserialization => name in DESERIALIZERS
  }

  ghost predicate Has(reports: seq<Report>, check: Check) {
    exists r :: r in reports && r.check == check
  }

  lemma SinkIsAnEvent(aliases: map<string, seq<string>>, e: Expr, env: Env, check: Check)
    requires e.Call? && SinkOf(check, RuntimeName(aliases, e.func)) && !SinkInput(RuntimeName(aliases, e.func), e).NoInput?
    ensures Event(e.line, check, InputData(aliases, SinkInput(RuntimeName(aliases, e.func), e), env))
            in CallEvents(aliases, e, env)
  {
    hide SqlName, RuntimeName, SinkInput, InputData, MayOpenShell;
    var ev := Event(e.line, check, InputData(aliases, SinkInput(RuntimeName(aliases, e.func), e), env));
    assert ev in [ev];
  }

  /** Exactly which calls of a sink with non-constant input are reported: those whose input is where the analysis looks. */
  lemma SinkCallReportedIff(s: Scope, loose: set<string>, env: Env, e: Expr, check: Check)
    requires Covers(s, loose, env) && e.Call? && SinkOf(check, RuntimeName(s.aliases, e.func))
    requires forall x :: x in e.args || x in e.kwValues ==> !FactOf(s, x, 0).constant
    ensures Has(CallReports(s, e), check) <==> Argument(e) != None
  {
    CanonicalAgrees(s, loose, env, e.func);
    if Argument(e) != None {
      if e.args == [] {
        FirstKeywordIsAValue(e.kwNames, e.kwValues, ARGUMENT_KEYWORDS);
      }
      assert Report(e.line, check, FactOf(s, Argument(e).value, 0).sources) in CallReports(s, e);
    }
  }

  const INPUT_CALL := Call(Name("input"), [], [], [], 1)
  const NO_IMPORTS: map<string, seq<string>> := map[]
  const NOTHING_KNOWN := Scope(map[], NO_IMPORTS)

  lemma InputCallWantsNothing(s: Scope)
    ensures Wanted(s, INPUT_CALL) == [] && WantedAll(s, [INPUT_CALL]) == []
  {
    assert [INPUT_CALL][1..] == [];
  }

  lemma OneKeyword(key: string, value: Expr, other: string)
    ensures Keyword([key], [value], other) == if other == key then Some(value) else None
  {
    assert [key][1..] == [] && [value][1..] == [];
    assert Keyword<Expr>([], [], other) == None;
  }

  lemma {:induction false} OneKeywordAmong(key: string, value: Expr, keys: seq<string>)
    ensures FirstKeyword([key], [value], keys) == if key in keys then Some(value) else None
    decreases |keys|
  {
    if keys != [] {
      OneKeyword(key, value, keys[0]);
      OneKeywordAmong(key, value, keys[1..]);
    }
  }

  function CallWith(holder: string, name: string, key: string): Expr {
    Call(Attr(Name(holder), name, 1), [], [key], [INPUT_CALL], 1)
  }

  /** Input under any keyword that is not listed is handed to the sink and never judged: `os.system(command=input())`,
      `session.execute(statement=input())`, and, the empty name standing for `**`, `os.popen(**input())`. */
  lemma UnlistedKeywordIsMissed(holder: string, name: string, key: string, check: Check)
    requires SinkOf(check, [holder, name]) && key !in ARGUMENT_KEYWORDS
    ensures Event(1, check, NonLiteral) in CallEvents(NO_IMPORTS, CallWith(holder, name, key), map[])
    ensures Wanted(NOTHING_KNOWN, CallWith(holder, name, key)) == []
  {
    var e := CallWith(holder, name, key);
    OneKeywordAmong(key, INPUT_CALL, InputKeys([holder, name]));
    OneKeywordAmong(key, INPUT_CALL, ARGUMENT_KEYWORDS);
    assert Dotted(e.func) == [holder, name] && [holder, name][1..] == [name];
    assert RuntimeName(NO_IMPORTS, e.func) == [holder, name];
    assert ["input"][1..] == [] && Eval(NO_IMPORTS, INPUT_CALL, map[]) == NonLiteral;
    var input := SinkInput([holder, name], e);
    assert InputData(NO_IMPORTS, input, map[]) == NonLiteral && !input.NoInput?;
    SinkIsAnEvent(NO_IMPORTS, e, map[], check);
    assert Argument(e) == None && CallReports(NOTHING_KNOWN, e) == [];
    NothingElseWanted(holder, name, key);
  }

  lemma NothingElseWanted(holder: string, name: string, key: string)
    requires CallReports(NOTHING_KNOWN, CallWith(holder, name, key)) == []
    ensures Wanted(NOTHING_KNOWN, CallWith(holder, name, key)) == []
  {
    var e := CallWith(holder, name, key);
    InputCallWantsNothing(NOTHING_KNOWN);
    hide CallReports;
    assert Wanted(NOTHING_KNOWN, e.func) == Wanted(NOTHING_KNOWN, Name(holder)) == [];
    assert WantedAll(NOTHING_KNOWN, e.args) == [];
  }

  // ----- the shell flag -----------------------------------------------------------------------

  /** A subprocess call is reported exactly if its input is where the analysis looks, is not taken for a constant, and the
      fact about its flag is `True`. */
  lemma SubprocessCallReportedIff(s: Scope, loose: set<string>, env: Env, e: Expr)
    requires Covers(s, loose, env) && e.Call? && RuntimeName(s.aliases, e.func) in SUBPROCESS_SINKS
    ensures Has(CallReports(s, e), ShellInjection) <==>
              Argument(e) != None && !OptionalFact(s, Argument(e)).constant
              && OptionalFact(s, ShellFlag(e)).value == Bool(true)
  {
    CanonicalAgrees(s, loose, env, e.func);
    if Argument(e) != None && !OptionalFact(s, Argument(e)).constant && OptionalFact(s, ShellFlag(e)).value == Bool(true) {
      assert Report(e.line, ShellInjection, OptionalFact(s, Argument(e)).sources) in CallReports(s, e);
    }
  }

  /** A flag survives a join as `True` exactly if both branches agree on it and the first one writes it so: a flag set in
      one branch only is forgotten, and one that the other branch sets to 1 counts as equal. */
  lemma ShellFlagSurvivesIff(a: Fact, b: Fact)
    ensures JoinFact(a, b).value == Bool(true) <==> a.value == Bool(true) && SameFact(a, b)
    ensures JoinFact(Fact(true, Int(1), [], false, false), Fact(true, Bool(true), [], false, false)).value == Int(1)
  {
  }

  function RunWith(flag: Expr): Expr {
    Call(Attr(Name("subprocess"), "run", 9), [INPUT_CALL], ["shell"], [flag], 9)
  }

  lemma RunName(s: Scope, flag: Expr)
    requires "subprocess" !in s.bindings && "subprocess" !in s.aliases
    ensures Canonical(s, RunWith(flag).func) == RuntimeName(s.aliases, RunWith(flag).func) == ["subprocess", "run"]
    ensures ShellFlag(RunWith(flag)) == Some(flag)
  {
    OneKeyword("shell", flag, "shell");
    assert ["subprocess", "run"][1..] == ["run"];
    assert Dotted(RunWith(flag).func) == ["subprocess", "run"];
  }

  lemma RunOpensAShell(s: Scope, flag: Expr, env: Env)
    requires "subprocess" !in s.bindings && "subprocess" !in s.aliases && "input" !in s.aliases
    requires MayBeTrue(Eval(s.aliases, flag, env))
    ensures CallEvents(s.aliases, RunWith(flag), env) == [Event(9, ShellInjection, NonLiteral)]
  {
    RunName(s, flag);
    hide RuntimeName, ShellFlag;
    assert Eval(s.aliases, INPUT_CALL, env) == NonLiteral by { InputIsNoLiteral(s.aliases, env); }
  }

  lemma InputIsNoLiteral(aliases: map<string, seq<string>>, env: Env)
    requires "input" !in aliases
    ensures Eval(aliases, INPUT_CALL, env) == NonLiteral
  {
    assert ["input"][1..] == [];
  }

  lemma RunIsMissed(s: Scope, flag: Expr)
    requires "subprocess" !in s.bindings && "subprocess" !in s.aliases
    requires FactOf(s, flag, 0).value != Bool(true) && Wanted(s, flag) == []
    ensures Wanted(s, RunWith(flag)) == []
  {
    RunIsNoReport(s, flag);
    InputCallWantsNothing(s);
    var e := RunWith(flag);
    hide CallReports, FactOf;
    assert WantedAll(s, e.kwValues) == Wanted(s, flag) + [] by { assert [flag][1..] == []; }
    assert Wanted(s, e.func) == Wanted(s, Name("subprocess")) == [];
  }

  lemma RunIsNoReport(s: Scope, flag: Expr)
    requires "subprocess" !in s.bindings && "subprocess" !in s.aliases && FactOf(s, flag, 0).value != Bool(true)
    ensures CallReports(s, RunWith(flag)) == []
  {
    RunName(s, flag);
    var name := Canonical(s, RunWith(flag).func);
    assert !SqlName(name) && name !in SHELL_NAMES && name !in PICKLE_NAMES;
    hide Canonical, ShellFlag, FactOf, SqlName, Argument, RuntimeName, SHELL_NAMES, SUBPROCESS_NAMES, PICKLE_NAMES;
  }

  /** Python opens a shell for any true flag, the analysis looks for `True` only: `subprocess.run(input(), shell=1)`. */
  lemma OtherTrueFlagIsMissed(flag: Lit)
    requires Truthy(flag) && flag != Bool(true)
    ensures CallEvents(NO_IMPORTS, RunWith(Const(flag)), map[]) == [Event(9, ShellInjection, NonLiteral)]
    ensures Wanted(NOTHING_KNOWN, RunWith(Const(flag))) == []
  {
    RunOpensAShell(NOTHING_KNOWN, Const(flag), map[]);
    RunIsMissed(NOTHING_KNOWN, Const(flag));
  }

  const SET_FLAG := If(Name("c"), [Assign("flag", Const(Bool(true)), 2)], [])

  /** `flag = False`, then `flag = True` in one branch, then `subprocess.run(input(), shell=flag)`. */
  const FLAG_PROGRAM := [Assign("flag", Const(Bool(false)), 1), SET_FLAG, Do(RunWith(Name("flag")))]

  lemma FlagProgramParts()
    ensures FLAG_PROGRAM[1..] == [SET_FLAG, Do(RunWith(Name("flag")))]
    ensures [SET_FLAG, Do(RunWith(Name("flag")))][1..] == [Do(RunWith(Name("flag")))]
    ensures [Do(RunWith(Name("flag")))][1..] == [] && SET_FLAG.body[1..] == []
  {
  }

  lemma JoinedFlagIsUnknown()
    ensures var s := After(After(NOTHING_KNOWN, FLAG_PROGRAM[0]), SET_FLAG);
            s.aliases == NO_IMPORTS && s.bindings.Keys == {"flag"} && s.bindings["flag"].value == NoneLit
  {
    FlagProgramParts();
    var s := After(NOTHING_KNOWN, FLAG_PROGRAM[0]);
    assert s.bindings == map["flag" := Fact(true, Bool(false), [], false, false)];
    var left := AfterAll(s, SET_FLAG.body);
    assert left == AfterAll(After(s, SET_FLAG.body[0]), []) == After(s, SET_FLAG.body[0]);
    assert left.bindings == map["flag" := Fact(true, Bool(true), [], false, false)];
    assert left.aliases == NO_IMPORTS;
    assert AfterAll(Scope(s.bindings, left.aliases), SET_FLAG.orelse) == Scope(s.bindings, left.aliases);
  }

  lemma FlagProgramWantsNothing()
    ensures StmtsWanted(NOTHING_KNOWN, FLAG_PROGRAM) == []
  {
    FlagProgramParts();
    var s := After(NOTHING_KNOWN, FLAG_PROGRAM[0]);
    JoinedFlagIsUnknown();
    RunIsMissed(After(s, SET_FLAG), Name("flag"));
    assert StmtWanted(NOTHING_KNOWN, FLAG_PROGRAM[0]) == [];
    assert StmtsWanted(s, SET_FLAG.body) == StmtWanted(s, SET_FLAG.body[0]) + StmtsWanted(After(s, SET_FLAG.body[0]), []);
    assert StmtWanted(s, SET_FLAG) == [];
    assert StmtsWanted(After(s, SET_FLAG), [Do(RunWith(Name("flag")))]) == [];
  }

  lemma BranchSetsTheFlag(env: Env, choose: seq<nat> -> bool)
    requires choose([1])
    ensures var after := Exec(NO_IMPORTS, SET_FLAG, env, choose, [1]).0;
            "flag" in after && after["flag"] == Literal(Bool(true))
  {
    FlagProgramParts();
    var inside, body := Within(SET_FLAG.test, env), SET_FLAG.body;
    assert ExecAll(NO_IMPORTS, body, inside, choose, [1] + [0], 0).0
           == ExecAll(NO_IMPORTS, [], Exec(NO_IMPORTS, body[0], inside, choose, [1] + [0] + [0]).0, choose, [1] + [0], 1).0;
  }

  lemma FlaggedRunOpensAShell(env: Env)
    requires "flag" in env && env["flag"] == Literal(Bool(true))
    ensures var run := RunWith(Name("flag"));
            Event(9, ShellInjection, NonLiteral) in Events(NO_IMPORTS, run, Within(run, env))
  {
    var run := RunWith(Name("flag"));
    RunLeavesNothingBound();
    hide LeftBound, CallEvents;
    assert Within(run, env)["flag"] == Literal(Bool(true));
    RunOpensAShell(NOTHING_KNOWN, Name("flag"), Within(run, env));
    OwnEventIsAnEvent(NO_IMPORTS, run, Within(run, env), Event(9, ShellInjection, NonLiteral));
  }

  lemma OwnEventIsAnEvent(aliases: map<string, seq<string>>, e: Expr, env: Env, ev: Event)
    requires e.Call? && ev in CallEvents(aliases, e, env)
    ensures ev in Events(aliases, e, env)
  {
  }

  lemma RunLeavesNothingBound()
    ensures LeftBound(RunWith(Name("flag"))) == {}
  {
    assert [INPUT_CALL][1..] == [] && [Name("flag")][1..] == [];
    assert LeftBoundAll([INPUT_CALL]) == {} && LeftBoundAll([Name("flag")]) == {};
  }

  lemma FlagProgramOpensAShell(choose: seq<nat> -> bool)
    requires choose([1])
    ensures Event(9, ShellInjection, NonLiteral) in ExecAll(NO_IMPORTS, FLAG_PROGRAM, map[], choose, [], 0).1
  {
    FlagProgramParts();
    assert [] + [0] == [0] && [] + [1] == [1];
    var env1 := Exec(NO_IMPORTS, FLAG_PROGRAM[0], map[], choose, [0]).0;
    var env2 := Exec(NO_IMPORTS, SET_FLAG, env1, choose, [1]).0;
    BranchSetsTheFlag(env1, choose);
    FlaggedRunOpensAShell(env2);
    var run := RunWith(Name("flag"));
    hide Events, CallEvents;
    assert ExecAll(NO_IMPORTS, [Do(run)], env2, choose, [], 2).1 == Events(NO_IMPORTS, run, Within(run, env2)) + [];
  }

  /** On the path that sets the flag a shell runs on input, and the analysis wants nothing. */
  lemma FlagSetInOneBranchIsMissed(choose: seq<nat> -> bool)
    requires choose([1])
    ensures Event(9, ShellInjection, NonLiteral) in ExecAll(NO_IMPORTS, FLAG_PROGRAM, map[], choose, [], 0).1
    ensures StmtsWanted(NOTHING_KNOWN, FLAG_PROGRAM) == []
  {
    FlagProgramOpensAShell(choose);
    FlagProgramWantsNothing();
  }

  // ----- rebinding ----------------------------------------------------------------------------

  /** Names that a statement may assign, in whatever branch. */
  function AssignedBy(st: Stmt): set<string>
    decreases st
  {
    match st
    case Assign(target, _, _) => {target}
    case Do(_) => {}
    case If(_, body, orelse) => Assigned(body) + Assigned(orelse)
  }

  function Assigned(ss: seq<Stmt>): set<string>
    decreases ss
  {
    if ss == [] then {} else AssignedBy(ss[0]) + Assigned(ss[1..])
  }

  /** After a statement a name is known, and is no alias any more, exactly if it was so before or is assigned in some branch. */
  lemma {:induction false} StmtBinds(s: Scope, st: Stmt)
    ensures After(s, st).bindings.Keys == s.bindings.Keys + AssignedBy(st)
    ensures After(s, st).aliases == s.aliases - AssignedBy(st)
    decreases st
  {
    match st
    case Assign(_, _, _) =>
    case Do(_) =>
    case If(_, body, orelse) =>
      var left := AfterAll(s, body);
      StmtsBind(s, body);
      StmtsBind(Scope(s.bindings, left.aliases), orelse);
  }

  lemma {:induction false} StmtsBind(s: Scope, ss: seq<Stmt>)
    ensures AfterAll(s, ss).bindings.Keys == s.bindings.Keys + Assigned(ss)
    ensures AfterAll(s, ss).aliases == s.aliases - Assigned(ss)
    decreases ss
  {
    if ss != [] {
      StmtBinds(s, ss[0]);
      StmtsBind(After(s, ss[0]), ss[1..]);
    }
  }

  lemma SinkIsReported(t: Scope, e: Expr, check: Check)
    requires e.Call? && SinkOf(check, Canonical(t, e.func))
    requires Argument(e) != None && !OptionalFact(t, Argument(e)).constant
    ensures Has(CallReports(t, e), check)
  {
    EverySinkIsJudged(Canonical(t, e.func));
    hide Canonical, Argument, FactOf, SqlName, ShellFlag;
    assert Report(e.line, check, OptionalFact(t, Argument(e)).sources) in CallReports(t, e);
  }

  /** A local object is no sink, unless it looks like a database. */
  lemma LocalIsNotReported(t: Scope, e: Expr)
    requires e.Call? && Dotted(e.func)[0] in t.bindings && Dotted(e.func)[0] !in t.aliases
    ensures forall r :: r in CallReports(t, e) ==> r.check == DynamicSql
    ensures !SqlName(Canonical(t, e.func)) ==> CallReports(t, e) == []
  {
    var name := Canonical(t, e.func);
    assert name[0] in {"<local>", "request"};
    assert name !in SHELL_NAMES && name !in SUBPROCESS_NAMES && name !in PICKLE_NAMES;
    hide Canonical, Dotted, Argument, FactOf, SqlName, ShellFlag, SHELL_NAMES, SUBPROCESS_NAMES, PICKLE_NAMES;
  }

  /** A sink with non-constant input that is called through an imported name is reported after a list of statements exactly
      if no branch of the list assigns that name. */
  lemma RebindingHidesTheSinkIff(s: Scope, ss: seq<Stmt>, e: Expr, check: Check)
    requires e.Call? && check != DynamicSql && SinkOf(check, RuntimeName(s.aliases, e.func))
    requires Dotted(e.func)[0] in s.aliases && Dotted(e.func)[0] !in s.bindings
    requires Argument(e) != None && !OptionalFact(AfterAll(s, ss), Argument(e)).constant
    ensures Has(CallReports(AfterAll(s, ss), e), check) <==> Dotted(e.func)[0] !in Assigned(ss)
  {
    var t := AfterAll(s, ss);
    StmtsBind(s, ss);
    hide AfterAll, FactOf, Argument, SinkOf, CallReports;
    if Dotted(e.func)[0] in Assigned(ss) {
      LocalIsNotReported(t, e);
    } else {
      assert Canonical(t, e.func) == RuntimeName(s.aliases, e.func);
      SinkIsReported(t, e, check);
    }
  }

  const OS_IMPORT: map<string, seq<string>> := map["os" := ["os"]]
  const REBIND := Assign("os", Name("fake"), 1)
  const BRANCH := If(Name("c"), [REBIND], [])
  const SINK := Call(Attr(Name("os"), "system", 2), [INPUT_CALL], [], [], 2)

  lemma SkippedBranchRunsTheSink(choose: seq<nat> -> bool)
    requires !choose([0])
    ensures Event(2, ShellInjection, NonLiteral) in ExecAll(OS_IMPORT, [BRANCH, Do(SINK)], map[], choose, [], 0).1
  {
    var rest := [Do(SINK)];
    assert [BRANCH, Do(SINK)][1..] == rest && rest[1..] == [];
    assert [] + [0] == [0];
    var env := Exec(OS_IMPORT, BRANCH, map[], choose, [0]).0;
    assert ["os", "system"][1..] == ["system"] && RuntimeName(OS_IMPORT, SINK.func) == ["os", "system"];
    assert CallEvents(OS_IMPORT, SINK, Within(SINK, env)) == [Event(2, ShellInjection, NonLiteral)];
    assert ExecAll(OS_IMPORT, rest, env, choose, [], 1).1 == Events(OS_IMPORT, SINK, Within(SINK, env)) + [];
  }

  lemma BranchRebinds()
    ensures var t := After(Scope(map[], OS_IMPORT), BRANCH); "os" in t.bindings && "os" !in t.aliases
  {
    StmtBinds(Scope(map[], OS_IMPORT), BRANCH);
    assert [REBIND][1..] == [];
    assert Assigned([REBIND]) == AssignedBy(REBIND) + Assigned([]);
    assert "os" in AssignedBy(REBIND);
    assert "os" in AssignedBy(BRANCH);
  }

  lemma LocalSinkWantsNothing(t: Scope)
    requires "os" in t.bindings && "os" !in t.aliases
    ensures Wanted(t, SINK) == []
  {
    assert Dotted(SINK.func) == ["os", "system"] && ["os", "system"][1..] == ["system"];
    assert !SqlName(Canonical(t, SINK.func));
    LocalIsNotReported(t, SINK);
    InputCallWantsNothing(t);
    hide Canonical, Dotted, CallReports;
    assert Wanted(t, SINK.func) == Wanted(t, Name("os")) == [];
  }

  lemma HiddenSinkWantsNothing()
    ensures StmtsWanted(Scope(map[], OS_IMPORT), [BRANCH, Do(SINK)]) == []
  {
    var s := Scope(map[], OS_IMPORT);
    assert [BRANCH, Do(SINK)][1..] == [Do(SINK)] && [Do(SINK)][1..] == [] && [REBIND][1..] == [];
    BranchRebinds();
    LocalSinkWantsNothing(After(s, BRANCH));
    assert StmtsWanted(After(s, BRANCH), [Do(SINK)]) == [];
    assert StmtsWanted(s, [REBIND]) == [];
    assert StmtWanted(s, BRANCH) == [];
  }

  /** Rebinding an imported module in one branch hides the sink on the other path as well. */
  lemma RebindingAnAliasHidesTheSink(choose: seq<nat> -> bool)
    requires !choose([0])
    ensures Event(2, ShellInjection, NonLiteral) in ExecAll(OS_IMPORT, [BRANCH, Do(SINK)], map[], choose, [], 0).1
    ensures StmtsWanted(Scope(map[], OS_IMPORT), [BRANCH, Do(SINK)]) == []
  {
    SkippedBranchRunsTheSink(choose);
    HiddenSinkWantsNothing();
  }
}
