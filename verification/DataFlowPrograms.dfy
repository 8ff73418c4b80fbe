/** Programs of a few lines on which the analysis misses a shell call, and their harmless neighbours. */
module DataFlowPrograms {
  import opened Wrappers
  import opened DataFlow
  import opened DataFlowSoundness
  import opened DataFlowRuns
  import opened DataFlowLimits
  import opened DataFlowMisses

  const WORLD := World(NO_IMPORTS, 1, false)

  /** The analysis misses something that the program does on this path. */
  ghost predicate ProgramMissed(ss: seq<Stmt>, choose: seq<nat> -> bool, depth: nat) {
    Misses(StmtsWanted(NOTHING_KNOWN, ss), RunStmts(WORLD, ss, Start({}), choose, [], 0, depth).Log())
  }

  const LS := Assign("x", Const(Str("ls")), 1)
  const AFTER_LS := Scope(map["x" := Fact(true, Str("ls"), [], false, false)], NO_IMPORTS)
  const LS_STATE := State(map["x" := Known(Str("ls"))], [], [])

  lemma AssignFirst(s: Scope, m: State, x: string, e: Expr, line: nat, v: Value, rest: seq<Stmt>, choose: seq<nat> -> bool,
                    i: nat, depth: nat)
    requires RunExpr(WORLD, e, m, depth) == Done(v, m)
    ensures RunStmts(WORLD, [Assign(x, e, line)] + rest, m, choose, [], i, depth)
            == RunStmts(WORLD, rest, SetVar(m, x, v), choose, [], i + 1, depth)
    ensures StmtsWanted(s, [Assign(x, e, line)] + rest) == Wanted(s, e) + StmtsWanted(Bound(s, x, e, line), rest)
  {
    hide RunExpr, SetVar, Wanted, Bound;
    assert ([Assign(x, e, line)] + rest)[1..] == rest;
  }

  lemma DoLast(s: Scope, m: State, e: Expr, choose: seq<nat> -> bool, i: nat, depth: nat)
    ensures RunStmts(WORLD, [Do(e)], m, choose, [], i, depth).Log() == RunExpr(WORLD, e, m, depth).Log()
    ensures StmtsWanted(s, [Do(e)]) == Wanted(s, e)
  {
    hide RunExpr, Wanted;
    assert [Do(e)][1..] == [];
    assert StmtsWanted(s, [Do(e)]) == Wanted(s, e) + [];
  }

  lemma AfterLs(rest: seq<Stmt>, choose: seq<nat> -> bool, depth: nat)
    ensures StmtsWanted(NOTHING_KNOWN, [LS] + rest) == StmtsWanted(AFTER_LS, rest)
    ensures RunStmts(WORLD, [LS] + rest, Start({}), choose, [], 0, depth)
            == RunStmts(WORLD, rest, LS_STATE, choose, [], 1, depth)
  {
    AssignFirst(NOTHING_KNOWN, Start({}), "x", Const(Str("ls")), 1, Known(Str("ls")), rest, choose, 0, depth);
    assert SetVar(Start({}), "x", Known(Str("ls"))) == LS_STATE;
    assert Bound(NOTHING_KNOWN, "x", Const(Str("ls")), 1) == AFTER_LS;
    hide RunStmts, StmtsWanted;
  }

  lemma InputRuns(m: State, depth: nat)
    ensures "input" !in m.vars ==> RunExpr(WORLD, INPUT_CALL, m, depth) == Done(Outside, m)
  {
    if "input" !in m.vars {
      assert ["input"][1..] == [] && RunExprs(WORLD, [], m, depth) == Done([], m);
      assert UsedInput(INPUT_CALL, [], [], ["input"]) == None by { NoValues(InputKeys(["input"])); }
      assert RuntimeName(WORLD.aliases, INPUT_CALL.func) == ["input"];
      assert m.log + [] == m.log;
    }
  }

  lemma {:induction false} NoValues(keys: seq<string>)
    ensures FirstKeyword<Value>([], [], keys) == None
  {
    if keys != [] {
      NoValues(keys[1..]);
    }
  }

  lemma DoThenShell(s: Scope, m: State, e: Expr, choose: seq<nat> -> bool, i: nat, depth: nat)
    requires RunExpr(WORLD, e, m, depth).Done? && RunExpr(WORLD, e, m, depth).state.log == [] && Wanted(s, e) == []
    ensures var after := RunExpr(WORLD, e, m, depth).state;
            Misses(StmtsWanted(s, [Do(e), Do(ShellOn("x"))]),
                   RunStmts(WORLD, [Do(e), Do(ShellOn("x"))], m, choose, [], i, depth).Log())
            <==> ShellMissed(WORLD, s, after, "x", depth)
  {
    var last := [Do(ShellOn("x"))];
    var after := RunExpr(WORLD, e, m, depth).state;
    DoLast(s, after, ShellOn("x"), choose, i + 1, depth);
    assert [Do(e), Do(ShellOn("x"))][1..] == last;
    hide RunExpr, Wanted, ShellOn, Misses;
    assert after.(log := []) == after;
    assert StmtsWanted(s, [Do(e), Do(ShellOn("x"))]) == [] + StmtsWanted(s, last);
  }

  // ----- assignment expressions --------------------------------------------------------------

  /** The value of input, or of a literal. */
  function LeafValue(e: Expr): Value {
    if e.Const? then Known(e.lit) else Outside
  }

  lemma LeafRuns(e: Expr, m: State, depth: nat)
    requires (e == INPUT_CALL || e.Const?) && "input" !in m.vars
    ensures RunExpr(WORLD, e, m, depth) == Done(LeafValue(e), m)
    ensures LeftBound(e) == {}
  {
    InputRuns(m, depth);
  }

  lemma LeafWantsNothing(s: Scope, e: Expr)
    requires e == INPUT_CALL || e.Const?
    ensures Wanted(s, e) == []
  {
    InputCallWantsNothing(s);
  }

  lemma LeafTaint(v: Value, heap: Heap)
    requires v.Outside? || v.Known?
    ensures Tainted(v, heap) <==> v.Outside?
  {
    assert v.Outside? ==> HoldsWithin(v, heap, 0);
  }

  lemma WalrusRuns(value: Expr, depth: nat)
    requires value == INPUT_CALL || value.Const?
    ensures var v := LeafValue(value);
            RunExpr(WORLD, Walrus("x", value), LS_STATE, depth) == Done(v, LS_STATE.(vars := LS_STATE.vars["x" := v]))
  {
    var e := Walrus("x", value);
    LeafRuns(value, LS_STATE, depth);
    assert IsAssignment(e) && !IsLambda(e);
  }

  lemma WalrusWantsNothing(value: Expr)
    requires value == INPUT_CALL || value.Const?
    ensures Wanted(AFTER_LS, Walrus("x", value)) == []
  {
    LeafWantsNothing(AFTER_LS, value);
    var e := Walrus("x", value);
    assert e.children == [Name("x"), value] && e.children[1..] == [value] && [value][1..] == [];
    assert WantedAll(AFTER_LS, [value]) == Wanted(AFTER_LS, value) + [];
    assert WantedAll(AFTER_LS, e.children) == Wanted(AFTER_LS, Name("x")) + WantedAll(AFTER_LS, [value]);
  }

  /** `x = "ls"`, then `(x := value)`, then the shell call: missed if the value is input, not if it is a literal. */
  lemma AssignmentExpressionIsMissed(value: Expr, choose: seq<nat> -> bool, depth: nat)
    requires value == INPUT_CALL || value.Const?
    ensures ProgramMissed([LS, Do(Walrus("x", value)), Do(ShellOn("x"))], choose, depth) <==> value == INPUT_CALL
  {
    var e := Walrus("x", value);
    var rest := [Do(e), Do(ShellOn("x"))];
    AfterLs(rest, choose, depth);
    assert [LS] + rest == [LS, Do(e), Do(ShellOn("x"))];
    WalrusRuns(value, depth);
    WalrusWantsNothing(value);
    LeafRuns(value, LS_STATE, depth);
    LeafTaint(LeafValue(value), []);
    hide RunExpr, StmtsWanted, RunStmts, ShellMissed, Walrus, LeftBound;
    DoThenShell(AFTER_LS, LS_STATE, e, choose, 1, depth);
    AssignmentExpressionIsMissedIff(WORLD, AFTER_LS, LS_STATE, "x", value, depth);
  }

  // ----- lambdas -----------------------------------------------------------------------------

  function LambdaRest(value: Expr): seq<Stmt> {
    [Assign("f", ShellLambda("x"), 1), Assign("x", value, 1), Do(CallOf("f"))]
  }

  const WITH_LAMBDA := State(map["x" := Known(Str("ls")), "f" := Closure(ShellOn("x"))], [], [])

  lemma LambdaRestIs(value: Expr, choose: seq<nat> -> bool, depth: nat)
    requires (value == INPUT_CALL || value.Const?) && depth > 0
    ensures StmtsWanted(AFTER_LS, LambdaRest(value)) == []
    ensures RunStmts(WORLD, LambdaRest(value), LS_STATE, choose, [], 1, depth).Log()
            == [Use(1, ShellInjection, LeafValue(value), [])]
  {
    hide RunExpr, SetVar, Wanted, Bound, RunStmts, StmtsWanted, ShellOn;
    var lambda, call := ShellLambda("x"), CallOf("f");
    var s1 := Bound(AFTER_LS, "f", lambda, 1);
    var s2 := Bound(s1, "x", value, 1);
    var before := WITH_LAMBDA.(vars := WITH_LAMBDA.vars["x" := LeafValue(value)]);
    ShellLambdaIs(WORLD, AFTER_LS, LS_STATE, "x", depth);
    ShellWants(AFTER_LS, "x");
    LeafWantsNothing(s1, value);
    LeafRuns(value, WITH_LAMBDA, depth);
    CallOfWantsNothing(s2, "f");
    CallOfRuns(WORLD, "f", "x", before, depth);
    LambdaStates(value);
    assert LambdaRest(value) == [Assign("f", lambda, 1)] + ([Assign("x", value, 1)] + [Do(call)]);
    AssignFirst(AFTER_LS, LS_STATE, "f", lambda, 1, Closure(ShellOn("x")), [Assign("x", value, 1)] + [Do(call)], choose, 1, depth);
    AssignFirst(s1, WITH_LAMBDA, "x", value, 1, LeafValue(value), [Do(call)], choose, 2, depth);
    DoLast(s2, before, call, choose, 3, depth);
  }

  lemma LambdaStates(value: Expr)
    ensures SetVar(LS_STATE, "f", Closure(ShellOn("x"))) == WITH_LAMBDA
    ensures SetVar(WITH_LAMBDA, "x", LeafValue(value))
            == WITH_LAMBDA.(vars := WITH_LAMBDA.vars["x" := LeafValue(value)])
  {
    hide ShellOn;
  }

  /** `x = "ls"`, then `f = lambda: ..` with the shell call on x, then `x = value`, then `f()`. */
  lemma DeferredUseIsMissed(value: Expr, choose: seq<nat> -> bool, depth: nat)
    requires (value == INPUT_CALL || value.Const?) && depth > 0
    ensures ProgramMissed([LS] + LambdaRest(value), choose, depth) <==> value == INPUT_CALL
  {
    AfterLs(LambdaRest(value), choose, depth);
    LambdaRestIs(value, choose, depth);
    LeafTaint(LeafValue(value), []);
    hide StmtsWanted, RunStmts, Tainted, LambdaRest;
    OneUse([], Use(1, ShellInjection, LeafValue(value), []));
  }

  // ----- comprehensions ----------------------------------------------------------------------

  lemma ForEachWants(s: Scope, iterable: Expr)
    requires Wanted(s, ShellOn("x")) == [] && Wanted(s, iterable) == []
    ensures Wanted(s, ShellForEach("x", iterable)) == []
  {
    var shell, clause := ShellOn("x"), Opaque("comprehension", [Name("x"), iterable]);
    hide ShellOn;
    assert [shell, clause][1..] == [clause] && [clause][1..] == [];
    assert [Name("x"), iterable][1..] == [iterable] && [iterable][1..] == [];
    assert WantedAll(s, [iterable]) == [];
    assert WantedAll(s, [Name("x"), iterable]) == [];
    assert Wanted(s, clause) == [];
    assert WantedAll(s, [clause]) == [];
  }

  lemma ForEachOfInput(depth: nat)
    ensures RunExpr(WORLD, ShellForEach("x", INPUT_CALL), LS_STATE, depth).Log() == [Use(1, ShellInjection, Outside, [])]
  {
    InputRuns(LS_STATE, depth);
    assert Items(WORLD, Outside, []).value == [Outside];
    NamedItemsAreUsed([Outside], []);
    assert UsesOfEach([Outside], []) == [Use(1, ShellInjection, Outside, [])];
    hide RunExpr;
    ComprehensionUseIsMissedIff(WORLD, AFTER_LS, LS_STATE, "x", INPUT_CALL, depth);
  }

  /** `x = "ls"`, then `[.. for x in input()]` with the shell call on x. */
  lemma ComprehensionUseIsMissed(choose: seq<nat> -> bool, depth: nat)
    ensures ProgramMissed([LS, Do(ShellForEach("x", INPUT_CALL))], choose, depth)
  {
    var e := ShellForEach("x", INPUT_CALL);
    AfterLs([Do(e)], choose, depth);
    assert [LS] + [Do(e)] == [LS, Do(e)];
    ShellWants(AFTER_LS, "x");
    LeafWantsNothing(AFTER_LS, INPUT_CALL);
    ForEachWants(AFTER_LS, INPUT_CALL);
    ForEachOfInput(depth);
    LeafTaint(Outside, []);
    hide Wanted, RunStmts, RunExpr, StmtsWanted, Tainted;
    DoLast(AFTER_LS, LS_STATE, e, choose, 1, depth);
    OneUse([], Use(1, ShellInjection, Outside, []));
  }

  // ----- containers --------------------------------------------------------------------------

  function ListOf(text: string): Expr {
    Build("list", [Const(Str(text))])
  }

  const LIST := Assign("x", ListOf("ls"), 1)
  const AFTER_LIST := Scope(map["x" := Fact(true, NoneLit, [], false, false)], NO_IMPORTS)
  const LIST_STATE := State(map["x" := Ref(0)], [Cell("list", [Known(Str("ls"))])], [])

  /** Another name for the list, or another list. */
  function SecondName(same: bool): Expr {
    if same then Name("x") else ListOf("-l")
  }

  function SecondState(same: bool): State {
    if same then LIST_STATE.(vars := LIST_STATE.vars["y" := Ref(0)])
    else LIST_STATE.(vars := LIST_STATE.vars["y" := Ref(1)], heap := LIST_STATE.heap + [Cell("list", [Known(Str("-l"))])])
  }

  /** `x = ["ls"]`, then `y = x` or `y = ["-l"]`, then `y.append(input())`, then the shell call on x. */
  function ListProgram(same: bool): seq<Stmt> {
    [LIST, Assign("y", SecondName(same), 1), Do(Append("y", INPUT_CALL)), Do(ShellOn("x"))]
  }

  lemma ListRuns(text: string, m: State, x: string, depth: nat)
    ensures RunExpr(WORLD, ListOf(text), m, depth) == Done(Made("list", [Known(Str(text))]), m)
    ensures SetVar(m, x, Made("list", [Known(Str(text))]))
            == m.(vars := m.vars[x := Ref(|m.heap|)], heap := m.heap + [Cell("list", [Known(Str(text))])])
  {
    var e, v := Const(Str(text)), Known(Str(text));
    assert [e][1..] == [] && [v][1..] == [] && [v] + [] == [v];
    assert RunExprs(WORLD, [], m, depth) == Done([], m);
    assert RunExprs(WORLD, [e], m, depth) == Done([v] + [], m);
    assert SettleAll([], m.heap) == ([], m.heap);
    assert SettleAll([v], m.heap) == ([v] + [], m.heap);
  }

  lemma ListFact(text: string, s: Scope)
    ensures FactOf(s, ListOf(text), 0) == Fact(true, NoneLit, [], false, false)
    ensures Wanted(s, ListOf(text)) == []
  {
    var e := Const(Str(text));
    assert [e][1..] == [];
    var facts := FactsOf(s, [e], 1);
    assert facts == [Fact(true, Str(text), [], false, false)];
    assert Concat(facts) == [] + Concat([]) by { assert facts[1..] == []; }
    assert WantedAll(s, [e]) == [];
  }

  function ListRest(): seq<Stmt> {
    [Do(Append("y", INPUT_CALL)), Do(ShellOn("x"))]
  }

  lemma ListFirst(rest: seq<Stmt>, choose: seq<nat> -> bool, depth: nat)
    ensures RunStmts(WORLD, [LIST] + rest, Start({}), choose, [], 0, depth)
            == RunStmts(WORLD, rest, LIST_STATE, choose, [], 1, depth)
    ensures StmtsWanted(NOTHING_KNOWN, [LIST] + rest) == StmtsWanted(AFTER_LIST, rest)
  {
    ListRuns("ls", Start({}), "x", depth);
    ListFact("ls", NOTHING_KNOWN);
    var v := Made("list", [Known(Str("ls"))]);
    assert SetVar(Start({}), "x", v) == LIST_STATE;
    assert Bound(NOTHING_KNOWN, "x", ListOf("ls"), 1) == AFTER_LIST;
    hide RunExpr, SetVar, Wanted, Bound, RunStmts, StmtsWanted;
    AssignFirst(NOTHING_KNOWN, Start({}), "x", ListOf("ls"), 1, v, rest, choose, 0, depth);
  }

  lemma ListSecond(same: bool, choose: seq<nat> -> bool, depth: nat)
    ensures var s := Bound(AFTER_LIST, "y", SecondName(same), 1);
            var program := [Assign("y", SecondName(same), 1)] + ListRest();
            && RunStmts(WORLD, program, LIST_STATE, choose, [], 1, depth)
               == RunStmts(WORLD, ListRest(), SecondState(same), choose, [], 2, depth)
            && StmtsWanted(AFTER_LIST, program) == StmtsWanted(s, ListRest())
            && s.aliases == NO_IMPORTS && s.bindings.Keys == {"x", "y"} && s.bindings["x"].constant
  {
    hide RunExpr, SetVar, Wanted, RunStmts, StmtsWanted, FactOf;
    SecondRuns(same, depth);
    var v := if same then Ref(0) else Made("list", [Known(Str("-l"))]);
    AssignFirst(AFTER_LIST, LIST_STATE, "y", SecondName(same), 1, v, ListRest(), choose, 1, depth);
  }

  lemma SecondRuns(same: bool, depth: nat)
    ensures var v := if same then Ref(0) else Made("list", [Known(Str("-l"))]);
            && RunExpr(WORLD, SecondName(same), LIST_STATE, depth) == Done(v, LIST_STATE)
            && SetVar(LIST_STATE, "y", v) == SecondState(same)
    ensures Wanted(AFTER_LIST, SecondName(same)) == []
  {
    if !same {
      hide RunExpr, SetVar, Wanted;
      ListRuns("-l", LIST_STATE, "y", depth);
      ListFact("-l", AFTER_LIST);
    }
  }

  lemma AppendWantsNothing(s: Scope)
    requires "y" in s.bindings && "y" !in s.aliases
    ensures Wanted(s, Append("y", INPUT_CALL)) == []
  {
    var e := Append("y", INPUT_CALL);
    assert Dotted(e.func) == ["y", "append"] && ["y", "append"][1..] == ["append"];
    assert !SqlName(Canonical(s, e.func));
    LocalIsNotReported(s, e);
    InputCallWantsNothing(s);
    hide Canonical, Dotted, CallReports;
    assert Wanted(s, e.func) == Wanted(s, Name("y")) == [];
  }

  lemma SecondHeap(same: bool)
    ensures var m := SecondState(same);
            && !Tainted(m.vars["x"], m.heap) && (Reaches(m.vars["x"], m.heap, m.vars["y"].at) <==> same)
  {
    var m := SecondState(same);
    forall n: nat ensures !HoldsWithin(Ref(0), m.heap, n) {
      assert m.heap[0].items == [Known(Str("ls"))];
    }
    forall n: nat ensures ReachesWithin(Ref(0), m.heap, m.vars["y"].at, n) <==> same {
      assert m.heap[0].items == [Known(Str("ls"))];
    }
    assert same ==> ReachesWithin(Ref(0), m.heap, 0, 0);
  }

  lemma AppendThenShell(s: Scope, same: bool, choose: seq<nat> -> bool, depth: nat)
    requires s.aliases == NO_IMPORTS && s.bindings.Keys == {"x", "y"} && s.bindings["x"].constant
    ensures same <==> Misses(StmtsWanted(s, ListRest()),
                             RunStmts(WORLD, ListRest(), SecondState(same), choose, [], 2, depth).Log())
  {
    hide RunExpr, StmtsWanted, RunStmts, ShellMissed, LeftBound, Tainted, Reaches, Wanted, Append, ShellOn, Misses;
    var m, e := SecondState(same), Append("y", INPUT_CALL);
    AppendWantsNothing(s);
    SecondHeap(same);
    InputRuns(m, depth);
    InputBindsNothing();
    LeafTaint(Outside, m.heap);
    AppendRuns(WORLD, m, "y", INPUT_CALL, depth);
    DoThenShell(s, m, e, choose, 2, depth);
    AppendIsMissedIff(WORLD, s, m, "x", "y", INPUT_CALL, depth);
  }

  lemma InputBindsNothing()
    ensures LeftBound(INPUT_CALL) == {}
  {
  }

  /** Missed if the append reaches the list that x holds, not if it goes to another list. */
  lemma ChangedContainerIsMissed(same: bool, choose: seq<nat> -> bool, depth: nat)
    ensures ProgramMissed(ListProgram(same), choose, depth) <==> same
  {
    var second := Assign("y", SecondName(same), 1);
    assert ListProgram(same) == [LIST] + ([second] + ListRest());
    hide RunStmts, StmtsWanted, SecondState, ListRest, Misses, Bound;
    ListFirst([second] + ListRest(), choose, depth);
    ListSecond(same, choose, depth);
    AppendThenShell(Bound(AFTER_LIST, "y", SecondName(same), 1), same, choose, depth);
  }

  // ----- statements behind a call ------------------------------------------------------------

  /** `exec("x = input()")` */
  const EXEC := Call(Name("exec"), [Const(Str("x = input()"))], [], [], 2)

  /** `x = "ls"`, then `exec(..)`, then the shell call: nothing is wanted, and the program whose second statement is the one
      carried out runs the shell on input. It is outside the fragment. */
  lemma CarriedOutIsMissed(choose: seq<nat> -> bool, depth: nat, loose: set<string>)
    ensures StmtsWanted(NOTHING_KNOWN, [LS, Do(EXEC), Do(ShellOn("x"))]) == []
    ensures Misses([], RunStmts(WORLD, [LS, Assign("x", INPUT_CALL, 2), Do(ShellOn("x"))], Start({}), choose, [], 0, depth).Log())
    ensures !PlainStmts(NOTHING_KNOWN, loose, [LS, Do(EXEC), Do(ShellOn("x"))])
  {
    ExecWants();
    CarriedOutRuns(choose, depth);
    ExecIsNotPlain(loose);
  }

  lemma ExecIsNotPlain(loose: set<string>)
    ensures !PlainStmts(NOTHING_KNOWN, loose, [LS, Do(EXEC), Do(ShellOn("x"))])
  {
    var s := After(NOTHING_KNOWN, LS);
    assert RuntimeName(s.aliases, EXEC.func) == ["exec"] by { assert ["exec"][1..] == []; }
    assert !PlainCall(s, EXEC);
    assert !Plain(s, loose, EXEC);
    hide Plain;
    assert [LS, Do(EXEC), Do(ShellOn("x"))][1..] == [Do(EXEC), Do(ShellOn("x"))];
    assert !PlainStmts(s, loose, [Do(EXEC), Do(ShellOn("x"))]);
  }

  lemma ExecWants()
    ensures StmtsWanted(NOTHING_KNOWN, [LS, Do(EXEC), Do(ShellOn("x"))]) == []
  {
    var last := [Do(ShellOn("x"))];
    AfterLs([Do(EXEC)] + last, _ => true, 0);
    assert [LS] + ([Do(EXEC)] + last) == [LS, Do(EXEC), Do(ShellOn("x"))];
    ShellWants(AFTER_LS, "x");
    ExecIsNoSink();
    DoLast(AFTER_LS, LS_STATE, ShellOn("x"), _ => true, 0, 0);
    hide Wanted, ShellOn;
    assert ([Do(EXEC)] + last)[1..] == last;
    assert StmtsWanted(AFTER_LS, [Do(EXEC)] + last) == Wanted(AFTER_LS, EXEC) + StmtsWanted(AFTER_LS, last);
  }

  lemma ExecIsNoSink()
    ensures Wanted(AFTER_LS, EXEC) == []
  {
    assert Dotted(EXEC.func) == ["exec"] && ["exec"][1..] == [];
    assert Canonical(AFTER_LS, EXEC.func) == ["exec"] && !SqlName(["exec"]);
    hide Canonical, FactOf, SqlName;
    assert CallReports(AFTER_LS, EXEC) == [];
    assert EXEC.args[1..] == [];
  }

  lemma CarriedOutRuns(choose: seq<nat> -> bool, depth: nat)
    ensures Misses([], RunStmts(WORLD, [LS, Assign("x", INPUT_CALL, 2), Do(ShellOn("x"))], Start({}), choose, [], 0, depth).Log())
  {
    hide RunExpr, SetVar, RunStmts, StmtsWanted, ShellOn, Tainted;
    var shell := ShellOn("x");
    var rest := [Assign("x", INPUT_CALL, 2)] + [Do(shell)];
    var after := LS_STATE.(vars := map["x" := Outside]);
    assert [LS] + rest == [LS, Assign("x", INPUT_CALL, 2), Do(shell)];
    InputIsAssigned();
    AfterLs(rest, choose, depth);
    InputRuns(LS_STATE, depth);
    ShellRuns(WORLD, "x", after, depth);
    LeafTaint(Outside, []);
    AssignFirst(AFTER_LS, LS_STATE, "x", INPUT_CALL, 2, Outside, [Do(shell)], choose, 1, depth);
    DoLast(AFTER_LS, after, shell, choose, 2, depth);
    OneUse([], ShellUse(after, "x"));
  }

  lemma InputIsAssigned()
    ensures SetVar(LS_STATE, "x", Outside) == LS_STATE.(vars := map["x" := Outside])
  {
  }
}
