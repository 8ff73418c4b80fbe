/** Values that change behind the analysis's back, and exactly when a run hands them to a sink unreported. */
module DataFlowMisses {
  import opened Wrappers
  import opened DataFlow
  import opened DataFlowSoundness
  import opened DataFlowRuns
  import opened DataFlowRefinement

  function Valued(m: State, x: string): Value {
    if x in m.vars then m.vars[x] else Outside
  }

  /** A tainted use that no report covers. */
  ghost predicate Misses(reports: seq<Report>, uses: seq<Use>) {
    exists u :: u in uses && Tainted(u.value, u.heap)
                && forall r :: r in reports ==> r.line != u.line || r.check != u.check
  }

  /** `subprocess.run(x, shell=True)` */
  function ShellOn(x: string): Expr {
    Call(Attr(Name("subprocess"), "run", 1), [Name(x)], ["shell"], [Const(Bool(true))], 1)
  }

  function ShellUse(m: State, x: string): Use {
    Use(1, ShellInjection, Valued(m, x), m.heap)
  }

  /** The analysis, in this scope, misses what the shell call does in this state. */
  ghost predicate ShellMissed(w: World, s: Scope, m: State, x: string, depth: nat) {
    Misses(Wanted(s, ShellOn(x)), RunExpr(w, ShellOn(x), m.(log := []), depth).Log())
  }

  /** The module is what its name says. */
  ghost predicate ModuleIsFree(w: World, s: Scope, m: State) {
    "subprocess" !in w.aliases && "subprocess" !in s.aliases && "subprocess" !in s.bindings && "subprocess" !in m.vars
  }

  lemma ShellFlagIs(x: string)
    ensures ShellFlag(ShellOn(x)) == Some(Const(Bool(true)))
    ensures Keyword(ShellOn(x).kwNames, [Known(Bool(true))], "shell") == Some(Known(Bool(true)))
  {
    var e, v := Const(Bool(true)), Known(Bool(true));
    assert ["shell"][1..] == [] && [e][1..] == [] && [v][1..] == [];
    assert Keyword([], [e][1..], "shell") == None && Keyword([], [v][1..], "shell") == None;
  }

  lemma ShellReports(s: Scope, x: string)
    requires "subprocess" !in s.bindings && "subprocess" !in s.aliases
    ensures CallReports(s, ShellOn(x)) ==
            if Lookup(s.bindings, x).constant then [] else [Report(1, ShellInjection, Lookup(s.bindings, x).sources)]
  {
    ShellFlagIs(x);
    assert Dotted(ShellOn(x).func) == ["subprocess", "run"] && ["subprocess", "run"][1..] == ["run"];
    var name := Canonical(s, ShellOn(x).func);
    assert name == ["subprocess", "run"];
    assert !SqlName(name) && name !in SHELL_NAMES && name in SUBPROCESS_NAMES && name !in PICKLE_NAMES;
    assert Argument(ShellOn(x)) == Some(Name(x)) && OptionalFact(s, ShellFlag(ShellOn(x))).value == Bool(true);
    assert OptionalFact(s, Some(Name(x))) == Lookup(s.bindings, x);
    hide Canonical, Argument, ShellFlag, OptionalFact, SqlName, Lookup, SHELL_NAMES, SUBPROCESS_NAMES, PICKLE_NAMES;
  }

  lemma ShellWants(s: Scope, x: string)
    requires "subprocess" !in s.bindings && "subprocess" !in s.aliases
    ensures Wanted(s, ShellOn(x)) ==
            if Lookup(s.bindings, x).constant then [] else [Report(1, ShellInjection, Lookup(s.bindings, x).sources)]
  {
    var e := ShellOn(x);
    ShellReports(s, x);
    hide CallReports, Lookup;
    assert [Name(x)][1..] == [] && [Const(Bool(true))][1..] == [];
    assert WantedAll(s, [Name(x)]) == [] && WantedAll(s, [Const(Bool(true))]) == [];
    assert Wanted(s, e.func) == Wanted(s, Name("subprocess")) == [];
    assert Wanted(s, e) == CallReports(s, e);
  }

  lemma ShellUses(w: World, x: string, v: Value, heap: Heap)
    requires "subprocess" !in w.aliases
    ensures Uses(w, ShellOn(x), true, [v], [Known(Bool(true))], heap) == [Use(1, ShellInjection, v, heap)]
  {
    ShellFlagIs(x);
    assert ["subprocess", "run"][1..] == ["run"];
    assert Dotted(ShellOn(x).func) == ["subprocess", "run"];
    var name := RuntimeName(w.aliases, ShellOn(x).func);
    assert name == ["subprocess", "run"];
    assert !RunsSql(name) && name !in SHELL_SINKS && name in SUBPROCESS_SINKS && name !in DESERIALIZERS;
    assert UsedInput(ShellOn(x), [v], [Known(Bool(true))], name) == Some(v) && Opens(Some(Known(Bool(true))));
  }

  lemma ShellRuns(w: World, x: string, m: State, depth: nat)
    requires "subprocess" !in w.aliases && "subprocess" !in m.vars
    ensures RunExpr(w, ShellOn(x), m, depth) == Done(Outside, m.(log := m.log + [ShellUse(m, x)]))
  {
    var e, v, flag := ShellOn(x), Valued(m, x), Known(Bool(true));
    ShellUses(w, x, v, m.heap);
    hide Uses;
    assert RunCall(w, e, true, Outside, [v], [flag], m, depth) == Done(Outside, m.(log := m.log + [ShellUse(m, x)]));
    hide RunCall;
    assert IsGlobal(e.func, m) by { assert Dotted(e.func)[0] == "subprocess"; }
    hide IsGlobal;
    assert RunExprs(w, [], m, depth) == Done([], m);
    assert RunExprs(w, e.args, m, depth) == Done([v], m) by {
      assert [Name(x)][1..] == [] && [v] + [] == [v];
    }
    assert RunExprs(w, e.kwValues, m, depth) == Done([flag], m) by {
      assert [Const(Bool(true))][1..] == [] && [flag] + [] == [flag];
    }
    assert RunExpr(w, e.func.base, m, depth) == Done(Outside, m);
    assert RunExpr(w, e, m, depth) == RunCall(w, e, IsGlobal(e.func, m), Outside, [v], [flag], m, depth);
  }

  /** A shell call is missed exactly if the analysis takes the name for a constant and its value is tainted. */
  lemma ShellMissedIff(w: World, s: Scope, m: State, x: string, depth: nat)
    requires ModuleIsFree(w, s, m)
    ensures ShellMissed(w, s, m, x, depth) <==> Lookup(s.bindings, x).constant && Tainted(Valued(m, x), m.heap)
  {
    hide RunExpr, Wanted, Tainted;
    ShellWants(s, x);
    ShellRuns(w, x, m.(log := []), depth);
    OneUse(Wanted(s, ShellOn(x)), ShellUse(m, x));
  }

  lemma OneUse(reports: seq<Report>, u: Use)
    ensures Misses(reports, [u]) <==>
              Tainted(u.value, u.heap) && forall r :: r in reports ==> r.line != u.line || r.check != u.check
  {
    assert forall u' :: u' in [u] <==> u' == u;
  }

  /** The analysis keeps its fact about a name whatever an expression does: the shell call after the expression is missed
      exactly if the name counted as constant and the run leaves it tainted. That cannot be if the expression does not bind
      the name and its value holds no container. */
  lemma UnseenChangeIsMissedIff(w: World, s: Scope, m: State, e: Expr, x: string, depth: nat)
    requires ModuleIsFree(w, s, m) && "subprocess" !in LeftBound(e) && RunExpr(w, e, m, depth).Done?
    ensures var after := RunExpr(w, e, m, depth).state;
            && (ShellMissed(w, After(s, Do(e)), after, x, depth) <==>
                  Lookup(s.bindings, x).constant && Tainted(Valued(after, x), after.heap))
            && (x !in LeftBound(e) && Solid(Valued(m, x)) ==> !ShellMissed(w, After(s, Do(e)), after, x, depth))
  {
    var after := RunExpr(w, e, m, depth).state;
    ExprBindsOnly(w, e, m, depth);
    ShellMissedIff(w, After(s, Do(e)), after, x, depth);
    if x !in LeftBound(e) && Solid(Valued(m, x)) {
      SolidIsUntainted(Valued(m, x), after.heap);
    }
  }

  lemma SolidIsUntainted(v: Value, heap: Heap)
    requires Solid(v)
    ensures !Tainted(v, heap)
  {
    SolidSettles(v, heap);
    forall n: nat ensures !HoldsWithin(v, heap, n) {
      PureIsUntainted(v, heap, n);
    }
  }

  // ----- assignment expressions --------------------------------------------------------------

  /** `(x := value)` */
  function Walrus(x: string, value: Expr): Expr {
    Binds(Lasting, [x], [Name(x), value])
  }

  /** After an assignment expression, for any name and value: the shell call is missed exactly if the name counted as constant
      and what was assigned is tainted. */
  lemma AssignmentExpressionIsMissedIff(w: World, s: Scope, m: State, x: string, value: Expr, depth: nat)
    requires ModuleIsFree(w, s, m) && x != "subprocess" && "subprocess" !in LeftBound(value)
    requires RunExpr(w, Walrus(x, value), m, depth).Done?
    ensures var r := RunExpr(w, Walrus(x, value), m, depth);
            ShellMissed(w, After(s, Do(Walrus(x, value))), r.state, x, depth) <==>
              Lookup(s.bindings, x).constant && Tainted(r.value, r.state.heap)
  {
    var e := Walrus(x, value);
    PairBound(e);
    assert AsSet([x]) == {x};
    UnseenChangeIsMissedIff(w, s, m, e, x, depth);
    assert IsAssignment(e) && !IsLambda(e);
  }

  // ----- lambdas and comprehensions ----------------------------------------------------------

  /** `lambda: subprocess.run(x, shell=True)` */
  function ShellLambda(x: string): Expr {
    Binds(Deferred, [], [ShellOn(x)])
  }

  function CallOf(f: string): Expr {
    Call(Name(f), [], [], [], 2)
  }

  lemma ShellLambdaIs(w: World, s: Scope, m: State, x: string, depth: nat)
    ensures RunExpr(w, ShellLambda(x), m, depth) == Done(Closure(ShellOn(x)), m)
    ensures Wanted(s, ShellLambda(x)) == Wanted(s, ShellOn(x))
  {
    assert [Name(x)][1..] == [] && [Const(Bool(true))][1..] == [] && [ShellOn(x)][1..] == [];
    assert LeftBoundAll([Name(x)]) == {} && LeftBoundAll([Const(Bool(true))]) == {};
    assert ShellLambda(x).children[0] == ShellOn(x) && LeftBound(ShellOn(x)) == {};
    assert IsLambda(ShellLambda(x));
    assert WantedAll(s, [ShellOn(x)]) == Wanted(s, ShellOn(x)) + [];
  }

  lemma CallOfRuns(w: World, f: string, x: string, m: State, depth: nat)
    requires f in m.vars && m.vars[f] == Closure(ShellOn(x)) && depth > 0
    requires "subprocess" !in w.aliases && "subprocess" !in m.vars
    ensures RunExpr(w, CallOf(f), m, depth) == Done(Outside, m.(log := m.log + [ShellUse(m, x)]))
  {
    ShellRuns(w, x, m, depth - 1);
    assert RunExprs(w, [], m, depth) == Done([], m);
    var r := m.(log := m.log + [ShellUse(m, x)]);
    assert r.(vars := m.vars) == r;
  }

  /** `f = lambda: subprocess.run(x, shell=True)`, then `x = value`, then `f()`: the shell call is missed exactly if x counted
      as constant when the lambda was seen and the value given to it since is tainted. */
  lemma DeferredUseIsMissedIff(w: World, s: Scope, m: State, f: string, x: string, value: Expr, depth: nat)
    requires ModuleIsFree(w, s, m) && f != x && "subprocess" !in {f, x} && {f, "subprocess"} !! LeftBound(value) && depth > 0
    requires RunExpr(w, value, SetVar(m, f, Closure(ShellOn(x))), depth).Done?
    ensures RunExpr(w, ShellLambda(x), m, depth) == Done(Closure(ShellOn(x)), m)
    ensures var s1 := After(s, Assign(f, ShellLambda(x), 1));
            var r := RunExpr(w, value, SetVar(m, f, Closure(ShellOn(x))), depth);
            var before := SetVar(r.state, x, r.value);
            Misses(Wanted(s, ShellLambda(x)) + Wanted(After(s1, Assign(x, value, 1)), CallOf(f)),
                   RunExpr(w, CallOf(f), before.(log := []), depth).Log())
            <==> Lookup(s.bindings, x).constant && Tainted(before.vars[x], before.heap)
  {
    hide RunExpr, Wanted, Tainted, After, SetVar, LeftBound;
    ShellLambdaIs(w, s, m, x, depth);
    var r := RunExpr(w, value, SetVar(m, f, Closure(ShellOn(x))), depth);
    var before := SetVar(r.state, x, r.value);
    var after := After(After(s, Assign(f, ShellLambda(x), 1)), Assign(x, value, 1));
    LambdaIsKept(w, m, f, x, value, depth);
    CallOfRuns(w, f, x, before.(log := []), depth);
    LambdaAndCallWant(w, s, after, f, x);
    OneUse(Wanted(s, ShellLambda(x)) + Wanted(after, CallOf(f)), ShellUse(before, x));
  }

  lemma LambdaIsKept(w: World, m: State, f: string, x: string, value: Expr, depth: nat)
    requires f != x && "subprocess" !in {f, x} && {f, "subprocess"} !! LeftBound(value) && "subprocess" !in m.vars
    requires RunExpr(w, value, SetVar(m, f, Closure(ShellOn(x))), depth).Done?
    ensures var r := RunExpr(w, value, SetVar(m, f, Closure(ShellOn(x))), depth);
            var before := SetVar(r.state, x, r.value);
            && f in before.vars && before.vars[f] == Closure(ShellOn(x)) && x in before.vars
            && "subprocess" !in before.vars
  {
    ExprBindsOnly(w, value, SetVar(m, f, Closure(ShellOn(x))), depth);
    hide RunExpr, LeftBound;
  }

  lemma LambdaAndCallWant(w: World, s: Scope, after: Scope, f: string, x: string)
    requires "subprocess" !in s.bindings && "subprocess" !in s.aliases
    ensures Wanted(s, ShellLambda(x)) + Wanted(after, CallOf(f)) ==
            if Lookup(s.bindings, x).constant then [] else [Report(1, ShellInjection, Lookup(s.bindings, x).sources)]
  {
    ShellLambdaIs(w, s, State(map[], [], []), x, 0);
    CallOfWantsNothing(after, f);
    ShellWants(s, x);
  }

  lemma CallOfWantsNothing(s: Scope, f: string)
    ensures Wanted(s, CallOf(f)) == []
  {
    assert FirstKeyword<Expr>([], [], ARGUMENT_KEYWORDS) == None by { NoKeywords(ARGUMENT_KEYWORDS); }
  }

  lemma {:induction false} NoKeywords(keys: seq<string>)
    ensures FirstKeyword<Expr>([], [], keys) == None
  {
    if keys != [] {
      NoKeywords(keys[1..]);
    }
  }

  /** `[subprocess.run(x, shell=True) for x in iterable]` */
  function ShellForEach(x: string, iterable: Expr): Expr {
    Binds(Eager, [x], [ShellOn(x), Opaque("comprehension", [Name(x), iterable])])
  }

  /** One use for each item, which gets its name first. */
  function UsesOfEach(items: seq<Value>, heap: Heap): seq<Use> {
    if items == [] then []
    else
      var (v, h) := Settle(items[0], heap);
      [Use(1, ShellInjection, v, h)] + UsesOfEach(items[1..], h)
  }

  /** Items that hold no unnamed container are used as they are. */
  lemma {:induction false} NamedItemsAreUsed(items: seq<Value>, heap: Heap)
    requires forall v :: v in items ==> Settle(v, heap) == (v, heap)
    ensures |UsesOfEach(items, heap)| == |items|
    ensures forall i :: 0 <= i < |items| ==> UsesOfEach(items, heap)[i] == Use(1, ShellInjection, items[i], heap)
  {
    if items != [] {
      NamedItemsAreUsed(items[1..], heap);
    }
  }

  lemma {:induction false} LoopUsesEach(w: World, x: string, items: seq<Value>, m: State, depth: nat)
    requires "subprocess" !in w.aliases && "subprocess" !in m.vars && x != "subprocess"
    ensures RunLoop(w, x, ShellOn(x), items, m, depth).Done?
    ensures RunLoop(w, x, ShellOn(x), items, m, depth).state.log == m.log + UsesOfEach(items, m.heap)
    decreases |items|
  {
    if items != [] {
      var m0 := SetVar(m, x, items[0]);
      ShellRuns(w, x, m0, depth);
      hide RunExpr, Settle;
      var m1 := m0.(log := m0.log + [ShellUse(m0, x)]);
      LoopUsesEach(w, x, items[1..], m1, depth);
      assert UsesOfEach(items, m.heap) == [ShellUse(m0, x)] + UsesOfEach(items[1..], m0.heap);
    }
  }

  /** Over whatever is gone through: the shell calls are missed exactly if the name counted as constant outside and some item, as
      it is named, is tainted. */
  lemma ComprehensionUseIsMissedIff(w: World, s: Scope, m: State, x: string, iterable: Expr, depth: nat)
    requires ModuleIsFree(w, s, m) && x != "subprocess" && "subprocess" !in LeftBound(iterable)
    requires var r := RunExpr(w, iterable, m, depth); r.Done? && Items(w, r.value, r.state.heap) != None
    ensures var r := RunExpr(w, iterable, m, depth);
            var uses := UsesOfEach(Items(w, r.value, r.state.heap).value, r.state.heap);
            && RunExpr(w, ShellForEach(x, iterable), m, depth).Log() == r.state.log + uses
            && (Misses(Wanted(s, ShellOn(x)), uses) <==>
                  Lookup(s.bindings, x).constant && exists u :: u in uses && Tainted(u.value, u.heap))
  {
    var r := RunExpr(w, iterable, m, depth);
    var items := Items(w, r.value, r.state.heap).value;
    ExprBindsOnly(w, iterable, m, depth);
    LoopUsesEach(w, x, items, r.state, depth);
    ForEachRuns(w, x, iterable, m, depth);
    hide RunExpr, RunLoop, Wanted, Tainted, Items, Settle, UsesOfEach, Misses;
    EachIsMissedIff(s, x, items, r.state.heap);
  }

  lemma {:induction false} EachUseIsHere(items: seq<Value>, heap: Heap)
    ensures forall u :: u in UsesOfEach(items, heap) ==> u.line == 1 && u.check == ShellInjection
  {
    if items != [] {
      EachUseIsHere(items[1..], Settle(items[0], heap).1);
    }
  }

  lemma EachIsMissedIff(s: Scope, x: string, items: seq<Value>, heap: Heap)
    requires "subprocess" !in s.bindings && "subprocess" !in s.aliases
    ensures Misses(Wanted(s, ShellOn(x)), UsesOfEach(items, heap)) <==>
              Lookup(s.bindings, x).constant && exists u :: u in UsesOfEach(items, heap) && Tainted(u.value, u.heap)
  {
    ShellWants(s, x);
    EachUseIsHere(items, heap);
    hide Wanted, Tainted, UsesOfEach;
  }

  lemma ForEachRuns(w: World, x: string, iterable: Expr, m: State, depth: nat)
    requires RunExpr(w, iterable, m, depth).Done?
    requires var r := RunExpr(w, iterable, m, depth); Items(w, r.value, r.state.heap) != None
    ensures var r := RunExpr(w, iterable, m, depth);
            RunExpr(w, ShellForEach(x, iterable), m, depth).Log()
            == RunLoop(w, x, ShellOn(x), Items(w, r.value, r.state.heap).value, r.state, depth).Log()
  {
    var e := ShellForEach(x, iterable);
    assert !IsLambda(e) && !IsAssignment(e) && IsComprehension(e);
    hide RunLoop, Items;
  }

  // ----- containers --------------------------------------------------------------------------

  lemma {:induction false} SettleGrows(v: Value, heap: Heap)
    ensures heap <= Settle(v, heap).1
    decreases v, 0
  {
    if v.Made? {
      AllSettleGrow(v.parts, heap);
    }
  }

  lemma {:induction false} AllSettleGrow(vs: seq<Value>, heap: Heap)
    ensures heap <= SettleAll(vs, heap).1
    decreases vs, 0
  {
    if vs != [] {
      SettleGrows(vs[0], heap);
      AllSettleGrow(vs[1..], Settle(vs[0], heap).1);
    }
  }

  lemma {:induction false} TouchKeepsTaint(v: Value, heap: Heap, u: Value)
    requires Tainted(v, heap)
    ensures Tainted(v, Touch(u, heap))
    decreases u, 0
  {
    match u
    case Made(_, parts) => AllTouchKeepTaint(v, heap, parts);
    case Ref(at) =>
      if at < |heap| {
        var n: nat :| HoldsWithin(v, heap, n);
        AppendKeepsTaint(v, heap, at, Outside, n);
      }
    case _ =>
  }

  lemma {:induction false} AllTouchKeepTaint(v: Value, heap: Heap, us: seq<Value>)
    requires Tainted(v, heap)
    ensures Tainted(v, TouchAll(us, heap))
    decreases us, 0
  {
    if us != [] {
      TouchKeepsTaint(v, heap, us[0]);
      AllTouchKeepTaint(v, Touch(us[0], heap), us[1..]);
    }
  }

  lemma {:induction false} SolidIsUntouched(v: Value, heap: Heap)
    requires Solid(v)
    ensures Touch(v, heap) == heap
    decreases v, 0
  {
    if v.Made? {
      AllSolidUntouched(v.parts, heap);
    }
  }

  lemma {:induction false} AllSolidUntouched(vs: seq<Value>, heap: Heap)
    requires forall v :: v in vs ==> Solid(v)
    ensures TouchAll(vs, heap) == heap
    decreases vs, 0
  {
    if vs != [] {
      SolidIsUntouched(vs[0], heap);
      AllSolidUntouched(vs[1..], heap);
    }
  }

  /** Whoever gets hold of a value with a container in it can taint it. */
  lemma {:induction false} TouchTaints(v: Value, heap: Heap, later: Heap)
    requires Pure(v) && !Solid(v) && Settle(v, heap).1 <= later
    ensures var named := Settle(v, heap).0; Tainted(named, Touch(named, later))
    decreases v, 0
  {
    var named := Settle(v, heap).0;
    if v.kind in CONTAINERS {
      var touched := Touch(named, later);
      assert touched[named.at].items[|later[named.at].items|] == Outside;
      assert Outside in touched[named.at].items && HoldsWithin(Outside, touched, 0);
      assert HoldsWithin(named, touched, 1);
    } else {
      AllTouchTaint(v.parts, heap, later);
      var touched := Touch(named, later);
      var p :| p in named.parts && Tainted(p, touched);
      PartTaints(named, p, touched, 0);
    }
  }

  lemma {:induction false} AllTouchTaint(vs: seq<Value>, heap: Heap, later: Heap)
    requires (forall v :: v in vs ==> Pure(v)) && (exists v :: v in vs && !Solid(v)) && SettleAll(vs, heap).1 <= later
    ensures var named := SettleAll(vs, heap).0; exists p :: p in named && Tainted(p, TouchAll(named, later))
    decreases vs, 0
  {
    var (first, h) := Settle(vs[0], heap);
    var (rest, h') := SettleAll(vs[1..], h);
    AllSettleGrow(vs[1..], h);
    assert SettleAll(vs, heap).0 == [first] + rest && ([first] + rest)[1..] == rest;
    if Solid(vs[0]) {
      SolidSettles(vs[0], heap);
      SolidIsUntouched(vs[0], later);
      AllTouchTaint(vs[1..], h, later);
      var p :| p in rest && Tainted(p, TouchAll(rest, later));
      assert p in [first] + rest;
    } else {
      TouchTaints(vs[0], heap, later);
      AllTouchKeepTaint(first, Touch(first, later), rest);
      assert first in [first] + rest;
    }
  }

  /** `f(x)` */
  function HandTo(f: string, x: string): Expr {
    Call(Name(f), [Name(x)], [], [], 2)
  }

  lemma HandingTouches(w: World, m: State, f: string, x: string, depth: nat)
    requires w.meddles && f !in w.aliases && f !in m.vars && x in m.vars
    ensures RunExpr(w, HandTo(f, x), m, depth) == Done(Outside, m.(heap := Touch(m.vars[x], m.heap)))
  {
    var e, v := HandTo(f, x), m.vars[x];
    assert [f][1..] == [] && RuntimeName(w.aliases, e.func) == [f];
    assert [Name(x)][1..] == [] && [v][1..] == [] && [v] + [] == [v];
    assert RunExprs(w, [], m, depth) == Done([], m);
    assert RunExprs(w, [Name(x)], m, depth) == Done([v] + [], m);
    assert Uses(w, e, true, [v], [], m.heap) == [];
    assert TouchAll([v] + [], m.heap) == Touch(v, m.heap);
    assert m.log + [] == m.log;
  }

  /** After this expression, which does not bind the name, the shell call is missed. */
  ghost predicate MissedAfter(w: World, s: Scope, m: State, e: Expr, x: string, depth: nat) {
    && {x, "subprocess"} !! LeftBound(e) && RunExpr(w, e, m, depth).Done?
    && ShellMissed(w, After(s, Do(e)), RunExpr(w, e, m, depth).state, x, depth)
  }

  /** A name is given a constant: some expression that does not bind the name makes the analysis miss the shell call after it
      exactly if the constant has a container in it. The state and scope are those of any run of a fragment program. */
  lemma ConstantIsMissedIff(w: World, s: Scope, loose: set<string>, env: Env, events: seq<Event>, m: State, x: string,
                            e: Expr, line: nat, f: string, depth: nat)
    requires ModuleIsFree(w, s, m) && x != "subprocess" && w.aliases == s.aliases && w.meddles
    requires f !in w.aliases && f !in m.vars && f != x && {f, "subprocess"} !! LeftBound(e)
    requires Covers(s, loose, env) && Bounded(w.aliases, m, env, events)
    requires Unknown(env, LeftBound(e)) && Among(Events(w.aliases, e, env), events)
    requires Plain(s, loose, e) && FactOf(s, e, 0).constant && RunExpr(w, e, m, depth).Done?
    ensures var r := RunExpr(w, e, m, depth);
            (exists e', n: nat :: MissedAfter(w, After(s, Assign(x, e, line)), SetVar(r.state, x, r.value), e', x, n))
            <==> !Frozen(e)
  {
    var r := RunExpr(w, e, m, depth);
    var s', m' := After(s, Assign(x, e, line)), SetVar(r.state, x, r.value);
    ConstantValue(w, s, loose, env, events, m, e, depth);
    NamedConstant(w, s, m, x, e, line, f, depth);
    hide RunExpr, After, SetVar, Settle, ShellMissed, Solid, Pure, Frozen, ModuleIsFree;
    if Frozen(e) {
      forall e', n: nat ensures !MissedAfter(w, s', m', e', x, n) {
        SolidIsNotMissed(w, s', m', e', x, n);
      }
    } else {
      ContainerIsTouched(w, s', m', r.value, r.state.heap, f, x, depth);
    }
  }

  lemma NamedConstant(w: World, s: Scope, m: State, x: string, e: Expr, line: nat, f: string, depth: nat)
    requires ModuleIsFree(w, s, m) && x != "subprocess" && f != x && f !in m.vars
    requires {f, "subprocess"} !! LeftBound(e) && RunExpr(w, e, m, depth).Done?
    ensures var r := RunExpr(w, e, m, depth);
            var s', m' := After(s, Assign(x, e, line)), SetVar(r.state, x, r.value);
            && ModuleIsFree(w, s', m') && f !in m'.vars && x in m'.vars
            && (m'.vars[x], m'.heap) == Settle(r.value, r.state.heap)
            && (Lookup(s'.bindings, x).constant <==> FactOf(s, e, 0).constant)
            && (Solid(r.value) ==> Solid(m'.vars[x]))
  {
    ExprBindsOnly(w, e, m, depth);
    var r := RunExpr(w, e, m, depth);
    hide RunExpr, FactOf, LeftBound, Settle;
    if Solid(r.value) {
      SolidSettles(r.value, r.state.heap);
    }
  }

  lemma SolidIsNotMissed(w: World, s: Scope, m: State, e: Expr, x: string, depth: nat)
    requires ModuleIsFree(w, s, m) && Solid(Valued(m, x))
    ensures !MissedAfter(w, s, m, e, x, depth)
  {
    if {x, "subprocess"} !! LeftBound(e) && RunExpr(w, e, m, depth).Done? {
      UnseenChangeIsMissedIff(w, s, m, e, x, depth);
    }
  }

  lemma ConstantValue(w: World, s: Scope, loose: set<string>, env: Env, events: seq<Event>, m: State, e: Expr, depth: nat)
    requires w.aliases == s.aliases && Covers(s, loose, env) && Bounded(w.aliases, m, env, events)
    requires Unknown(env, LeftBound(e)) && Among(Events(w.aliases, e, env), events)
    requires Plain(s, loose, e) && FactOf(s, e, 0).constant && RunExpr(w, e, m, depth).Done?
    ensures Pure(RunExpr(w, e, m, depth).value) && (Frozen(e) <==> Solid(RunExpr(w, e, m, depth).value))
  {
    ExprCovered(w, e, m, depth, env, events);
    FactIsSound(s, loose, env, e, 0);
    FrozenIffUnchangeable(s, loose, env, e, 0);
  }

  lemma ContainerIsTouched(w: World, s: Scope, m: State, v: Value, heap: Heap, f: string, x: string, depth: nat)
    requires ModuleIsFree(w, s, m) && x != "subprocess" && w.meddles && f !in w.aliases && f !in m.vars
    requires Pure(v) && !Solid(v) && x in m.vars && (m.vars[x], m.heap) == Settle(v, heap)
    requires Lookup(s.bindings, x).constant
    ensures MissedAfter(w, s, m, HandTo(f, x), x, depth)
  {
    TouchTaints(v, heap, m.heap);
    HandingTouches(w, m, f, x, depth);
    assert LeftBoundAll([Name(x)]) == {} by { assert [Name(x)][1..] == []; }
    assert LeftBound(HandTo(f, x)) == {};
    UnseenChangeIsMissedIff(w, s, m, HandTo(f, x), x, depth);
  }

  /** `y.append(value)` */
  function Append(y: string, value: Expr): Expr {
    Call(Attr(Name(y), "append", 2), [value], [], [], 2)
  }

  lemma AppendRuns(w: World, m: State, y: string, value: Expr, depth: nat)
    requires y in m.vars && m.vars[y].Ref? && RunExpr(w, value, m, depth).Done?
    requires var r := RunExpr(w, value, m, depth);
             var heap := Settle(r.value, r.state.heap).1;
             m.vars[y].at < |r.state.heap| && r.state.heap[m.vars[y].at].kind == "list" && m.vars[y].at < |heap|
    ensures var r := RunExpr(w, value, m, depth);
            var (v, heap) := Settle(r.value, r.state.heap);
            RunExpr(w, Append(y, value), m, depth)
            == Done(Known(NoneLit), r.state.(heap := Appended(heap, m.vars[y].at, v)))
  {
    var r := RunExpr(w, value, m, depth);
    assert [value][1..] == [] && RunExprs(w, [], r.state, depth) == Done([], r.state);
    assert RunExprs(w, [value], m, depth) == Done([r.value] + [], r.state);
  }

  /** After an append, through whatever name: the shell call is missed exactly if the name counted as constant and its value was
      tainted before or reaches the list and the item is tainted. */
  lemma AppendIsMissedIff(w: World, s: Scope, m: State, x: string, y: string, value: Expr, depth: nat)
    requires ModuleIsFree(w, s, m) && {x, "subprocess"} !! LeftBound(value)
    requires y in m.vars && m.vars[y].Ref? && RunExpr(w, value, m, depth).Done?
    requires var heap := RunExpr(w, value, m, depth).state.heap; m.vars[y].at < |heap| && heap[m.vars[y].at].kind == "list"
    ensures var r := RunExpr(w, value, m, depth);
            var (v, heap) := Settle(r.value, r.state.heap);
            var after := RunExpr(w, Append(y, value), m, depth);
            && after.Done?
            && (ShellMissed(w, After(s, Do(Append(y, value))), after.state, x, depth) <==>
                  && Lookup(s.bindings, x).constant
                  && (|| Tainted(Valued(m, x), heap)
                      || (Reaches(Valued(m, x), heap, m.vars[y].at) && Tainted(v, heap))))
  {
    var r := RunExpr(w, value, m, depth);
    var (v, heap) := Settle(r.value, r.state.heap);
    SettleGrows(r.value, r.state.heap);
    AppendRuns(w, m, y, value, depth);
    ExprBindsOnly(w, value, m, depth);
    AppendTaintsIff(Valued(m, x), heap, m.vars[y].at, v);
    hide RunExpr, Settle, Tainted, Reaches, Appended;
    ShellMissedIff(w, After(s, Do(Append(y, value))), RunExpr(w, Append(y, value), m, depth).state, x, depth);
  }

  // ----- statements that a call carries out --------------------------------------------------

  /** A call such as `exec(..)` is taken to assign nothing: whatever statements it carries out, the shell call after it is missed
      exactly if the name counted as constant and they leave it tainted. */
  lemma CarriedOutIsMissedIff(w: World, s: Scope, m: State, call: Expr, carried: seq<Stmt>, x: string,
                              choose: seq<nat> -> bool, at: seq<nat>, i: nat, depth: nat)
    requires RunStmts(w, carried, m, choose, at, i, depth).Done?
    requires ModuleIsFree(w, s, RunStmts(w, carried, m, choose, at, i, depth).state)
    ensures var after := RunStmts(w, carried, m, choose, at, i, depth).state;
            ShellMissed(w, After(s, Do(call)), after, x, depth) <==>
              Lookup(s.bindings, x).constant && Tainted(Valued(after, x), after.heap)
  {
    ShellMissedIff(w, s, RunStmts(w, carried, m, choose, at, i, depth).state, x, depth);
  }
}
