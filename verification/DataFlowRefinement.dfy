/** Runs are among the executions that may happen, so no tainted use of a sink in a run is missed. */
module DataFlowRefinement {
  import opened Wrappers
  import opened DataFlow
  import opened DataFlowSoundness
  import opened DataFlowRuns

  ghost predicate Fits(v: Value, d: Data) {
    && (FromLiterals(d) ==> Pure(v) && (Changeable(d) <==> !Solid(v)))
    && (d.Literal? ==> v == Known(d.lit))
  }

  /** What an environment says of a name; the events and data of an expression depend on that alone. */
  function Held(env: Env, x: string): Data {
    if x in env then env[x] else NonLiteral
  }

  ghost predicate Agree(env: Env, env': Env, names: set<string>) {
    forall x :: x in names ==> Held(env, x) == Held(env', x)
  }

  lemma {:induction false} EvalDepends(aliases: map<string, seq<string>>, e: Expr, env: Env, env': Env)
    requires Agree(env, env', Mentioned(e))
    ensures Eval(aliases, e, env) == Eval(aliases, e, env')
    decreases e
  {
    match e
    case Build(_, children) => EvalAllDepends(aliases, children, env, env');
    case Call(func, args, _, kwValues, _) =>
      EvalAllDepends(aliases, args, env, env');
      EvalAllDepends(aliases, kwValues, env, env');
      if func.Attr? {
        assert Mentioned(func) == Mentioned(func.base);
        EvalDepends(aliases, func.base, env, env');
      }
    case _ =>
  }

  lemma {:induction false} EvalAllDepends(aliases: map<string, seq<string>>, es: seq<Expr>, env: Env, env': Env)
    requires Agree(env, env', MentionedAll(es))
    ensures EvalAll(aliases, es, env) == EvalAll(aliases, es, env')
    decreases es
  {
    if es != [] {
      EvalDepends(aliases, es[0], env, env');
      EvalAllDepends(aliases, es[1..], env, env');
    }
  }

  lemma {:induction false} MemberMentioned(es: seq<Expr>, e: Expr)
    requires e in es
    ensures Mentioned(e) <= MentionedAll(es)
  {
    if e != es[0] {
      MemberMentioned(es[1..], e);
    }
  }

  lemma InputDepends(aliases: map<string, seq<string>>, e: Expr, env: Env, env': Env, name: seq<string>)
    requires e.Call? && Agree(env, env', MentionedAll(e.args)) && Agree(env, env', MentionedAll(e.kwValues))
    ensures InputData(aliases, SinkInput(name, e), env) == InputData(aliases, SinkInput(name, e), env')
  {
    hide InputKeys, Mentioned, MentionedAll, Eval;
    var input := SinkInput(name, e);
    if input.Given? {
      if e.args == [] {
        FirstKeywordIsAValue(e.kwNames, e.kwValues, InputKeys(name));
      }
      MemberMentioned(if e.args == [] then e.kwValues else e.args, input.value);
      EvalDepends(aliases, input.value, env, env');
    }
  }

  lemma FlagDepends(aliases: map<string, seq<string>>, e: Expr, env: Env, env': Env)
    requires e.Call? && Agree(env, env', MentionedAll(e.kwValues))
    ensures MayOpenShell(aliases, e, env) <==> MayOpenShell(aliases, e, env')
  {
    hide Mentioned, MentionedAll, Eval;
    if ShellFlag(e) != None {
      KeywordIsAValue(e.kwNames, e.kwValues, "shell");
      MemberMentioned(e.kwValues, ShellFlag(e).value);
      EvalDepends(aliases, ShellFlag(e).value, env, env');
    }
  }

  lemma CallEventsDepend(aliases: map<string, seq<string>>, e: Expr, env: Env, env': Env)
    requires e.Call? && Agree(env, env', MentionedAll(e.args)) && Agree(env, env', MentionedAll(e.kwValues))
    ensures CallEvents(aliases, e, env) == CallEvents(aliases, e, env')
  {
    InputDepends(aliases, e, env, env', RuntimeName(aliases, e.func));
    FlagDepends(aliases, e, env, env');
    hide Agree, InputData, SinkInput, MayOpenShell, RuntimeName, RunsSql;
  }

  lemma {:induction false} EventsDepend(aliases: map<string, seq<string>>, e: Expr, env: Env, env': Env)
    requires Agree(env, env', Mentioned(e))
    ensures Events(aliases, e, env) == Events(aliases, e, env')
    decreases e
  {
    match e
    case Const(_) =>
    case Name(_) =>
    case Attr(base, _, _) => EventsDepend(aliases, base, env, env');
    case Build(_, children) => AllEventsDepend(aliases, children, env, env');
    case Binds(_, _, children) => AllEventsDepend(aliases, children, Loosen(env, Loose(e)), Loosen(env', Loose(e)));
    case Opaque(_, children) => AllEventsDepend(aliases, children, env, env');
    case Call(func, args, _, kwValues, _) =>
      EventsDepend(aliases, func, env, env');
      AllEventsDepend(aliases, args, env, env');
      AllEventsDepend(aliases, kwValues, env, env');
      CallEventsDepend(aliases, e, env, env');
  }

  lemma {:induction false} AllEventsDepend(aliases: map<string, seq<string>>, es: seq<Expr>, env: Env, env': Env)
    requires Agree(env, env', MentionedAll(es))
    ensures EventsAll(aliases, es, env) == EventsAll(aliases, es, env')
    decreases es
  {
    if es != [] {
      EventsDepend(aliases, es[0], env, env');
      AllEventsDepend(aliases, es[1..], env, env');
    }
  }

  // What is known of a state: `env` bounds its names, and `events` are all that its log and its lambdas amount to.

  ghost predicate Among(some: seq<Event>, events: seq<Event>) {
    forall ev :: ev in some ==> ev in events
  }

  ghost predicate Backed(aliases: map<string, seq<string>>, v: Value, events: seq<Event>) {
    match v
    case Closure(body) => Among(Events(aliases, body, map[]), events)
    case Made(_, parts) => forall p :: p in parts ==> Backed(aliases, p, events)
    case _ => true
  }

  ghost predicate AllBacked(aliases: map<string, seq<string>>, vs: seq<Value>, events: seq<Event>) {
    forall v :: v in vs ==> Backed(aliases, v, events)
  }

  ghost predicate HeapBacked(aliases: map<string, seq<string>>, heap: Heap, events: seq<Event>) {
    forall c :: c in heap ==> AllBacked(aliases, c.items, events)
  }

  ghost predicate VarsBacked(aliases: map<string, seq<string>>, vars: map<string, Value>, events: seq<Event>) {
    forall k :: k in vars ==> Backed(aliases, vars[k], events)
  }

  /** What is known of a name is so. */
  ghost predicate VarsFit(vars: map<string, Value>, env: Env) {
    forall k :: FromLiterals(Held(env, k)) ==>
      && k in vars && Solid(vars[k]) && !Changeable(Held(env, k))
      && (Held(env, k).Literal? ==> vars[k] == Known(Held(env, k).lit))
  }

  ghost predicate UseCovered(u: Use, events: seq<Event>) {
    exists ev :: ev in events && ev.line == u.line && ev.check == u.check
                 && (Tainted(u.value, u.heap) ==> !FromLiterals(ev.data))
  }

  ghost predicate LogCovered(log: seq<Use>, events: seq<Event>) {
    forall u :: u in log ==> UseCovered(u, events)
  }

  ghost predicate Bounded(aliases: map<string, seq<string>>, m: State, env: Env, events: seq<Event>) {
    && VarsFit(m.vars, env) && VarsBacked(aliases, m.vars, events) && HeapBacked(aliases, m.heap, events)
    && LogCovered(m.log, events)
  }

  ghost predicate Unknown(env: Env, names: set<string>) {
    forall x :: x in names ==> Held(env, x) == NonLiteral
  }

  lemma {:induction false} SettleBacked(aliases: map<string, seq<string>>, v: Value, heap: Heap, events: seq<Event>)
    requires Backed(aliases, v, events) && HeapBacked(aliases, heap, events)
    ensures var (v', heap') := Settle(v, heap); Backed(aliases, v', events) && HeapBacked(aliases, heap', events)
    decreases v, 0
  {
    if v.Made? {
      AllSettleBacked(aliases, v.parts, heap, events);
    }
  }

  lemma {:induction false} AllSettleBacked(aliases: map<string, seq<string>>, vs: seq<Value>, heap: Heap, events: seq<Event>)
    requires AllBacked(aliases, vs, events) && HeapBacked(aliases, heap, events)
    ensures var (vs', heap') := SettleAll(vs, heap); AllBacked(aliases, vs', events) && HeapBacked(aliases, heap', events)
    decreases vs, 0
  {
    if vs != [] {
      SettleBacked(aliases, vs[0], heap, events);
      AllSettleBacked(aliases, vs[1..], Settle(vs[0], heap).1, events);
    }
  }

  /** Knowing less. */
  lemma LooserBounds(aliases: map<string, seq<string>>, m: State, env: Env, events: seq<Event>, env': Env)
    requires Bounded(aliases, m, env, events)
    requires forall k :: Held(env', k) == Held(env, k) || Held(env', k) == NonLiteral
    ensures Bounded(aliases, m, env', events)
  {
  }

  lemma SetVarBounded(aliases: map<string, seq<string>>, m: State, env: Env, events: seq<Event>, x: string, v: Value,
                        d: Data)
    requires Bounded(aliases, m, env, events) && Backed(aliases, v, events) && Fits(v, d)
    ensures Bounded(aliases, SetVar(m, x, v), env[x := Kept(d)], events)
  {
    hide Backed, HeapBacked, LogCovered;
    SettleBacked(aliases, v, m.heap, events);
    if Solid(v) {
      SolidSettles(v, m.heap);
    }
  }

  ghost predicate FitAll(aliases: map<string, seq<string>>, vs: seq<Value>, es: seq<Expr>, env: Env) {
    |vs| == |es| && forall i :: 0 <= i < |vs| ==> Fits(vs[i], Eval(aliases, es[i], env))
  }

  ghost predicate FitsOption(aliases: map<string, seq<string>>, v: Option<Value>, e: Option<Expr>, env: Env) {
    (v == None <==> e == None) && (v != None ==> Fits(v.value, Eval(aliases, e.value, env)))
  }

  lemma {:induction false} KeywordFits(aliases: map<string, seq<string>>, names: seq<string>, vs: seq<Value>, es: seq<Expr>,
                                       env: Env, key: string)
    requires FitAll(aliases, vs, es, env)
    ensures FitsOption(aliases, Keyword(names, vs, key), Keyword(names, es, key), env)
    decreases |vs|
  {
    if vs != [] && names != [] {
      hide Fits;
      KeywordFits(aliases, names[1..], vs[1..], es[1..], env, key);
    }
  }

  lemma {:induction false} FirstKeywordFits(aliases: map<string, seq<string>>, names: seq<string>, vs: seq<Value>,
                                            es: seq<Expr>, env: Env, keys: seq<string>)
    requires FitAll(aliases, vs, es, env)
    ensures FitsOption(aliases, FirstKeyword(names, vs, keys), FirstKeyword(names, es, keys), env)
    decreases |keys|
  {
    if keys != [] {
      hide Fits;
      KeywordFits(aliases, names, vs, es, env, keys[0]);
      FirstKeywordFits(aliases, names, vs, es, env, keys[1..]);
    }
  }

  lemma OpenedMayOpen(aliases: map<string, seq<string>>, e: Expr, env: Env, kws: seq<Value>)
    requires e.Call? && FitAll(aliases, kws, e.kwValues, env) && Opens(Keyword(e.kwNames, kws, "shell"))
    ensures MayOpenShell(aliases, e, env)
  {
    KeywordFits(aliases, e.kwNames, kws, e.kwValues, env, "shell");
  }

  lemma InputFits(w: World, e: Expr, args: seq<Value>, kws: seq<Value>, heap: Heap, env: Env, name: seq<string>)
    requires e.Call? && FitAll(w.aliases, args, e.args, env) && FitAll(w.aliases, kws, e.kwValues, env)
    requires UsedInput(e, args, kws, name) != None
    ensures SinkInput(name, e).Given?
    ensures FromLiterals(InputData(w.aliases, SinkInput(name, e), env)) ==> !Tainted(UsedInput(e, args, kws, name).value, heap)
  {
    FirstKeywordFits(w.aliases, e.kwNames, kws, e.kwValues, env, InputKeys(name));
    var v := UsedInput(e, args, kws, name).value;
    assert Fits(v, InputData(w.aliases, SinkInput(name, e), env));
    if FromLiterals(InputData(w.aliases, SinkInput(name, e), env)) {
      forall n: nat ensures !HoldsWithin(v, heap, n) {
        PureIsUntainted(v, heap, n);
      }
    }
  }

  lemma UseHasEvent(w: World, e: Expr, isGlobal: bool, args: seq<Value>, kws: seq<Value>, heap: Heap, env: Env, u: Use)
    requires e.Call? && FitAll(w.aliases, kws, e.kwValues, env)
    requires u in Uses(w, e, isGlobal, args, kws, heap) && SinkInput(RuntimeName(w.aliases, e.func), e).Given?
    ensures Event(u.line, u.check, InputData(w.aliases, SinkInput(RuntimeName(w.aliases, e.func), e), env))
            in CallEvents(w.aliases, e, env)
  {
    if Opens(Keyword(e.kwNames, kws, "shell")) {
      OpenedMayOpen(w.aliases, e, env, kws);
    }
    hide FitAll, RuntimeName, SinkInput, InputData, UsedInput, MayOpenShell, Opens, RunsSql;
  }

  lemma UsesCovered(w: World, e: Expr, isGlobal: bool, args: seq<Value>, kws: seq<Value>, heap: Heap, env: Env,
                    events: seq<Event>)
    requires e.Call? && FitAll(w.aliases, args, e.args, env) && FitAll(w.aliases, kws, e.kwValues, env)
    requires Among(CallEvents(w.aliases, e, env), events)
    ensures LogCovered(Uses(w, e, isGlobal, args, kws, heap), events)
  {
    var name := RuntimeName(w.aliases, e.func);
    if UsedInput(e, args, kws, name) != None {
      InputFits(w, e, args, kws, heap, env, name);
      forall u | u in Uses(w, e, isGlobal, args, kws, heap) ensures UseCovered(u, events) {
        UseHasEvent(w, e, isGlobal, args, kws, heap, env, u);
        hide FitAll, RuntimeName, SinkInput, InputData, UsedInput, RunsSql, Tainted, FromLiterals, CallEvents;
      }
    }
  }

  ghost predicate Result(w: World, r: Outcome<Value>, d: Data, env: Env, events: seq<Event>) {
    match r
    case Done(v, m) => Bounded(w.aliases, m, env, events) && Fits(v, d) && Backed(w.aliases, v, events)
    case Ended(log) => LogCovered(log, events)
  }

  ghost predicate Results(w: World, r: Outcome<seq<Value>>, es: seq<Expr>, env: Env, events: seq<Event>) {
    match r
    case Done(vs, m) =>
      Bounded(w.aliases, m, env, events) && FitAll(w.aliases, vs, es, env) && AllBacked(w.aliases, vs, events)
    case Ended(log) => LogCovered(log, events)
  }

  lemma AppendBacked(aliases: map<string, seq<string>>, heap: Heap, at: nat, v: Value, events: seq<Event>)
    requires HeapBacked(aliases, heap, events) && Backed(aliases, v, events) && at < |heap|
    ensures HeapBacked(aliases, Appended(heap, at, v), events)
  {
    assert heap[at] in heap;
  }

  lemma {:induction false} TouchBacked(aliases: map<string, seq<string>>, v: Value, heap: Heap, events: seq<Event>)
    requires HeapBacked(aliases, heap, events)
    ensures HeapBacked(aliases, Touch(v, heap), events)
    decreases v, 0
  {
    match v
    case Made(_, parts) => AllTouchBacked(aliases, parts, heap, events);
    case Ref(at) => if at < |heap| { AppendBacked(aliases, heap, at, Outside, events); }
    case _ =>
  }

  lemma {:induction false} AllTouchBacked(aliases: map<string, seq<string>>, vs: seq<Value>, heap: Heap, events: seq<Event>)
    requires HeapBacked(aliases, heap, events)
    ensures HeapBacked(aliases, TouchAll(vs, heap), events)
    decreases vs, 0
  {
    if vs != [] {
      TouchBacked(aliases, vs[0], heap, events);
      AllTouchBacked(aliases, vs[1..], Touch(vs[0], heap), events);
    }
  }

  /** What a call gives of the values that it combines. */
  lemma FormattedFits(w: World, e: Expr, callee: Value, args: seq<Value>, kws: seq<Value>, m: State, env: Env)
    requires e.Call? && e.func.Attr? && e.func.attr in {"format", "join"} && Fits(callee, Eval(w.aliases, e.func.base, env))
    requires FitAll(w.aliases, args, e.args, env) && FitAll(w.aliases, kws, e.kwValues, env)
    ensures callee.Outside? ==> Fits(Outside, Eval(w.aliases, e, env))
    ensures Fits(Text(AnyTainted([callee] + args + kws, m.heap)), Eval(w.aliases, e, env))
  {
    var base := Eval(w.aliases, e.func.base, env);
    var a, k := EvalAll(w.aliases, e.args, env), EvalAll(w.aliases, e.kwValues, env);
    if FromLiterals(Eval(w.aliases, e, env)) {
      assert Eval(w.aliases, e, env) == Built(e.func.attr, [base] + a + k);
      PartsArePure([callee] + args + kws, [base] + a + k, m.heap);
    }
  }

  lemma PartsArePure(vs: seq<Value>, ds: seq<Data>, heap: Heap)
    requires |vs| == |ds| && forall i :: 0 <= i < |vs| ==> Fits(vs[i], ds[i])
    requires forall d :: d in ds ==> FromLiterals(d)
    ensures forall v :: v in vs ==> Pure(v)
    ensures !AnyTainted(vs, heap)
  {
    forall i | 0 <= i < |vs| ensures Pure(vs[i]) && !Tainted(vs[i], heap) {
      assert ds[i] in ds;
      forall n: nat ensures !HoldsWithin(vs[i], heap, n) {
        PureIsUntainted(vs[i], heap, n);
      }
    }
  }

  lemma ApplyCovered(w: World, e: Expr, isGlobal: bool, callee: Value, args: seq<Value>, kws: seq<Value>, m: State,
                     env: Env, events: seq<Event>)
    requires e.Call? && Bounded(w.aliases, m, env, events) && Among(CallEvents(w.aliases, e, env), events)
    requires e.func.Attr? ==> Fits(callee, Eval(w.aliases, e.func.base, env))
    requires FitAll(w.aliases, args, e.args, env) && FitAll(w.aliases, kws, e.kwValues, env)
    requires AllBacked(w.aliases, args, events)
    ensures Result(w, Apply(w, e, isGlobal, callee, args, kws, m), Eval(w.aliases, e, env), env, events)
  {
    if e.func.Attr? && e.func.attr in {"format", "join"} {
      FormattedFits(w, e, callee, args, kws, m, env);
    } else {
      assert Eval(w.aliases, e, env) == NonLiteral;
    }
    if callee.Outside? {
      UsesCovered(w, e, isGlobal, args, kws, m.heap, env, events);
      hide Eval, CallEvents, Uses, VarsFit, VarsBacked, FitAll;
      AllTouchBacked(w.aliases, args + kws, m.heap, events);
    } else if |args| == 1 && callee.Ref? {
      hide Eval, CallEvents, AnyTainted, VarsFit, VarsBacked, FitAll;
      AppendArgument(w, callee.at, args[0], m.heap, events);
    } else {
      hide Eval, CallEvents, AnyTainted, Bounded, FitAll;
    }
  }

  lemma AppendArgument(w: World, at: nat, arg: Value, heap: Heap, events: seq<Event>)
    requires HeapBacked(w.aliases, heap, events) && Backed(w.aliases, arg, events)
    ensures var (v, heap') := Settle(arg, heap);
            at < |heap'| ==> HeapBacked(w.aliases, Appended(heap', at, v), events)
  {
    var (v, heap') := Settle(arg, heap);
    SettleBacked(w.aliases, arg, heap, events);
    if at < |heap'| {
      AppendBacked(w.aliases, heap', at, v, events);
    }
  }

  lemma BuildFits(w: World, e: Expr, vs: seq<Value>, heap: Heap, env: Env)
    requires e.Build? && FitAll(w.aliases, vs, e.children, env)
    ensures Fits(if e.kind in TEXTS then Text(AnyTainted(vs, heap)) else Made(e.kind, vs), Eval(w.aliases, e, env))
  {
    var ds := EvalAll(w.aliases, e.children, env);
    if FromLiterals(Eval(w.aliases, e, env)) {
      PartsArePure(vs, ds, heap);
      forall i | 0 <= i < |vs| ensures Solid(vs[i]) <==> !Changeable(ds[i]) {
        assert ds[i] in ds;
      }
    }
  }

  /** Whatever an expression does in a run is among the events that its evaluation may have, and its value is bounded by
      the data that it may give. */
  lemma {:induction false} ExprCovered(w: World, e: Expr, m: State, depth: nat, env: Env, events: seq<Event>)
    requires Bounded(w.aliases, m, env, events) && Unknown(env, LeftBound(e)) && Among(Events(w.aliases, e, env), events)
    ensures Result(w, RunExpr(w, e, m, depth), Eval(w.aliases, e, env), env, events)
    decreases depth, e, 2
  {
    match e
    case Const(_) =>
    case Name(_) => NameCovered(w, e, m, depth, env, events);
    case Attr(base, _, _) => ExprCovered(w, base, m, depth, env, events);
    case Build(_, children) =>
      ExprsCovered(w, children, m, depth, env, events);
      var r := RunExprs(w, children, m, depth);
      if r.Done? {
        BuildFits(w, e, r.value, r.state.heap, env);
      }
    case Binds(_, _, _) =>
      if IsLambda(e) {
        LambdaCovered(w, e, m, depth, env, events);
      } else if IsAssignment(e) {
        AssignmentCovered(w, e, m, depth, env, events);
      } else if IsComprehension(e) {
        ComprehensionCovered(w, e, m, depth, env, events);
      }
    case Opaque(_, _) =>
    case Call(_, _, _, _, _) => CallCovered(w, e, m, depth, env, events);
  }

  lemma NameCovered(w: World, e: Expr, m: State, depth: nat, env: Env, events: seq<Event>)
    requires e.Name? && Bounded(w.aliases, m, env, events)
    ensures Result(w, RunExpr(w, e, m, depth), Eval(w.aliases, e, env), env, events)
  {
    assert Eval(w.aliases, e, env) == Held(env, e.id);
    if FromLiterals(Held(env, e.id)) {
      SolidSettles(m.vars[e.id], []);
    }
  }

  lemma LambdaCovered(w: World, e: Expr, m: State, depth: nat, env: Env, events: seq<Event>)
    requires e.Binds? && IsLambda(e)
    requires Bounded(w.aliases, m, env, events) && Among(Events(w.aliases, e, env), events)
    ensures Result(w, RunExpr(w, e, m, depth), Eval(w.aliases, e, env), env, events)
  {
    var body := e.children[0];
    var loose := Loosen(env, Loose(e));
    assert e.children == [body] && [body][1..] == [];
    assert MentionedAll([body]) == Mentioned(body);
    EventsDepend(w.aliases, body, loose, map[]);
    assert EventsAll(w.aliases, e.children, loose) == Events(w.aliases, body, loose) + [];
  }

  lemma {:induction false} AssignmentCovered(w: World, e: Expr, m: State, depth: nat, env: Env, events: seq<Event>)
    requires e.Binds? && IsAssignment(e) && !IsLambda(e)
    requires Bounded(w.aliases, m, env, events) && Unknown(env, LeftBound(e)) && Among(Events(w.aliases, e, env), events)
    ensures Result(w, RunExpr(w, e, m, depth), Eval(w.aliases, e, env), env, events)
    decreases depth, e, 1
  {
    var x, value, loose := e.names[0], e.children[1], Loosen(env, Loose(e));
    PairBound(e);
    PairEvents(w.aliases, e, env);
    LooserBounds(w.aliases, m, env, events, loose);
    ExprCovered(w, value, m, depth, loose, events);
    var r := RunExpr(w, value, m, depth);
    if r.Done? {
      LooserBounds(w.aliases, r.state, loose, events, env);
      SetVarBounded(w.aliases, r.state, env, events, x, r.value, NonLiteral);
      LooserBounds(w.aliases, SetVar(r.state, x, r.value), env[x := Kept(NonLiteral)], events, env);
    }
  }

  lemma PairEvents(aliases: map<string, seq<string>>, e: Expr, env: Env)
    requires e.Binds? && |e.children| == 2
    ensures var loose := Loosen(env, Loose(e));
            Events(aliases, e, env) == Events(aliases, e.children[0], loose) + Events(aliases, e.children[1], loose)
  {
    assert e.children == [e.children[0], e.children[1]] && e.children[1..] == [e.children[1]];
    var loose := Loosen(env, Loose(e));
    assert EventsAll(aliases, [e.children[1]], loose) == Events(aliases, e.children[1], loose) + [];
  }

  ghost predicate LoopResult(w: World, r: Outcome<seq<Value>>, env: Env, events: seq<Event>) {
    match r
    case Done(vs, m) => Bounded(w.aliases, m, env, events) && AllBacked(w.aliases, vs, events)
    case Ended(log) => LogCovered(log, events)
  }

  lemma {:induction false} LoopCovered(w: World, x: string, element: Expr, items: seq<Value>, m: State, depth: nat,
                                       env: Env, events: seq<Event>)
    requires Bounded(w.aliases, m, env, events) && Unknown(env, LeftBound(element)) && Held(env, x) == NonLiteral
    requires Among(Events(w.aliases, element, env), events) && AllBacked(w.aliases, items, events)
    ensures LoopResult(w, RunLoop(w, x, element, items, m, depth), env, events)
    decreases depth, element, |items| + 3
  {
    if items != [] {
      SetVarBounded(w.aliases, m, env, events, x, items[0], NonLiteral);
      var m0 := SetVar(m, x, items[0]);
      LooserBounds(w.aliases, m0, env[x := Kept(NonLiteral)], events, env);
      ExprCovered(w, element, m0, depth, env, events);
      var r := RunExpr(w, element, m0, depth);
      if r.Done? {
        LoopCovered(w, x, element, items[1..], r.state, depth, env, events);
      }
    }
  }

  lemma ItemsBacked(w: World, v: Value, m: State, env: Env, events: seq<Event>)
    requires Backed(w.aliases, v, events) && Bounded(w.aliases, m, env, events) && Items(w, v, m.heap) != None
    ensures AllBacked(w.aliases, Items(w, v, m.heap).value, events)
  {
    if v.Ref? {
      assert m.heap[v.at] in m.heap;
    }
  }

  lemma RestoredBounded(aliases: map<string, seq<string>>, m: State, before: State, x: string, env: Env, loose: Env,
                        events: seq<Event>)
    requires Bounded(aliases, before, env, events) && Bounded(aliases, m, loose, events)
    requires forall k :: k != x ==> Held(loose, k) == Held(env, k)
    ensures Bounded(aliases, Restored(m, before, x), env, events)
  {
  }

  lemma ClauseIsCovered(w: World, e: Expr, m: State, env: Env, events: seq<Event>)
    requires e.Binds? && IsComprehension(e)
    requires Bounded(w.aliases, m, env, events) && Unknown(env, LeftBound(e)) && Among(Events(w.aliases, e, env), events)
    ensures var element, iterable, loose := e.children[0], e.children[1].children[1], Loosen(env, Loose(e));
            && Bounded(w.aliases, m, loose, events) && Held(loose, e.names[0]) == NonLiteral
            && (forall k :: k != e.names[0] ==> Held(loose, k) == Held(env, k))
            && Unknown(loose, LeftBound(element)) && Among(Events(w.aliases, element, loose), events)
            && Unknown(loose, LeftBound(iterable)) && Among(Events(w.aliases, iterable, loose), events)
  {
    hide Events, LeftBound, Bounded, Mentioned, MentionedAll;
    PairBound(e);
    PairEvents(w.aliases, e, env);
    ClauseBound(e.children[1]);
    ClauseEvents(w.aliases, e.children[1], Loosen(env, Loose(e)));
    assert Loose(e) == {e.names[0]};
    LooserBounds(w.aliases, m, env, events, Loosen(env, Loose(e)));
  }

  lemma {:induction false} ComprehensionCovered(w: World, e: Expr, m: State, depth: nat, env: Env, events: seq<Event>)
    requires e.Binds? && IsComprehension(e)
    requires Bounded(w.aliases, m, env, events) && Unknown(env, LeftBound(e)) && Among(Events(w.aliases, e, env), events)
    ensures Result(w, RunExpr(w, e, m, depth), Eval(w.aliases, e, env), env, events)
    decreases depth, e, 1
  {
    ClauseIsCovered(w, e, m, env, events);
    hide Events, LeftBound, Bounded, Loose, Loosen, Held, Restored, Items;
    var x, element, iterable, loose := e.names[0], e.children[0], e.children[1].children[1], Loosen(env, Loose(e));
    ExprCovered(w, iterable, m, depth, loose, events);
    var r := RunExpr(w, iterable, m, depth);
    if r.Done? && Items(w, r.value, r.state.heap).Some? {
      ItemsBacked(w, r.value, r.state, loose, events);
      var items := Items(w, r.value, r.state.heap).value;
      LoopCovered(w, x, element, items, r.state, depth, loose, events);
      var r' := RunLoop(w, x, element, items, r.state, depth);
      if r'.Done? {
        RestoredBounded(w.aliases, r'.state, m, x, env, loose, events);
      }
    }
  }

  lemma ClauseEvents(aliases: map<string, seq<string>>, clause: Expr, env: Env)
    requires clause.Opaque? && |clause.children| == 2 && clause.children[0].Name?
    ensures Events(aliases, clause, env) == Events(aliases, clause.children[1], env)
  {
    var name, last := clause.children[0], clause.children[1];
    assert clause.children[1..] == [last] && [last][1..] == [];
    assert EventsAll(aliases, [last], env) == Events(aliases, last, env) + [];
    assert EventsAll(aliases, clause.children, env) == Events(aliases, name, env) + EventsAll(aliases, [last], env);
  }

  lemma CallParts(w: World, e: Expr, env: Env, events: seq<Event>)
    requires e.Call? && Unknown(env, LeftBound(e)) && Among(Events(w.aliases, e, env), events)
    ensures var callee := if e.func.Attr? then e.func.base else e.func;
            && Unknown(env, LeftBound(callee)) && Among(Events(w.aliases, callee, env), events)
    ensures Unknown(env, LeftBoundAll(e.args)) && Among(EventsAll(w.aliases, e.args, env), events)
    ensures Unknown(env, LeftBoundAll(e.kwValues)) && Among(EventsAll(w.aliases, e.kwValues, env), events)
    ensures Among(CallEvents(w.aliases, e, env), events)
    ensures !e.func.Attr? ==> Eval(w.aliases, e, env) == NonLiteral
  {
    var callee := if e.func.Attr? then e.func.base else e.func;
    assert Events(w.aliases, callee, env) == Events(w.aliases, e.func, env) && LeftBound(callee) == LeftBound(e.func);
    hide CallEvents;
  }

  lemma {:induction false} CallCovered(w: World, e: Expr, m: State, depth: nat, env: Env, events: seq<Event>)
    requires e.Call?
    requires Bounded(w.aliases, m, env, events) && Unknown(env, LeftBound(e)) && Among(Events(w.aliases, e, env), events)
    ensures Result(w, RunExpr(w, e, m, depth), Eval(w.aliases, e, env), env, events)
    decreases depth, e, 1
  {
    var callee := if e.func.Attr? then e.func.base else e.func;
    CallParts(w, e, env, events);
    hide Events, EventsAll, CallEvents, LeftBound, LeftBoundAll, Eval, Among, Bounded, RunCall, IsGlobal;
    ExprCovered(w, callee, m, depth, env, events);
    var r := RunExpr(w, callee, m, depth);
    if r.Done? {
      ExprsCovered(w, e.args, r.state, depth, env, events);
      var args := RunExprs(w, e.args, r.state, depth);
      if args.Done? {
        ExprsCovered(w, e.kwValues, args.state, depth, env, events);
        var kws := RunExprs(w, e.kwValues, args.state, depth);
        if kws.Done? {
          RunCallCovered(w, e, IsGlobal(e.func, m), r.value, args.value, kws.value, kws.state, depth, env, events);
        }
      }
    }
  }

  /** A lambda runs with nothing known of the names it mentions, and leaves the caller's as they were. */
  lemma {:induction false} RunCallCovered(w: World, e: Expr, isGlobal: bool, callee: Value, args: seq<Value>,
                                          kws: seq<Value>, m: State, depth: nat, env: Env, events: seq<Event>)
    requires e.Call? && Bounded(w.aliases, m, env, events) && Among(CallEvents(w.aliases, e, env), events)
    requires if e.func.Attr? then Fits(callee, Eval(w.aliases, e.func.base, env)) else Eval(w.aliases, e, env) == NonLiteral
    requires FitAll(w.aliases, args, e.args, env) && FitAll(w.aliases, kws, e.kwValues, env)
    requires Backed(w.aliases, callee, events) && AllBacked(w.aliases, args, events)
    ensures Result(w, RunCall(w, e, isGlobal, callee, args, kws, m, depth), Eval(w.aliases, e, env), env, events)
    decreases depth, e, 0
  {
    if callee.Closure? && !e.func.Attr? && args == [] && kws == [] {
      if depth > 0 {
        LooserBounds(w.aliases, m, env, events, map[]);
        ExprCovered(w, callee.body, m, depth - 1, map[], events);
      }
    } else {
      hide Apply, Eval, Bounded, FitAll;
      ApplyCovered(w, e, isGlobal, callee, args, kws, m, env, events);
    }
  }

  lemma {:induction false} ExprsCovered(w: World, es: seq<Expr>, m: State, depth: nat, env: Env, events: seq<Event>)
    requires Bounded(w.aliases, m, env, events) && Unknown(env, LeftBoundAll(es))
    requires Among(EventsAll(w.aliases, es, env), events)
    ensures Results(w, RunExprs(w, es, m, depth), es, env, events)
    decreases depth, es, 0
  {
    if es != [] {
      ExprCovered(w, es[0], m, depth, env, events);
      var r := RunExpr(w, es[0], m, depth);
      if r.Done? {
        ExprsCovered(w, es[1..], r.state, depth, env, events);
      }
    }
  }

  ghost predicate StmtResult(w: World, r: Outcome<()>, env: Env, events: seq<Event>) {
    match r
    case Done(_, m) => Bounded(w.aliases, m, env, events)
    case Ended(log) => LogCovered(log, events)
  }

  lemma InsideCovered(w: World, e: Expr, m: State, depth: nat, env: Env, events: seq<Event>)
    requires Bounded(w.aliases, m, env, events) && Among(Events(w.aliases, e, Within(e, env)), events)
    ensures Result(w, RunExpr(w, e, m, depth), Eval(w.aliases, e, Within(e, env)), Within(e, env), events)
  {
    hide Events, Eval, LeftBound, RunExpr;
    LooserBounds(w.aliases, m, env, events, Within(e, env));
    ExprCovered(w, e, m, depth, Within(e, env), events);
  }

  lemma {:induction false} StmtCovered(w: World, st: Stmt, m: State, choose: seq<nat> -> bool, at: seq<nat>, depth: nat,
                                       env: Env, events: seq<Event>)
    requires Bounded(w.aliases, m, env, events) && Among(Exec(w.aliases, st, env, choose, at).1, events)
    ensures StmtResult(w, RunStmt(w, st, m, choose, at, depth), Exec(w.aliases, st, env, choose, at).0, events)
    decreases st
  {
    match st
    case Do(e) => InsideCovered(w, e, m, depth, env, events);
    case Assign(target, value, _) =>
      InsideCovered(w, value, m, depth, env, events);
      var r := RunExpr(w, value, m, depth);
      if r.Done? {
        var inside := Within(value, env);
        SetVarBounded(w.aliases, r.state, inside, events, target, r.value, Eval(w.aliases, value, inside));
      }
    case If(test, body, orelse) =>
      InsideCovered(w, test, m, depth, env, events);
      var r := RunExpr(w, test, m, depth);
      if r.Done? && Takes(r.value, choose(at)) {
        if choose(at) {
          StmtsCovered(w, body, r.state, choose, at + [0], 0, depth, Within(test, env), events);
        } else {
          StmtsCovered(w, orelse, r.state, choose, at + [1], 0, depth, Within(test, env), events);
        }
      }
  }

  lemma {:induction false} StmtsCovered(w: World, ss: seq<Stmt>, m: State, choose: seq<nat> -> bool, at: seq<nat>, i: nat,
                                        depth: nat, env: Env, events: seq<Event>)
    requires Bounded(w.aliases, m, env, events) && Among(ExecAll(w.aliases, ss, env, choose, at, i).1, events)
    ensures StmtResult(w, RunStmts(w, ss, m, choose, at, i, depth), ExecAll(w.aliases, ss, env, choose, at, i).0, events)
    decreases ss
  {
    if ss != [] {
      StmtCovered(w, ss[0], m, choose, at + [i], depth, env, events);
      var r := RunStmt(w, ss[0], m, choose, at + [i], depth);
      if r.Done? {
        StmtsCovered(w, ss[1..], r.state, choose, at, i + 1, depth, Exec(w.aliases, ss[0], env, choose, at + [i]).0, events);
      }
    }
  }

  /** Each use of a sink in a run is an event of an execution along the same path, and what the run finds tainted is there
      not built from literals. */
  lemma RunsMayHappen(w: World, params: set<string>, body: seq<Stmt>, choose: seq<nat> -> bool, depth: nat)
    ensures LogCovered(RunStmts(w, body, Start(params), choose, [], 0, depth).Log(),
                       ExecAll(w.aliases, body, ParameterEnv(params), choose, [], 0).1)
  {
    StmtsCovered(w, body, Start(params), choose, [], 0, depth, ParameterEnv(params),
                 ExecAll(w.aliases, body, ParameterEnv(params), choose, [], 0).1);
  }

  /** Whatever a run of a fragment program hands to a selected sink, it is reported unless it is free of outside values or
      the cap was reached. The findings are those of `Analyze`. */
  lemma RunsAreReported(w: World, params: set<string>, body: seq<Stmt>, loose: set<string>, selected: set<Check>, cap: nat,
                        findings: seq<Report>, choose: seq<nat> -> bool, depth: nat, u: Use)
    requires forall p :: p in params ==> !Reserved(w.aliases, p)
    requires PlainStmts(Scope(ParameterFacts(params), w.aliases), loose, body)
    requires findings == AddAll([], StmtsWanted(Scope(ParameterFacts(params), w.aliases), body), selected, cap)
    requires |findings| < cap
    requires u in RunStmts(w, body, Start(params), choose, [], 0, depth).Log() && u.check in selected
    requires Tainted(u.value, u.heap)
    ensures Reported(findings, u.line, u.check)
  {
    var s := Scope(ParameterFacts(params), w.aliases);
    RunsMayHappen(w, params, body, choose, depth);
    StmtsAreSound(s, loose, ParameterEnv(params), body, choose, [], 0);
    AddAllReports([], StmtsWanted(s, body), selected, cap);
    var ev :| ev in ExecAll(w.aliases, body, ParameterEnv(params), choose, [], 0).1
              && ev.line == u.line && ev.check == u.check && !FromLiterals(ev.data);
    var r :| r in StmtsWanted(s, body) && r.line == ev.line && r.check == ev.check;
  }
}
