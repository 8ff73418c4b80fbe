/** What runs do, value by value. */
module DataFlowRuns {
  import opened Wrappers
  import opened DataFlow
  import opened DataFlowSoundness

  // The runs of DataFlowSoundness say what may happen. Here a run is exact: containers have addresses, lambdas keep
  // their body, and a value changes only if a call gets hold of it or an assignment is carried out. A call of an object
  // from outside returns another such object, and changes at most the containers handed to it. A run ends early at a step
  // that is not followed, so what it logs does happen.

  datatype Value =
    | Known(lit: Lit)
    | Outside
    | Text(outside: bool)                       // made by formatting or joining; says whether anything from outside is in it
    | Made(kind: string, parts: seq<Value>)     // a tuple, the result of an operator, or a container that has no name yet
    | Ref(at: nat)
    | Closure(body: Expr)

  datatype Cell = Cell(kind: string, items: seq<Value>)

  type Heap = seq<Cell>

  /** A sink was called with this value as its input. */
  datatype Use = Use(line: nat, check: Check, value: Value, heap: Heap)

  datatype State = State(vars: map<string, Value>, heap: Heap, log: seq<Use>)

  /** Import aliases, how many items a value from outside has, and whether the functions from outside, other than sinks, put
      something into the containers that they are given. */
  datatype World = World(aliases: map<string, seq<string>>, items: nat, meddles: bool)

  datatype Outcome<T> = Done(value: T, state: State) | Ended(uses: seq<Use>) {
    predicate IsFailure() {
      Ended?
    }

    function PropagateFailure<U>(): Outcome<U>
      requires Ended?
    {
      Ended(uses)
    }

    function Extract(): (T, State)
      requires Done?
    {
      (value, state)
    }

    function Log(): seq<Use> {
      if Done? then state.log else uses
    }
  }

  // ----- values ------------------------------------------------------------------------------

  /** Something from outside is found in the value in at most n steps through the heap. */
  predicate HoldsWithin(v: Value, heap: Heap, n: nat)
    decreases n, v
  {
    match v
    case Known(_) => false
    case Outside => true
    case Text(outside) => outside
    case Made(_, parts) => exists p :: p in parts && HoldsWithin(p, heap, n)
    case Ref(at) => n > 0 && at < |heap| && exists p :: p in heap[at].items && HoldsWithin(p, heap, n - 1)
    case Closure(_) => false
  }

  ghost predicate Tainted(v: Value, heap: Heap) {
    exists n: nat :: HoldsWithin(v, heap, n)
  }

  /** A value is given a name: its containers get addresses. */
  function Settle(v: Value, heap: Heap): (Value, Heap)
    decreases v
  {
    match v
    case Made(kind, parts) =>
      var (ps, h) := SettleAll(parts, heap);
      if kind in CONTAINERS then (Ref(|h|), h + [Cell(kind, ps)]) else (Made(kind, ps), h)
    case _ => (v, heap)
  }

  function SettleAll(vs: seq<Value>, heap: Heap): (seq<Value>, Heap)
    decreases vs
  {
    if vs == [] then ([], heap)
    else
      var (v, h) := Settle(vs[0], heap);
      var (rest, h') := SettleAll(vs[1..], h);
      ([v] + rest, h')
  }

  function SetVar(m: State, x: string, v: Value): State {
    var (settled, heap) := Settle(v, m.heap);
    m.(vars := m.vars[x := settled], heap := heap)
  }

  /** The name means again what it meant before. */
  function Restored(m: State, before: State, x: string): State {
    m.(vars := if x in before.vars then m.vars[x := before.vars[x]] else m.vars - {x})
  }

  function Characters(text: string): seq<Value> {
    seq(|text|, i requires 0 <= i < |text| => Known(Str([text[i]])))
  }

  /** What a comprehension goes through, as far as that is followed. */
  function Items(w: World, v: Value, heap: Heap): Option<seq<Value>> {
    match v
    case Outside => Some(seq(w.items, _ => Outside))
    case Known(Str(text)) => Some(Characters(text))
    case Made(kind, parts) => if kind in {"list", "tuple"} then Some(parts) else None
    case Ref(at) => if at < |heap| && heap[at].kind == "list" then Some(heap[at].items) else None
    case _ => None
  }

  function Appended(heap: Heap, at: nat, v: Value): Heap
    requires at < |heap|
  {
    heap[at := Cell(heap[at].kind, heap[at].items + [v])]
  }

  /** Something from outside is put into each container that the value shows. */
  function Touch(v: Value, heap: Heap): (r: Heap)
    ensures |r| == |heap|
    decreases v
  {
    match v
    case Made(_, parts) => TouchAll(parts, heap)
    case Ref(at) => if at < |heap| then Appended(heap, at, Outside) else heap
    case _ => heap
  }

  function TouchAll(vs: seq<Value>, heap: Heap): (r: Heap)
    ensures |r| == |heap|
    decreases vs
  {
    if vs == [] then heap else TouchAll(vs[1..], Touch(vs[0], heap))
  }

  /** Built from literals, with no address inside. */
  predicate Pure(v: Value) {
    match v
    case Known(_) => true
    case Text(outside) => !outside
    case Made(_, parts) => forall p :: p in parts ==> Pure(p)
    case _ => false
  }

  /** No call can change it. */
  predicate Solid(v: Value) {
    match v
    case Known(_) => true
    case Text(outside) => !outside
    case Made(kind, parts) => kind !in CONTAINERS && forall p :: p in parts ==> Solid(p)
    case _ => false
  }

  lemma {:induction false} PureIsUntainted(v: Value, heap: Heap, n: nat)
    requires Pure(v)
    ensures !HoldsWithin(v, heap, n)
    decreases v
  {
    if v.Made? {
      forall p | p in v.parts ensures !HoldsWithin(p, heap, n) {
        PureIsUntainted(p, heap, n);
      }
    }
  }

  lemma {:induction false} SolidSettles(v: Value, heap: Heap)
    requires Solid(v)
    ensures Settle(v, heap) == (v, heap) && Pure(v)
    decreases v, 0
  {
    if v.Made? {
      AllSolidSettle(v.parts, heap);
    }
  }

  lemma {:induction false} AllSolidSettle(vs: seq<Value>, heap: Heap)
    requires forall v :: v in vs ==> Solid(v)
    ensures SettleAll(vs, heap) == (vs, heap) && forall v :: v in vs ==> Pure(v)
    decreases vs, 0
  {
    if vs != [] {
      SolidSettles(vs[0], heap);
      AllSolidSettle(vs[1..], heap);
      assert vs == [vs[0]] + vs[1..];
    }
  }

  // ----- calls -------------------------------------------------------------------------------

  /** The name is that of a module or builtin, not of a local object. */
  predicate IsGlobal(func: Expr, m: State) {
    Dotted(func)[0] !in m.vars
  }

  predicate Opens(flag: Option<Value>) {
    flag.Some? && (flag.value.Outside? || (flag.value.Known? && Truthy(flag.value.lit)))
  }

  function UsedInput(e: Expr, args: seq<Value>, kws: seq<Value>, name: seq<string>): Option<Value>
    requires e.Call?
  {
    if args != [] then Some(args[0]) else FirstKeyword(e.kwNames, kws, InputKeys(name))
  }

  /** What a call of an object from outside does at a sink, if that is what it calls. */
  function Uses(w: World, e: Expr, isGlobal: bool, args: seq<Value>, kws: seq<Value>, heap: Heap): seq<Use>
    requires e.Call?
  {
    var name := RuntimeName(w.aliases, e.func);
    var input := UsedInput(e, args, kws, name);
    if input.None? then []
    else
      (if RunsSql(name) then [Use(e.line, DynamicSql, input.value, heap)] else [])
      + (if isGlobal && (name in SHELL_SINKS || (name in SUBPROCESS_SINKS && Opens(Keyword(e.kwNames, kws, "shell"))))
         then [Use(e.line, ShellInjection, input.value, heap)] else [])
      + (if isGlobal && name in DESERIALIZERS then [Use(e.line, UnsafeDeserialization, input.value, heap)] else [])
  }

  ghost predicate AnyTainted(vs: seq<Value>, heap: Heap) {
    exists v :: v in vs && Tainted(v, heap)
  }

  /** `callee` is the object called or, for a method, the receiver. */
  ghost function Apply(w: World, e: Expr, isGlobal: bool, callee: Value, args: seq<Value>, kws: seq<Value>, m: State)
    : Outcome<Value>
    requires e.Call?
  {
    if callee.Outside? then
      var uses := Uses(w, e, isGlobal, args, kws, m.heap);
      Done(Outside, m.(log := m.log + uses,
                       heap := if w.meddles && uses == [] then TouchAll(args + kws, m.heap) else m.heap))
    else if !e.func.Attr? then Ended(m.log)
    else if e.func.attr in {"format", "join"} && (callee.Text? || (callee.Known? && callee.lit.Str?)) then
      Done(Text(AnyTainted([callee] + args + kws, m.heap)), m)
    else if e.func.attr == "append" && callee.Ref? && callee.at < |m.heap| && m.heap[callee.at].kind == "list"
            && |args| == 1 && kws == [] then
      var (v, heap) := Settle(args[0], m.heap);
      if callee.at < |heap| then Done(Known(NoneLit), m.(heap := Appended(heap, callee.at, v))) else Ended(m.log)
    else Ended(m.log)
  }

  // ----- expressions -------------------------------------------------------------------------

  /** `[element for name in iterable]` */
  predicate IsComprehension(e: Expr)
    requires e.Binds?
  {
    && e.form.Eager? && |e.names| == 1 && |e.children| == 2
    && e.children[1].Opaque? && |e.children[1].children| == 2 && e.children[1].children[0] == Name(e.names[0])
  }

  /** `(name := value)` */
  predicate IsAssignment(e: Expr)
    requires e.Binds?
  {
    e.form.Lasting? && |e.names| == 1 && |e.children| == 2 && e.children[0] == Name(e.names[0])
  }

  /** `lambda: body`, with no name of its own */
  predicate IsLambda(e: Expr)
    requires e.Binds?
  {
    e.form.Deferred? && e.names == [] && |e.children| == 1 && LeftBound(e.children[0]) == {}
  }

  /** Evaluates an expression; functions call each other at most `depth` deep. */
  ghost function RunExpr(w: World, e: Expr, m: State, depth: nat): Outcome<Value>
    decreases depth, e, 1
  {
    match e
    case Const(lit) => Done(Known(lit), m)
    case Name(id) => Done(if id in m.vars then m.vars[id] else Outside, m)
    case Attr(base, _, _) =>
      var (b, m1) :- RunExpr(w, base, m, depth);
      if b.Outside? then Done(Outside, m1) else Ended(m1.log)
    case Build(kind, children) =>
      var (vs, m1) :- RunExprs(w, children, m, depth);
      Done(if kind in TEXTS then Text(AnyTainted(vs, m1.heap)) else Made(kind, vs), m1)
    case Binds(_, names, children) =>
      if IsLambda(e) then Done(Closure(children[0]), m)
      else if IsAssignment(e) then
        var (v, m1) :- RunExpr(w, children[1], m, depth);
        var m2 := SetVar(m1, names[0], v);
        Done(m2.vars[names[0]], m2)
      else if IsComprehension(e) then
        var (v, m1) :- RunExpr(w, children[1].children[1], m, depth);
        var items := Items(w, v, m1.heap);
        if items.None? then Ended(m1.log)
        else
          var (vs, m2) :- RunLoop(w, names[0], children[0], items.value, m1, depth);
          if Items(w, v, m2.heap) == items then Done(Made("list", vs), Restored(m2, m, names[0])) else Ended(m2.log)
      else Ended(m.log)
    case Opaque(_, _) => Ended(m.log)
    case Call(func, args, _, kwValues, _) =>
      var (callee, m1) :- RunExpr(w, if func.Attr? then func.base else func, m, depth);
      var (vs, m2) :- RunExprs(w, args, m1, depth);
      var (kws, m3) :- RunExprs(w, kwValues, m2, depth);
      RunCall(w, e, IsGlobal(func, m), callee, vs, kws, m3, depth)
  }

  ghost function RunCall(w: World, e: Expr, isGlobal: bool, callee: Value, args: seq<Value>, kws: seq<Value>, m: State,
                         depth: nat)
    : Outcome<Value>
    requires e.Call?
    decreases depth, e, 0
  {
    if callee.Closure? && !e.func.Attr? && args == [] && kws == [] then
      if depth == 0 then Ended(m.log)
      else
        var (v, m1) :- RunExpr(w, callee.body, m, depth - 1);
        Done(v, m1.(vars := m.vars))
    else Apply(w, e, isGlobal, callee, args, kws, m)
  }

  ghost function RunExprs(w: World, es: seq<Expr>, m: State, depth: nat): Outcome<seq<Value>>
    decreases depth, es, 0
  {
    if es == [] then Done([], m)
    else
      var (v, m1) :- RunExpr(w, es[0], m, depth);
      var (vs, m2) :- RunExprs(w, es[1..], m1, depth);
      Done([v] + vs, m2)
  }

  ghost function RunLoop(w: World, x: string, element: Expr, items: seq<Value>, m: State, depth: nat)
    : Outcome<seq<Value>>
    decreases depth, element, |items| + 2
  {
    if items == [] then Done([], m)
    else
      var (v, m1) :- RunExpr(w, element, SetVar(m, x, items[0]), depth);
      var (vs, m2) :- RunLoop(w, x, element, items[1..], m1, depth);
      Done([v] + vs, m2)
  }

  // ----- statements --------------------------------------------------------------------------

  /** The run can take this branch. */
  predicate Takes(test: Value, branch: bool) {
    match test
    case Known(lit) => Truthy(lit) == branch
    case Outside => true
    case Text(outside) => outside
    case _ => false
  }

  /** Follows the path that `choose` decides, as long as it is one that Python can take. */
  ghost function RunStmt(w: World, st: Stmt, m: State, choose: seq<nat> -> bool, at: seq<nat>, depth: nat): Outcome<()>
    decreases st
  {
    match st
    case Assign(target, value, _) =>
      var (v, m1) :- RunExpr(w, value, m, depth);
      Done((), SetVar(m1, target, v))
    case Do(e) =>
      var (_, m1) :- RunExpr(w, e, m, depth);
      Done((), m1)
    case If(test, body, orelse) =>
      var (v, m1) :- RunExpr(w, test, m, depth);
      if !Takes(v, choose(at)) then Ended(m1.log)
      else if choose(at) then RunStmts(w, body, m1, choose, at + [0], 0, depth)
      else RunStmts(w, orelse, m1, choose, at + [1], 0, depth)
  }

  ghost function RunStmts(w: World, ss: seq<Stmt>, m: State, choose: seq<nat> -> bool, at: seq<nat>, i: nat, depth: nat)
    : Outcome<()>
    decreases ss
  {
    if ss == [] then Done((), m)
    else
      var (_, m1) :- RunStmt(w, ss[0], m, choose, at + [i], depth);
      RunStmts(w, ss[1..], m1, choose, at, i + 1, depth)
  }

  /** Parameters hold values from outside. */
  function Start(params: set<string>): State {
    State(map p | p in params :: Outside, [], [])
  }

  // ----- what runs leave alone ---------------------------------------------------------------

  lemma PairBound(e: Expr)
    requires e.Binds? && |e.children| == 2
    ensures LeftBound(e) == (if e.form.Lasting? then AsSet(e.names) else {}) + LeftBound(e.children[0])
                            + LeftBound(e.children[1])
  {
    assert e.children == [e.children[0], e.children[1]] && e.children[1..] == [e.children[1]];
    assert LeftBoundAll([e.children[1]]) == LeftBound(e.children[1]) + LeftBoundAll([e.children[1]][1..]);
  }

  lemma ClauseBound(clause: Expr)
    requires clause.Opaque? && |clause.children| == 2 && clause.children[0].Name?
    ensures LeftBound(clause) == LeftBound(clause.children[1])
  {
    var name, last := clause.children[0], clause.children[1];
    assert clause.children[1..] == [last] && [last][1..] == [];
    assert LeftBoundAll(clause.children) == LeftBound(name) + LeftBoundAll([last]) == LeftBound(last);
  }

  ghost predicate SameNames(m: State, m': State, except: set<string>) {
    forall k :: k !in except ==> (k in m.vars <==> k in m'.vars) && (k in m.vars ==> m.vars[k] == m'.vars[k])
  }

  /** Only the names that an expression leaves bound mean something else after it. */
  lemma {:induction false} ExprBindsOnly(w: World, e: Expr, m: State, depth: nat)
    requires RunExpr(w, e, m, depth).Done?
    ensures SameNames(m, RunExpr(w, e, m, depth).state, LeftBound(e))
    decreases depth, e, 2
  {
    match e
    case Const(_) =>
    case Name(_) =>
    case Attr(base, _, _) => ExprBindsOnly(w, base, m, depth);
    case Build(_, children) => ExprsBindOnly(w, children, m, depth);
    case Binds(_, _, children) => BindsBindsOnly(w, e, m, depth);
    case Opaque(_, _) =>
    case Call(func, args, _, kwValues, _) =>
      var callee := if func.Attr? then func.base else func;
      assert LeftBound(callee) == LeftBound(func);
      ExprBindsOnly(w, callee, m, depth);
      var m1 := RunExpr(w, callee, m, depth).state;
      ExprsBindOnly(w, args, m1, depth);
      var r := RunExprs(w, args, m1, depth);
      ExprsBindOnly(w, kwValues, r.state, depth);
      CallBindsNothing(w, e, IsGlobal(func, m), RunExpr(w, callee, m, depth).value, r.value,
                       RunExprs(w, kwValues, r.state, depth).value, RunExprs(w, kwValues, r.state, depth).state, depth);
  }

  lemma CallBindsNothing(w: World, e: Expr, isGlobal: bool, callee: Value, args: seq<Value>, kws: seq<Value>, m: State,
                         depth: nat)
    requires e.Call? && RunCall(w, e, isGlobal, callee, args, kws, m, depth).Done?
    ensures RunCall(w, e, isGlobal, callee, args, kws, m, depth).state.vars == m.vars
  {
  }

  lemma {:induction false} BindsBindsOnly(w: World, e: Expr, m: State, depth: nat)
    requires e.Binds? && RunExpr(w, e, m, depth).Done?
    ensures SameNames(m, RunExpr(w, e, m, depth).state, LeftBound(e))
    decreases depth, e, 1
  {
    if !IsLambda(e) {
      PairBound(e);
      if IsAssignment(e) {
        ExprBindsOnly(w, e.children[1], m, depth);
      } else {
        var iterable := e.children[1].children[1];
        ClauseBound(e.children[1]);
        ExprBindsOnly(w, iterable, m, depth);
        var r := RunExpr(w, iterable, m, depth);
        LoopBindsOnly(w, e.names[0], e.children[0], Items(w, r.value, r.state.heap).value, r.state, depth);
      }
    }
  }

  lemma {:induction false} LoopBindsOnly(w: World, x: string, element: Expr, items: seq<Value>, m: State, depth: nat)
    requires RunLoop(w, x, element, items, m, depth).Done?
    ensures SameNames(m, RunLoop(w, x, element, items, m, depth).state, LeftBound(element) + {x})
    decreases depth, element, |items| + 3
  {
    if items != [] {
      var m0 := SetVar(m, x, items[0]);
      ExprBindsOnly(w, element, m0, depth);
      LoopBindsOnly(w, x, element, items[1..], RunExpr(w, element, m0, depth).state, depth);
    }
  }

  lemma {:induction false} ExprsBindOnly(w: World, es: seq<Expr>, m: State, depth: nat)
    requires RunExprs(w, es, m, depth).Done?
    ensures SameNames(m, RunExprs(w, es, m, depth).state, LeftBoundAll(es))
    decreases depth, es, 0
  {
    if es != [] {
      ExprBindsOnly(w, es[0], m, depth);
      ExprsBindOnly(w, es[1..], RunExpr(w, es[0], m, depth).state, depth);
    }
  }

  // ----- what appending changes --------------------------------------------------------------

  predicate ReachesWithin(v: Value, heap: Heap, a: nat, n: nat)
    decreases n, v
  {
    match v
    case Made(_, parts) => exists p :: p in parts && ReachesWithin(p, heap, a, n)
    case Ref(at) => at == a || (n > 0 && at < |heap| && exists p :: p in heap[at].items && ReachesWithin(p, heap, a, n - 1))
    case _ => false
  }

  ghost predicate Reaches(v: Value, heap: Heap, a: nat) {
    exists n: nat :: ReachesWithin(v, heap, a, n)
  }

  lemma {:induction false} MoreSteps(v: Value, heap: Heap, n: nat, n': nat)
    requires HoldsWithin(v, heap, n) && n <= n'
    ensures HoldsWithin(v, heap, n')
    decreases n, v
  {
    match v
    case Made(_, parts) =>
      var p :| p in parts && HoldsWithin(p, heap, n);
      MoreSteps(p, heap, n, n');
    case Ref(at) =>
      var p :| p in heap[at].items && HoldsWithin(p, heap, n - 1);
      MoreSteps(p, heap, n - 1, n' - 1);
    case _ =>
  }

  lemma {:induction false} AppendKeepsTaint(v: Value, heap: Heap, a: nat, item: Value, n: nat)
    requires HoldsWithin(v, heap, n) && a < |heap|
    ensures HoldsWithin(v, Appended(heap, a, item), n)
    decreases n, v
  {
    match v
    case Made(_, parts) =>
      var p :| p in parts && HoldsWithin(p, heap, n);
      AppendKeepsTaint(p, heap, a, item, n);
    case Ref(at) =>
      var p :| p in heap[at].items && HoldsWithin(p, heap, n - 1);
      AppendKeepsTaint(p, heap, a, item, n - 1);
      assert p in Appended(heap, a, item)[at].items;
    case _ =>
  }

  lemma {:induction false} ReachingTaints(v: Value, heap: Heap, a: nat, item: Value, n: nat, k: nat)
    requires ReachesWithin(v, heap, a, n) && a < |heap| && HoldsWithin(item, heap, k)
    ensures HoldsWithin(v, Appended(heap, a, item), n + k + 1)
    decreases n, v
  {
    match v
    case Made(_, parts) =>
      var p :| p in parts && ReachesWithin(p, heap, a, n);
      ReachingTaints(p, heap, a, item, n, k);
    case Ref(at) =>
      var heap' := Appended(heap, a, item);
      if at == a {
        AppendKeepsTaint(item, heap, a, item, k);
        MoreSteps(item, heap', k, n + k);
        assert heap'[a].items[|heap[a].items|] == item && item in heap'[at].items;
      } else {
        var p :| p in heap[at].items && ReachesWithin(p, heap, a, n - 1);
        ReachingTaints(p, heap, a, item, n - 1, k);
      }
  }

  lemma {:induction false} TaintedByAppend(v: Value, heap: Heap, a: nat, item: Value, n: nat)
    requires a < |heap| && HoldsWithin(v, Appended(heap, a, item), n)
    ensures Tainted(v, heap) || (Reaches(v, heap, a) && Tainted(item, heap))
    decreases n, v
  {
    var heap' := Appended(heap, a, item);
    match v
    case Known(_) =>
    case Closure(_) =>
    case Outside => assert HoldsWithin(v, heap, 0);
    case Text(_) => assert HoldsWithin(v, heap, 0);
    case Made(_, parts) =>
      var p :| p in parts && HoldsWithin(p, heap', n);
      TaintedByAppend(p, heap, a, item, n);
      PartTaints(v, p, heap, a);
    case Ref(at) =>
      var p :| p in heap'[at].items && HoldsWithin(p, heap', n - 1);
      TaintedByAppend(p, heap, a, item, n - 1);
      assert at == a ==> ReachesWithin(v, heap, a, 0);
      if p in heap[at].items {
        ItemTaints(at, p, heap, a);
      }
  }

  lemma PartTaints(v: Value, p: Value, heap: Heap, a: nat)
    requires v.Made? && p in v.parts
    ensures Tainted(p, heap) ==> Tainted(v, heap)
    ensures Reaches(p, heap, a) ==> Reaches(v, heap, a)
  {
    if Tainted(p, heap) {
      var n: nat :| HoldsWithin(p, heap, n);
      assert HoldsWithin(v, heap, n);
    }
    if Reaches(p, heap, a) {
      var n: nat :| ReachesWithin(p, heap, a, n);
      assert ReachesWithin(v, heap, a, n);
    }
  }

  lemma ItemTaints(at: nat, p: Value, heap: Heap, a: nat)
    requires at < |heap| && p in heap[at].items
    ensures Tainted(p, heap) ==> Tainted(Ref(at), heap)
    ensures Reaches(p, heap, a) ==> Reaches(Ref(at), heap, a)
  {
    if Tainted(p, heap) {
      var n: nat :| HoldsWithin(p, heap, n);
      assert HoldsWithin(Ref(at), heap, n + 1);
    }
    if Reaches(p, heap, a) {
      var n: nat :| ReachesWithin(p, heap, a, n);
      assert ReachesWithin(Ref(at), heap, a, n + 1);
    }
  }

  /** Appending to a list taints exactly the values that reach it, if what is appended is tainted. */
  lemma AppendTaintsIff(v: Value, heap: Heap, a: nat, item: Value)
    requires a < |heap|
    ensures Tainted(v, Appended(heap, a, item)) <==>
              Tainted(v, heap) || (Reaches(v, heap, a) && Tainted(item, heap))
  {
    var heap' := Appended(heap, a, item);
    if Tainted(v, heap') {
      var n: nat :| HoldsWithin(v, heap', n);
      TaintedByAppend(v, heap, a, item, n);
    }
    if Tainted(v, heap) {
      var n: nat :| HoldsWithin(v, heap, n);
      AppendKeepsTaint(v, heap, a, item, n);
    } else if Reaches(v, heap, a) && Tainted(item, heap) {
      var n: nat :| ReachesWithin(v, heap, a, n);
      var k: nat :| HoldsWithin(item, heap, k);
      ReachingTaints(v, heap, a, item, n, k);
    }
  }
}
