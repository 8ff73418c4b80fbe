/** The one-job slot and the shutdown protocol as interleaved steps. */
module JobSlot {
  // Any number of requests compete for the slot; a request that starts a background job hands the slot to the job's
  // thread. Steps taken while a lock is held are separate, so other clients may move between them.

  datatype Kind =
    | Session | Finding | Evaluation | Tuning   // requests that start a job thread
    | StartRuntime                              // the on-device runtime start branch
    | Synchronous                               // served while the request itself holds the slot

  predicate StartsJob(k: Kind) {
    k.Session? || k.Finding? || k.Evaluation? || k.Tuning?
  }

  /** Where a request is. */
  datatype Pc =
    | Fresh | Refused
    | Holding                                   // has the slot
    | CheckingFlag | Registering                // holds the lock, first section
    | Registered
    | Rechecking | Starting                     // holds the lock, second section
    | Launched                                  // the thread owns the slot
    | Unwinding | Unregistered                  // the exception path
    | Admitted | InGate | Cleared | Leaving     // the runtime start branch
    | Closed

  /** Where the thread of a job is. */
  datatype Life = NotStarted | Running | AtGate | GateCleared | Deregistered | Ended

  datatype Client = Client(kind: Kind, pc: Pc, life: Life, recorded: bool, cancelled: bool, releases: nat)

  datatype Holder = Free | By(client: nat)

  datatype Phase = Serving | Stopping | Drained | RuntimeStopped

  datatype State = State(
    clients: seq<Client>, slot: bool, lock: Holder, gate: Holder,
    jobs: set<nat>, phase: Phase, snapshot: set<nat>,
    runtimeOn: bool, runtimeStarts: nat, strayReleases: nat)

  predicate StopFlag(s: State) {
    !s.phase.Serving?
  }

  predicate Snapped(s: State) {
    s.phase.Drained? || s.phase.RuntimeStopped?
  }

  datatype Action =
    | Acquire(i: nat)
    | EnterRegister(i: nat) | CheckRegister(i: nat) | RegistryFull(i: nat) | Register(i: nat)
    | SaveFails(i: nat)
    | EnterStart(i: nat) | CheckStart(i: nat) | Start(i: nat) | StartFails(i: nat)
    | CopyFails(i: nat)
    | Unregister(i: nat) | ReleaseStarter(i: nat)
    | Deregister(i: nat) | ReleaseThread(i: nat)
    | Cancel(i: nat)
    | TunerEnter(i: nat) | TunerCheck(i: nat, restoring: bool) | TunerStart(i: nat)
    | RuntimeAdmit(i: nat) | RuntimeEnter(i: nat) | RuntimeCheck(i: nat) | RuntimeStart(i: nat)
    | Leave(i: nat)
    | RuntimeEnds
    | SetStopping | TakeSnapshot | FinalStop

  predicate DrainAction(a: Action) {
    a.SetStopping? || a.TakeSnapshot? || a.FinalStop? || a.RuntimeEnds?
  }

  predicate Enabled(s: State, a: Action) {
    if DrainAction(a) then
      match a
      case SetStopping => s.phase.Serving? && s.gate.Free?
      case TakeSnapshot => s.phase.Stopping? && s.lock.Free?
      case FinalStop => s.phase.Drained? && s.gate.Free?
      case _ => true
    else a.i < |s.clients| && ClientEnabled(s, s.clients[a.i], a)
  }

  predicate ClientEnabled(s: State, c: Client, a: Action)
    requires !DrainAction(a)
  {
    match a
    case Acquire(_) => c.pc.Fresh?
    case EnterRegister(_) => c.pc.Holding? && StartsJob(c.kind) && s.lock.Free?
    case CheckRegister(_) => c.pc.CheckingFlag?
    case RegistryFull(_) => c.pc.Registering? && !c.kind.Session?
    case Register(_) => c.pc.Registering?
    case SaveFails(_) => c.pc.Registered?
    case EnterStart(_) => c.pc.Registered? && s.lock.Free?
    case CheckStart(_) => c.pc.Rechecking?
    case Start(_) => c.pc.Starting?
    case StartFails(_) => c.pc.Starting?
    case CopyFails(_) => c.pc.Launched? && !c.kind.Session?
    case Unregister(_) => c.pc.Unwinding? && s.lock.Free?
    case ReleaseStarter(_) => c.pc.Unregistered?
    case Deregister(_) => c.life.Running? && s.lock.Free?
    case ReleaseThread(_) => c.life.Deregistered?
    case Cancel(_) => true
    case TunerEnter(_) => c.kind.Tuning? && c.life.Running? && s.gate.Free?
    case TunerCheck(_, _) => c.life.AtGate?
    case TunerStart(_) => c.life.GateCleared?
    case RuntimeAdmit(_) => c.kind.StartRuntime? && c.pc.Holding?
    case RuntimeEnter(_) => c.pc.Admitted? && s.gate.Free?
    case RuntimeCheck(_) => c.pc.InGate?
    case RuntimeStart(_) => c.pc.Cleared?
    case Leave(_) => c.pc.Leaving? || (c.pc.Holding? && c.kind.Synchronous?)
    case _ => false
  }

  function Put(s: State, i: nat, c: Client): State
    requires i < |s.clients|
  {
    s.(clients := s.clients[i := c])
  }

  function At(s: State, i: nat, pc: Pc): State
    requires i < |s.clients|
  {
    Put(s, i, s.clients[i].(pc := pc))
  }

  /** Releasing a slot that nobody holds is counted; it is an error of the caller. */
  function Release(s: State, i: nat): State
    requires i < |s.clients|
  {
    Put(s, i, s.clients[i].(releases := s.clients[i].releases + 1))
    .(slot := false, strayReleases := s.strayReleases + (if s.slot then 0 else 1))
  }

  function Apply(s: State, a: Action): State
    requires Enabled(s, a)
  {
    if DrainAction(a) then
      match a
      case SetStopping => s.(phase := Stopping)
      case TakeSnapshot =>
        s.(phase := Drained, snapshot := s.jobs,
           clients := seq(|s.clients|, i requires 0 <= i < |s.clients| =>
             if i in s.jobs then s.clients[i].(cancelled := true) else s.clients[i]))
      case FinalStop => s.(phase := RuntimeStopped, runtimeOn := false)
      case _ => s.(runtimeOn := false)
    else ClientApply(s, s.clients[a.i], a)
  }

  function ClientApply(s: State, c: Client, a: Action): State
    requires !DrainAction(a) && a.i < |s.clients| && c == s.clients[a.i] && ClientEnabled(s, c, a)
  {
    match a
    case Acquire(i) => if s.slot then At(s, i, Refused) else At(s.(slot := true), i, Holding)
    case EnterRegister(i) => At(s.(lock := By(i)), i, CheckingFlag)
    case CheckRegister(i) =>
      if !StopFlag(s) then At(s, i, Registering)
      else if c.kind.Session? || c.kind.Finding? then Release(At(s.(lock := Free), i, Closed), i)
      else At(s.(lock := Free), i, Unwinding)
    case RegistryFull(i) => At(s.(lock := Free), i, Unwinding)
    case Register(i) =>
      var filed := s.(jobs := s.jobs + {i});
      if c.kind.Tuning? then At(filed, i, Starting) else At(filed.(lock := Free), i, Registered)
    case SaveFails(i) => At(s, i, Unwinding)
    case EnterStart(i) => At(s.(lock := By(i)), i, Rechecking)
    case CheckStart(i) => if StopFlag(s) then At(s.(lock := Free), i, Unwinding) else At(s, i, Starting)
    case Start(i) => Put(s.(lock := Free), i, c.(pc := Launched, life := Running, recorded := true))
    case StartFails(i) => Put(s.(lock := Free), i, c.(pc := Unwinding, recorded := true))
    case CopyFails(i) => At(s, i, Unwinding)
    case Unregister(i) => At(s.(jobs := s.jobs - {i}), i, Unregistered)
    case ReleaseStarter(i) => Release(At(s, i, Closed), i)
    case Deregister(i) => Put(s.(jobs := s.jobs - {i}), i, c.(life := Deregistered))
    case ReleaseThread(i) => Release(Put(s, i, c.(life := Ended)), i)
    case Cancel(i) => Put(s, i, c.(cancelled := true))
    case TunerEnter(i) => Put(s.(gate := By(i)), i, c.(life := AtGate))
    case TunerCheck(i, restoring) =>
      if StopFlag(s) || (!restoring && c.cancelled) then Put(s.(gate := Free), i, c.(life := Running))
      else Put(s, i, c.(life := GateCleared))
    case TunerStart(i) =>
      Put(s.(gate := Free, runtimeOn := true, runtimeStarts := s.runtimeStarts + 1), i, c.(life := Running))
    case RuntimeAdmit(i) => if StopFlag(s) then At(s, i, Leaving) else At(s, i, Admitted)
    case RuntimeEnter(i) => At(s.(gate := By(i)), i, InGate)
    case RuntimeCheck(i) => if StopFlag(s) then At(s.(gate := Free), i, Leaving) else At(s, i, Cleared)
    case RuntimeStart(i) =>
      At(s.(gate := Free, runtimeOn := true, runtimeStarts := s.runtimeStarts + 1), i, Leaving)
    case Leave(i) => Release(At(s, i, Closed), i)
    case _ => s
  }

  // ----- what every step keeps ---------------------------------------------------------------

  predicate HasLock(c: Client) {
    c.pc.CheckingFlag? || c.pc.Registering? || c.pc.Rechecking? || c.pc.Starting?
  }

  predicate HasGate(c: Client) {
    c.pc.InGate? || c.pc.Cleared? || c.life.AtGate? || c.life.GateCleared?
  }

  /** The thread has started and not yet taken its job out of the registry. */
  predicate Live(c: Client) {
    c.life.Running? || c.life.AtGate? || c.life.GateCleared?
  }

  predicate Owns(c: Client) {
    || c.pc.Holding? || HasLock(c) || c.pc.Registered? || c.pc.Unwinding? || c.pc.Unregistered?
    || c.pc.Admitted? || c.pc.InGate? || c.pc.Cleared? || c.pc.Leaving? || Live(c) || c.life.Deregistered?
  }

  predicate MustBeFiled(c: Client) {
    c.pc.Registered? || c.pc.Rechecking? || c.pc.Starting? || Live(c)
  }

  predicate Finished(c: Client) {
    c.pc.Closed? || c.life.Ended?
  }

  ghost predicate ClientOk(s: State, i: nat)
    requires i < |s.clients|
  {
    var c := s.clients[i];
    && (s.lock == By(i) <==> HasLock(c))
    && (s.gate == By(i) <==> HasGate(c))
    && (MustBeFiled(c) ==> i in s.jobs)
    && (i in s.jobs ==> MustBeFiled(c) || c.pc.Unwinding?)
    && (c.pc.Launched? <==> !c.life.NotStarted?)
    && (Live(c) ==> c.recorded)
    && c.releases == (if Finished(c) then 1 else 0)
    && (Owns(c) ==> s.slot)
    && (c.pc.Cleared? || c.life.GateCleared? ==> !StopFlag(s))
    && (Snapped(s) ==> !c.pc.Registering? && !c.pc.Starting?)
    && (Snapped(s) && Live(c) ==> i in s.snapshot && c.cancelled)
  }

  ghost predicate OneOwner(s: State) {
    forall i: nat, j: nat :: i < |s.clients| && j < |s.clients| && Owns(s.clients[i]) && Owns(s.clients[j]) ==> i == j
  }

  ghost predicate SomeOwner(s: State) {
    exists i: nat :: i < |s.clients| && Owns(s.clients[i])
  }

  ghost predicate Inv(s: State) {
    && (forall i: nat :: i < |s.clients| ==> ClientOk(s, i))
    && OneOwner(s)
    && (s.slot ==> SomeOwner(s))
    && s.strayReleases == 0
    && (forall i :: i in s.jobs ==> i < |s.clients|)
    && (s.lock.By? ==> s.lock.client < |s.clients|)
    && (!Snapped(s) ==> s.snapshot == {})
    && (s.phase.RuntimeStopped? ==> !s.runtimeOn)
  }

  ghost predicate Initial(s: State) {
    && (forall i: nat :: i < |s.clients| ==> s.clients[i] == Client(s.clients[i].kind, Fresh, NotStarted, false, false, 0))
    && !s.slot && s.lock.Free? && s.gate.Free? && s.jobs == {} && s.phase.Serving? && s.snapshot == {}
    && s.runtimeStarts == 0 && s.strayReleases == 0
  }

  lemma InitialInv(s: State)
    requires Initial(s)
    ensures Inv(s)
  {
  }

  /** What one action of client i does to the state: the client stays consistent, other clients are untouched, and locks,
      slot and registry change only on its own account. */
  ghost predicate Moves(s: State, t: State, i: nat) {
    && i < |s.clients| == |t.clients|
    && ClientOk(t, i)
    && (forall j: nat :: j < |s.clients| && j != i ==> t.clients[j] == s.clients[j])
    && t.phase == s.phase && t.snapshot == s.snapshot && t.strayReleases == s.strayReleases
    && (forall j: nat :: j != i ==> (j in t.jobs <==> j in s.jobs) && (t.lock == By(j) <==> s.lock == By(j))
                                    && (t.gate == By(j) <==> s.gate == By(j)))
    && (Owns(t.clients[i]) ==> Owns(s.clients[i]) || !s.slot)
    && (s.slot && !t.slot ==> Owns(s.clients[i]) && !Owns(t.clients[i]))
    && (t.slot && (!s.slot || Owns(s.clients[i])) ==> Owns(t.clients[i]))
    && (StopFlag(s) ==> t.runtimeStarts == s.runtimeStarts && t.runtimeOn == s.runtimeOn)
    && (s.clients[i].cancelled ==> t.clients[i].cancelled)
    && (Snapped(s) && s.clients[i].life.NotStarted? ==> t.clients[i].life.NotStarted?)
    && (Live(t.clients[i]) ==> Live(s.clients[i]) || s.clients[i].life.NotStarted?)
  }

  lemma AcquireMoves(s: State, i: nat)
    requires Enabled(s, Acquire(i)) && ClientOk(s, i)
    ensures Moves(s, Apply(s, Acquire(i)), i)
  {
  }

  lemma EnterRegisterMoves(s: State, i: nat)
    requires Enabled(s, EnterRegister(i)) && ClientOk(s, i)
    ensures Moves(s, Apply(s, EnterRegister(i)), i)
  {
  }

  lemma CheckRegisterMoves(s: State, i: nat)
    requires Enabled(s, CheckRegister(i)) && ClientOk(s, i)
    ensures Moves(s, Apply(s, CheckRegister(i)), i)
  {
  }

  lemma RegistryFullMoves(s: State, i: nat)
    requires Enabled(s, RegistryFull(i)) && ClientOk(s, i)
    ensures Moves(s, Apply(s, RegistryFull(i)), i)
  {
  }

  lemma RegisterMoves(s: State, i: nat)
    requires Enabled(s, Register(i)) && ClientOk(s, i)
    ensures Moves(s, Apply(s, Register(i)), i)
  {
  }

  lemma SaveFailsMoves(s: State, i: nat)
    requires Enabled(s, SaveFails(i)) && ClientOk(s, i)
    ensures Moves(s, Apply(s, SaveFails(i)), i)
  {
  }

  lemma EnterStartMoves(s: State, i: nat)
    requires Enabled(s, EnterStart(i)) && ClientOk(s, i)
    ensures Moves(s, Apply(s, EnterStart(i)), i)
  {
  }

  lemma CheckStartMoves(s: State, i: nat)
    requires Enabled(s, CheckStart(i)) && ClientOk(s, i)
    ensures Moves(s, Apply(s, CheckStart(i)), i)
  {
  }

  lemma StartMoves(s: State, i: nat)
    requires Enabled(s, Start(i)) && ClientOk(s, i)
    ensures Moves(s, Apply(s, Start(i)), i)
  {
  }

  lemma StartFailsMoves(s: State, i: nat)
    requires Enabled(s, StartFails(i)) && ClientOk(s, i)
    ensures Moves(s, Apply(s, StartFails(i)), i)
  {
  }

  lemma UnregisterMoves(s: State, i: nat)
    requires Enabled(s, Unregister(i)) && ClientOk(s, i)
    ensures Moves(s, Apply(s, Unregister(i)), i)
  {
  }

  lemma ReleaseStarterMoves(s: State, i: nat)
    requires Enabled(s, ReleaseStarter(i)) && ClientOk(s, i)
    ensures Moves(s, Apply(s, ReleaseStarter(i)), i)
  {
  }

  lemma DeregisterMoves(s: State, i: nat)
    requires Enabled(s, Deregister(i)) && ClientOk(s, i)
    ensures Moves(s, Apply(s, Deregister(i)), i)
  {
  }

  lemma ReleaseThreadMoves(s: State, i: nat)
    requires Enabled(s, ReleaseThread(i)) && ClientOk(s, i)
    ensures Moves(s, Apply(s, ReleaseThread(i)), i)
  {
  }

  lemma CancelMoves(s: State, i: nat)
    requires Enabled(s, Cancel(i)) && ClientOk(s, i)
    ensures Moves(s, Apply(s, Cancel(i)), i)
  {
  }

  lemma TunerEnterMoves(s: State, i: nat)
    requires Enabled(s, TunerEnter(i)) && ClientOk(s, i)
    ensures Moves(s, Apply(s, TunerEnter(i)), i)
  {
  }

  lemma TunerCheckMoves(s: State, i: nat, restoring: bool)
    requires Enabled(s, TunerCheck(i, restoring)) && ClientOk(s, i)
    ensures Moves(s, Apply(s, TunerCheck(i, restoring)), i)
  {
  }

  lemma TunerStartMoves(s: State, i: nat)
    requires Enabled(s, TunerStart(i)) && ClientOk(s, i)
    ensures Moves(s, Apply(s, TunerStart(i)), i)
  {
  }

  lemma RuntimeAdmitMoves(s: State, i: nat)
    requires Enabled(s, RuntimeAdmit(i)) && ClientOk(s, i)
    ensures Moves(s, Apply(s, RuntimeAdmit(i)), i)
  {
  }

  lemma RuntimeEnterMoves(s: State, i: nat)
    requires Enabled(s, RuntimeEnter(i)) && ClientOk(s, i)
    ensures Moves(s, Apply(s, RuntimeEnter(i)), i)
  {
  }

  lemma RuntimeCheckMoves(s: State, i: nat)
    requires Enabled(s, RuntimeCheck(i)) && ClientOk(s, i)
    ensures Moves(s, Apply(s, RuntimeCheck(i)), i)
  {
  }

  lemma RuntimeStartMoves(s: State, i: nat)
    requires Enabled(s, RuntimeStart(i)) && ClientOk(s, i)
    ensures Moves(s, Apply(s, RuntimeStart(i)), i)
  {
  }

  lemma LeaveMoves(s: State, i: nat)
    requires Enabled(s, Leave(i)) && ClientOk(s, i)
    ensures Moves(s, Apply(s, Leave(i)), i)
  {
  }

  lemma ActorMoves(s: State, a: Action)
    requires Inv(s) && Enabled(s, a) && !DrainAction(a) && !a.CopyFails?
    ensures Moves(s, Apply(s, a), a.i)
  {
    assert ClientOk(s, a.i);
    hide Inv, ClientOk, Moves, Apply, Enabled;
    match a
    case Acquire(i) => AcquireMoves(s, i);
    case EnterRegister(i) => EnterRegisterMoves(s, i);
    case CheckRegister(i) => CheckRegisterMoves(s, i);
    case RegistryFull(i) => RegistryFullMoves(s, i);
    case Register(i) => RegisterMoves(s, i);
    case SaveFails(i) => SaveFailsMoves(s, i);
    case EnterStart(i) => EnterStartMoves(s, i);
    case CheckStart(i) => CheckStartMoves(s, i);
    case Start(i) => StartMoves(s, i);
    case StartFails(i) => StartFailsMoves(s, i);
    case Unregister(i) => UnregisterMoves(s, i);
    case ReleaseStarter(i) => ReleaseStarterMoves(s, i);
    case Deregister(i) => DeregisterMoves(s, i);
    case ReleaseThread(i) => ReleaseThreadMoves(s, i);
    case Cancel(i) => CancelMoves(s, i);
    case TunerEnter(i) => TunerEnterMoves(s, i);
    case TunerCheck(i, restoring) => TunerCheckMoves(s, i, restoring);
    case TunerStart(i) => TunerStartMoves(s, i);
    case RuntimeAdmit(i) => RuntimeAdmitMoves(s, i);
    case RuntimeEnter(i) => RuntimeEnterMoves(s, i);
    case RuntimeCheck(i) => RuntimeCheckMoves(s, i);
    case RuntimeStart(i) => RuntimeStartMoves(s, i);
    case Leave(i) => LeaveMoves(s, i);
  }

  lemma OthersKeep(s: State, t: State, i: nat, j: nat)
    requires Inv(s) && Moves(s, t, i) && j < |s.clients| && j != i
    ensures ClientOk(t, j)
  {
    assert ClientOk(s, j);
    assert t.clients[j] == s.clients[j];
  }

  lemma OwnersKeep(s: State, t: State, i: nat)
    requires Inv(s) && Moves(s, t, i)
    ensures OneOwner(t) && (t.slot ==> SomeOwner(t))
  {
    forall j: nat | j < |s.clients| && Owns(s.clients[j]) ensures s.slot {
      assert ClientOk(s, j);
    }
    if t.slot && s.slot {
      var o: nat :| o < |s.clients| && Owns(s.clients[o]);
      assert Owns(t.clients[o]);
    }
  }

  lemma MoveKeeps(s: State, t: State, i: nat)
    requires Inv(s) && Moves(s, t, i) && (forall j :: j in t.jobs ==> j < |t.clients|)
    ensures Inv(t)
  {
    forall j: nat | j < |s.clients| ensures ClientOk(t, j) {
      if j != i { OthersKeep(s, t, i, j); }
    }
    OwnersKeep(s, t, i);
  }

  lemma DrainKeeps(s: State, a: Action)
    requires Inv(s) && Enabled(s, a) && DrainAction(a)
    ensures Inv(Apply(s, a))
  {
    var t := Apply(s, a);
    assert |t.clients| == |s.clients|;
    forall i: nat | i < |s.clients|
      ensures ClientOk(t, i) && Owns(t.clients[i]) == Owns(s.clients[i])
    {
      assert ClientOk(s, i);
    }
    if t.slot {
      var o: nat :| o < |s.clients| && Owns(s.clients[o]);
      assert Owns(t.clients[o]);
    }
  }

  lemma StepKeeps(s: State, a: Action)
    requires Inv(s) && Enabled(s, a) && !a.CopyFails?
    ensures Inv(Apply(s, a))
  {
    if DrainAction(a) {
      DrainKeeps(s, a);
    } else {
      ActorMoves(s, a);
      MoveKeeps(s, Apply(s, a), a.i);
    }
  }

  // ----- whole runs --------------------------------------------------------------------------

  ghost predicate Run(states: seq<State>, actions: seq<Action>) {
    && |states| == |actions| + 1
    && Initial(states[0])
    && forall k :: 0 <= k < |actions| ==> Enabled(states[k], actions[k]) && states[k + 1] == Apply(states[k], actions[k])
  }

  /** No starter fails after it has started its thread. */
  ghost predicate CopiesSucceed(actions: seq<Action>) {
    forall k :: 0 <= k < |actions| ==> !actions[k].CopyFails?
  }

  lemma {:induction false} RunKeeps(states: seq<State>, actions: seq<Action>, k: nat)
    requires Run(states, actions) && CopiesSucceed(actions) && k < |states|
    ensures Inv(states[k])
    decreases k
  {
    if k == 0 {
      InitialInv(states[0]);
    } else {
      RunKeeps(states, actions, k - 1);
      StepKeeps(states[k - 1], actions[k - 1]);
    }
  }

  /** At most one job is registered, a registered job means the slot is held, at most one job thread is live, whoever has
      finished has released the slot exactly once, and a slot that nobody holds is never released. */
  ghost predicate SlotSafe(s: State) {
    && (forall i, j :: i in s.jobs && j in s.jobs ==> i == j)
    && (s.jobs != {} ==> s.slot)
    && (forall i: nat, j: nat :: i < |s.clients| && j < |s.clients| && Live(s.clients[i]) && Live(s.clients[j]) ==> i == j)
    && (forall i: nat :: i < |s.clients| ==> s.clients[i].releases == (if Finished(s.clients[i]) then 1 else 0))
    && (s.slot <==> SomeOwner(s))
    && s.strayReleases == 0
  }

  /** Every state of every run is safe, if no starter fails after it has started its thread. */
  lemma SlotSafety(states: seq<State>, actions: seq<Action>, k: nat)
    requires Run(states, actions) && CopiesSucceed(actions) && k < |states|
    ensures SlotSafe(states[k])
  {
    RunKeeps(states, actions, k);
    var s := states[k];
    forall i | i in s.jobs ensures i < |s.clients| && Owns(s.clients[i]) && s.slot {
      assert ClientOk(s, i);
    }
    forall i: nat | i < |s.clients| && Owns(s.clients[i]) ensures s.slot {
      assert ClientOk(s, i);
    }
    forall i: nat | i < |s.clients|
      ensures s.clients[i].releases == (if Finished(s.clients[i]) then 1 else 0)
    {
      assert ClientOk(s, i);
    }
  }

  function Rank(p: Phase): nat {
    match p
    case Serving => 0
    case Stopping => 1
    case Drained => 2
    case RuntimeStopped => 3
  }

  /** What never changes again once the stop flag is set, or the snapshot taken. */
  ghost predicate Later(s: State, t: State) {
    && |t.clients| == |s.clients|
    && Rank(s.phase) <= Rank(t.phase)
    && (StopFlag(s) ==> t.runtimeStarts == s.runtimeStarts && (t.runtimeOn ==> s.runtimeOn))
    && (Snapped(s) ==> t.snapshot == s.snapshot)
    && (forall i: nat :: i < |s.clients| ==>
          (s.clients[i].cancelled ==> t.clients[i].cancelled)
          && (Snapped(s) && s.clients[i].life.NotStarted? ==> t.clients[i].life.NotStarted?)
          && (Snapped(s) && Live(t.clients[i]) ==> Live(s.clients[i])))
  }

  lemma MoveIsLater(s: State, t: State, i: nat)
    requires Inv(s) && Moves(s, t, i)
    ensures Later(s, t)
  {
    assert ClientOk(s, i) && ClientOk(t, i);
  }

  lemma StepIsLater(s: State, a: Action)
    requires Inv(s) && Enabled(s, a) && !a.CopyFails?
    ensures Later(s, Apply(s, a))
  {
    if !DrainAction(a) {
      ActorMoves(s, a);
      MoveIsLater(s, Apply(s, a), a.i);
    }
  }

  lemma LaterTransitive(s: State, t: State, u: State)
    requires Later(s, t) && Later(t, u)
    ensures Later(s, u)
  {
  }

  lemma ExtendLater(s: State, t: State, a: Action)
    requires Later(s, t) && Inv(t) && Enabled(t, a) && !a.CopyFails?
    ensures Later(s, Apply(t, a))
  {
    StepIsLater(t, a);
    LaterTransitive(s, t, Apply(t, a));
  }

  lemma {:induction false} RunIsLater(states: seq<State>, actions: seq<Action>, k: nat, l: nat)
    requires Run(states, actions) && CopiesSucceed(actions) && k <= l < |states|
    ensures Later(states[k], states[l])
    decreases l
  {
    if k < l {
      RunIsLater(states, actions, k, l - 1);
      RunKeeps(states, actions, l - 1);
      ExtendLater(states[k], states[l - 1], actions[l - 1]);
    }
  }

  /** Once drain has taken its snapshot no job thread starts, in any interleaving; every thread that is still live
      is in the snapshot with its cancel event set and its thread recorded for joining. */
  lemma ShutdownSafety(states: seq<State>, actions: seq<Action>, k: nat, l: nat, i: nat)
    requires Run(states, actions) && CopiesSucceed(actions) && k <= l < |states| && i < |states[l].clients|
    requires Snapped(states[k])
    ensures i < |states[k].clients|
    ensures !states[l].clients[i].life.NotStarted? ==> !states[k].clients[i].life.NotStarted?
    ensures states[l].snapshot == states[k].snapshot
    ensures Live(states[l].clients[i]) ==>
              i in states[k].snapshot && states[l].clients[i].cancelled && states[l].clients[i].recorded
  {
    RunIsLater(states, actions, k, l);
    RunKeeps(states, actions, l);
    assert ClientOk(states[l], i);
  }

  /** Drain reports success when every thread it joined is dead: from then on no job thread is live, ever. */
  lemma CleanDrainMeansQuiet(states: seq<State>, actions: seq<Action>, k: nat, l: nat)
    requires Run(states, actions) && CopiesSucceed(actions) && k <= l < |states| && Snapped(states[k])
    requires forall i: nat :: i < |states[k].clients| && i in states[k].snapshot && states[k].clients[i].recorded ==>
               states[k].clients[i].life.Ended? || states[k].clients[i].life.NotStarted?
    ensures forall i: nat :: i < |states[l].clients| ==> !Live(states[l].clients[i])
  {
    RunIsLater(states, actions, k, l);
    RunKeeps(states, actions, k);
    forall i: nat | i < |states[l].clients| ensures !Live(states[l].clients[i]) {
      assert ClientOk(states[k], i);
    }
  }

  /** From the moment the stop flag is set the runtime worker is never started again, by the start request or by
      the tuner's candidate and restore steps; after the final gated stop it stays stopped. */
  lemma RuntimeStaysStopped(states: seq<State>, actions: seq<Action>, k: nat, l: nat)
    requires Run(states, actions) && CopiesSucceed(actions) && k <= l < |states| && StopFlag(states[k])
    ensures states[l].runtimeStarts == states[k].runtimeStarts
    ensures states[k].phase.RuntimeStopped? ==> !states[l].runtimeOn
  {
    RunIsLater(states, actions, k, l);
    RunKeeps(states, actions, k);
  }

  // ----- the one failure the starters do not survive -----------------------------------------

  /** The actions are enabled one after the other and lead from one state to the other. */
  ghost predicate Leads(s: State, actions: seq<Action>, t: State)
    decreases |actions|
  {
    if actions == [] then s == t
    else Enabled(s, actions[0]) && Leads(Apply(s, actions[0]), actions[1..], t)
  }

  lemma {:induction false} LeadsOn(s: State, a: seq<Action>, t: State, b: seq<Action>, u: State)
    requires Leads(s, a, t) && Leads(t, b, u)
    ensures Leads(s, a + b, u)
    decreases |a|
  {
    if a == [] {
      assert a + b == b;
    } else {
      LeadsOn(Apply(s, a[0]), a[1..], t, b, u);
      assert (a + b)[1..] == a[1..] + b;
    }
  }

  lemma OneStep(s: State, a: Action)
    requires Enabled(s, a)
    ensures Leads(s, [a], Apply(s, a))
  {
    assert [a][1..] == [];
  }

  lemma TwoSteps(s: State, a: Action, b: Action)
    requires Enabled(s, a) && Enabled(Apply(s, a), b)
    ensures Leads(s, [a, b], Apply(Apply(s, a), b))
  {
    OneStep(s, a);
    OneStep(Apply(s, a), b);
    LeadsOn(s, [a], Apply(s, a), [b], Apply(Apply(s, a), b));
    assert [a] + [b] == [a, b];
  }

  /** A client inside a locked section gets out of it by itself, whatever the others do. */
  ghost predicate FreedBy(s: State, j: nat, t: State) {
    && t.lock.Free? && |t.clients| == |s.clients|
    && forall k: nat :: k < |s.clients| && k != j ==> t.clients[k] == s.clients[k]
  }

  lemma LastSectionEnds(s: State, j: nat) returns (actions: seq<Action>, t: State)
    requires j < |s.clients| && (s.clients[j].pc.Rechecking? || s.clients[j].pc.Starting?)
    ensures Leads(s, actions, t) && FreedBy(s, j, t)
  {
    if s.clients[j].pc.Starting? {
      actions, t := [StartFails(j)], Apply(s, StartFails(j));
      OneStep(s, StartFails(j));
    } else if StopFlag(s) {
      actions, t := [CheckStart(j)], Apply(s, CheckStart(j));
      OneStep(s, CheckStart(j));
    } else {
      actions, t := [CheckStart(j), StartFails(j)], Apply(Apply(s, CheckStart(j)), StartFails(j));
      TwoSteps(s, CheckStart(j), StartFails(j));
    }
  }

  lemma FirstSectionEnds(s: State, j: nat) returns (actions: seq<Action>, t: State)
    requires j < |s.clients| && s.clients[j].pc.Registering?
    ensures Leads(s, actions, t) && FreedBy(s, j, t)
  {
    var filed := Apply(s, Register(j));
    if s.clients[j].kind.Tuning? {
      actions, t := [Register(j), StartFails(j)], Apply(filed, StartFails(j));
      TwoSteps(s, Register(j), StartFails(j));
    } else {
      actions, t := [Register(j)], filed;
      OneStep(s, Register(j));
    }
  }

  lemma SectionEnds(s: State, j: nat) returns (actions: seq<Action>, t: State)
    requires j < |s.clients| && HasLock(s.clients[j])
    ensures Leads(s, actions, t) && FreedBy(s, j, t)
  {
    if s.clients[j].pc.CheckingFlag? {
      var checked := Apply(s, CheckRegister(j));
      OneStep(s, CheckRegister(j));
      if StopFlag(s) {
        actions, t := [CheckRegister(j)], checked;
      } else {
        actions, t := FirstSectionEnds(checked, j);
        LeadsOn(s, [CheckRegister(j)], checked, actions, t);
        actions := [CheckRegister(j)] + actions;
      }
    } else if s.clients[j].pc.Registering? {
      actions, t := FirstSectionEnds(s, j);
    } else {
      actions, t := LastSectionEnds(s, j);
    }
  }

  /** Once the lock is free the failed starter takes the job out of the registry and releases the slot. A thread that has
      not released the slot yet is left without it; if it has, the slot is released a second time. */
  lemma UnwindingBreaksSafety(s: State, i: nat)
    requires i < |s.clients| && s.clients[i].pc.Unwinding? && s.lock.Free?
    requires (s.clients[i].life.Ended? && s.clients[i].releases == 1) || Live(s.clients[i]) || s.clients[i].life.Deregistered?
    ensures Enabled(s, Unregister(i)) && Enabled(Apply(s, Unregister(i)), ReleaseStarter(i))
    ensures !SlotSafe(Apply(Apply(s, Unregister(i)), ReleaseStarter(i)))
  {
    var t := Apply(Apply(s, Unregister(i)), ReleaseStarter(i));
    assert t.clients[i].life == s.clients[i].life && t.clients[i].releases == s.clients[i].releases + 1 && !t.slot;
    assert t.clients[i].pc.Closed?;
    if !s.clients[i].life.Ended? {
      assert Owns(t.clients[i]);
      assert SomeOwner(t);
    }
  }

  /** From every state that the invariant allows, whatever the thread has done meanwhile: once copying the returned row
      has failed, an enabled continuation without any further failure breaks the safety of the slot. */
  lemma FailedCopyBreaksSafety(s: State, i: nat) returns (rest: seq<Action>, t: State)
    requires Inv(s) && Enabled(s, CopyFails(i))
    ensures Leads(Apply(s, CopyFails(i)), rest, t) && !SlotSafe(t)
  {
    assert ClientOk(s, i);
    var failed := Apply(s, CopyFails(i));
    var before: seq<Action>, u := [], failed;
    if s.lock.By? {
      var j := s.lock.client;
      assert ClientOk(s, j);
      assert j != i && failed.clients[j] == s.clients[j];
      before, u := SectionEnds(failed, j);
    }
    assert u.clients[i] == failed.clients[i];
    UnwindingBreaksSafety(u, i);
    TwoSteps(u, Unregister(i), ReleaseStarter(i));
    rest, t := before + [Unregister(i), ReleaseStarter(i)], Apply(Apply(u, Unregister(i)), ReleaseStarter(i));
    LeadsOn(failed, before, u, [Unregister(i), ReleaseStarter(i)], t);
  }

  /** The assumption on the starters is exact: the first copy that fails in a run makes an unsafe state reachable. */
  lemma CopiesMustSucceed(states: seq<State>, actions: seq<Action>, k: nat) returns (rest: seq<Action>, t: State)
    requires Run(states, actions) && k < |actions| && actions[k].CopyFails?
    requires forall m :: 0 <= m < k ==> !actions[m].CopyFails?
    ensures Leads(states[k + 1], rest, t) && !SlotSafe(t)
  {
    RunKeeps(states[..k + 1], actions[..k], k);
    rest, t := FailedCopyBreaksSafety(states[k], actions[k].i);
  }

  /** While the thread is live, the exception path takes its job out of the registry and frees the slot under it, so a
      second job can run beside it and drain cannot see it. */
  lemma FailedCopyFreesTheSlotOfALiveThread(s: State, i: nat, j: nat)
    requires Inv(s) && i < |s.clients| && j < |s.clients| && i != j && s.lock.Free?
    requires s.clients[i].pc.Launched? && Live(s.clients[i]) && !s.clients[i].kind.Session? && s.clients[j].pc.Fresh?
    ensures Enabled(s, CopyFails(i)) && Enabled(Apply(s, CopyFails(i)), Unregister(i))
    ensures var u := Apply(Apply(s, CopyFails(i)), Unregister(i));
            && Enabled(u, ReleaseStarter(i)) && Enabled(Apply(u, ReleaseStarter(i)), Acquire(j))
            && (var t := Apply(Apply(u, ReleaseStarter(i)), Acquire(j));
                Live(t.clients[i]) && i !in t.jobs && t.clients[j].pc.Holding?)
  {
  }

  /** The request for the runtime, from its admission to the release of the slot. */
  function RuntimeRequest(i: nat): seq<Action> {
    [Acquire(i), RuntimeAdmit(i), RuntimeEnter(i)] + [RuntimeCheck(i), RuntimeStart(i), Leave(i)]
  }

  function Closing(c: Client): Client {
    c.(pc := Closed, releases := c.releases + 1)
  }

  lemma RuntimeEnters(s: State, i: nat)
    requires i < |s.clients| && !s.slot && s.gate.Free? && s.phase.Serving?
    requires s.clients[i].kind.StartRuntime? && s.clients[i].pc.Fresh?
    ensures Leads(s, [Acquire(i), RuntimeAdmit(i), RuntimeEnter(i)],
                  Put(s.(slot := true, gate := By(i)), i, s.clients[i].(pc := InGate)))
  {
    hide Leads;
    var inside := Put(s.(slot := true, gate := By(i)), i, s.clients[i].(pc := InGate));
    ThreeSteps(s, Acquire(i), RuntimeAdmit(i), RuntimeEnter(i));
    assert Apply(Apply(Apply(s, Acquire(i)), RuntimeAdmit(i)), RuntimeEnter(i)) == inside;
  }

  lemma RuntimeStartSteps(s: State, i: nat)
    requires i < |s.clients| && s.slot && s.gate == By(i) && s.phase.Serving? && s.clients[i].pc.InGate?
    ensures Enabled(s, RuntimeCheck(i)) && Enabled(Apply(s, RuntimeCheck(i)), RuntimeStart(i))
    ensures var started := Apply(Apply(s, RuntimeCheck(i)), RuntimeStart(i));
            && Enabled(started, Leave(i))
            && Apply(started, Leave(i))
               == Put(s.(slot := false, gate := Free, runtimeOn := true, runtimeStarts := s.runtimeStarts + 1), i,
                      Closing(s.clients[i]))
  {
    assert Apply(Apply(s, RuntimeCheck(i)), RuntimeStart(i))
           == At(s.(gate := Free, runtimeOn := true, runtimeStarts := s.runtimeStarts + 1), i, Leaving);
  }

  lemma RuntimeStartsInside(s: State, i: nat)
    requires i < |s.clients| && s.slot && s.gate == By(i) && s.phase.Serving? && s.clients[i].pc.InGate?
    ensures Leads(s, [RuntimeCheck(i), RuntimeStart(i), Leave(i)],
                  Put(s.(slot := false, gate := Free, runtimeOn := true, runtimeStarts := s.runtimeStarts + 1), i,
                      Closing(s.clients[i])))
  {
    RuntimeStartSteps(s, i);
    hide Leads, Apply, Enabled, Put;
    ThreeSteps(s, RuntimeCheck(i), RuntimeStart(i), Leave(i));
  }

  /** A request to start the runtime that finds nobody in its way starts it once, and leaves the slot free. */
  lemma RuntimeIsServed(s: State, i: nat)
    requires i < |s.clients| && !s.slot && s.gate.Free? && s.phase.Serving?
    requires s.clients[i].kind.StartRuntime? && s.clients[i].pc.Fresh?
    ensures Leads(s, RuntimeRequest(i),
                  Put(s.(runtimeOn := true, runtimeStarts := s.runtimeStarts + 1), i, Closing(s.clients[i])))
  {
    hide Leads, Apply, Enabled;
    var inside := Put(s.(slot := true, gate := By(i)), i, s.clients[i].(pc := InGate));
    var end := Put(s.(runtimeOn := true, runtimeStarts := s.runtimeStarts + 1), i, Closing(s.clients[i]));
    RuntimeEnters(s, i);
    RuntimeStartsInside(inside, i);
    assert inside.clients[i := Closing(inside.clients[i])] == end.clients;
    LeadsOn(s, [Acquire(i), RuntimeAdmit(i), RuntimeEnter(i)], inside, [RuntimeCheck(i), RuntimeStart(i), Leave(i)], end);
  }

  /** Once the stop flag is set such a request starts nothing, and leaves the slot free as well. */
  lemma RuntimeIsRefused(s: State, i: nat)
    requires i < |s.clients| && !s.slot && StopFlag(s) && s.clients[i].kind.StartRuntime? && s.clients[i].pc.Fresh?
    ensures Leads(s, [Acquire(i), RuntimeAdmit(i), Leave(i)], Put(s, i, Closing(s.clients[i])))
  {
    hide Leads;
    ThreeSteps(s, Acquire(i), RuntimeAdmit(i), Leave(i));
    assert Apply(Apply(Apply(s, Acquire(i)), RuntimeAdmit(i)), Leave(i)) == Put(s, i, Closing(s.clients[i]));
  }

  lemma ThreadSteps(s: State, i: nat)
    requires i < |s.clients| && s.slot && s.lock.Free? && s.clients[i].life.Running?
    ensures Enabled(s, Deregister(i)) && Enabled(Apply(s, Deregister(i)), ReleaseThread(i))
    ensures Apply(Apply(s, Deregister(i)), ReleaseThread(i))
            == Put(s.(slot := false, jobs := s.jobs - {i}), i,
                   s.clients[i].(life := Ended, releases := s.clients[i].releases + 1))
  {
  }

  /** The thread of a job ends by itself: the job leaves the registry, and the slot is free for the next request. */
  lemma ThreadEnds(s: State, i: nat)
    requires i < |s.clients| && s.slot && s.lock.Free? && s.clients[i].life.Running?
    ensures Leads(s, [Deregister(i), ReleaseThread(i)],
                  Put(s.(slot := false, jobs := s.jobs - {i}), i,
                      s.clients[i].(life := Ended, releases := s.clients[i].releases + 1)))
  {
    ThreadSteps(s, i);
    hide Leads, Apply, Enabled;
    TwoSteps(s, Deregister(i), ReleaseThread(i));
  }

  /** A tuning request that finds nobody in its way starts its thread in the section that files it. */
  lemma TuningLaunches(s: State, i: nat)
    requires i < |s.clients| && !s.slot && s.lock.Free? && s.phase.Serving? && s.clients[i].kind.Tuning? && s.clients[i].pc.Fresh?
    ensures Leads(s, [Acquire(i), EnterRegister(i), CheckRegister(i)] + [Register(i), Start(i)], AfterLaunch(s, i))
  {
    var held := Put(s.(slot := true, lock := By(i)), i, s.clients[i].(pc := Registering));
    Registers(s, i);
    TwoSteps(held, Register(i), Start(i));
    hide Leads;
    assert Apply(Apply(held, Register(i)), Start(i)).clients == AfterLaunch(s, i).clients;
    LeadsOn(s, [Acquire(i), EnterRegister(i), CheckRegister(i)], held, [Register(i), Start(i)], AfterLaunch(s, i));
  }

  /** A request that finds nobody in its way and starts its thread. */
  function Launching(i: nat): seq<Action> {
    [Acquire(i), EnterRegister(i), CheckRegister(i)] + ([Register(i), EnterStart(i), CheckStart(i)] + [Start(i)])
  }

  lemma ThreeSteps(s: State, a: Action, b: Action, c: Action)
    requires Enabled(s, a) && Enabled(Apply(s, a), b) && Enabled(Apply(Apply(s, a), b), c)
    ensures Leads(s, [a, b, c], Apply(Apply(Apply(s, a), b), c))
  {
    TwoSteps(s, a, b);
    OneStep(Apply(Apply(s, a), b), c);
    LeadsOn(s, [a, b], Apply(Apply(s, a), b), [c], Apply(Apply(Apply(s, a), b), c));
    assert [a, b] + [c] == [a, b, c];
  }

  function AfterLaunch(s: State, i: nat): State
    requires i < |s.clients|
  {
    Put(s.(slot := true, jobs := s.jobs + {i}), i, s.clients[i].(pc := Launched, life := Running, recorded := true))
  }

  lemma Registers(s: State, i: nat)
    requires i < |s.clients| && !s.slot && s.lock.Free? && s.phase.Serving?
    requires StartsJob(s.clients[i].kind) && s.clients[i].pc.Fresh?
    ensures var held := Put(s.(slot := true, lock := By(i)), i, s.clients[i].(pc := Registering));
            Leads(s, [Acquire(i), EnterRegister(i), CheckRegister(i)], held)
  {
    ThreeSteps(s, Acquire(i), EnterRegister(i), CheckRegister(i));
    var held := Put(s.(slot := true, lock := By(i)), i, s.clients[i].(pc := Registering));
    assert Apply(Apply(Apply(s, Acquire(i)), EnterRegister(i)), CheckRegister(i)) == held;
  }

  lemma Files(s: State, i: nat)
    requires i < |s.clients| && s.slot && s.lock == By(i) && s.phase.Serving?
    requires !s.clients[i].kind.Tuning? && s.clients[i].pc.Registering?
    ensures Leads(s, [Register(i), EnterStart(i), CheckStart(i)],
                  Put(s.(jobs := s.jobs + {i}), i, s.clients[i].(pc := Starting)))
  {
    hide Leads;
    ThreeSteps(s, Register(i), EnterStart(i), CheckStart(i));
    assert Apply(Apply(Apply(s, Register(i)), EnterStart(i)), CheckStart(i))
           == Put(s.(jobs := s.jobs + {i}), i, s.clients[i].(pc := Starting));
  }

  lemma FilesAndStarts(s: State, i: nat)
    requires i < |s.clients| && s.slot && s.lock == By(i) && s.phase.Serving?
    requires !s.clients[i].kind.Tuning? && s.clients[i].pc.Registering?
    ensures Leads(s, [Register(i), EnterStart(i), CheckStart(i)] + [Start(i)], AfterLaunch(s.(lock := Free), i))
  {
    var filed := Put(s.(jobs := s.jobs + {i}), i, s.clients[i].(pc := Starting));
    Files(s, i);
    hide Leads;
    OneStep(filed, Start(i));
    assert Apply(filed, Start(i)).clients == AfterLaunch(s.(lock := Free), i).clients;
    hide Apply, Enabled;
    LeadsOn(s, [Register(i), EnterStart(i), CheckStart(i)], filed, [Start(i)], AfterLaunch(s.(lock := Free), i));
  }

  /** Every other job request that finds nobody in its way files its job and starts its thread. */
  lemma Launches(s: State, i: nat)
    requires i < |s.clients| && !s.slot && s.lock.Free? && s.phase.Serving?
    requires StartsJob(s.clients[i].kind) && !s.clients[i].kind.Tuning? && s.clients[i].pc.Fresh?
    ensures Leads(s, Launching(i), AfterLaunch(s, i))
  {
    hide Leads;
    var held := Put(s.(slot := true, lock := By(i)), i, s.clients[i].(pc := Registering));
    Registers(s, i);
    FilesAndStarts(held, i);
    assert AfterLaunch(held.(lock := Free), i).clients == AfterLaunch(s, i).clients;
    LeadsOn(s, [Acquire(i), EnterRegister(i), CheckRegister(i)], held,
            [Register(i), EnterStart(i), CheckStart(i)] + [Start(i)], AfterLaunch(s, i));
  }

  function Failing(i: nat): seq<Action> {
    [CopyFails(i), Unregister(i), ReleaseStarter(i)]
  }

  function Deserted(s: State, i: nat): State
    requires i < |s.clients|
  {
    Put(s.(slot := false, jobs := s.jobs - {i}), i, s.clients[i].(pc := Closed, releases := s.clients[i].releases + 1))
  }

  lemma Deserts(s: State, i: nat)
    requires i < |s.clients| && s.slot && s.lock.Free? && s.clients[i].kind.Finding? && s.clients[i].pc.Launched?
    ensures Leads(s, Failing(i), Deserted(s, i))
  {
    ThreeSteps(s, CopyFails(i), Unregister(i), ReleaseStarter(i));
    var t := Apply(Apply(Apply(s, CopyFails(i)), Unregister(i)), ReleaseStarter(i));
    assert t.clients == Deserted(s, i).clients;
    assert t == Deserted(s, i);
  }

  /** One run from the start, with two finding jobs: the first one's starter fails to copy its row, and then two job
      threads are live at once, the first of them no longer registered. */
  lemma TwoJobsAtOnce() returns (s: State, actions: seq<Action>, t: State)
    ensures Initial(s) && Leads(s, actions, t)
    ensures |t.clients| == 2 && Live(t.clients[0]) && Live(t.clients[1]) && 0 !in t.jobs && !SlotSafe(t)
  {
    hide Leads, Launching, Failing;
    var c := Client(Finding, Fresh, NotStarted, false, false, 0);
    s := State([c, c], false, Free, Free, {}, Serving, {}, false, 0, 0);
    var first := AfterLaunch(s, 0);
    var freed := Deserted(first, 0);
    t := AfterLaunch(freed, 1);
    Launches(s, 0);
    Deserts(first, 0);
    Launches(freed, 1);
    LeadsOn(s, Launching(0), first, Failing(0), freed);
    LeadsOn(s, Launching(0) + Failing(0), freed, Launching(1), t);
    actions := Launching(0) + Failing(0) + Launching(1);
  }
}
