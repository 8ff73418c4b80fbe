/** The on-device runtime as interleaved steps. */
module RuntimeLifecycle {
  // The worker thread, the operations that start and stop it and the readers of its endpoint take turns in any order.
  // Sections under the manager's lock are single steps, except that the worker's publication is split in two so that a
  // stop can fall between its check and its write. Starts and stops exclude each other by the operation lock, so there
  // is one operation at a time.

  import opened Wrappers

  datatype Status = Stopped | Starting | Running | Stopping | Error

  datatype Worker =
    | Absent
    | Probing                       // no server process yet
    | Spawned                       // waiting for the server to answer
    | Publishing                    // holds the lock, has seen no cancellation
    | Serving
    | Finishing(spawned: bool)      // about to terminate its process
    | Terminated                    // about to delete the key file
    | Clearing
    | Leaving
    | Ended

  datatype Operation =
    | Idle
    | Validating | StartingPrefetch | SettingStarting | Launching
    | StoppingPrefetch | ClearingEndpoint | Joining

  /** `run` counts launched workers; the endpoint and the key carry the run that published them. */
  datatype Manager = Manager(
    status: Status, endpoint: Option<nat>, key: Option<nat>, cancel: bool, locked: bool,
    run: nat, worker: Worker, hasProcess: bool, exited: bool, operation: Operation)

  predicate Alive(w: Worker) {
    !w.Absent? && !w.Ended?
  }

  datatype Action =
    | Spawn | SeeCancel | Fail | CheckPublish | Publish | Terminate(ok: bool) | DeleteKeyFile(ok: bool) | Clear | End
    | ProcessExits | ReadStatus
    | BeginStart | Refuse | ClearCancel | PrefetchStuck | PrefetchReady | SetStarting | LaunchFails | Launch
    | BeginStop | ClearEndpoint | JoinTimesOut | StopDone

  /** A running server whose process has exited is found out by whoever reads the status. */
  function AfterStatus(m: Manager): Manager {
    if m.status.Running? && m.hasProcess && m.exited then m.(status := Error, endpoint := None, key := None) else m
  }

  /** The endpoint and key a reader gets, if any. */
  function EndpointConfig(m: Manager): Option<(nat, Option<nat>)> {
    var after := AfterStatus(m);
    if after.status.Running? && after.endpoint.Some? then Some((after.endpoint.value, after.key)) else None
  }

  predicate Enabled(m: Manager, a: Action) {
    match a
    case Spawn => m.worker.Probing? && !m.cancel && !m.locked
    case SeeCancel => m.cancel && (m.worker.Probing? || m.worker.Spawned? || m.worker.Serving?)
    case Fail => !m.locked && (m.worker.Probing? || m.worker.Spawned? || m.worker.Serving?)
    case CheckPublish => m.worker.Spawned? && !m.locked
    case Publish => m.worker.Publishing?
    case Terminate(ok) => m.worker.Finishing? && !m.locked && (ok || m.worker.spawned)
    case DeleteKeyFile(_) => m.worker.Terminated?
    case Clear => m.worker.Clearing? && !m.locked
    case End => m.worker.Leaving?
    case ProcessExits => m.hasProcess
    case ReadStatus => !m.locked
    case BeginStart => m.operation.Idle? && !m.locked && !Alive(m.worker)
    case Refuse => m.operation.Validating?
    case ClearCancel => m.operation.Validating?
    case PrefetchStuck => m.operation.StartingPrefetch? || m.operation.StoppingPrefetch?
    case PrefetchReady => m.operation.StartingPrefetch? || m.operation.StoppingPrefetch?
    case SetStarting => m.operation.SettingStarting? && !m.locked
    case LaunchFails => m.operation.Launching?
    case Launch => m.operation.Launching?
    case BeginStop => m.operation.Idle?
    case ClearEndpoint => m.operation.ClearingEndpoint? && !m.locked
    case JoinTimesOut => m.operation.Joining? && !m.locked && Alive(m.worker)
    case StopDone => m.operation.Joining? && !m.locked && !Alive(m.worker)
  }

  function Apply(m: Manager, a: Action): Manager
    requires Enabled(m, a)
  {
    match a
    case Spawn => m.(worker := Spawned, hasProcess := true, exited := false)
    case SeeCancel => m.(worker := Finishing(!m.worker.Probing?))
    case Fail => m.(worker := Finishing(!m.worker.Probing?), status := if m.cancel then m.status else Error)
    case CheckPublish => if m.cancel then m.(worker := Finishing(true)) else m.(worker := Publishing, locked := true)
    case Publish => m.(worker := Serving, locked := false, status := Running, endpoint := Some(m.run), key := Some(m.run))
    case Terminate(ok) =>
      if ok then m.(worker := Terminated, exited := m.exited || m.worker.spawned) else m.(worker := Terminated, status := Error)
    case DeleteKeyFile(ok) => if ok then m.(worker := Clearing) else m.(worker := Ended)
    case Clear =>
      m.(worker := Leaving, endpoint := None, key := None, hasProcess := false,
         status := if m.cancel && !m.status.Error? then Stopped else m.status)
    case End => m.(worker := Ended)
    case ProcessExits => m.(exited := true)
    case ReadStatus => AfterStatus(m)
    case BeginStart =>
      var after := AfterStatus(m);
      if after.status.Running? then after else after.(operation := Validating)
    case Refuse => m.(operation := Idle)
    case ClearCancel => m.(cancel := false, operation := StartingPrefetch)
    case PrefetchStuck => m.(operation := Idle)
    case PrefetchReady => m.(operation := if m.operation.StartingPrefetch? then SettingStarting else ClearingEndpoint)
    case SetStarting => m.(status := Starting, operation := Launching)
    case LaunchFails => m.(operation := Idle)
    case Launch => m.(worker := Probing, run := m.run + 1, operation := Idle)
    case BeginStop => m.(cancel := true, operation := StoppingPrefetch)
    case ClearEndpoint =>
      m.(status := if m.status.Error? then Error else Stopping, endpoint := None, key := None, operation := Joining)
    case JoinTimesOut => m.(status := Error, operation := Idle)
    case StopDone => m.(status := Stopped, operation := Idle)
  }

  ghost predicate Initial(m: Manager) {
    m == Manager(Stopped, None, None, false, false, 0, Absent, false, false, Idle)
  }

  predicate StartPath(o: Operation) {
    o.Validating? || o.StartingPrefetch? || o.SettingStarting? || o.Launching?
  }

  predicate StopPath(o: Operation) {
    o.StoppingPrefetch? || o.ClearingEndpoint? || o.Joining?
  }

  predicate Winding(w: Worker) {
    w.Finishing? || w.Terminated? || w.Clearing? || w.Leaving?
  }

  ghost predicate Inv(m: Manager) {
    && (m.locked <==> m.worker.Publishing?)
    && m.endpoint == m.key
    && (StartPath(m.operation) ==> !Alive(m.worker) && !m.status.Running?)
    && (StopPath(m.operation) ==> m.cancel)
    && (m.operation.Joining? ==> m.endpoint == None && !m.worker.Publishing?)
    && (Winding(m.worker) ==> m.cancel || m.status.Error?)
    && (m.worker.Spawned? || m.worker.Publishing? || m.worker.Serving? ==> m.hasProcess)
    && (m.worker.Leaving? ==> m.endpoint == None)
    && (m.status.Running? ==>
          m.endpoint == Some(m.run) && m.hasProcess
          && (m.worker.Serving? || (m.worker.Finishing? && m.worker.spawned)
              || ((m.worker.Terminated? || m.worker.Clearing? || m.worker.Ended?) && m.exited)))
  }

  lemma StepKeeps(m: Manager, a: Action)
    requires Inv(m) && Enabled(m, a)
    ensures Inv(Apply(m, a))
  {
  }

  ghost predicate Run(ms: seq<Manager>, actions: seq<Action>) {
    && |ms| == |actions| + 1
    && Initial(ms[0])
    && forall k :: 0 <= k < |actions| ==> Enabled(ms[k], actions[k]) && ms[k + 1] == Apply(ms[k], actions[k])
  }

  lemma {:induction false} RunKeeps(ms: seq<Manager>, actions: seq<Action>, k: nat)
    requires Run(ms, actions) && k < |ms|
    ensures Inv(ms[k])
    decreases k
  {
    if k > 0 {
      RunKeeps(ms, actions, k - 1);
      StepKeeps(ms[k - 1], actions[k - 1]);
    }
  }

  /** Whatever the interleaving, a reader who gets an endpoint gets the key of the same worker run, that run is the
      latest one and its worker has not ended, its process is not known to have exited, and the status it read is "running". */
  lemma EndpointBelongsToTheRunningWorker(ms: seq<Manager>, actions: seq<Action>, k: nat)
    requires Run(ms, actions) && k < |ms| && EndpointConfig(ms[k]).Some?
    ensures AfterStatus(ms[k]).status.Running?
    ensures EndpointConfig(ms[k]).value == (ms[k].run, Some(ms[k].run))
    ensures Alive(ms[k].worker) && !ms[k].exited
  {
    RunKeeps(ms, actions, k);
  }

  /** A reader gets the endpoint and key of the latest run, unless the status is not "running" or the server's process has
      exited. */
  lemma RevealedIff(ms: seq<Manager>, actions: seq<Action>, k: nat)
    requires Run(ms, actions) && k < |ms|
    ensures EndpointConfig(ms[k])
            == if ms[k].status == Running && !ms[k].exited then Some((ms[k].run, Some(ms[k].run))) else None
  {
    RunKeeps(ms, actions, k);
  }

  /** Only these take back what a worker has published. */
  predicate Revokes(a: Action) {
    a.ClearEndpoint? || a.Clear? || a.Fail? || a.ProcessExits? || a == Terminate(false)
  }

  ghost predicate Revealed(m: Manager, run: nat) {
    m.status == Running && !m.exited && m.run == run && (m.worker.Serving? || m.worker.Finishing?) && m.operation != Launching
  }

  lemma StepKeepsRevealed(m: Manager, a: Action, run: nat)
    requires Inv(m) && Revealed(m, run) && Enabled(m, a) && !Revokes(a) && !a.Terminate?
    ensures Revealed(Apply(m, a), run)
  {
  }

  /** What a worker publishes is revealed to every reader, from then on until it is taken back: by a stop, by the worker
      itself, or because its process is gone. */
  lemma {:induction false} RevealedUntilRevoked(ms: seq<Manager>, actions: seq<Action>, k: nat, l: nat)
    requires Run(ms, actions) && k < l < |ms| && actions[k].Publish? && !ms[k].exited
    requires forall i :: k < i < l ==> !Revokes(actions[i]) && !actions[i].Terminate?
    ensures Revealed(ms[l], ms[k].run)
    ensures EndpointConfig(ms[l]) == Some((ms[k].run, Some(ms[k].run)))
    decreases l
  {
    if k + 1 < l {
      RevealedUntilRevoked(ms, actions, k, l - 1);
      RunKeeps(ms, actions, l - 1);
      StepKeepsRevealed(ms[l - 1], actions[l - 1], ms[k].run);
    } else {
      RunKeeps(ms, actions, k);
    }
    RevealedIff(ms, actions, l);
  }

  /** Nothing is published and nothing can be until another worker is launched. */
  ghost predicate Quiet(m: Manager) {
    m.endpoint == None && m.key == None && !m.worker.Publishing? && (Alive(m.worker) ==> m.cancel)
  }

  lemma StepKeepsQuiet(m: Manager, a: Action)
    requires Inv(m) && Quiet(m) && Enabled(m, a) && !a.Launch?
    ensures Quiet(Apply(m, a))
  {
  }

  lemma {:induction false} QuietUntilLaunch(ms: seq<Manager>, actions: seq<Action>, k: nat, l: nat)
    requires Run(ms, actions) && k <= l < |ms| && Quiet(ms[k])
    requires forall i :: k <= i < l ==> !actions[i].Launch?
    ensures Quiet(ms[l])
    decreases l
  {
    if k < l {
      QuietUntilLaunch(ms, actions, k, l - 1);
      RunKeeps(ms, actions, l - 1);
      StepKeepsQuiet(ms[l - 1], actions[l - 1]);
    }
  }

  /** Once a stop has cleared the endpoint, even one that then reports its worker as still pending, no endpoint is
      revealed before another worker is launched: the cancelled worker can no longer publish. */
  lemma StopRevokesTheEndpoint(ms: seq<Manager>, actions: seq<Action>, k: nat, l: nat)
    requires Run(ms, actions) && k < l < |ms| && actions[k].ClearEndpoint?
    requires forall i :: k <= i < l ==> !actions[i].Launch?
    ensures ms[l].endpoint == None && ms[l].key == None && EndpointConfig(ms[l]) == None
  {
    RunKeeps(ms, actions, k);
    QuietUntilLaunch(ms, actions, k + 1, l);
  }

  ghost predicate Halted(m: Manager) {
    && !Alive(m.worker) && m.endpoint == None && m.key == None && m.status.Stopped?
    && !m.operation.Launching? && !StopPath(m.operation)
  }

  lemma StepKeepsHalted(m: Manager, a: Action)
    requires Inv(m) && Enabled(m, a) && !a.SetStarting? && !a.BeginStop?
    requires Halted(m) || a.StopDone?
    ensures Halted(Apply(m, a))
  {
  }

  /** When a stop returns "stopped" its worker has ended, and until a later start (or another stop) the status stays
      "stopped" and both endpoint and key stay empty. */
  lemma {:induction false} StoppedStaysStopped(ms: seq<Manager>, actions: seq<Action>, k: nat, l: nat)
    requires Run(ms, actions) && k < l < |ms| && actions[k].StopDone?
    requires forall i :: k <= i < l ==> !actions[i].SetStarting? && !actions[i].BeginStop?
    ensures Halted(ms[l])
    decreases l
  {
    RunKeeps(ms, actions, l - 1);
    if k + 1 < l {
      StoppedStaysStopped(ms, actions, k, l - 1);
    }
    StepKeepsHalted(ms[l - 1], actions[l - 1]);
  }
}
