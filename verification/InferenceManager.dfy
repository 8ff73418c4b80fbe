/** The runtime manager's operations and its worker's locked sections, as code, and the steps each amounts to.

    A method is one section during which the manager's lock, or the exclusion of operations, keeps others out. The
    steps themselves, and what every interleaving of them keeps, are in RuntimeLifecycle. */
module InferenceManager {
  import opened Wrappers
  import opened RuntimeLifecycle

  class EmbeddedInferenceManager {
    var status: Status
    var endpoint: Option<nat>
    var key: Option<nat>
    var cancel: bool
    var run: nat
    var worker: Worker
    var hasProcess: bool
    var exited: bool
    var operation: Operation

    constructor ()
      ensures Initial(Current())
    {
      status, endpoint, key, cancel, run := Stopped, None, None, false, 0;
      worker, hasProcess, exited, operation := Absent, false, false, Idle;
    }

    /** The state while nobody is inside a locked section. */
    function Current(): Manager
      reads this
    {
      Manager(status, endpoint, key, cancel, false, run, worker, hasProcess, exited, operation)
    }

    method ReadTheStatus() returns (s: Status)
      modifies this`status, this`endpoint, this`key
      ensures Current() == Apply(old(Current()), ReadStatus) && s == status
    {
      if status.Running? && hasProcess && exited {
        status, endpoint, key := Error, None, None;
      }
      return status;
    }

    /** What a reader is told: nothing unless the server is running. */
    method RevealEndpoint() returns (r: Option<(nat, Option<nat>)>)
      modifies this`status, this`endpoint, this`key
      ensures Current() == Apply(old(Current()), ReadStatus)
      ensures r == RuntimeLifecycle.EndpointConfig(old(Current()))
      ensures Inv(old(Current())) && r.Some? ==> r.value == (run, Some(run)) && status.Running? && Alive(worker)
    {
      var s := ReadTheStatus();
      if !s.Running? || endpoint == None {
        return None;
      }
      return Some((endpoint.value, key));
    }

    /** The worker's locked section when the server has answered: publish, unless a stop has come first. */
    method PublishEndpoint() returns (published: bool)
      requires worker.Spawned?
      modifies this`status, this`endpoint, this`key, this`worker
      ensures published == !cancel
      ensures if published then Apply(Apply(old(Current()), CheckPublish), Publish) == Current()
              else Apply(old(Current()), CheckPublish) == Current()
    {
      if cancel {
        worker := Finishing(true);
        return false;
      }
      endpoint, key, status, worker := Some(run), Some(run), Running, Serving;
      return true;
    }

    /** A worker's failure is recorded unless it was asked to stop. */
    method RecordFailure()
      requires worker.Probing? || worker.Spawned? || worker.Serving?
      modifies this`status, this`worker
      ensures Current() == Apply(old(Current()), Fail)
    {
      if !cancel {
        status := Error;
      }
      worker := Finishing(!worker.Probing?);
    }

    /** The end of a worker: terminate the server, delete the key file, clear what was published. If the key file cannot
        be deleted nothing is cleared; the exited server is then noticed by the next reader. */
    method FinishWorker(terminated: bool, deleted: bool)
      requires worker.Finishing? && (terminated || worker.spawned)
      modifies this
      ensures var a := Apply(old(Current()), Terminate(terminated));
              var b := Apply(a, DeleteKeyFile(deleted));
              Current() == if deleted then Apply(Apply(b, Clear), End) else b
      ensures !Alive(worker) && (deleted ==> endpoint == None && key == None)
    {
      if terminated {
        exited := exited || worker.spawned;
      } else {
        status := Error;
      }
      worker := Ended;
      if !deleted {
        return;
      }
      endpoint, key, hasProcess := None, None, false;
      if cancel && !status.Error? {
        status := Stopped;
      }
    }

    /** The start operation up to the launch of a worker; `refused` if validation raises, `stuck` if the prefetch does. */
    method Start(refused: bool, stuck: bool) returns (launched: bool)
      requires operation.Idle? && !Alive(worker)
      modifies this
      ensures launched <==> !AfterStatus(old(Current())).status.Running? && !refused && !stuck
      ensures launched ==> Current() == Launched(old(Current()))
      ensures !launched ==>
                Current() == if AfterStatus(old(Current())).status.Running? || refused then AfterStatus(old(Current()))
                             else AfterStatus(old(Current())).(cancel := false)
      ensures Inv(old(Current())) ==> Inv(Current())
    {
      if Inv(Current()) {
        StartKeeps(Current(), refused, stuck);
      }
      var s := ReadTheStatus();
      if s.Running? || refused {
        return false;
      }
      cancel := false;
      if stuck {
        return false;
      }
      status := Starting;
      worker, run := Probing, run + 1;
      return true;
    }

    /** The stop operation until the worker is joined; `stuck` if the prefetch does not end. */
    method BeginStopping(stuck: bool) returns (joining: bool)
      requires operation.Idle?
      modifies this
      ensures joining == !stuck
      ensures var begun := Apply(old(Current()), BeginStop);
              Current() == if stuck then Apply(begun, PrefetchStuck) else Apply(Apply(begun, PrefetchReady), ClearEndpoint)
      ensures joining ==> endpoint == None && key == None && cancel
    {
      StopBegins(Current());
      hide Apply;
      cancel := true;
      if stuck {
        return false;
      }
      status, endpoint, key, operation := if status.Error? then Error else Stopping, None, None, Joining;
      return true;
    }

    /** The end of a stop: "stopped" only if the worker has ended. */
    method EndStopping() returns (s: Status)
      requires operation.Joining?
      modifies this`status, this`operation
      ensures Current() == Apply(old(Current()), if Alive(worker) then JoinTimesOut else StopDone)
      ensures s == status && (s.Stopped? <==> !Alive(worker))
      ensures Inv(old(Current())) && s.Stopped? ==> Halted(Current())
    {
      status := if Alive(worker) then Error else Stopped;
      operation := Idle;
      return status;
    }
  }

  /** A worker has been launched. */
  function Launched(m: Manager): Manager {
    AfterStatus(m).(cancel := false, status := Starting, worker := Probing, run := m.run + 1)
  }

  /** The first steps of a stop, taken together. */
  lemma StopBegins(m: Manager)
    requires m.operation.Idle? && !m.locked
    ensures Enabled(m, BeginStop)
    ensures var begun := Apply(m, BeginStop);
            && Enabled(begun, PrefetchStuck) && Apply(begun, PrefetchStuck) == m.(cancel := true)
            && Enabled(begun, PrefetchReady) && Enabled(Apply(begun, PrefetchReady), ClearEndpoint)
            && Apply(Apply(begun, PrefetchReady), ClearEndpoint)
               == m.(cancel := true, status := if m.status.Error? then Error else Stopping, endpoint := None, key := None,
                     operation := Joining)
  {
  }

  /** The steps of a start, taken together. */
  lemma StartKeeps(m: Manager, refused: bool, stuck: bool)
    requires Inv(m) && m.operation.Idle? && !m.locked && !Alive(m.worker)
    ensures Inv(AfterStatus(m))
    ensures !AfterStatus(m).status.Running? ==> Inv(AfterStatus(m).(cancel := false)) && Inv(Launched(m))
  {
    StepKeeps(m, BeginStart);
    if !AfterStatus(m).status.Running? {
      var validating := Apply(m, BeginStart);
      StepKeeps(validating, ClearCancel);
      var prefetching := Apply(validating, ClearCancel);
      StepKeeps(prefetching, PrefetchReady);
      var setting := Apply(prefetching, PrefetchReady);
      StepKeeps(setting, SetStarting);
      StepKeeps(Apply(setting, SetStarting), RuntimeLifecycle.Launch);
      assert Apply(Apply(setting, SetStarting), RuntimeLifecycle.Launch) == Launched(m);
    }
  }
}
