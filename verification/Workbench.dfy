/** The sections of the workbench that run under its locks, as code, and the steps of the protocol each amounts to.

    A method here is one such section: nobody else moves while it runs, so its effect is that of its steps taken
    one after the other, which is what its contract says. The steps themselves, and what every interleaving of them
    keeps, are in JobSlot. */
module Workbench {
  import opened JobSlot

  predicate Two(s: State, a: Action, b: Action, t: State) {
    Enabled(s, a) && Enabled(Apply(s, a), b) && Apply(Apply(s, a), b) == t
  }

  predicate Three(s: State, a: Action, b: Action, c: Action, t: State) {
    Enabled(s, a) && Two(Apply(s, a), b, c, t)
  }

  lemma FilingRefused(s: State, i: nat)
    requires i < |s.clients| && s.lock.Free? && s.clients[i].pc.Holding? && StartsJob(s.clients[i].kind) && StopFlag(s)
    ensures Two(s, EnterRegister(i), CheckRegister(i),
                if s.clients[i].kind.Session? || s.clients[i].kind.Finding? then Release(At(s, i, Closed), i)
                else At(s, i, Unwinding))
  {
  }

  lemma FilingAdmitted(s: State, i: nat)
    requires i < |s.clients| && s.lock.Free? && s.clients[i].pc.Holding? && StartsJob(s.clients[i].kind) && !StopFlag(s)
    ensures var inside := At(s.(lock := By(i)), i, Registering);
            Enabled(s, EnterRegister(i)) && Two(s, EnterRegister(i), CheckRegister(i), inside)
  {
  }

  lemma FilingEnds(s: State, i: nat, full: bool)
    requires i < |s.clients| && s.lock.Free? && s.clients[i].pc.Holding? && StartsJob(s.clients[i].kind) && !StopFlag(s)
    requires !s.clients[i].kind.Tuning? && (full ==> !s.clients[i].kind.Session?)
    ensures Three(s, EnterRegister(i), CheckRegister(i), if full then RegistryFull(i) else Register(i),
                  if full then At(s, i, Unwinding) else At(s.(jobs := s.jobs + {i}), i, Registered))
  {
    FilingAdmitted(s, i);
  }

  lemma StartingRefused(s: State, i: nat)
    requires i < |s.clients| && s.lock.Free? && s.clients[i].pc.Registered? && StopFlag(s)
    ensures Two(s, EnterStart(i), CheckStart(i), At(s, i, Unwinding))
  {
  }

  lemma StartingAdmitted(s: State, i: nat)
    requires i < |s.clients| && s.lock.Free? && s.clients[i].pc.Registered? && !StopFlag(s)
    ensures var inside := At(s.(lock := By(i)), i, Starting);
            Enabled(s, EnterStart(i)) && Two(s, EnterStart(i), CheckStart(i), inside)
  {
  }

  lemma StartingEnds(s: State, i: nat, fails: bool)
    requires i < |s.clients| && s.lock.Free? && s.clients[i].pc.Registered? && !StopFlag(s)
    ensures Three(s, EnterStart(i), CheckStart(i), if fails then StartFails(i) else Start(i),
                  Put(s, i, if fails then s.clients[i].(pc := Unwinding, recorded := true)
                            else s.clients[i].(pc := Launched, life := Running, recorded := true)))
  {
    StartingAdmitted(s, i);
    StartingSucceeds(At(s.(lock := By(i)), i, Starting), i, fails);
  }

  /** The last step under the lock. */
  lemma StartingSucceeds(s: State, i: nat, fails: bool)
    requires i < |s.clients| && s.clients[i].pc.Starting?
    ensures var last := if fails then StartFails(i) else Start(i);
            && Enabled(s, last)
            && Apply(s, last) == Put(s.(lock := Free), i,
                                     if fails then s.clients[i].(pc := Unwinding, recorded := true)
                                     else s.clients[i].(pc := Launched, life := Running, recorded := true))
  {
  }

  lemma TunerRefused(s: State, i: nat, restoring: bool)
    requires i < |s.clients| && s.gate.Free? && s.clients[i].kind.Tuning? && s.clients[i].life.Running?
    requires StopFlag(s) || (!restoring && s.clients[i].cancelled)
    ensures Two(s, TunerEnter(i), TunerCheck(i, restoring), s)
  {
    assert s.clients[i := s.clients[i]] == s.clients;
  }

  lemma TunerStarted(s: State, i: nat, restoring: bool)
    requires i < |s.clients| && s.gate.Free? && s.clients[i].kind.Tuning? && s.clients[i].life.Running?
    requires !StopFlag(s) && (restoring || !s.clients[i].cancelled)
    ensures Three(s, TunerEnter(i), TunerCheck(i, restoring), TunerStart(i),
                  s.(runtimeOn := true, runtimeStarts := s.runtimeStarts + 1))
  {
    assert s.clients[i := s.clients[i]] == s.clients;
  }

  lemma TuningAdmitted(s: State, i: nat)
    requires i < |s.clients| && s.clients[i].pc.CheckingFlag? && s.clients[i].kind.Tuning? && !StopFlag(s)
    ensures Two(s, CheckRegister(i), Register(i), At(s.(jobs := s.jobs + {i}), i, Starting))
  {
  }

  lemma TuningFiled(s: State, i: nat, fails: bool)
    requires i < |s.clients| && s.lock.Free? && s.clients[i].pc.Holding? && s.clients[i].kind.Tuning? && !StopFlag(s)
    ensures Enabled(s, EnterRegister(i))
    ensures Three(Apply(s, EnterRegister(i)), CheckRegister(i), Register(i), if fails then StartFails(i) else Start(i),
                  Put(s.(jobs := s.jobs + {i}), i,
                      if fails then s.clients[i].(pc := Unwinding, recorded := true)
                      else s.clients[i].(pc := Launched, life := Running, recorded := true)))
  {
    var entered := At(s.(lock := By(i)), i, CheckingFlag);
    assert Apply(s, EnterRegister(i)) == entered;
    TuningAdmitted(entered, i);
    StartingSucceeds(At(entered.(jobs := s.jobs + {i}), i, Starting), i, fails);
  }

  lemma RuntimeStarted(s: State, i: nat)
    requires i < |s.clients| && s.gate.Free? && s.clients[i].pc.Admitted? && !StopFlag(s)
    ensures Three(s, RuntimeEnter(i), RuntimeCheck(i), RuntimeStart(i),
                  At(s.(runtimeOn := true, runtimeStarts := s.runtimeStarts + 1), i, Leaving))
  {
  }

  lemma RuntimeRefused(s: State, i: nat)
    requires i < |s.clients| && s.gate.Free? && s.clients[i].pc.Admitted? && StopFlag(s)
    ensures Two(s, RuntimeEnter(i), RuntimeCheck(i), At(s, i, Leaving))
  {
  }

  class Workbench {
    var clients: seq<Client>
    var slot: bool
    var jobs: set<nat>
    var phase: Phase
    var snapshot: set<nat>
    var runtimeOn: bool
    var runtimeStarts: nat
    var strayReleases: nat

    constructor (kinds: seq<Kind>)
      ensures Initial(Current()) && |clients| == |kinds| && forall i :: 0 <= i < |kinds| ==> clients[i].kind == kinds[i]
    {
      clients := seq(|kinds|, i requires 0 <= i < |kinds| => Client(kinds[i], Fresh, NotStarted, false, false, 0));
      slot, jobs, phase, snapshot, runtimeOn, runtimeStarts, strayReleases := false, {}, Serving, {}, false, 0, 0;
    }

    /** The state between sections: nobody holds the lock or the gate. */
    function Current(): State
      reads this
    {
      State(clients, slot, Free, Free, jobs, phase, snapshot, runtimeOn, runtimeStarts, strayReleases)
    }

    method Goto(i: nat, pc: Pc)
      requires i < |clients|
      modifies this`clients
      ensures clients == old(clients)[i := old(clients)[i].(pc := pc)]
    {
      clients := clients[i := clients[i].(pc := pc)];
    }

    method ReleaseSlot(i: nat)
      requires i < |clients|
      modifies this`clients, this`slot, this`strayReleases
      ensures Current() == Release(old(Current()), i)
    {
      strayReleases := strayReleases + (if slot then 0 else 1);
      slot := false;
      clients := clients[i := clients[i].(releases := clients[i].releases + 1)];
    }

    method TryAcquire(i: nat) returns (ok: bool)
      requires i < |clients| && clients[i].pc.Fresh?
      modifies this`clients, this`slot
      ensures ok == !old(slot)
      ensures Current() == Apply(old(Current()), Acquire(i))
    {
      ok := !slot;
      slot := true;
      Goto(i, if ok then Holding else Refused);
    }

    /** The first section of a session, finding or evaluation job; `full` if no finished row can be evicted. */
    method FileJob(i: nat, full: bool) returns (filed: bool)
      requires i < |clients| && clients[i].pc.Holding? && StartsJob(clients[i].kind) && !clients[i].kind.Tuning?
      requires full ==> !clients[i].kind.Session?
      modifies this
      ensures filed <==> old(phase).Serving? && !full
      ensures if old(phase).Serving?
              then Three(old(Current()), EnterRegister(i), CheckRegister(i), if full then RegistryFull(i) else Register(i),
                         Current())
              else Two(old(Current()), EnterRegister(i), CheckRegister(i), Current())
    {
      if !phase.Serving? {
        FilingRefused(Current(), i);
        if clients[i].kind.Evaluation? {
          Goto(i, Unwinding);
        } else {
          Goto(i, Closed);
          ReleaseSlot(i);
        }
        return false;
      }
      FilingEnds(Current(), i, full);
      if full {
        Goto(i, Unwinding);
        return false;
      }
      jobs := jobs + {i};
      Goto(i, Registered);
      return true;
    }

    /** The second section: starts the thread unless the stop flag has been set meanwhile; `fails` if starting raises. */
    method StartJob(i: nat, fails: bool) returns (started: bool)
      requires i < |clients| && clients[i].pc.Registered?
      modifies this`clients
      ensures started <==> phase.Serving? && !fails
      ensures if phase.Serving?
              then Three(old(Current()), EnterStart(i), CheckStart(i), if fails then StartFails(i) else Start(i), Current())
              else Two(old(Current()), EnterStart(i), CheckStart(i), Current())
    {
      if !phase.Serving? {
        StartingRefused(Current(), i);
        Goto(i, Unwinding);
        return false;
      }
      StartingEnds(Current(), i, fails);
      clients := clients[i := clients[i].(recorded := true)];
      if fails {
        Goto(i, Unwinding);
        return false;
      }
      clients := clients[i := clients[i].(pc := Launched, life := Running)];
      return true;
    }

    /** A tuning job is filed and started in one section. */
    method FileAndStart(i: nat, fails: bool) returns (started: bool)
      requires i < |clients| && clients[i].pc.Holding? && clients[i].kind.Tuning?
      modifies this
      ensures started <==> old(phase).Serving? && !fails
      ensures Enabled(old(Current()), EnterRegister(i))
      ensures if old(phase).Serving?
              then Three(Apply(old(Current()), EnterRegister(i)), CheckRegister(i), Register(i),
                         if fails then StartFails(i) else Start(i), Current())
              else Two(old(Current()), EnterRegister(i), CheckRegister(i), Current())
    {
      hide Apply, ClientApply, Two, Three;
      if !phase.Serving? {
        FilingRefused(Current(), i);
        Goto(i, Unwinding);
        return false;
      }
      TuningFiled(Current(), i, fails);
      jobs := jobs + {i};
      if fails {
        clients := clients[i := clients[i].(pc := Unwinding, recorded := true)];
      } else {
        clients := clients[i := clients[i].(pc := Launched, life := Running, recorded := true)];
      }
      return !fails;
    }

    /** The exception path: take the job out of the registry, then release the slot. */
    method Unwind(i: nat)
      requires i < |clients| && clients[i].pc.Unwinding?
      modifies this
      ensures Two(old(Current()), Unregister(i), ReleaseStarter(i), Current())
    {
      jobs := jobs - {i};
      Goto(i, Closed);
      ReleaseSlot(i);
    }

    /** The end of a job thread. */
    method EndThread(i: nat)
      requires i < |clients| && clients[i].life.Running?
      modifies this
      ensures Two(old(Current()), Deregister(i), ReleaseThread(i), Current())
    {
      jobs := jobs - {i};
      clients := clients[i := clients[i].(life := Ended)];
      ReleaseSlot(i);
    }

    /** The first look of the runtime start request at the stop flag. */
    method AdmitRuntime(i: nat) returns (admitted: bool)
      requires i < |clients| && clients[i].kind.StartRuntime? && clients[i].pc.Holding?
      modifies this`clients
      ensures admitted <==> phase.Serving?
      ensures |clients| == |old(clients)| && clients[i].pc == if admitted then Admitted else Leaving
      ensures Current() == Apply(old(Current()), RuntimeAdmit(i))
    {
      admitted := phase.Serving?;
      Goto(i, if admitted then Admitted else Leaving);
    }

    /** The end of a request that holds the slot itself. */
    method EndRequest(i: nat)
      requires i < |clients| && (clients[i].pc.Leaving? || (clients[i].pc.Holding? && clients[i].kind.Synchronous?))
      modifies this
      ensures !slot && Current() == Apply(old(Current()), Leave(i))
    {
      Goto(i, Closed);
      ReleaseSlot(i);
    }

    /** The gated part of the runtime start request. */
    method StartRuntime(i: nat) returns (started: bool)
      requires i < |clients| && clients[i].pc.Admitted?
      modifies this
      ensures started <==> old(phase).Serving?
      ensures if started then Three(old(Current()), RuntimeEnter(i), RuntimeCheck(i), RuntimeStart(i), Current())
              else Two(old(Current()), RuntimeEnter(i), RuntimeCheck(i), Current())
    {
      hide Enabled, Apply, Two, Three;
      started := phase.Serving?;
      if started {
        RuntimeStarted(Current(), i);
        runtimeOn, runtimeStarts := true, runtimeStarts + 1;
      } else {
        RuntimeRefused(Current(), i);
      }
      Goto(i, Leaving);
    }

    /** The tuner's start of a candidate, or of the settings to restore, which no cancellation stops. */
    method StartIfAllowed(i: nat, restoring: bool) returns (started: bool)
      requires i < |clients| && clients[i].kind.Tuning? && clients[i].life.Running?
      modifies this
      ensures started <==> old(phase).Serving? && (restoring || !old(clients)[i].cancelled)
      ensures if started then Three(old(Current()), TunerEnter(i), TunerCheck(i, restoring), TunerStart(i), Current())
              else Two(old(Current()), TunerEnter(i), TunerCheck(i, restoring), Current())
    {
      hide Enabled, Apply, Two, Three;
      if !phase.Serving? || (!restoring && clients[i].cancelled) {
        TunerRefused(Current(), i, restoring);
        return false;
      }
      TunerStarted(Current(), i, restoring);
      runtimeOn, runtimeStarts := true, runtimeStarts + 1;
      return true;
    }

    method BeginStopping()
      requires phase.Serving?
      modifies this`phase
      ensures Current() == Apply(old(Current()), SetStopping)
    {
      phase := Stopping;
    }

    /** Takes the list of registered jobs and sets the cancel event of each. */
    method CancelJobs()
      requires phase.Stopping? && forall i :: i in jobs ==> i < |clients|
      modifies this`phase, this`snapshot, this`clients
      ensures Current() == Apply(old(Current()), TakeSnapshot)
    {
      snapshot := jobs;
      phase := Drained;
      var left := jobs;
      while left != {}
        invariant left <= jobs && |clients| == |old(clients)| && phase == Drained && snapshot == jobs
        invariant forall i: nat :: i < |clients| ==>
          clients[i] == if i in jobs && i !in left then old(clients)[i].(cancelled := true) else old(clients)[i]
        decreases left
      {
        var i :| i in left;
        clients := clients[i := clients[i].(cancelled := true)];
        left := left - {i};
      }
      assert clients == Apply(old(Current()), TakeSnapshot).clients;
    }

    method StopRuntime()
      requires phase.Drained?
      modifies this`phase, this`runtimeOn
      ensures Current() == Apply(old(Current()), FinalStop)
    {
      phase, runtimeOn := RuntimeStopped, false;
    }
  }
}
